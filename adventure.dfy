/** The session state machine of the Ancient Tales adventure, as values: a
    session snapshot, the button events a player can press, and the total
    transition function Step that the Session class of module Sessions is
    proved to implement. An event whose button is not on the current page is
    a no-op, since only the current page's buttons are drawn. */
module Adventure {
  import opened Content

  datatype Page = Menu | Seacoast | ShipIntro | DivingProcess | PearlGame | ShipQuiz | Summary

  /** The two protagonists; the session stores them as "nayhan" and "dhabia". */
  datatype Character = Nayhan | Dhabia

  datatype Option<T> = None | Some(value: T)

  /** All session fields. Score and the four cursors are never negative in the
      program, so they are natural numbers here; the clock is whole seconds. */
  datatype State = State(
    page: Page,
    character: Option<Character>,
    score: nat,
    hearts: int,
    startTime: int,
    crewIndex: nat,
    divingStep: nat,
    pearlIndex: nat,
    shipQuestionIndex: nat)

  /** One button press. The radio's selected option travels with a submit
      button; the clock reading travels with "Next", the only button whose
      handler reads the clock. */
  datatype Event =
    | PlayAs(who: Character)
    | SubmitKidAnswer(question: nat, choice: string)
    | ProceedToShip
    | Next(now: int)
    | SubmitAnswer(choice: string)
    | ProceedToShipQuiz
    | FinishAdventure
    | PlayAgain

  const FullHearts: int := 4
  const TimeLimit: int := 120

  /** The session defaults, created with the clock reading of the first run:
      a reachable session on which only the character buttons are drawn. */
  function Initial(now: int): (r: State)
    ensures Inv(r) && r.startTime == now
    ensures forall e :: ButtonShown(r, e) <==> e.PlayAs?
  {
    State(Menu, None, 0, FullHearts, now, 0, 0, 0, 0)
  }

  /** The scene that follows each scene; the scene graph is one cycle. */
  function Successor(p: Page): Page {
    match p
    case Menu => Seacoast
    case Seacoast => ShipIntro
    case ShipIntro => DivingProcess
    case DivingProcess => PearlGame
    case PearlGame => ShipQuiz
    case ShipQuiz => Summary
    case Summary => Menu
  }

  /** Whether the button of e is drawn on the page of s. The two pearl and
      quiz buttons depend on whether the cursor has reached the table's end. */
  predicate ButtonShown(s: State, e: Event)
  {
    match s.page
    case Menu => e.PlayAs?
    case Seacoast => (e.SubmitKidAnswer? && e.question < |KidQuestions|) || e.ProceedToShip?
    case ShipIntro => e.Next?
    case DivingProcess => e.Next?
    case PearlGame =>
      if s.pearlIndex < |PearlQuestions| then e.SubmitAnswer? else e.ProceedToShipQuiz?
    case ShipQuiz =>
      if s.shipQuestionIndex < |ShipQuestions| then e.SubmitAnswer? else e.FinishAdventure?
    case Summary => e.PlayAgain?
  }

  /** e is a submit button drawn on the page of s. */
  predicate IsShownSubmit(s: State, e: Event) {
    ButtonShown(s, e) && (e.SubmitKidAnswer? || e.SubmitAnswer?)
  }

  /** The designated answer of the question a shown submit button belongs to. */
  function QuestionAnswer(s: State, e: Event): string
    requires IsShownSubmit(s, e)
  {
    if e.SubmitKidAnswer? then KidQuestions[e.question].answer
    else if s.page == PearlGame then PearlQuestions[s.pearlIndex].question.answer
    else ShipQuestions[s.shipQuestionIndex].answer
  }

  /** e earns a point: a shown submit whose choice is exactly the answer. */
  predicate EarnsPoint(s: State, e: Event) {
    IsShownSubmit(s, e) && e.choice == QuestionAnswer(s, e)
  }

  /** Which cursors a page has already used up and which it has not yet
      touched, as the linear walk leaves them. */
  predicate PhaseCursors(s: State) {
    match s.page
    case Menu | Seacoast =>
      s.crewIndex == 0 && s.divingStep == 0 && s.pearlIndex == 0 && s.shipQuestionIndex == 0
    case ShipIntro =>
      s.divingStep == 0 && s.pearlIndex == 0 && s.shipQuestionIndex == 0
    case DivingProcess =>
      s.crewIndex == |Crew| - 1 && s.pearlIndex == 0 && s.shipQuestionIndex == 0
    case PearlGame =>
      s.crewIndex == |Crew| - 1 && s.divingStep == |DivingSteps| - 1 && s.shipQuestionIndex == 0
    case ShipQuiz =>
      s.crewIndex == |Crew| - 1 && s.divingStep == |DivingSteps| - 1
      && s.pearlIndex == |PearlQuestions|
    case Summary =>
      s.crewIndex == |Crew| - 1 && s.divingStep == |DivingSteps| - 1
      && s.pearlIndex == |PearlQuestions| && s.shipQuestionIndex == |ShipQuestions|
  }

  /** The invariant of every reachable session: hearts stay full, a
      character is chosen exactly when the menu is left, the menu shows score
      0, every cursor is within its table, and the cursors agree with the page. */
  predicate Inv(s: State) {
    s.hearts == FullHearts
    && (s.character.None? <==> s.page == Menu)
    && (s.page == Menu ==> s.score == 0)
    && s.crewIndex < |Crew|
    && s.divingStep < |DivingSteps|
    && s.pearlIndex <= |PearlQuestions|
    && s.shipQuestionIndex <= |ShipQuestions|
    && PhaseCursors(s)
  }

  /** What one button press does to the session. */
  function Step(s: State, e: Event): (r: State)
    // a button that is not drawn does nothing; a drawn one changes the
    // session unless it is a wrong seacoast answer
    ensures r == s <==> !ButtonShown(s, e) || (e.SubmitKidAnswer? && !EarnsPoint(s, e))
    // one point per correct submit, none otherwise; only Play Again lowers it
    ensures r.score == if s.page == Summary && e.PlayAgain? then 0
                       else if EarnsPoint(s, e) then s.score + 1 else s.score
    // the scene either stays or moves one step along the cycle
    ensures r.page == s.page || r.page == Successor(s.page)
    ensures Inv(s) ==> Inv(r)
  {
    match s.page
    case Menu =>
      if e.PlayAs? then s.(character := Some(e.who), page := Seacoast) else s
    case Seacoast =>
      if e.SubmitKidAnswer? then
        if e.question < |KidQuestions| && e.choice == KidQuestions[e.question].answer
        then s.(score := s.score + 1) else s
      else if e.ProceedToShip? then s.(page := ShipIntro)
      else s
    case ShipIntro =>
      if !e.Next? then s
      else if s.crewIndex < |Crew| - 1 then s.(crewIndex := s.crewIndex + 1)
      else s.(page := DivingProcess, divingStep := 0)
    case DivingProcess =>
      if !e.Next? then s
      else if s.divingStep < |DivingSteps| - 1 then s.(divingStep := s.divingStep + 1)
      else s.(page := PearlGame, startTime := e.now, hearts := FullHearts, pearlIndex := 0)
    case PearlGame =>
      if s.pearlIndex < |PearlQuestions| then
        if e.SubmitAnswer? then
          s.(score := if e.choice == PearlQuestions[s.pearlIndex].question.answer
                      then s.score + 1 else s.score,
             pearlIndex := s.pearlIndex + 1)
        else s
      else if e.ProceedToShipQuiz? then s.(page := ShipQuiz, shipQuestionIndex := 0)
      else s
    case ShipQuiz =>
      if s.shipQuestionIndex < |ShipQuestions| then
        if e.SubmitAnswer? then
          s.(score := if e.choice == ShipQuestions[s.shipQuestionIndex].answer
                      then s.score + 1 else s.score,
             shipQuestionIndex := s.shipQuestionIndex + 1)
        else s
      else if e.FinishAdventure? then s.(page := Summary)
      else s
    case Summary =>
      if e.PlayAgain? then
        s.(page := Menu, score := 0, hearts := FullHearts, character := None,
           crewIndex := 0, divingStep := 0, pearlIndex := 0, shipQuestionIndex := 0)
      else s
  }

  /** The session after pressing the buttons of es in order. */
  function Run(s: State, es: seq<Event>): State
    decreases |es|
  {
    if es == [] then s else Run(Step(s, es[0]), es[1..])
  }

  /** Seconds left in the pearl game after elapsed seconds: 120 minus the
      elapsed time, clamped at 0. */
  function Remaining(elapsed: int): (r: int)
    ensures r >= 0 && r >= TimeLimit - elapsed
    ensures r == 0 || r == TimeLimit - elapsed
    ensures elapsed >= 0 ==> r <= TimeLimit
  {
    if TimeLimit - elapsed > 0 then TimeLimit - elapsed else 0
  }

  /** The remaining time shown on the pearl page at clock reading now. */
  function RemainingTime(s: State, now: int): (r: int)
    // the seconds left until start_time + 120, never below 0
    ensures r >= 0
    ensures now <= s.startTime + TimeLimit ==> r == s.startTime + TimeLimit - now
    ensures now >= s.startTime + TimeLimit ==> r == 0
    ensures s.startTime <= now ==> r <= TimeLimit
  {
    Remaining(now - s.startTime)
  }
}
