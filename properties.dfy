/** Properties of the adventure's transition function: the invariant of
    reachable sessions, the scoring rule, the linear walks through the crew,
    the diving steps and the two quizzes, the full correct playthrough and
    the reset done by Play Again. */
module Properties {
  import opened Content
  import opened Adventure

  /** n presses of "Next", all at clock reading now. */
  function Nexts(n: nat, now: int): seq<Event> {
    if n == 0 then [] else [Next(now)] + Nexts(n - 1, now)
  }

  /** One "Submit Answer" press per choice, in order. */
  function Submits(choices: seq<string>): seq<Event> {
    if choices == [] then [] else [SubmitAnswer(choices[0])] + Submits(choices[1..])
  }

  /** How many choices equal the answer at the same position. */
  function Matches(answers: seq<string>, choices: seq<string>): (n: nat)
    requires |answers| == |choices|
    ensures n <= |answers|
    ensures n == |answers| <==> answers == choices
  {
    if answers == [] then 0
    else (if answers[0] == choices[0] then 1 else 0) + Matches(answers[1..], choices[1..])
  }

  /** Matches of non-empty lists: the first position, then the rest. */
  lemma MatchesCons(answers: seq<string>, choices: seq<string>)
    requires |answers| == |choices| > 0
    ensures Matches(answers, choices)
            == (if answers[0] == choices[0] then 1 else 0) + Matches(answers[1..], choices[1..])
  {
  }

  /** The suffix of a list from k starts with its k-th entry. */
  lemma SuffixCons(key: seq<string>, k: nat)
    requires k < |key|
    ensures key[k..][0] == key[k] && key[k..][1..] == key[k + 1..]
  {
  }

  lemma InitialInv(now: int)
    ensures Inv(Initial(now))
    ensures Initial(now).page == Menu && Initial(now).character == None
    ensures Initial(now).score == 0 && Initial(now).hearts == 4
    ensures Initial(now).crewIndex == 0 && Initial(now).divingStep == 0
    ensures Initial(now).pearlIndex == 0 && Initial(now).shipQuestionIndex == 0
  {
  }

  /** Running a concatenation is running its parts one after the other. */
  lemma {:induction false} RunAppend(s: State, a: seq<Event>, b: seq<Event>)
    ensures Run(s, a + b) == Run(Run(s, a), b)
    decreases |a|
  {
    if a == [] {
      assert a + b == b;
    } else {
      assert (a + b)[0] == a[0];
      assert (a + b)[1..] == a[1..] + b;
      RunAppend(Step(s, a[0]), a[1..], b);
    }
  }

  /** Every press keeps the invariant, so every session reached from the
      defaults satisfies it. */
  lemma {:induction false} RunInv(s: State, es: seq<Event>)
    requires Inv(s)
    ensures Inv(Run(s, es))
    decreases |es|
  {
    if es != [] {
      RunInv(Step(s, es[0]), es[1..]);
    }
  }

  /** In every reachable session hearts are full and the cursors are within
      their tables. */
  lemma Reachable(now: int, es: seq<Event>)
    ensures var r := Run(Initial(now), es);
      r.hearts == 4 && r.crewIndex < 8 && r.divingStep < 5
      && r.pearlIndex <= 4 && r.shipQuestionIndex <= 5
  {
    InitialInv(now);
    RunInv(Initial(now), es);
  }

  /** Without Play Again the score never decreases, and it grows by at most
      one per press. */
  lemma {:induction false} ScoreMonotone(s: State, es: seq<Event>)
    requires forall i :: 0 <= i < |es| ==> !es[i].PlayAgain?
    ensures s.score <= Run(s, es).score <= s.score + |es|
    decreases |es|
  {
    if es != [] {
      ScoreMonotone(Step(s, es[0]), es[1..]);
    }
  }

  /** Without Play Again no cursor ever moves back. The three resets to 0 in
      the program (entering the diving steps, the pearl game and the ship
      quiz) hit only cursors the invariant still holds at 0. */
  lemma StepCursorsMonotone(s: State, e: Event)
    requires Inv(s) && !e.PlayAgain?
    ensures var r := Step(s, e);
      s.crewIndex <= r.crewIndex && s.divingStep <= r.divingStep
      && s.pearlIndex <= r.pearlIndex && s.shipQuestionIndex <= r.shipQuestionIndex
  {
  }

  /** The cursors never decrease over any sequence of presses without Play
      Again, from any session that satisfies the invariant. */
  lemma {:induction false} RunCursorsMonotone(s: State, es: seq<Event>)
    requires Inv(s)
    requires forall i :: 0 <= i < |es| ==> !es[i].PlayAgain?
    ensures var r := Run(s, es);
      s.crewIndex <= r.crewIndex && s.divingStep <= r.divingStep
      && s.pearlIndex <= r.pearlIndex && s.shipQuestionIndex <= r.shipQuestionIndex
    decreases |es|
  {
    if es != [] {
      StepCursorsMonotone(s, es[0]);
      RunCursorsMonotone(Step(s, es[0]), es[1..]);
    }
  }

  /** A menu button sets the character, moves to the seacoast and changes
      nothing else. */
  lemma MenuSelection(s: State, c: Character)
    requires s.page == Menu
    ensures Step(s, PlayAs(c)) == s.(character := Some(c), page := Seacoast)
  {
  }

  /** A seacoast submit never changes the page or a cursor, so it can be
      pressed again: n correct submissions of one question earn n points. */
  lemma {:induction false} SeacoastResubmit(s: State, i: nat, n: nat)
    requires s.page == Seacoast && i < |KidQuestions|
    ensures Run(s, seq(n, _ => SubmitKidAnswer(i, KidQuestions[i].answer)))
            == s.(score := s.score + n)
    decreases n
  {
    var e := SubmitKidAnswer(i, KidQuestions[i].answer);
    if n > 0 {
      var es := seq(n, _ => e);
      assert es[0] == e;
      assert es[1..] == seq(n - 1, _ => e);
      SeacoastResubmit(s.(score := s.score + 1), i, n - 1);
    }
  }

  /** In the two quizzes a shown submit advances its cursor by exactly one,
      right or wrong. */
  lemma SubmitAdvances(s: State, choice: string)
    requires ButtonShown(s, SubmitAnswer(choice))
    ensures var r := Step(s, SubmitAnswer(choice));
      r.page == s.page
      && (s.page == PearlGame ==> r.pearlIndex == s.pearlIndex + 1
                                  && r.shipQuestionIndex == s.shipQuestionIndex)
      && (s.page == ShipQuiz ==> r.shipQuestionIndex == s.shipQuestionIndex + 1
                                 && r.pearlIndex == s.pearlIndex)
  {
  }

  /** Once a quiz cursor reaches its table's end, submitting does nothing. */
  lemma ExhaustedSubmitIsNoOp(s: State, choice: string)
    requires (s.page == PearlGame && s.pearlIndex >= |PearlQuestions|)
          || (s.page == ShipQuiz && s.shipQuestionIndex >= |ShipQuestions|)
    ensures Step(s, SubmitAnswer(choice)) == s
  {
  }

  /** From crew entry k, 8 - k presses of "Next" reach the diving process at
      its first step, leaving the crew cursor at the last entry. */
  lemma {:induction false} CrewWalk(s: State, now: int)
    requires s.page == ShipIntro && s.crewIndex < |Crew|
    ensures Run(s, Nexts(|Crew| - s.crewIndex, now))
            == s.(page := DivingProcess, crewIndex := |Crew| - 1, divingStep := 0)
    decreases |Crew| - s.crewIndex
  {
    var es := Nexts(|Crew| - s.crewIndex, now);
    assert es[0] == Next(now) && es[1..] == Nexts(|Crew| - s.crewIndex - 1, now);
    if s.crewIndex < |Crew| - 1 {
      CrewWalk(s.(crewIndex := s.crewIndex + 1), now);
    }
  }

  /** From diving step k, 5 - k presses of "Next" reach the pearl game with
      full hearts, the first pearl question and the timer started at now. */
  lemma {:induction false} DivingWalk(s: State, now: int)
    requires s.page == DivingProcess && s.divingStep < |DivingSteps|
    ensures Run(s, Nexts(|DivingSteps| - s.divingStep, now))
            == s.(page := PearlGame, divingStep := |DivingSteps| - 1, hearts := 4,
                  pearlIndex := 0, startTime := now)
    decreases |DivingSteps| - s.divingStep
  {
    var es := Nexts(|DivingSteps| - s.divingStep, now);
    assert es[0] == Next(now) && es[1..] == Nexts(|DivingSteps| - s.divingStep - 1, now);
    if s.divingStep < |DivingSteps| - 1 {
      DivingWalk(s.(divingStep := s.divingStep + 1), now);
    }
  }

  /** One pearl submit: a point exactly for the key's answer, and the next
      question. */
  lemma PearlSubmitStep(s: State, choice: string)
    requires s.page == PearlGame && s.pearlIndex < |PearlQuestions|
    ensures Step(s, SubmitAnswer(choice))
            == s.(score := if choice == PearlAnswerKey[s.pearlIndex] then s.score + 1 else s.score,
                  pearlIndex := s.pearlIndex + 1)
  {
  }

  /** One ship-quiz submit: a point exactly for the key's answer, and the
      next question. */
  lemma ShipSubmitStep(s: State, choice: string)
    requires s.page == ShipQuiz && s.shipQuestionIndex < |ShipQuestions|
    ensures Step(s, SubmitAnswer(choice))
            == s.(score := if choice == ShipAnswerKey[s.shipQuestionIndex] then s.score + 1 else s.score,
                  shipQuestionIndex := s.shipQuestionIndex + 1)
  {
  }

  /** A run of submits is its first press followed by the rest. */
  lemma RunSubmits(s: State, choices: seq<string>)
    requires choices != []
    ensures Run(s, Submits(choices)) == Run(Step(s, SubmitAnswer(choices[0])), Submits(choices[1..]))
  {
    var es := Submits(choices);
    assert es[0] == SubmitAnswer(choices[0]) && es[1..] == Submits(choices[1..]);
  }

  /** The first pearl submit of a run, as PearlSubmitStep gives it. */
  lemma PearlSubmitRun(s: State, choices: seq<string>)
    requires s.page == PearlGame && s.pearlIndex < |PearlQuestions| && choices != []
    ensures Run(s, Submits(choices))
            == Run(s.(score := if choices[0] == PearlAnswerKey[s.pearlIndex] then s.score + 1 else s.score,
                      pearlIndex := s.pearlIndex + 1), Submits(choices[1..]))
  {
    PearlSubmitStep(s, choices[0]);
    RunSubmits(s, choices);
  }

  /** The first ship-quiz submit of a run, as ShipSubmitStep gives it. */
  lemma ShipSubmitRun(s: State, choices: seq<string>)
    requires s.page == ShipQuiz && s.shipQuestionIndex < |ShipQuestions| && choices != []
    ensures Run(s, Submits(choices))
            == Run(s.(score := if choices[0] == ShipAnswerKey[s.shipQuestionIndex] then s.score + 1 else s.score,
                      shipQuestionIndex := s.shipQuestionIndex + 1), Submits(choices[1..]))
  {
    ShipSubmitStep(s, choices[0]);
    RunSubmits(s, choices);
  }

  /** Answering the remaining pearl questions exhausts the cursor and adds one
      point per choice that matches the answer key. */
  lemma {:induction false} PearlWalk(s: State, choices: seq<string>)
    requires s.page == PearlGame && s.pearlIndex <= |PearlQuestions|
    requires |choices| == |PearlQuestions| - s.pearlIndex
    ensures Run(s, Submits(choices))
            == s.(pearlIndex := |PearlQuestions|,
                  score := s.score + Matches(PearlAnswerKey[s.pearlIndex..], choices))
    decreases |choices|
  {
    if choices != [] {
      var k := s.pearlIndex;
      var key := PearlAnswerKey[k..];
      var point := if choices[0] == PearlAnswerKey[k] then 1 else 0;
      SuffixCons(PearlAnswerKey, k);
      MatchesCons(key, choices);
      var next := s.(score := s.score + point, pearlIndex := k + 1);
      PearlSubmitRun(s, choices);
      PearlWalk(next, choices[1..]);
      assert Run(s, Submits(choices)) == Run(next, Submits(choices[1..]));
    } else {
      assert PearlAnswerKey[s.pearlIndex..] == [];
    }
  }

  /** Answering the remaining ship questions exhausts the cursor and adds one
      point per choice that matches the answer key. */
  lemma {:induction false} ShipWalk(s: State, choices: seq<string>)
    requires s.page == ShipQuiz && s.shipQuestionIndex <= |ShipQuestions|
    requires |choices| == |ShipQuestions| - s.shipQuestionIndex
    ensures Run(s, Submits(choices))
            == s.(shipQuestionIndex := |ShipQuestions|,
                  score := s.score + Matches(ShipAnswerKey[s.shipQuestionIndex..], choices))
    decreases |choices|
  {
    if choices != [] {
      var k := s.shipQuestionIndex;
      var key := ShipAnswerKey[k..];
      var point := if choices[0] == ShipAnswerKey[k] then 1 else 0;
      SuffixCons(ShipAnswerKey, k);
      MatchesCons(key, choices);
      var next := s.(score := s.score + point, shipQuestionIndex := k + 1);
      ShipSubmitRun(s, choices);
      ShipWalk(next, choices[1..]);
      assert Run(s, Submits(choices)) == Run(next, Submits(choices[1..]));
    } else {
      assert ShipAnswerKey[s.shipQuestionIndex..] == [];
    }
  }

  /** Answering the first pearl question correctly and the second wrongly
      earns one point and leaves the cursor at 2. */
  lemma MixedPearlAnswers(s: State, wrong: string)
    requires s.page == PearlGame && s.pearlIndex == 0
    requires wrong != PearlQuestions[1].question.answer
    ensures Run(s, [SubmitAnswer("Sakaria"), SubmitAnswer(wrong)])
            == s.(score := s.score + 1, pearlIndex := 2)
  {
    var es := [SubmitAnswer("Sakaria"), SubmitAnswer(wrong)];
    var s1 := s.(score := s.score + 1, pearlIndex := 1);
    var s2 := s1.(pearlIndex := 2);
    assert es[1..] == [SubmitAnswer(wrong)] && es[1..][1..] == [];
    assert Step(s, es[0]) == s1;
    assert Step(s1, es[1..][0]) == s2;
    assert Run(s, es) == Run(s1, es[1..]) == Run(s2, es[1..][1..]) == s2;
  }

  /** Every button belongs to its own page, or for "Next" and "Submit
      Answer" to its pair of pages; the two end-of-quiz buttons replace the
      quiz's submit once its table is used up. */
  lemma ButtonPages(s: State, e: Event)
    requires ButtonShown(s, e)
    ensures e.PlayAs? <==> s.page == Menu
    ensures e.SubmitKidAnswer? || e.ProceedToShip? <==> s.page == Seacoast
    ensures e.Next? <==> s.page == ShipIntro || s.page == DivingProcess
    ensures e.SubmitAnswer? <==> (s.page == PearlGame && s.pearlIndex < |PearlQuestions|)
                                 || (s.page == ShipQuiz && s.shipQuestionIndex < |ShipQuestions|)
    ensures e.ProceedToShipQuiz? <==> s.page == PearlGame && s.pearlIndex >= |PearlQuestions|
    ensures e.FinishAdventure? <==> s.page == ShipQuiz && s.shipQuestionIndex >= |ShipQuestions|
    ensures e.PlayAgain? <==> s.page == Summary
  {
  }

  /** No page is a dead end: some drawn button always changes the session. */
  lemma NoDeadEnd(s: State)
    ensures exists e :: ButtonShown(s, e) && Step(s, e) != s
  {
    var e := match s.page
      case Menu => PlayAs(Nayhan)
      case Seacoast => ProceedToShip
      case ShipIntro => Next(0)
      case DivingProcess => Next(0)
      case PearlGame =>
        if s.pearlIndex < |PearlQuestions| then SubmitAnswer("") else ProceedToShipQuiz
      case ShipQuiz =>
        if s.shipQuestionIndex < |ShipQuestions| then SubmitAnswer("") else FinishAdventure
      case Summary => PlayAgain;
    assert ButtonShown(s, e) && Step(s, e) != s;
  }

  /** The menu choice and one correct answer to each seacoast question. */
  function PerfectOpening(c: Character): seq<Event> {
    [PlayAs(c),
     SubmitKidAnswer(0, KidQuestions[0].answer),
     SubmitKidAnswer(1, KidQuestions[1].answer),
     ProceedToShip]
  }

  /** Both quizzes answered correctly, each followed by its proceed button. */
  function PerfectQuizzes(): seq<Event> {
    Submits(PearlAnswerKey) + [ProceedToShipQuiz] + Submits(ShipAnswerKey) + [FinishAdventure]
  }

  /** The presses of a playthrough in which every question is answered once
      and correctly; the last "Next" of the diving steps happens at now. */
  function PerfectPlaythrough(c: Character, now: int): seq<Event> {
    PerfectOpening(c) + Nexts(|Crew|, now) + Nexts(|DivingSteps|, now) + PerfectQuizzes()
  }

  /** The opening reaches the ship with the two seacoast points. */
  lemma PerfectOpeningScore(c: Character, start: int)
    ensures Run(Initial(start), PerfectOpening(c))
            == State(ShipIntro, Some(c), 2, 4, start, 0, 0, 0, 0)
  {
    var opening := PerfectOpening(c);
    var a1 := State(Seacoast, Some(c), 0, 4, start, 0, 0, 0, 0);
    var a2 := a1.(score := 1);
    var a3 := a1.(score := 2);
    assert Step(Initial(start), opening[0]) == a1 && Step(a1, opening[1]) == a2;
    assert Step(a2, opening[2]) == a3 && Step(a3, opening[3]) == a3.(page := ShipIntro);
    assert opening[1..][1..][1..][1..] == [];
    assert Run(Initial(start), opening) == Run(a1, opening[1..]) == Run(a2, opening[1..][1..])
           == Run(a3, opening[1..][1..][1..]) == a3.(page := ShipIntro);
  }

  /** Answering all pearl questions correctly from the first one and
      proceeding earns 4 points and reaches the ship quiz. */
  lemma PerfectPearlsScore(s: State)
    requires s.page == PearlGame && s.pearlIndex == 0 && s.shipQuestionIndex == 0
    ensures Run(s, Submits(PearlAnswerKey) + [ProceedToShipQuiz])
            == s.(page := ShipQuiz, pearlIndex := 4, score := s.score + 4)
  {
    assert |PearlAnswerKey| == 4;
    assert Matches(PearlAnswerKey, PearlAnswerKey) == 4;
    PearlWalk(s, PearlAnswerKey);
    RunAppend(s, Submits(PearlAnswerKey), [ProceedToShipQuiz]);
  }

  /** Answering all pearl and ship questions correctly from the first pearl
      question earns 4 + 5 points and reaches the summary. */
  lemma PerfectQuizzesScore(s: State)
    requires s.page == PearlGame && s.pearlIndex == 0 && s.shipQuestionIndex == 0
    ensures Run(s, PerfectQuizzes())
            == s.(page := Summary, pearlIndex := 4, shipQuestionIndex := 5, score := s.score + 9)
  {
    var pearls := Submits(PearlAnswerKey) + [ProceedToShipQuiz];
    var ship := Submits(ShipAnswerKey);

    var s2 := s.(page := ShipQuiz, pearlIndex := 4, score := s.score + 4);
    PerfectPearlsScore(s);

    var s3 := s2.(shipQuestionIndex := 5, score := s.score + 9);
    assert Matches(ShipAnswerKey, ShipAnswerKey) == 5;
    ShipWalk(s2, ShipAnswerKey);
    RunAppend(s, pearls, ship);
    assert Run(s, pearls + ship) == s3;

    RunAppend(s, pearls + ship, [FinishAdventure]);
  }

  /** The perfect playthrough reaches the summary with 2 + 4 + 5 = 11 points,
      the character kept and the timer started at the end of the diving
      steps; Play Again then restores the defaults with that start time. */
  lemma PerfectScore(c: Character, start: int, now: int)
    ensures var r := Run(Initial(start), PerfectPlaythrough(c, now));
      r == State(Summary, Some(c), 11, 4, now, 7, 4, 4, 5)
      && Step(r, PlayAgain) == Initial(now)
  {
    var s0 := Initial(start);
    var p1 := PerfectOpening(c);
    var s1 := State(ShipIntro, Some(c), 2, 4, start, 0, 0, 0, 0);
    PerfectOpeningScore(c, start);

    var p2 := p1 + Nexts(|Crew|, now);
    var s2 := s1.(page := DivingProcess, crewIndex := 7, divingStep := 0);
    CrewWalk(s1, now);
    RunAppend(s0, p1, Nexts(|Crew|, now));
    assert Run(s0, p2) == s2;

    var p3 := p2 + Nexts(|DivingSteps|, now);
    var s3 := s2.(page := PearlGame, divingStep := 4, startTime := now);
    DivingWalk(s2, now);
    RunAppend(s0, p2, Nexts(|DivingSteps|, now));
    assert Run(s0, p3) == s3;

    PerfectQuizzesScore(s3);
    RunAppend(s0, p3, PerfectQuizzes());
  }

  /** Play Again restores every default except the start time. */
  lemma PlayAgainResets(s: State)
    requires s.page == Summary
    ensures Step(s, PlayAgain) == Initial(s.startTime)
  {
  }

  /** The timer shows 90 after 30 seconds and 0, not a negative number,
      after 200. */
  lemma TimerScenarios(s: State, now: int)
    requires s.startTime == now - 30 || s.startTime == now - 200
    ensures RemainingTime(s, now) == if s.startTime == now - 30 then 90 else 0
  {
  }
}
