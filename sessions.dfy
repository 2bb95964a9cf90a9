/** The live session: the nine session fields, updated in place by one
    method per button. Every method is proved to take the session exactly
    where Adventure.Step takes its snapshot, so the properties proved about
    Step in module Properties hold of the object. */
module Sessions {
  import opened Content
  import opened Adventure

  class Session {
    var page: Page
    var character: Option<Character>
    var score: nat
    var hearts: int
    var startTime: int
    var crewIndex: nat
    var divingStep: nat
    var pearlIndex: nat
    var shipQuestionIndex: nat

    /** The session's fields as a value. */
    function Snapshot(): State
      reads this
    {
      State(page, character, score, hearts, startTime,
            crewIndex, divingStep, pearlIndex, shipQuestionIndex)
    }

    /** The defaults of a new session; the start time is the clock reading at
        creation. */
    constructor (now: int)
      ensures Snapshot() == Initial(now)
      ensures Inv(Snapshot())
    {
      page := Menu;
      character := None;
      score := 0;
      hearts := FullHearts;
      startTime := now;
      crewIndex := 0;
      divingStep := 0;
      pearlIndex := 0;
      shipQuestionIndex := 0;
    }

    /** "Play as Nayhan" / "Play as Dhabia" on the menu. */
    method PlayAs(who: Character)
      modifies this
      ensures Snapshot() == Step(old(Snapshot()), Event.PlayAs(who))
    {
      if page == Menu {
        character := Some(who);
        page := Seacoast;
      }
    }

    /** "Submit Answer i+1" for seacoast question i, with the choice on that
        question's radio. The scene draws one button per question in a loop;
        only the pressed one compares its radio's choice with the answer. */
    method SubmitKidAnswer(question: nat, choice: string)
      modifies this
      ensures Snapshot() == Step(old(Snapshot()), Event.SubmitKidAnswer(question, choice))
    {
      if page == Seacoast {
        for i := 0 to |KidQuestions|
          invariant Snapshot() == old(Snapshot()).(
            score := if question < i && choice == KidQuestions[question].answer
                     then old(score) + 1 else old(score))
        {
          if i == question && choice == KidQuestions[i].answer {
            score := score + 1;
          }
        }
      }
    }

    /** "Proceed to Ship" on the seacoast. */
    method ProceedToShip()
      modifies this
      ensures Snapshot() == Step(old(Snapshot()), Event.ProceedToShip)
    {
      if page == Seacoast {
        page := ShipIntro;
      }
    }

    /** "Next" on the crew introduction or the diving steps; leaving the
        diving steps starts the pearl game's timer at now. */
    method Next(now: int)
      modifies this
      ensures Snapshot() == Step(old(Snapshot()), Event.Next(now))
    {
      if page == ShipIntro {
        if crewIndex < |Crew| - 1 {
          crewIndex := crewIndex + 1;
        } else {
          page := DivingProcess;
          divingStep := 0;
        }
      } else if page == DivingProcess {
        if divingStep < |DivingSteps| - 1 {
          divingStep := divingStep + 1;
        } else {
          page := PearlGame;
          startTime := now;
          hearts := FullHearts;
          pearlIndex := 0;
        }
      }
    }

    /** "Submit Answer" in the pearl game or the ship quiz, with the radio's
        choice; the cursor advances whether or not the choice is right. */
    method SubmitAnswer(choice: string)
      modifies this
      ensures Snapshot() == Step(old(Snapshot()), Event.SubmitAnswer(choice))
    {
      if page == PearlGame && pearlIndex < |PearlQuestions| {
        if choice == PearlQuestions[pearlIndex].question.answer {
          score := score + 1;
        }
        pearlIndex := pearlIndex + 1;
      } else if page == ShipQuiz && shipQuestionIndex < |ShipQuestions| {
        if choice == ShipQuestions[shipQuestionIndex].answer {
          score := score + 1;
        }
        shipQuestionIndex := shipQuestionIndex + 1;
      }
    }

    /** "Proceed to Ship Quiz", drawn once every pearl question is answered. */
    method ProceedToShipQuiz()
      modifies this
      ensures Snapshot() == Step(old(Snapshot()), Event.ProceedToShipQuiz)
    {
      if page == PearlGame && pearlIndex >= |PearlQuestions| {
        page := ShipQuiz;
        shipQuestionIndex := 0;
      }
    }

    /** "Finish Adventure", drawn once every ship question is answered. */
    method FinishAdventure()
      modifies this
      ensures Snapshot() == Step(old(Snapshot()), Event.FinishAdventure)
    {
      if page == ShipQuiz && shipQuestionIndex >= |ShipQuestions| {
        page := Summary;
      }
    }

    /** "Play Again" on the summary: every field back to its default except
        the start time. */
    method PlayAgain()
      modifies this
      ensures Snapshot() == Step(old(Snapshot()), Event.PlayAgain)
      ensures old(page) == Summary ==> Snapshot() == Initial(old(startTime))
    {
      if page == Summary {
        page := Menu;
        score := 0;
        hearts := FullHearts;
        character := None;
        crewIndex := 0;
        divingStep := 0;
        pearlIndex := 0;
        shipQuestionIndex := 0;
      }
    }

    /** One press of any button, handed to the method of that button. */
    method Press(e: Event)
      modifies this
      ensures Snapshot() == Step(old(Snapshot()), e)
      ensures old(Inv(Snapshot())) ==> Inv(Snapshot())
    {
      match e
      case PlayAs(who) => PlayAs(who);
      case SubmitKidAnswer(question, choice) => SubmitKidAnswer(question, choice);
      case ProceedToShip => ProceedToShip();
      case Next(now) => Next(now);
      case SubmitAnswer(choice) => SubmitAnswer(choice);
      case ProceedToShipQuiz => ProceedToShipQuiz();
      case FinishAdventure => FinishAdventure();
      case PlayAgain => PlayAgain();
    }
  }
}
