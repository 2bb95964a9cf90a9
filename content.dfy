/** The five constant content tables of the Ancient Tales adventure: the two
    seacoast questions, the eight crew members shown one by one, the five
    diving steps, the four pearl questions and the five ship-quiz questions.
    Image files are kept as their file names; resolving them is not modelled. */
module Content {

  /** A multiple-choice question: its prompt, the options the radio offers
      and the option that earns the point. */
  datatype Question = Question(prompt: string, options: seq<string>, answer: string)

  /** One crew introduction: a portrait file and the caption drawn on it. */
  datatype CrewMember = CrewMember(portrait: string, description: string)

  /** A pearl question is a question shown over a pearl picture. */
  datatype PearlQuestion = PearlQuestion(picture: string, question: Question)

  const KidQuestions: seq<Question> := [
    Question("Which game are they playing?",
             ["Tila", "Qubba", "Salam bil Aqaal", "Khosah Biboosah"], "Tila"),
    Question("And the second game?",
             ["Khosah Biboosah", "Tila", "Mawiyah", "Alghimayah"], "Khosah Biboosah")
  ]

  const Crew: seq<CrewMember> := [
    CrewMember("naukhada.png", "Naukhada - Leader of the ship."),
    CrewMember("ghais.png", "Ghais - Main pearl diver, strong and can hold breath for long periods."),
    CrewMember("seeb.png", "Seeb - Surface assistant, pulls diver up with rope."),
    CrewMember("naham.png", "Naham - Ship entertainer, sings 'Oh Ya Mal' for communication and motivation."),
    CrewMember("jallas.png", "Jallas -  Pearl inspector, opens oysters with a knife called Sakaria."),
    CrewMember("skuni.png", "Skuni - Helmsman, steers the ship per Naukhada's orders."),
    CrewMember("cook.png", "Tabakh - Responsible for food."),
    CrewMember("radif.png", "Radif - Assists Seeb with light tasks, learning the trade.")
  ]

  const DivingSteps: seq<string> := [
    "1. Diver places nose clip and holds rope tied to weight.",
    "2. Descends to sea bottom quickly with weight.",
    "3. Collects oysters and puts in basket.",
    "4. Seeb pulls diver up when air low.",
    "5. Diver rests and repeats dives."
  ]

  const PearlQuestions: seq<PearlQuestion> := [
    PearlQuestion("pearl1.png", Question("What is the knife used to open oysters called?",
                                         ["Sakaria", "Mafak", "Tasa"], "Sakaria")),
    PearlQuestion("pearl2.png", Question("Large white/pinkish pearl?",
                                         ["Danah", "Yaqooti", "Jiwan"], "Danah")),
    PearlQuestion("pearl3.png", Question("Smaller white shiny pearl?",
                                         ["Yaqooti", "Yika", "Mauz"], "Yaqooti")),
    PearlQuestion("pearl4.png", Question("Yellowish/blueish pearl?",
                                         ["Batniyah", "Qimashi", "Rasiyah"], "Qimashi"))
  ]

  const ShipQuestions: seq<Question> := [
    Question("What is the Naukhada's role?",
             ["Captain / Chief", "Main diver", "Assistant diver"], "Captain / Chief"),
    Question("What is Naham's role?",
             ["Motivator and singer", "Main diver", "Pearl inspector", "Cook"], "Motivator and singer"),
    Question("Who steers the ship?",
             ["Trainee", "Skuni", "Naham", "Seeb"], "Skuni"),
    Question("'Oh Ya Mal' is sung during\U{2026}",
             ["Pearl diving trips", "Fishing trips", "Exploration", "Short trips"], "Pearl diving trips"),
    Question("Why was 'Oh Ya Mal' sung?",
             ["Beauty of the sea", "Communication / morale", "No reason"], "Communication / morale")
  ]

  /** The designated answers of a list of questions, in order. */
  function AnswerKey(qs: seq<Question>): (key: seq<string>)
    ensures |key| == |qs|
    ensures forall i :: 0 <= i < |qs| ==> key[i] == qs[i].answer
  {
    if qs == [] then [] else [qs[0].answer] + AnswerKey(qs[1..])
  }

  /** The questions of a list of pearl questions, without their pictures. */
  function Questions(ps: seq<PearlQuestion>): (qs: seq<Question>)
    ensures |qs| == |ps|
    ensures forall i :: 0 <= i < |ps| ==> qs[i] == ps[i].question
  {
    if ps == [] then [] else [ps[0].question] + Questions(ps[1..])
  }

  const PearlAnswerKey: seq<string> := AnswerKey(Questions(PearlQuestions))

  const ShipAnswerKey: seq<string> := AnswerKey(ShipQuestions)

  /** A question whose designated answer is one of the options on its radio. */
  predicate Answerable(q: Question) {
    q.answer in q.options
  }

  /** Every question of every table can be answered correctly through its
      radio, and the tables have the sizes the scenes rely on. */
  lemma TablesWellFormed()
    ensures |KidQuestions| == 2 && |Crew| == 8 && |DivingSteps| == 5
    ensures |PearlQuestions| == 4 && |ShipQuestions| == 5
    ensures forall i :: 0 <= i < |KidQuestions| ==> Answerable(KidQuestions[i])
    ensures forall i :: 0 <= i < |PearlQuestions| ==> Answerable(PearlQuestions[i].question)
    ensures forall i :: 0 <= i < |ShipQuestions| ==> Answerable(ShipQuestions[i])
    ensures PearlAnswerKey == ["Sakaria", "Danah", "Yaqooti", "Qimashi"]
    ensures ShipAnswerKey == ["Captain / Chief", "Motivator and singer", "Skuni",
                              "Pearl diving trips", "Communication / morale"]
  {
  }
}
