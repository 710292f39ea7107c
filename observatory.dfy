/** The Quantum & Gravity Observatory: four two-way questions per domain, an
    eight-way quantum type read off three axes, a six-way gravity type chosen
    by ordered rules, and the quiz state (domain, step, answers). */
module Observatory {
  import opened Prelude
  import opened Text

  datatype Domain = Quantum | Gravity

  datatype Answer = A | B

  /** The question ids `Q1`..`Q4` and `G1`..`G4`. */
  datatype QuestionId = Q1 | Q2 | Q3 | Q4 | G1 | G2 | G3 | G4

  /** The answers record, keyed by question id. */
  type Answers = map<QuestionId, Answer>

  /** The ids of a domain's questions, in their order. */
  function Questions(d: Domain): (r: seq<QuestionId>)
    ensures |r| == 4
  {
    match d
    case Quantum => [Q1, Q2, Q3, Q4]
    case Gravity => [G1, G2, G3, G4]
  }

  /** `answered(answers, id)`. */
  predicate Answered(answers: Answers, id: QuestionId)
  {
    id in answers
  }

  /** `answers[id] === v`, false when the question is unanswered. */
  predicate Is(answers: Answers, id: QuestionId, v: Answer)
  {
    id in answers && answers[id] == v
  }

  function AnswerChar(v: Answer): char
  {
    match v
    case A => 'A'
    case B => 'B'
  }

  /** `answers[k] ?? "_"`. */
  function RawChar(answers: Answers, k: QuestionId): string
  {
    if k in answers then [AnswerChar(answers[k])] else "_"
  }

  /** `buildRawSeq(domain, answers)`: the question ids mapped to their answer
      or `_`, joined without a separator. */
  function RawSeq(d: Domain, answers: Answers): string
  {
    var keys := Questions(d);
    Join(seq(|keys|, i requires 0 <= i < |keys| => RawChar(answers, keys[i])), "")
  }

  /** Joining one-character strings without a separator gives their
      characters in order. */
  lemma {:induction false} JoinChars(xs: seq<string>)
    requires forall i :: 0 <= i < |xs| ==> |xs[i]| == 1
    ensures |Join(xs, "")| == |xs|
    ensures forall i :: 0 <= i < |xs| ==> Join(xs, "")[i] == xs[i][0]
  {
    if |xs| > 1 {
      JoinChars(xs[1..]);
      assert Join(xs, "") == xs[0] + Join(xs[1..], "");
    }
  }

  /** The raw sequence has one character per question: the answer given, or
      `_` for a question not answered yet. */
  lemma RawSeqFacts(d: Domain, answers: Answers)
    ensures var r := RawSeq(d, answers); var keys := Questions(d);
      && |r| == |keys|
      && forall i :: 0 <= i < |keys| ==>
        r[i] == (if keys[i] in answers then AnswerChar(answers[keys[i]]) else '_')
  {
    var keys := Questions(d);
    var xs := seq(|keys|, i requires 0 <= i < |keys| => RawChar(answers, keys[i]));
    JoinChars(xs);
  }

  /** `questions.every((q) => answered(answers, q.id))`. */
  predicate Done(d: Domain, answers: Answers)
  {
    forall i :: 0 <= i < |Questions(d)| ==> Answered(answers, Questions(d)[i])
  }

  /** The quiz is complete exactly when the raw sequence shows no `_`. */
  lemma DoneMeaning(d: Domain, answers: Answers)
    ensures Done(d, answers) <==> '_' !in RawSeq(d, answers)
  {
    RawSeqFacts(d, answers);
    var r := RawSeq(d, answers);
    if !Done(d, answers) {
      var i :| 0 <= i < |Questions(d)| && !Answered(answers, Questions(d)[i]);
      assert r[i] == '_';
    }
  }

  /** The measurement axis: Record or Coherence. */
  datatype Meas = Record | Coherence
  /** The stability axis: Boundary or correction. */
  datatype Stab = Boundary | Correction
  /** The architecture axis: Memory or compute. */
  datatype Arch = Memory | Compute

  datatype Axes = Axes(meas: Meas, stab: Stab, arch: Arch)

  /** `quantumAxes(answers)`: the measurement score counts the A answers of
      Q1 and Q3. */
  function QuantumAxes(answers: Answers): Axes
  {
    var measScore := (if Is(answers, Q1, A) then 1 else 0) + (if Is(answers, Q3, A) then 1 else 0);
    Axes(if measScore >= 1 then Record else Coherence,
      if Is(answers, Q2, A) then Boundary else Correction,
      if Is(answers, Q4, A) then Memory else Compute)
  }

  /** Each axis follows its questions: Record exactly when Q1 or Q3 is A,
      Boundary exactly when Q2 is A, Memory exactly when Q4 is A. */
  lemma QuantumAxesFacts(answers: Answers)
    ensures QuantumAxes(answers).meas == Record <==> Is(answers, Q1, A) || Is(answers, Q3, A)
    ensures QuantumAxes(answers).stab == Boundary <==> Is(answers, Q2, A)
    ensures QuantumAxes(answers).arch == Memory <==> Is(answers, Q4, A)
  {
  }

  function MeasLetter(m: Meas): char
  {
    match m
    case Record => 'R'
    case Coherence => 'C'
  }

  function StabLetter(s: Stab): char
  {
    match s
    case Boundary => 'B'
    case Correction => 'X'
  }

  function ArchLetter(a: Arch): char
  {
    match a
    case Memory => 'M'
    case Compute => 'P'
  }

  /** The code of `quantumTypeDefinition`: `Q-` and the three axis letters. */
  function QuantumCode(x: Axes): string
  {
    "Q-" + [MeasLetter(x.meas), StabLetter(x.stab), ArchLetter(x.arch)]
  }

  /** The type name of `quantumTypeDefinition`. */
  function QuantumTypeName(x: Axes): string
  {
    (if x.meas == Record then "Record" else "Coherence") + "–"
    + (if x.stab == Boundary then "Boundary" else "Correction") + "–"
    + (if x.arch == Memory then "Memory" else "Compute")
  }

  /** The eight axis combinations give eight different codes, and a code is
      read back letter by letter. */
  lemma QuantumCodeInjective(x: Axes, y: Axes)
    ensures |QuantumCode(x)| == 5 && QuantumCode(x)[..2] == "Q-"
    ensures QuantumCode(x) == QuantumCode(y) <==> x == y
  {
    if QuantumCode(x) == QuantumCode(y) {
      assert QuantumCode(x)[2] == QuantumCode(y)[2];
      assert QuantumCode(x)[3] == QuantumCode(y)[3];
      assert QuantumCode(x)[4] == QuantumCode(y)[4];
    }
  }

  /** The type name also tells the eight types apart. */
  lemma QuantumTypeNameInjective(x: Axes, y: Axes)
    ensures QuantumTypeName(x) == QuantumTypeName(y) ==> x == y
  {
    if QuantumTypeName(x) == QuantumTypeName(y) {
      var n := QuantumTypeName(x);
      assert x.meas == Record <==> n[0] == 'R';
      assert y.meas == Record <==> n[0] == 'R';
      var k := if x.meas == Record then 7 else 10;
      assert k == (if y.meas == Record then 7 else 10);
      assert x.stab == Boundary <==> n[k] == 'B';
      assert y.stab == Boundary <==> n[k] == 'B';
      var e := |n| - 1;
      assert x.arch == Memory <==> n[e] == 'y';
      assert y.arch == Memory <==> n[e] == 'y';
    }
  }

  /** The six gravity types. */
  datatype GKey = QSF | QCV | GBA | GSA | RIG | FPC

  /** `gravityTypeKey(answers)`: the first rule that applies. */
  function GravityTypeKey(answers: Answers): GKey
  {
    if Is(answers, G1, A) && Is(answers, G2, A) then QSF
    else if Is(answers, G1, A) && Is(answers, G2, B) then QCV
    else if Is(answers, G1, B) && Is(answers, G3, A) && Is(answers, G4, A) then GBA
    else if Is(answers, G1, B) && Is(answers, G3, A) && Is(answers, G4, B) then GSA
    else if Is(answers, G3, B) && Is(answers, G4, A) then RIG
    else FPC
  }

  /** A gravity quiz is complete exactly when G1 to G4 are answered. */
  lemma GravityDone(answers: Answers)
    ensures Done(Gravity, answers) <==> G1 in answers && G2 in answers && G3 in answers && G4 in answers
  {
    if G1 in answers && G2 in answers && G3 in answers && G4 in answers {
      forall i | 0 <= i < 4 ensures Answered(answers, Questions(Gravity)[i]) {
      }
    } else {
      assert !Answered(answers, Questions(Gravity)[0]) || !Answered(answers, Questions(Gravity)[1])
        || !Answered(answers, Questions(Gravity)[2]) || !Answered(answers, Questions(Gravity)[3]);
    }
  }

  /** With all four gravity questions answered, each type is one cell of the
      table of answers: QSF and QCV by G2 when G1 is A; GBA and GSA by G4
      when G1 is B and G3 is A; RIG and FPC by G4 when G1 and G3 are B. */
  lemma GravityComplete(answers: Answers)
    requires G1 in answers && G2 in answers && G3 in answers && G4 in answers
    ensures var k := GravityTypeKey(answers);
      var g1, g2, g3, g4 := answers[G1], answers[G2], answers[G3], answers[G4];
      && (k == QSF <==> g1 == A && g2 == A)
      && (k == QCV <==> g1 == A && g2 == B)
      && (k == GBA <==> g1 == B && g3 == A && g4 == A)
      && (k == GSA <==> g1 == B && g3 == A && g4 == B)
      && (k == RIG <==> g1 == B && g3 == B && g4 == A)
      && (k == FPC <==> g1 == B && g3 == B && g4 == B)
  {
  }

  /** With some questions unanswered the later rules still decide: a missing
      G1 or G2 falls through to the G3/G4 rules, and no answers at all give
      FPC. */
  lemma GravityPartial(answers: Answers)
    ensures !Is(answers, G1, A) && !Is(answers, G1, B) ==>
      GravityTypeKey(answers) == (if Is(answers, G3, B) && Is(answers, G4, A) then RIG else FPC)
    ensures answers == map[] ==> GravityTypeKey(answers) == FPC
  {
  }

  function KeyName(k: GKey): string
  {
    match k
    case QSF => "QSF"
    case QCV => "QCV"
    case GBA => "GBA"
    case GSA => "GSA"
    case RIG => "RIG"
    case FPC => "FPC"
  }

  /** The `code` entry of each definition in `gravityTypeDefinition`. */
  function GravityCode(k: GKey): string
  {
    match k
    case QSF => "G-QSF"
    case QCV => "G-QCV"
    case GBA => "G-GBA"
    case GSA => "G-GSA"
    case RIG => "G-RIG"
    case FPC => "G-FPC"
  }

  /** Each gravity code is `G-` and its key, so the six codes differ. */
  lemma GravityCodeFacts(k: GKey, l: GKey)
    ensures GravityCode(k) == "G-" + KeyName(k)
    ensures GravityCode(k) == GravityCode(l) <==> k == l
  {
    if GravityCode(k) == GravityCode(l) {
      assert GravityCode(k)[2..] == KeyName(k);
      assert GravityCode(l)[2..] == KeyName(l);
      assert KeyName(k)[0] == KeyName(l)[0] && KeyName(k)[1] == KeyName(l)[1];
    }
  }

  /** The code of the result shown for a domain. */
  function ResultCode(d: Domain, answers: Answers): string
  {
    match d
    case Quantum => QuantumCode(QuantumAxes(answers))
    case Gravity => GravityCode(GravityTypeKey(answers))
  }

  /** A quantum code never equals a gravity code, so the code names its
      domain. */
  lemma ResultCodeDomain(d: Domain, answers: Answers)
    ensures |ResultCode(d, answers)| == 5
    ensures ResultCode(d, answers)[0] == (if d == Quantum then 'Q' else 'G')
  {
  }

  /** The quiz state of the component. */
  class Quiz {
    var domain: Domain
    var step: int
    var answers: Answers

    constructor()
      ensures domain == Quantum && step == 0 && answers == map[]
      ensures Valid()
    {
      domain := Quantum;
      step := 0;
      answers := map[];
    }

    /** The step points at one of the domain's questions. */
    predicate Valid()
      reads this
    {
      0 <= step < |Questions(domain)|
    }

    /** `pick(qid, v)`: record the answer and move on, stopping at the last
        question. */
    method Pick(qid: QuestionId, v: Answer)
      modifies this
      requires Valid()
      ensures Valid()
      ensures answers == old(answers)[qid := v] && domain == old(domain)
      ensures step == (if old(step) + 1 < |Questions(domain)| then old(step) + 1 else |Questions(domain)| - 1)
    {
      answers := answers[qid := v];
      var n := |Questions(domain)|;
      step := if step + 1 < n - 1 then step + 1 else n - 1;
    }

    /** `resetDomain(d)`. */
    method ResetDomain(d: Domain)
      modifies this
      ensures Valid()
      ensures domain == d && step == 0 && answers == map[]
    {
      domain := d;
      step := 0;
      answers := map[];
    }

    /** The Back button: `Math.max(0, s - 1)`. */
    method Back()
      modifies this
      requires Valid()
      ensures Valid()
      ensures step == (if old(step) > 0 then old(step) - 1 else 0)
      ensures domain == old(domain) && answers == old(answers)
    {
      step := if 0 < step - 1 then step - 1 else 0;
    }

    /** The Next button: `Math.min(questions.length - 1, s + 1)`. */
    method Next()
      modifies this
      requires Valid()
      ensures Valid()
      ensures step == (if old(step) + 1 < |Questions(domain)| then old(step) + 1 else old(step))
      ensures domain == old(domain) && answers == old(answers)
    {
      var n := |Questions(domain)|;
      step := if n - 1 < step + 1 then n - 1 else step + 1;
    }

    /** The Reset button: the domain stays. */
    method Reset()
      modifies this
      ensures Valid()
      ensures step == 0 && answers == map[] && domain == old(domain)
    {
      step := 0;
      answers := map[];
    }
  }
}
