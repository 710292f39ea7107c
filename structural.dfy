/** The Structural AI page: a keyword interpreter that turns a constraint into
    what becomes fixed, what is eliminated and the point of no return; a
    collision detector over the list of constraints; a question mirror; and
    the bounded list of constraints the page keeps. */
module StructuralAI {
  import opened Prelude
  import opened Text
  import opened Dedup

  /** One piece of the page's keyword expressions, which are all matched
      against lower-cased text: a choice of words `(w1|w2|…)`, `[-\s]?`,
      `\s*` and `.*`. */
  datatype Piece = Alt(words: seq<string>) | Sep | Gap | Any

  function W(w: string): Piece
  {
    Alt([w])
  }

  /** The pieces `ps` match `s` from position `i` on. */
  predicate MatchesAt(s: string, i: nat, ps: seq<Piece>)
    requires i <= |s|
    decreases |ps|, |s| - i
  {
    if ps == [] then true
    else match ps[0]
      case Alt(ws) =>
        exists k :: 0 <= k < |ws| && MatchAt(s, i, ws[k], false) && MatchesAt(s, i + |ws[k]|, ps[1..])
      case Sep =>
        MatchesAt(s, i, ps[1..]) || (i < |s| && (s[i] == '-' || IsSpace(s[i])) && MatchesAt(s, i + 1, ps[1..]))
      case Gap =>
        MatchesAt(s, i, ps[1..]) || (i < |s| && IsSpace(s[i]) && MatchesAt(s, i + 1, ps))
      case Any =>
        MatchesAt(s, i, ps[1..]) || (i < |s| && !IsLineTerminator(s[i]) && MatchesAt(s, i + 1, ps))
  }

  /** `/alt1|alt2|…/.test(s)`: one of the alternatives matches somewhere. */
  predicate Test(s: string, alts: seq<seq<Piece>>)
  {
    exists a: nat, i: nat :: a < |alts| && i <= |s| && MatchesAt(s, i, alts[a])
  }

  const LONG_TERM: seq<seq<Piece>> := [[W("long"), Sep, W("term")], [Alt(["50", "decade", "years", "lifetim"])]]
  const SAFE: seq<seq<Piece>> := [[Alt(["safe", "safety", "secure", "reliable"])]]
  const NO_OPS: seq<seq<Piece>> := [[W("no"), Gap, W("human")], [W("no"), Gap, W("operator")],
    [W("without"), Gap, W("intervention")], [W("autonomous")], [W("hands"), Sep, W("off")]]
  const ENERGY: seq<seq<Piece>> := [[Alt(["energy", "power", "grid", "storage", "nuclear", "underground", "battery"])]]
  const AI: seq<seq<Piece>> := [[Alt(["ai", "model", "agent", "algorithm"])]]
  const INSTITUTION: seq<seq<Piece>> := [[Alt(["law", "regulat", "institution", "govern", "policy"])]]
  const BAN: seq<seq<Piece>> := [[W("ban"), Any, W("intervention")]]
  const STEER: seq<seq<Piece>> := [[Alt(["regulat", "control", "govern", "align"])]]
  const ACCOUNT: seq<seq<Piece>> := [[Alt(["account", "responsib", "liabil"])]]

  /** What the interpreter returns: one fixed constraint, the eliminated
      options and one point of no return. A rule of the interpreter pushes
      one reading of the same shape. */
  datatype Reading = Reading(fixed: string, eliminated: seq<string>, pnr: string)

  /** The readings the interpreter can push: one per keyword rule, and the
      generic fallback. */
  datatype RuleTable = RuleTable(energy: Reading, ops: Reading, ai: Reading, account: Reading, fallback: Reading)

  const RULES := RuleTable(
    Reading("Continuous energy availability without operational intervention",
      ["Flexible shutdown as a primary safety mechanism", "Human-centered safety oversight as the final barrier"],
      "Safety must be embedded in material and geometry, not procedures"),
    Reading("Human intervention banned after deployment",
      ["Operational correction as a stability strategy", "Emergency override as an escape hatch"],
      "Control exits are removed: behavior must be bounded physically"),
    Reading("Actions exceeding oversight must be non-reversible by default",
      ["Reversible governance by continuous adjustment", "Interpretation drift as a safety valve"],
      "The system must refuse unsafe actions upfront, not be corrected later"),
    Reading("Responsibility must remain fixed at a point (non-transferable)",
      ["Responsibility mobility across entities", "Ambiguity via committee ownership"],
      "Accountability is attached to structure, not narrative"),
    Reading("A non-negotiable boundary condition is imposed on future action",
      ["Optimization-driven iteration without loss", "Governance by reversible correction"],
      "A specific option becomes structurally impossible"))

  /** The outcome of each keyword test of `interpretConstraint`. */
  datatype Flags = Flags(longTerm: bool, safe: bool, noOps: bool, energy: bool, ai: bool,
    institution: bool, ban: bool, steer: bool, account: bool)

  /** The keyword tests on the lower-cased text `t`. */
  function FlagsOf(t: string): Flags
  {
    Flags(Test(t, LONG_TERM), Test(t, SAFE), Test(t, NO_OPS), Test(t, ENERGY), Test(t, AI),
      Test(t, INSTITUTION), Test(t, BAN), Test(t, STEER), Test(t, ACCOUNT))
  }

  /** The readings of the rules whose tests pass, in the order of the rules. */
  function Fired(f: Flags, rules: RuleTable): seq<Reading>
  {
    var rs0: seq<Reading> := [];
    var rs1 := if f.energy && (f.longTerm || f.safe) then rs0 + [rules.energy] else rs0;
    var rs2 := if f.noOps || f.ban then rs1 + [rules.ops] else rs1;
    var rs3 := if f.ai && f.steer then rs2 + [rules.ai] else rs2;
    if f.institution && f.account then rs3 + [rules.account] else rs3
  }

  /** The readings pushed before the answer is built: the fired rules, or the
      fallback when none fired. */
  function Readings(f: Flags, rules: RuleTable): (rs: seq<Reading>)
    ensures rs != []
  {
    if Fired(f, rules) == [] then [rules.fallback] else Fired(f, rules)
  }

  /** The eliminated options of several readings, in order. */
  function AllEliminated(rs: seq<Reading>): seq<string>
    decreases |rs|
  {
    if rs == [] then [] else AllEliminated(rs[..|rs| - 1]) + rs[|rs| - 1].eliminated
  }

  function Same(s: string): string
  {
    s
  }

  /** The answer built from the pushed readings `rs`: the first fixed
      constraint and point of no return, and the first three distinct
      eliminated options. */
  function Answer(rs: seq<Reading>): Reading
    requires rs != []
  {
    Reading(rs[0].fixed, Take(DedupBy(AllEliminated(rs), Same), 3), rs[0].pnr)
  }

  /** The answer when the keyword tests came out as `f`. */
  function Interpreted(f: Flags, rules: RuleTable): Reading
  {
    Answer(Readings(f, rules))
  }

  /** Lower-casing does not change which characters are white space. */
  lemma LowerBlank(s: string)
    ensures IsBlank(Lower(s)) <==> IsBlank(s)
  {
    assert forall k :: 0 <= k < |s| ==> (IsSpace(Lower(s)[k]) <==> IsSpace(s[k]));
  }

  /** The answer has the first reading's fixed constraint and point of no
      return, at most three eliminated options and none twice, each from one
      of the readings. */
  lemma AnswerFacts(rs: seq<Reading>)
    requires rs != []
    ensures var r := Answer(rs);
      && r.fixed == rs[0].fixed && r.pnr == rs[0].pnr
      && |r.eliminated| <= 3
      && InjectiveOn(r.eliminated, Same)
      && (forall x :: x in r.eliminated ==> x in AllEliminated(rs))
  {
    var d := DedupBy(AllEliminated(rs), Same);
    DedupByInjective(AllEliminated(rs), Same);
    DedupBySubseq(AllEliminated(rs), Same);
    SubseqIn(d, AllEliminated(rs));
    var r := Take(d, 3);
    forall i, j | 0 <= i < |r| && 0 <= j < |r| && i != j ensures Same(r[i]) != Same(r[j]) {
      assert r[i] == d[i] && r[j] == d[j];
    }
  }

  /** A single reading with two different options comes through whole. */
  lemma AnswerSingle(r: Reading)
    requires |r.eliminated| == 2 && r.eliminated[0] != r.eliminated[1]
    ensures Answer([r]) == r
  {
    var e := r.eliminated;
    assert [r][..0] == [];
    assert AllEliminated([r]) == e;
    assert e[..1][..0] == [];
    assert DedupBy(e[..1], Same) == [e[0]];
    assert e[..2] == e;
    assert !HasKey(e[..1], Same, Same(e[1]));
  }

  /** A reading with a fixed constraint, a point of no return and two
      different eliminated options. */
  predicate Shaped(r: Reading)
  {
    r.fixed != "" && r.pnr != "" && |r.eliminated| == 2 && r.eliminated[0] != r.eliminated[1]
  }

  predicate TableShaped(rules: RuleTable)
  {
    Shaped(rules.energy) && Shaped(rules.ops) && Shaped(rules.ai) && Shaped(rules.account) && Shaped(rules.fallback)
  }

  /** Every reading of the page's table is shaped so. */
  lemma RulesShaped()
    ensures TableShaped(RULES)
  {
    var e := RULES.energy.eliminated;
    assert e[0][|e[0]| - 1] == 'm' && e[1][|e[1]| - 1] == 'r';
    e := RULES.ops.eliminated;
    assert e[0][|e[0]| - 1] == 'y' && e[1][|e[1]| - 1] == 'h';
    e := RULES.ai.eliminated;
    assert e[0][|e[0]| - 1] == 't' && e[1][|e[1]| - 1] == 'e';
    e := RULES.account.eliminated;
    assert e[0][|e[0]| - 1] == 's' && e[1][|e[1]| - 1] == 'p';
    e := RULES.fallback.eliminated;
    assert e[0][|e[0]| - 1] == 's' && e[1][|e[1]| - 1] == 'n';
  }

  /** An answer always has a fixed constraint and a point of no return, at
      most three eliminated options and no option twice; with no rule fired
      it is the generic fallback triple, and with one rule fired it is that
      rule's reading. */
  lemma InterpretedFacts(f: Flags, rules: RuleTable)
    requires TableShaped(rules)
    ensures var r := Interpreted(f, rules);
      && r.fixed != "" && r.pnr != ""
      && |r.eliminated| <= 3
      && InjectiveOn(r.eliminated, Same)
      && (forall x :: x in r.eliminated ==> x in AllEliminated(Readings(f, rules)))
    ensures Fired(f, rules) == [] ==> Interpreted(f, rules) == rules.fallback
    ensures |Fired(f, rules)| == 1 ==> Interpreted(f, rules) == Fired(f, rules)[0]
    ensures Fired(f, rules) != [] ==>
      Interpreted(f, rules).fixed == Fired(f, rules)[0].fixed && Interpreted(f, rules).pnr == Fired(f, rules)[0].pnr
  {
    var rs := Readings(f, rules);
    AnswerFacts(rs);
    assert Shaped(rs[0]);
    if |rs| == 1 {
      AnswerSingle(rs[0]);
    }
  }

  /** `interpretConstraint(input)`: nothing for a blank input; otherwise
      the answer of the rules that the lower-cased text fires, which always
      names a fixed constraint and a point of no return and at most three
      different eliminated options. */
  function InterpretConstraint(input: string): (r: Option<Reading>)
    ensures r.None? <==> IsBlank(input)
    ensures r.Some? ==>
      && r.value.fixed != "" && r.value.pnr != "" && |r.value.eliminated| <= 3
      && InjectiveOn(r.value.eliminated, Same)
  {
    var t := Lower(input);
    LowerBlank(input);
    if Trim(t) == "" then None
    else
      RulesShaped();
      InterpretedFacts(FlagsOf(t), RULES);
      Some(Interpreted(FlagsOf(t), RULES))
  }

  datatype Layer = Energy | Capital | Computation | Institution

  datatype CollisionRule = CollisionRule(a: string, b: string, warn: string, layer: Layer)

  const COLLISION_RULES: seq<CollisionRule> := [
    CollisionRule("No human intervention", "Adaptive governance",
      "Incompatibility detected between “No human intervention” × “Adaptive governance”", Institution),
    CollisionRule("Data cannot be erased", "Decisions cannot be anonymized",
      "Tension concentrates between “Data cannot be erased” × “Decisions cannot be anonymized”", Institution),
    CollisionRule("Continuous energy", "Flexible shutdown",
      "Incompatibility detected between “Continuous energy availability” × “Flexible shutdown”", Energy),
    CollisionRule("Algorithmic override banned", "Adaptive feedback",
      "Incompatibility detected between “Algorithmic override banned” × “Adaptive feedback”", Computation),
    CollisionRule("Exit disabled", "Market liquidity",
      "Collision detected between “Exit disabled” × “Market liquidity”", Capital)
  ]

  const NO_EXPLICIT := "No explicit incompatibility detected. (Tension may still exist.)"

  /** Both phrases of a rule occur, ignoring ASCII case, in the joined text. */
  predicate Hit(joined: string, r: CollisionRule)
  {
    Contains(Lower(joined), Lower(r.a)) && Contains(Lower(joined), Lower(r.b))
  }

  function HitTest(joined: string): CollisionRule -> bool
  {
    r => Hit(joined, r)
  }

  /** The rules of `rules` that fire for a list of constraints, in rule
      order. */
  function Hits(rules: seq<CollisionRule>, constraints: seq<string>): seq<CollisionRule>
  {
    Filter(rules, HitTest(Join(constraints, " | ")))
  }

  function Warns(rs: seq<CollisionRule>): (r: seq<string>)
    ensures |r| == |rs| && forall i :: 0 <= i < |rs| ==> r[i] == rs[i].warn
  {
    seq(|rs|, i requires 0 <= i < |rs| => rs[i].warn)
  }

  function LayersOf(rs: seq<CollisionRule>): (r: seq<Layer>)
    ensures |r| == |rs| && forall i :: 0 <= i < |rs| ==> r[i] == rs[i].layer
  {
    seq(|rs|, i requires 0 <= i < |rs| => rs[i].layer)
  }

  function SameLayer(l: Layer): Layer
  {
    l
  }

  datatype Collisions = Collisions(warnings: seq<string>, tensionLayer: seq<Layer>)

  /** What `detectCollisions` answers for a rule table: one warning and one
      layer per firing rule, the generic note when none fires among three or
      more constraints, and the layers without repeats. */
  function Detected(rules: seq<CollisionRule>, constraints: seq<string>): Collisions
  {
    var h := Hits(rules, constraints);
    Collisions(Warns(h) + (if h == [] && |constraints| >= 3 then [NO_EXPLICIT] else []),
      DedupBy(LayersOf(h), SameLayer))
  }

  /** `detectCollisions(constraints)`. */
  method DetectCollisions(constraints: seq<string>) returns (out: Collisions)
    ensures out == Detected(COLLISION_RULES, constraints)
  {
    out := DetectWith(COLLISION_RULES, constraints);
  }

  /** The loop of `detectCollisions` over a rule table. */
  method DetectWith(rules: seq<CollisionRule>, constraints: seq<string>) returns (out: Collisions)
    ensures out == Detected(rules, constraints)
  {
    var joined := Join(constraints, " | ");
    ghost var hit := HitTest(joined);
    var warnings: seq<string> := [];
    var layers: seq<Layer> := [];
    for k := 0 to |rules|
      invariant warnings == Warns(Filter(rules[..k], hit))
      invariant layers == LayersOf(Filter(rules[..k], hit))
    {
      var r := rules[k];
      assert rules[..k + 1] == rules[..k] + [r];
      FilterSnoc(rules[..k], r, hit);
      var hitA := Contains(Lower(joined), Lower(r.a));
      var hitB := Contains(Lower(joined), Lower(r.b));
      if hitA && hitB {
        warnings := warnings + [r.warn];
        layers := layers + [r.layer];
      }
    }
    assert rules[..|rules|] == rules;
    if |warnings| == 0 && |constraints| >= 3 {
      warnings := warnings + [NO_EXPLICIT];
    }
    out := Collisions(warnings, DedupBy(layers, SameLayer));
  }

  /** A rule fires exactly when both of its phrases occur; the firing rules
      keep the table's order; a firing rule's warning is among the warnings,
      and every rule warning comes from a firing rule. */
  lemma HitsMeaning(rules: seq<CollisionRule>, constraints: seq<string>)
    ensures var j := Join(constraints, " | "); var h := Hits(rules, constraints);
      && (forall r :: r in h <==> (r in rules && Contains(Lower(j), Lower(r.a)) && Contains(Lower(j), Lower(r.b))))
      && Subseq(h, rules)
      && (forall r :: r in h ==> r.warn in Warns(h))
      && (forall w :: w in Warns(h) ==> exists r :: r in h && r.warn == w)
  {
    var j := Join(constraints, " | ");
    forall r ensures r in Hits(rules, constraints) <==> r in rules && Hit(j, r) {
      FilterMember(rules, HitTest(j), r);
    }
    FilterSubseq(rules, HitTest(j));
    var h := Hits(rules, constraints);
    forall r | r in h ensures r.warn in Warns(h) {
      var i :| 0 <= i < |h| && h[i] == r;
      assert Warns(h)[i] == r.warn;
    }
    forall w | w in Warns(h) ensures exists r :: r in h && r.warn == w {
      var i :| 0 <= i < |h| && Warns(h)[i] == w;
      assert h[i] in h;
    }
  }

  /** The layers hold no repeats, and a layer is listed exactly when a firing
      rule has it. */
  lemma TensionLayerFacts(rules: seq<CollisionRule>, constraints: seq<string>, l: Layer)
    ensures var t := Detected(rules, constraints).tensionLayer;
      && InjectiveOn(t, SameLayer)
      && (l in t <==> exists r :: r in Hits(rules, constraints) && r.layer == l)
  {
    var h := Hits(rules, constraints);
    var ls := LayersOf(h);
    var t := DedupBy(ls, SameLayer);
    DedupByInjective(ls, SameLayer);
    DedupByKeys(ls, SameLayer);
    if l in t {
      var i :| 0 <= i < |t| && t[i] == l;
      assert HasKey(t, SameLayer, l);
      var k :| 0 <= k < |ls| && SameLayer(ls[k]) == l;
      assert h[k] in h;
    }
    if exists r :: r in h && r.layer == l {
      var r :| r in h && r.layer == l;
      var k :| 0 <= k < |h| && h[k] == r;
      assert HasKey(t, SameLayer, SameLayer(ls[k]));
    }
  }

  /** The generic note is the only warning exactly when no rule fires and
      there are at least three constraints; otherwise there is one warning
      per firing rule. */
  lemma GenericNote(rules: seq<CollisionRule>, constraints: seq<string>)
    requires forall r :: r in rules ==> r.warn != NO_EXPLICIT
    ensures var w := Detected(rules, constraints).warnings; var h := Hits(rules, constraints);
      && (h == [] && |constraints| >= 3 <==> w == [NO_EXPLICIT])
      && (!(h == [] && |constraints| >= 3) ==> |w| == |h|)
  {
    var h := Hits(rules, constraints);
    if h != [] {
      FilterMember(rules, HitTest(Join(constraints, " | ")), h[0]);
      assert h[0] in h;
      assert h[0] in rules && h[0].warn != NO_EXPLICIT;
      assert Detected(rules, constraints).warnings == Warns(h);
      assert Warns(h)[0] == h[0].warn;
    }
  }

  /** No rule of the table warns with the generic note. */
  lemma RuleWarnings()
    ensures forall r :: r in COLLISION_RULES ==> r.warn != NO_EXPLICIT
  {
    var rs := COLLISION_RULES;
    var n := NO_EXPLICIT;
    assert n[|n| - 1] == ')';
    forall i | 0 <= i < |rs| ensures rs[i].warn[|rs[i].warn| - 1] == '”' {
    }
  }

  const MIRROR_AI: seq<seq<Piece>> := [[Alt(["regulat", "policy", "govern"]), Any, Alt(["ai", "model", "agent"])]]
  const MIRROR_SAFE: seq<seq<Piece>> := [[Alt(["safe", "safety"]), Any, Alt(["flex", "adaptive"])]]
  const MIRROR_CAPITAL: seq<seq<Piece>> := [[Alt(["invest", "capital", "fund"]), Any, Alt(["exit", "liquid", "withdraw"])]]
  const MIRROR_RESP: seq<seq<Piece>> := [[Alt(["institution", "law", "govern"]), Any, Alt(["account", "responsib"])]]

  const MIRRORS: seq<string> := [
    "Which actions must never be reversible once AI exceeds human oversight?",
    "Which safety mechanisms must remain effective without operational intervention, even when flexibility is demanded?",
    "Which capital actions must be made non-withdrawable so responsibility cannot move?",
    "Which responsibilities must be structurally non-transferable once harm becomes irreversible?",
    "Which actions in this question must become non-reversible to prevent catastrophic futures?"
  ]

  /** `mirrorQuestion(q)`. */
  function MirrorQuestion(q: string): string
  {
    var t := Lower(q);
    if Trim(t) == "" then ""
    else if Test(t, MIRROR_AI) then MIRRORS[0]
    else if Test(t, MIRROR_SAFE) then MIRRORS[1]
    else if Test(t, MIRROR_CAPITAL) then MIRRORS[2]
    else if Test(t, MIRROR_RESP) then MIRRORS[3]
    else MIRRORS[4]
  }

  /** A blank question gets "", any other one of the five questions: the one
      of the first pattern that matches, the last one when none does. */
  lemma MirrorFacts(q: string)
    ensures MirrorQuestion(q) == "" <==> IsBlank(q)
    ensures !IsBlank(q) ==> MirrorQuestion(q) in MIRRORS
    ensures var t := Lower(q);
      (!IsBlank(q) && !Test(t, MIRROR_AI) && !Test(t, MIRROR_SAFE) && !Test(t, MIRROR_CAPITAL)
        && !Test(t, MIRROR_RESP)) ==> MirrorQuestion(q) == MIRRORS[4]
    ensures !IsBlank(q) && Test(Lower(q), MIRROR_AI) ==> MirrorQuestion(q) == MIRRORS[0]
  {
    LowerBlank(q);
  }

  /** The constraint list of the page never holds more than twelve entries. */
  const MAX_CONSTRAINTS: nat := 12

  predicate NoRepeats(s: seq<string>)
  {
    forall i, j :: 0 <= i < j < |s| ==> s[i] != s[j]
  }

  /** The list as the page keeps it: at most twelve trimmed, non-empty,
      distinct constraints. */
  predicate ValidList(s: seq<string>)
  {
    |s| <= MAX_CONSTRAINTS && NoRepeats(s) && forall k :: 0 <= k < |s| ==> s[k] != "" && Trimmed(s[k])
  }

  function NotEq(c: string): string -> bool
  {
    x => x != c
  }

  /** Taking elements out keeps the rest free of repeats and trimmed. */
  lemma {:induction false} FilterValid(s: seq<string>, p: string -> bool)
    requires ValidList(s)
    ensures ValidList(Filter(s, p))
    decreases |s|
  {
    FilterLength(s, p);
    if s != [] {
      var t := s[1..];
      assert ValidList(t) by {
        forall i, j | 0 <= i < j < |t| ensures t[i] != t[j] {
          assert t[i] == s[i + 1] && t[j] == s[j + 1];
        }
        forall k | 0 <= k < |t| ensures t[k] != "" && Trimmed(t[k]) {
          assert t[k] == s[k + 1];
        }
      }
      FilterValid(t, p);
      var f := Filter(t, p);
      if p(s[0]) {
        assert s[0] !in f by {
          FilterMember(t, p, s[0]);
          forall j | 0 <= j < |t| ensures t[j] != s[0] {
            assert t[j] == s[j + 1];
          }
        }
        var r := [s[0]] + f;
        forall i, j | 0 <= i < j < |r| ensures r[i] != r[j] {
          if i == 0 {
            assert r[j] == f[j - 1];
          } else {
            assert r[i] == f[i - 1] && r[j] == f[j - 1];
          }
        }
        forall k | 0 <= k < |r| ensures r[k] != "" && Trimmed(r[k]) {
          if k > 0 {
            assert r[k] == f[k - 1];
          }
        }
      }
    }
  }

  /** The state of the page. */
  class Page {
    var input1: string
    var out1: Option<Reading>
    var constraints: seq<string>
    var draft: string
    var input3: string
    var out3: string

    constructor()
      ensures input1 == "" && out1.None? && constraints == [] && draft == "" && input3 == "" && out3 == ""
      ensures Valid()
    {
      input1, out1, constraints, draft, input3, out3 := "", None, [], "", "", "";
    }

    predicate Valid()
      reads this
    {
      ValidList(constraints)
    }

    /** `run1`: interpret the first input. */
    method Run1()
      modifies this
      ensures out1 == InterpretConstraint(input1)
      ensures input1 == old(input1) && constraints == old(constraints) && draft == old(draft)
      ensures input3 == old(input3) && out3 == old(out3)
    {
      out1 := InterpretConstraint(input1);
    }

    /** `run3`: mirror the third input. */
    method Run3()
      modifies this
      ensures out3 == MirrorQuestion(input3)
      ensures input1 == old(input1) && out1 == old(out1) && constraints == old(constraints)
      ensures draft == old(draft) && input3 == old(input3)
    {
      out3 := MirrorQuestion(input3);
    }

    /** `addConstraint`: a blank draft is ignored; a repeated one only clears
        the draft; a new one is appended unless twelve are listed. */
    method AddConstraint()
      modifies this
      requires Valid()
      ensures Valid()
      ensures IsBlank(old(draft)) ==> constraints == old(constraints) && draft == old(draft)
      ensures !IsBlank(old(draft)) ==>
        && draft == ""
        && constraints == (if Trim(old(draft)) in old(constraints) || |old(constraints)| >= MAX_CONSTRAINTS
            then old(constraints) else old(constraints) + [Trim(old(draft))])
      ensures input1 == old(input1) && out1 == old(out1) && input3 == old(input3) && out3 == old(out3)
    {
      var v := Trim(draft);
      if v == "" {
        return;
      }
      if v in constraints {
        draft := "";
        return;
      }
      var next := Take(constraints + [v], MAX_CONSTRAINTS);
      if |constraints| < MAX_CONSTRAINTS {
        assert next == constraints + [v];
        forall i, j | 0 <= i < j < |next| ensures next[i] != next[j] {
          if j == |constraints| {
            assert next[i] == constraints[i];
          }
        }
      } else {
        assert next == constraints;
      }
      constraints := next;
      draft := "";
    }

    /** A chip's remove button: `p.filter((x) => x !== c)`. */
    method RemoveChip(c: string)
      modifies this
      requires Valid()
      ensures Valid()
      ensures constraints == Filter(old(constraints), NotEq(c))
      ensures draft == old(draft) && input1 == old(input1) && out1 == old(out1)
      ensures input3 == old(input3) && out3 == old(out3)
    {
      FilterValid(constraints, NotEq(c));
      constraints := Filter(constraints, NotEq(c));
    }

    /** `clearAll`. */
    method ClearAll()
      modifies this
      ensures Valid()
      ensures input1 == "" && out1.None? && constraints == [] && draft == "" && input3 == "" && out3 == ""
    {
      input1, out1, constraints, draft, input3, out3 := "", None, [], "", "", "";
    }
  }

  /** Removing a chip takes out exactly that constraint and keeps the others
      in their order. */
  lemma RemoveChipFacts(s: seq<string>, c: string)
    ensures c !in Filter(s, NotEq(c))
    ensures forall x :: x != c ==> (x in Filter(s, NotEq(c)) <==> x in s)
    ensures Subseq(Filter(s, NotEq(c)), s)
    ensures c !in s ==> Filter(s, NotEq(c)) == s
  {
    forall x ensures x in Filter(s, NotEq(c)) <==> x in s && NotEq(c)(x) {
      FilterMember(s, NotEq(c), x);
    }
    FilterSubseq(s, NotEq(c));
    if c !in s {
      FilterAll(s, NotEq(c));
    }
  }
}
