/** The projects page: each project gets a lock level from 3 to 5 out of its
    time scale, its generations, its capital and its phase, and the page lists
    the projects by that level, highest first, ties in table order. */
module Projects {
  import opened Prelude
  import opened Text
  import opened Sorting

  datatype Phase = Concept | Prototype | Deployment

  /** A project as far as its order and its level go: the display texts
      (title and irreversible condition) are left out. */
  datatype Project = Project(id: string, slug: string, years: string, generations: string,
    capital: string, phase: Phase)

  /** `lockLevelFromYears`: the first matching test, in this order, decides. */
  function LockFromYears(years: string): (r: int)
    ensures r == 5 <==> Has(years, "100") || Has(years, "50") || Has(years, "30")
    ensures r == 4 <==>
      && !(Has(years, "100") || Has(years, "50") || Has(years, "30"))
      && (Has(years, "20") || Has(years, "10"))
    ensures 3 <= r <= 5
  {
    if Has(years, "100") || Has(years, "50") || Has(years, "30") then 5
    else if Has(years, "20") || Has(years, "10") then 4
    else 3
  }

  /** `s.toLowerCase().includes(w)`. */
  predicate Has(s: string, w: string)
  {
    Contains(Lower(s), w)
  }

  /** `lockLevelFromGenerations`. */
  function LockFromGenerations(g: string): (r: int)
    ensures r == 5 <==> Has(g, "3")
    ensures r == 4 <==> !Has(g, "3") && Has(g, "2")
    ensures 3 <= r <= 5
  {
    if Has(g, "3") then 5
    else if Has(g, "2") then 4
    else 3
  }

  /** `lockLevelFromCapital`. */
  function LockFromCapital(c: string): (r: int)
    ensures r == 5 <==> Has(c, "infrastructure") || Has(c, "locked") || Has(c, "custody")
    ensures r == 4 <==>
      && !(Has(c, "infrastructure") || Has(c, "locked") || Has(c, "custody"))
      && (Has(c, "mission") || Has(c, "governance"))
    ensures 3 <= r <= 5
  {
    if Has(c, "infrastructure") || Has(c, "locked") || Has(c, "custody") then 5
    else if Has(c, "mission") || Has(c, "governance") then 4
    else 3
  }

  /** `phaseLock`. */
  function PhaseLock(phase: Phase): (r: int)
    ensures 3 <= r <= 5
    ensures phase.Deployment? <==> r == 5
    ensures phase.Prototype? <==> r == 4
  {
    match phase
    case Deployment => 5
    case Prototype => 4
    case Concept => 3
  }

  /** `Math.round(x / 4)` for an integer `x`: halves go up. */
  function RoundQuarter(x: int): (r: int)
    ensures 4 * r - 2 <= x < 4 * r + 2
  {
    (x + 2) / 4
  }

  /** The four levels of a project. */
  function LockSum(p: Project): int
  {
    LockFromYears(p.years) + LockFromGenerations(p.generations) + LockFromCapital(p.capital) + PhaseLock(p.phase)
  }

  /** `avgLock`: the rounded mean of the four levels, which lies between 3
      and 5 and is at most half a level away from the exact mean. */
  function AvgLock(p: Project): (r: int)
    ensures 3 <= r <= 5
    ensures 4 * r - 2 <= LockSum(p) < 4 * r + 2
  {
    RoundQuarter(LockSum(p))
  }

  /** A project whose four levels agree has that level. */
  lemma AvgLockUniform(p: Project, v: int)
    requires LockFromYears(p.years) == v && LockFromGenerations(p.generations) == v
    requires LockFromCapital(p.capital) == v && PhaseLock(p.phase) == v
    ensures AvgLock(p) == v
  {
  }

  /** A higher level in any one of the four never lowers the average. */
  lemma AvgLockMonotone(p: Project, q: Project)
    requires LockFromYears(p.years) <= LockFromYears(q.years)
    requires LockFromGenerations(p.generations) <= LockFromGenerations(q.generations)
    requires LockFromCapital(p.capital) <= LockFromCapital(q.capital)
    requires PhaseLock(p.phase) <= PhaseLock(q.phase)
    ensures AvgLock(p) <= AvgLock(q)
  {
    assert LockSum(p) <= LockSum(q);
  }

  /** The rows of `PROJECTS`: identifiers, scales and phases. */
  const PROJECTS: seq<Project> := [
    Project("Project 001", "project-001", "5–20+ years", "1 generation",
      "High-sensitivity instrumentation (focused capex)", Concept),
    Project("Project 002", "project-002", "10–30 years", "1 generation", "Deep-tech scale (R&D + capex)", Prototype),
    Project("Project 003", "project-003", "30–100+ years", "1–3 generations",
      "Infrastructure-grade (locked capital, long custody)", Concept),
    Project("Project 004", "project-004", "10–50 years", "1–2 generations",
      "Mission-scale infrastructure (high commitment)", Concept),
    Project("Project 005", "project-005", "3–10 years", "1 generation",
      "Compute + governance design (capability-compressed)", Prototype),
    Project("Project 006", "project-006", "5–15 years", "1 generation",
      "Clinical-grade validation (devices + trials)", Concept)
  ]

  /** `[...PROJECTS].sort((a, b) => avgLock(b) - avgLock(a))`. */
  function Listed(ps: seq<Project>): seq<Project>
  {
    SortDesc(ps, AvgLock)
  }

  /** The list shows every project once, by level from highest to lowest,
      and projects of one level in the order of the table. */
  lemma ListedFacts(ps: seq<Project>, v: int)
    ensures multiset(Listed(ps)) == multiset(ps)
    ensures |Listed(ps)| == |ps|
    ensures forall i, j :: 0 <= i < j < |Listed(ps)| ==> AvgLock(Listed(ps)[i]) >= AvgLock(Listed(ps)[j])
    ensures Filter(Listed(ps), KeyIs(AvgLock, v)) == Filter(ps, KeyIs(AvgLock, v))
  {
    SortDescFacts(ps, AvgLock);
    SortDescStable(ps, AvgLock, v);
  }

  /** A table already in order of level is listed as it is. */
  lemma {:induction false} ListedSorted(ps: seq<Project>)
    requires SortedDesc(ps, AvgLock)
    ensures Listed(ps) == ps
  {
    if ps != [] {
      ListedSorted(ps[1..]);
      assert SortedDesc(ps[1..], AvgLock);
      InsertFront(ps[0], ps[1..]);
      assert [ps[0]] + ps[1..] == ps;
    }
  }

  /** In a list in order of level, the first element with a level not above
      the head's is the first. */
  lemma InsertFront(x: Project, s: seq<Project>)
    requires forall k :: 0 <= k < |s| ==> AvgLock(s[k]) <= AvgLock(x)
    ensures Insert(x, s, AvgLock) == [x] + s
  {
    assert InsertPos(x, s, AvgLock, 0) == 0;
    assert s[..0] == [];
  }

  /** The years "10–30 years" score 5: "30" is tested before "10". */
  lemma YearsPriority()
    ensures LockFromYears("10–30 years") == 5
  {
    var s := Lower("10–30 years");
    assert s[3..5] == "30";
    assert MatchAt(s, 3, "30", false);
    ContainsMeaning(s, "30");
  }
}
