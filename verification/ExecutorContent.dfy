/** When the data of a session is right: exactly if every step was recorded right after the
    one planned before it, and no commit was lost. */
module ExecutorContent {
  import opened Prelude
  import opened ExecutorModel
  import opened TaskNames
  import opened BranchStore
  import opened TaskSemantics
  import opened ExecutorPlan
  import opened ExecutorCourse
  import opened ExecutorBook

  // ------------------------------------------------------------- on course, so in order

  /** The content after the first `n` steps when those in `lost` left no effect. */
  ghost function Content<C>(plan: seq<Planned<C>>, n: nat, main: C, lost: set<Text>): C
    requires n <= |plan|
  {
    if n == 0 then main
    else
      var before := Content(plan, n - 1, main, lost);
      if NameAt(plan, n - 1) in lost then before else Effect(plan[n - 1].writes, before)
  }

  /** The first `n` steps, without those in `lost`. */
  ghost function Surviving<C>(plan: seq<Planned<C>>, n: nat, lost: set<Text>): (trail: seq<nat>)
    requires n <= |plan|
    ensures forall x <- trail :: x < n
  {
    if n == 0 then []
    else Surviving(plan, n - 1, lost) + if NameAt(plan, n - 1) in lost then [] else [n - 1]
  }

  lemma NoTrail<C>(plan: seq<Planned<C>>, main: C)
    ensures ValidTrail(plan, []) && Replay(plan, [], main) == main
  {
  }

  lemma {:induction false} SurvivingContent<C>(plan: seq<Planned<C>>, n: nat, main: C, lost: set<Text>)
    requires n <= |plan|
    ensures ValidTrail(plan, Surviving(plan, n, lost))
    ensures Replay(plan, Surviving(plan, n, lost), main) == Content(plan, n, main, lost)
  {
    hide Effect, Replay, ValidTrail;
    NoTrail(plan, main);
    if n > 0 {
      SurvivingContent(plan, n - 1, main, lost);
      var front := Surviving(plan, n - 1, lost);
      ReplayOneMore(plan, front, n - 1, main);
      assert front + [] == front;
    }
  }

  lemma {:induction false} IdealIsContent<C>(plan: seq<Planned<C>>, n: nat, main: C)
    requires n <= |plan|
    ensures Content(plan, n, main, {}) == Ideal(plan[..n], main)
  {
    if n > 0 {
      IdealIsContent(plan, n - 1, main);
      assert plan[..n][..n - 1] == plan[..n - 1];
    }
  }

  lemma RowFor(log: seq<Record>, t: Text) returns (k: nat)
    requires Recorded(log, t)
    ensures k < |log| && log[k].text == t
  {
    var r :| r in log && r.text == t;
    k :| k < |log| && log[k] == r;
  }

  lemma RowIn<C>(trails: Trails, log: seq<Record>, heads: map<Branch, C>, plan: seq<Planned<C>>, main: C,
                 lost: set<Text>, k: nat, i: nat)
    requires Book(trails, log, heads, plan, main, lost) && WellPlanned(plan)
    requires k < |log| && i < |plan| && log[k].text == NameAt(plan, i)
    ensures RowOf(trails, log, k, plan, lost, i)
  {
    hide RowOf, Holds, TextOf, Sorted;
    assert log[k].text.kind.Step? by { assert plan[i].coordinates.kind.Step?; }
    var j :| 0 <= j < |plan| && RowOf(trails, log, k, plan, lost, j);
    assert NameAt(plan, j) == log[k].text by { RowIsNamed(trails, log, k, plan, lost, j); }
    NamesDiffer(plan, i, j);
  }

  lemma RowIsNamed<C>(trails: Trails, log: seq<Record>, k: nat, plan: seq<Planned<C>>, lost: set<Text>, i: nat)
    requires k < |log| && i < |plan| && RowOf(trails, log, k, plan, lost, i)
    ensures NameAt(plan, i) == log[k].text
  {
  }

  lemma CourseOf<C>(log: seq<Record>, plan: seq<Planned<C>>, k: nat, i: nat)
    requires OnCourse(log, plan) && WellPlanned(plan) && k < |log| && i < |plan| && log[k].text == NameAt(plan, i)
    ensures RightAfter(log, k, plan, i)
  {
    hide TextOf, Recorded, Sorted;
    assert log[k].text.kind.Step? by { assert plan[i].coordinates.kind.Step?; }
    var j :| 0 <= j < |plan| && RightAfter(log, k, plan, j);
    NamesDiffer(plan, i, j);
  }

  lemma RecordedBefore(log: seq<Record>, k: nat, t: Text)
    requires k <= |log| && Recorded(log[..k], t)
    ensures Recorded(log, t)
  {
    RecordedLater(log[..k], log[k..], t);
    assert log == log[..k] + log[k..];
  }

  /** On course, the branch of a recorded step holds the steps up to it. */
  lemma {:induction false} CourseTrail<C>(trails: Trails, log: seq<Record>, heads: map<Branch, C>,
                                          plan: seq<Planned<C>>, main: C, lost: set<Text>, n: nat)
    requires Book(trails, log, heads, plan, main, lost) && WellPlanned(plan) && OnCourse(log, plan)
    requires n <= |plan| && (n > 0 ==> Recorded(log, NameAt(plan, n - 1)))
    ensures At(plan, n) in trails && trails[At(plan, n)] == Surviving(plan, n, lost)
  {
    hide Holds, TextOf, Recorded, OnCourse, WellPlanned, ValidTrail;
    if n > 0 {
      var k := RowFor(log, NameAt(plan, n - 1));
      RowIn(trails, log, heads, plan, main, lost, k, n - 1);
      CourseOf(log, plan, k, n - 1);
      if n > 1 { RecordedBefore(log, k, NameAt(plan, n - 2)); }
      CourseTrail(trails, log, heads, plan, main, lost, n - 1);
      var t := NameAt(plan, n - 1);
      OwnTrail(trails, log, k, plan, lost, n - 1);
    }
  }

  lemma OwnTrail<C>(trails: Trails, log: seq<Record>, k: nat, plan: seq<Planned<C>>, lost: set<Text>, i: nat)
    requires k < |log| && i < |plan| && RowOf(trails, log, k, plan, lost, i)
    ensures var t := NameAt(plan, i);
            Some(t) in trails && trails[Some(t)] == BaseTrail(trails, t, lost) + if t in lost then [] else [i]
  {
  }

  /** On course, the branch of a recorded step holds the effects of the steps up to it. */
  lemma CourseContent<C>(trails: Trails, log: seq<Record>, heads: map<Branch, C>, plan: seq<Planned<C>>, main: C,
                         lost: set<Text>, n: nat)
    requires Book(trails, log, heads, plan, main, lost) && WellPlanned(plan) && OnCourse(log, plan)
    requires n <= |plan| && (n > 0 ==> Recorded(log, NameAt(plan, n - 1)))
    ensures At(plan, n) in heads && heads[At(plan, n)] == Content(plan, n, main, lost)
  {
    hide RowOf, TextOf, Recorded, OnCourse, Content, Surviving, Replay, WellPlanned;
    CourseTrail(trails, log, heads, plan, main, lost, n);
    SurvivingContent(plan, n, main, lost);
    assert Holds(trails, log, heads, plan, main, lost, At(plan, n));
  }

  // ------------------------------------------------------------- in order, so on course

  ghost function UpTo(n: nat): (s: seq<nat>)
    ensures |s| == n && forall i | 0 <= i < n :: s[i] == i
  {
    seq(n, i => i)
  }

  lemma EarlierInPlan<C>(plan: seq<Planned<C>>, j: nat, i: nat)
    requires WellPlanned(plan) && j < |plan| && i < |plan| && Before(plan[j].coordinates.order, plan[i].coordinates.order)
    ensures j < i
  {
    BeforeIrreflexive(plan[i].coordinates.order);
    if i < j { BeforeTransitive(plan[i].coordinates.order, plan[j].coordinates.order, plan[i].coordinates.order); }
  }

  lemma NotLost<C>(trails: Trails, log: seq<Record>, heads: map<Branch, C>, plan: seq<Planned<C>>, main: C,
                   lost: set<Text>, b: Branch, x: nat)
    requires Book(trails, log, heads, plan, main, lost) && b in trails && x in trails[b]
    ensures x < |plan| && Recorded(log, NameAt(plan, x)) && NameAt(plan, x) !in lost
  {
    hide RowOf, Recorded;
    assert Holds(trails, log, heads, plan, main, lost, b);
  }

  /** If the branch of a step holds exactly the steps up to it, so does the branch of the
      latest step before it, and that is the one planned before it. */
  lemma Backwards<C>(trails: Trails, log: seq<Record>, heads: map<Branch, C>, plan: seq<Planned<C>>, main: C,
                     lost: set<Text>, k: nat, i: nat)
    requires Book(trails, log, heads, plan, main, lost) && WellPlanned(plan)
    requires k < |log| && i < |plan| && log[k].text == NameAt(plan, i)
    requires Some(NameAt(plan, i)) in trails && trails[Some(NameAt(plan, i))] == UpTo(i + 1)
    ensures RightAfter(log, k, plan, i)
    ensures At(plan, i) in trails && trails[At(plan, i)] == UpTo(i)
  {
    hide Recorded, WellPlanned, TextOf, Holds, Book;
    var own := UpTo(i + 1);
    assert own[i] == i && own[..i] == UpTo(i);
    NotLost(trails, log, heads, plan, main, lost, Some(NameAt(plan, i)), i);
    RowIn(trails, log, heads, plan, main, lost, k, i);
    if i > 0 { assert UpTo(i)[i - 1] == i - 1; }
    LatestBefore(trails, log, heads, plan, main, lost, k, i);
  }

  lemma LatestBefore<C>(trails: Trails, log: seq<Record>, heads: map<Branch, C>, plan: seq<Planned<C>>, main: C,
                        lost: set<Text>, k: nat, i: nat)
    requires Book(trails, log, heads, plan, main, lost) && WellPlanned(plan)
    requires k < |log| && i < |plan| && log[k].text == NameAt(plan, i) && log[k].text !in lost && RowOf(trails, log, k, plan, lost, i)
    requires BaseTrail(trails, log[k].text, lost) == UpTo(i)
    requires Some(NameAt(plan, i)) in trails && trails[Some(NameAt(plan, i))] == UpTo(i + 1)
    ensures log[k].latest == At(plan, i) && At(plan, i) in trails && trails[At(plan, i)] == UpTo(i)
  {
    hide Recorded, WellPlanned, TextOf, Holds, ValidTrail;
    if log[k].latest.None? {
      assert trails[None] == [];
    } else {
      var l := log[k].latest.value;
      var j :| 0 <= j < |plan| && NameAt(plan, j) == l;
      EarlierInPlan(plan, j, i);
      assert UpTo(i)[j] == j && UpTo(i + 1)[j] == j;
      assert Recorded(log[..k], l);
      NotLost(trails, log, heads, plan, main, lost, Some(NameAt(plan, i)), j);
      LastInTrail(trails, log, heads, plan, main, lost, j, i);
    }
  }

  lemma LastInTrail<C>(trails: Trails, log: seq<Record>, heads: map<Branch, C>, plan: seq<Planned<C>>, main: C,
                       lost: set<Text>, j: nat, n: nat)
    requires Book(trails, log, heads, plan, main, lost) && WellPlanned(plan)
    requires j < |plan| && Recorded(log, NameAt(plan, j)) && NameAt(plan, j) !in lost
    requires Some(NameAt(plan, j)) in trails && trails[Some(NameAt(plan, j))] == UpTo(n)
    ensures n == j + 1
  {
    hide Recorded, WellPlanned, TextOf, Book, ValidTrail, BaseTrail;
    var k := RowFor(log, NameAt(plan, j));
    RowIn(trails, log, heads, plan, main, lost, k, j);
    assert UpTo(n)[n - 1] == n - 1;
  }

  /** If a branch holds every step in order, the log is on course. */
  lemma {:induction false} AllBackwards<C>(trails: Trails, log: seq<Record>, heads: map<Branch, C>,
                                           plan: seq<Planned<C>>, main: C, lost: set<Text>, n: nat, i: nat)
    requires Book(trails, log, heads, plan, main, lost) && WellPlanned(plan) && i <= n <= |plan|
    requires At(plan, n) in trails && trails[At(plan, n)] == UpTo(n)
    ensures At(plan, i) in trails && trails[At(plan, i)] == UpTo(i)
    decreases n - i
  {
    hide Recorded, WellPlanned, TextOf, Book, RightAfter;
    if i < n {
      AllBackwards(trails, log, heads, plan, main, lost, n, i + 1);
      assert UpTo(n)[i] == i;
      NotLost(trails, log, heads, plan, main, lost, At(plan, n), i);
      var k := RowFor(log, NameAt(plan, i));
      Backwards(trails, log, heads, plan, main, lost, k, i);
    }
  }

  lemma InOrderOnCourse<C>(trails: Trails, log: seq<Record>, heads: map<Branch, C>, plan: seq<Planned<C>>, main: C,
                           lost: set<Text>)
    requires Book(trails, log, heads, plan, main, lost) && WellPlanned(plan)
    requires At(plan, |plan|) in trails && trails[At(plan, |plan|)] == UpTo(|plan|)
    ensures OnCourse(log, plan) && lost == {} && forall i | 0 <= i < |plan| :: Recorded(log, NameAt(plan, i))
  {
    hide Recorded, WellPlanned, TextOf, RightAfter, RowOf, Holds;
    var n := |plan|;
    forall i | 0 <= i < n ensures Recorded(log, NameAt(plan, i)) && NameAt(plan, i) !in lost {
      assert UpTo(n)[i] == i;
      NotLost(trails, log, heads, plan, main, lost, At(plan, n), i);
    }
    forall k | 0 <= k < |log| && log[k].text.kind.Step? ensures exists i | 0 <= i < n :: RightAfter(log, k, plan, i) && log[k].text == NameAt(plan, i) {
      var i :| 0 <= i < n && RowOf(trails, log, k, plan, lost, i);
      RowIsNamed(trails, log, k, plan, lost, i);
      AllBackwards(trails, log, heads, plan, main, lost, n, i + 1);
      Backwards(trails, log, heads, plan, main, lost, k, i);
    }
    forall t ensures t !in lost {
      if t in lost { var k := RowFor(log, t); }
    }
  }

  // -------------------------------------------------------------------------------- marks

  /** Each step adds its own coordinates to the data, and nothing else. */
  ghost predicate Marked(plan: seq<Planned<seq<Coordinates>>>) {
    forall i, x | 0 <= i < |plan| :: Effect(plan[i].writes, x) == x + [plan[i].coordinates]
  }

  ghost function Marks(plan: seq<Planned<seq<Coordinates>>>, trail: seq<nat>): (s: seq<Coordinates>)
    requires ValidTrail(plan, trail)
    ensures |s| == |trail|
    ensures forall x | 0 <= x < |trail| :: trail[x] in trail && s[x] == plan[trail[x]].coordinates
  {
    seq(|trail|, x requires 0 <= x < |trail| => assert trail[x] in trail; plan[trail[x]].coordinates)
  }

  lemma {:induction false} ReplayMarks(plan: seq<Planned<seq<Coordinates>>>, trail: seq<nat>, main: seq<Coordinates>)
    requires Marked(plan) && ValidTrail(plan, trail)
    ensures Replay(plan, trail, main) == main + Marks(plan, trail)
    decreases |trail|
  {
    hide Effect;
    if trail != [] {
      var (front, last) := (trail[..|trail| - 1], trail[|trail| - 1]);
      FrontIsValid(plan, trail);
      ReplayMarks(plan, front, main);
      assert last in trail;
      assert Marks(plan, trail) == Marks(plan, front) + [plan[last].coordinates];
    }
  }

  lemma SameMarks(plan: seq<Planned<seq<Coordinates>>>, a: seq<nat>, b: seq<nat>, main: seq<Coordinates>)
    requires Marked(plan) && WellPlanned(plan) && ValidTrail(plan, a) && ValidTrail(plan, b)
    requires Replay(plan, a, main) == Replay(plan, b, main)
    ensures a == b
  {
    hide Effect, Sorted;
    ReplayMarks(plan, a, main);
    ReplayMarks(plan, b, main);
    var (s, t) := (Marks(plan, a), Marks(plan, b));
    assert s == (main + s)[|main|..] == (main + t)[|main|..] == t;
    forall x | 0 <= x < |a| ensures a[x] == b[x] {
      assert s[x] == t[x];
      assert NameAt(plan, a[x]) == NameAt(plan, b[x]);
      NamesDiffer(plan, a[x], b[x]);
    }
  }
}
