/** What is on the branches, after any sessions of programs that plan the same steps: the
    effects of some recorded steps, which the log tells. */
module ExecutorBook {
  import opened Prelude
  import opened ExecutorModel
  import opened TaskNames
  import opened BranchStore
  import opened TaskSemantics
  import opened ExecutorSafety
  import opened ExecutorPlan
  import opened ExecutorSteps
  import opened ExecutorCourse
  import opened ExecutorProgress

  // ---------------------------------------------------------------------------- contents

  /** Steps of a plan, by their numbers. */
  ghost predicate ValidTrail<C>(plan: seq<Planned<C>>, trail: seq<nat>) {
    forall x <- trail :: x < |plan|
  }

  /** The effects of some steps, one after the other, on `main`. */
  ghost function Replay<C>(plan: seq<Planned<C>>, trail: seq<nat>, main: C): C
    requires ValidTrail(plan, trail)
  {
    if trail == [] then main
    else
      var front, last := trail[..|trail| - 1], trail[|trail| - 1];
      assert last in trail;
      assert ValidTrail(plan, front) by { FrontIsValid(plan, trail); }
      Effect(plan[last].writes, Replay(plan, front, main))
  }

  lemma FrontIsValid<C>(plan: seq<Planned<C>>, trail: seq<nat>)
    requires ValidTrail(plan, trail) && trail != []
    ensures ValidTrail(plan, trail[..|trail| - 1])
  {
    var front := trail[..|trail| - 1];
    assert forall x <- front :: x in trail;
  }

  /** Which steps' effects each branch holds. */
  type Trails = map<Branch, seq<nat>>

  ghost predicate Holds<C>(trails: Trails, log: seq<Record>, heads: map<Branch, C>, plan: seq<Planned<C>>, main: C,
                           lost: set<Text>, b: Branch)
    requires b in trails && b in heads
  {
    && ValidTrail(plan, trails[b]) && heads[b] == Replay(plan, trails[b], main)
    && forall x <- trails[b] :: Recorded(log, NameAt(plan, x)) && NameAt(plan, x) !in lost
  }

  /** What the branch of the step in row `k` was started from. */
  ghost function BaseTrail(trails: Trails, t: Text, lost: set<Text>): seq<nat>
    requires Some(t) in trails && (t !in lost ==> trails[Some(t)] != [])
  {
    var own := trails[Some(t)];
    if t in lost then own else own[..|own| - 1]
  }

  /** Row `k` is that of step `i`. Its branch was started from the branch of the latest step
      at that time, which lies earlier in the plan, and got the effect of step `i` unless its
      commit was lost. */
  ghost predicate RowOf<C>(trails: Trails, log: seq<Record>, k: nat, plan: seq<Planned<C>>, lost: set<Text>, i: nat)
    requires k < |log| && i < |plan|
  {
    var t := log[k].text;
    && t == NameAt(plan, i) && Some(t) in trails
    && (t !in lost ==> trails[Some(t)] != [] && trails[Some(t)][|trails[Some(t)]| - 1] == i)
    && var base := BaseTrail(trails, t, lost);
       && ValidTrail(plan, base) && (forall x <- base :: Recorded(log[..k], NameAt(plan, x)))
       && (log[k].latest.Some? ==> Before(log[k].latest.value.order, t.order))
       && (log[k].latest.None? || Recorded(log[..k], log[k].latest.value) ==>
             log[k].latest in trails && base == trails[log[k].latest])
  }

  ghost predicate Book<C>(trails: Trails, log: seq<Record>, heads: map<Branch, C>, plan: seq<Planned<C>>, main: C,
                          lost: set<Text>) {
    && trails.Keys == heads.Keys && None in heads && trails[None] == []
    && (forall b <- heads :: Holds(trails, log, heads, plan, main, lost, b))
    && (forall k | 0 <= k < |log| && log[k].text.kind.Step? :: exists i | 0 <= i < |plan| :: RowOf(trails, log, k, plan, lost, i))
    && (forall r <- log | r.latest.Some? :: IsPlanned(r.latest.value, plan, |plan|))
    && (forall t <- lost :: t.kind.Step? && Recorded(log, t))
  }

  /** The checked-out branch, outside of a step, holds what that of the latest step holds. */
  ghost predicate Placed<C>(trails: Trails, w: World<C>, plan: seq<Planned<C>>) {
    && NameOf(w.latest) in trails && w.store.current in trails
    && trails[w.store.current] == trails[NameOf(w.latest)]
    && (w.latest.Some? ==> IsPlanned(TextOf(w.latest.value), plan, |plan|))
  }

  function LostIn<C>(w: World<C>): set<Text> {
    set t | t in w.lost
  }

  // -------------------------------------------------------------------------- bookkeeping

  lemma RecordedLater(log: seq<Record>, more: seq<Record>, t: Text)
    requires Recorded(log, t)
    ensures Recorded(log + more, t)
  {
    assert forall r <- log :: r in log + more;
  }

  /** Rows stay what they are when the log grows. */
  lemma RowStays<C>(trails: Trails, log: seq<Record>, more: seq<Record>, k: nat, plan: seq<Planned<C>>,
                    lost: set<Text>, i: nat)
    requires k < |log| && i < |plan| && RowOf(trails, log, k, plan, lost, i)
    ensures RowOf(trails, log + more, k, plan, lost, i)
  {
    hide Recorded, ValidTrail;
    assert (log + more)[..k] == log[..k];
  }

  /** A stage is logged. */
  lemma BookStage<C>(trails: Trails, log: seq<Record>, heads: map<Branch, C>, plan: seq<Planned<C>>, main: C,
                     lost: set<Text>, r: Record)
    requires Book(trails, log, heads, plan, main, lost) && r.text.kind.Stage?
    requires r.latest.Some? ==> IsPlanned(r.latest.value, plan, |plan|)
    ensures Book(trails, log + [r], heads, plan, main, lost)
  {
    hide Recorded, RowOf, Replay, IsPlanned;
    forall b | b in heads ensures Holds(trails, log + [r], heads, plan, main, lost, b) {
      assert Holds(trails, log, heads, plan, main, lost, b);
      forall x | x in trails[b] ensures Recorded(log + [r], NameAt(plan, x)) { RecordedLater(log, [r], NameAt(plan, x)); }
    }
    forall k | 0 <= k < |log + [r]| && (log + [r])[k].text.kind.Step?
      ensures exists i | 0 <= i < |plan| :: RowOf(trails, log + [r], k, plan, lost, i)
    {
      var i :| 0 <= i < |plan| && RowOf(trails, log, k, plan, lost, i);
      RowStays(trails, log, [r], k, plan, lost, i);
    }
    forall t | t in lost ensures Recorded(log + [r], t) { RecordedLater(log, [r], t); }
  }

  /** A step is run: from the checked-out branch, whatever comes of it. */
  ghost function TrailsAfter(trails: Trails, from: Branch, t: Text, i: nat, fate: Fate): Trails
    requires from in trails
  {
    trails[Some(t) := trails[from] + if fate.Committed? then [i] else []]
  }

  lemma ReplayOneMore<C>(plan: seq<Planned<C>>, trail: seq<nat>, i: nat, main: C)
    requires ValidTrail(plan, trail) && i < |plan|
    ensures ValidTrail(plan, trail + [i])
    ensures Replay(plan, trail + [i], main) == Effect(plan[i].writes, Replay(plan, trail, main))
  {
    hide Effect;
    assert (trail + [i])[..|trail|] == trail;
  }

  lemma HoldsAfter<C>(trails: Trails, w: World<C>, c: Coordinates, plan: seq<Planned<C>>, main: C, lost: set<Text>,
                      i: nat,
                      w': World<C>, fate: Fate, b: Branch)
    requires Open(w) && Book(trails, w.log, w.store.heads, plan, main, lost) && b in w'.store.heads
    requires i < |plan| && NameAt(plan, i) == TextOf(c) && !Recorded(w.log, TextOf(c))
    requires StepEffects(w, c, plan[i].writes, w', fate)
    ensures var trails' := TrailsAfter(trails, w.store.current, TextOf(c), i, fate);
            var lost' := lost + (if fate.Uncommitted? then {TextOf(c)} else {});
            b in trails' && Holds(trails', w'.log, w'.store.heads, plan, main, lost', b)
  {
    hide RowOf, Effect, TextOf, IsPlanned, Replay, Recorded;
    var from := w.store.current;
    var b' := if b == Some(TextOf(c)) then from else b;
    assert Holds(trails, w.log, w.store.heads, plan, main, lost, b');
    forall x | x in trails[b'] ensures Recorded(w'.log, NameAt(plan, x)) && NameAt(plan, x) != TextOf(c) {
      RecordedLater(w.log, w'.log[|w.log|..], NameAt(plan, x));
      assert w'.log == w.log + w'.log[|w.log|..];
    }
    assert ValidTrail(plan, trails[from]) by { assert Holds(trails, w.log, w.store.heads, plan, main, lost, from); }
    assert w.store.heads[from] == Replay(plan, trails[from], main) by { assert Holds(trails, w.log, w.store.heads, plan, main, lost, from); }
    ReplayOneMore(plan, trails[from], i, main);
    assert trails[from] + [] == trails[from];
    if fate.Committed? {
      RecordedAppend(w.log, w'.log[|w.log|], TextOf(c));
      assert w'.log == w.log + [w'.log[|w.log|]];
    }
  }

  lemma RowsAfter<C>(trails: Trails, w: World<C>, c: Coordinates, plan: seq<Planned<C>>, main: C, lost: set<Text>,
                     i: nat,
                     w': World<C>, fate: Fate, k: nat)
    requires Open(w) && Book(trails, w.log, w.store.heads, plan, main, lost) && Placed(trails, w, plan)
    requires i < |plan| && NameAt(plan, i) == TextOf(c) && c.kind.Step? && !Recorded(w.log, TextOf(c))
    requires Earlier(NameOf(w.latest), c.order)
    requires StepEffects(w, c, plan[i].writes, w', fate)
    requires k < |w'.log| && w'.log[k].text.kind.Step?
    ensures var trails' := TrailsAfter(trails, w.store.current, TextOf(c), i, fate);
            var lost' := lost + (if fate.Uncommitted? then {TextOf(c)} else {});
            exists j | 0 <= j < |plan| :: RowOf(trails', w'.log, k, plan, lost', j)
  {
    hide Effect, TextOf, IsPlanned, Replay, Recorded, ValidTrail, RowOf, Holds;
    var trails' := TrailsAfter(trails, w.store.current, TextOf(c), i, fate);
    var lost' := lost + (if fate.Uncommitted? then {TextOf(c)} else {});
    if k < |w.log| {
      var j :| 0 <= j < |plan| && RowOf(trails, w.log, k, plan, lost, j);
      OldRow(trails, w.log, k, plan, lost, j, TextOf(c), trails'[Some(TextOf(c))], lost');
      RowStays(trails', w.log, w'.log[|w.log|..], k, plan, lost', j);
      assert w'.log == w.log + w'.log[|w.log|..];
    } else {
      assert w'.log[..k] == w.log;
      NewRow(trails, w, c, plan, main, lost, i, w', fate);
    }
  }

  /** Rows of other steps are not touched. */
  lemma OldRow<C>(trails: Trails, log: seq<Record>, k: nat, plan: seq<Planned<C>>, lost: set<Text>, j: nat, t: Text,
                  s: seq<nat>, lost': set<Text>)
    requires k < |log| && j < |plan| && RowOf(trails, log, k, plan, lost, j) && !Recorded(log, t)
    requires lost <= lost' <= lost + {t}
    ensures RowOf(trails[Some(t) := s], log, k, plan, lost', j)
  {
    hide ValidTrail, NameAt;
    assert log[k] in log;
    if log[k].latest.Some? && Recorded(log[..k], log[k].latest.value) {
      RecordedLater(log[..k], log[k..], log[k].latest.value);
      assert log[..k] + log[k..] == log;
    }
  }

  lemma NewRow<C>(trails: Trails, w: World<C>, c: Coordinates, plan: seq<Planned<C>>, main: C, lost: set<Text>, i: nat,
                  w': World<C>, fate: Fate)
    requires Open(w) && Book(trails, w.log, w.store.heads, plan, main, lost) && Placed(trails, w, plan)
    requires i < |plan| && NameAt(plan, i) == TextOf(c) && c.kind.Step? && !Recorded(w.log, TextOf(c))
    requires Earlier(NameOf(w.latest), c.order) && StepEffects(w, c, plan[i].writes, w', fate) && |w'.log| > |w.log|
    ensures RowOf(TrailsAfter(trails, w.store.current, TextOf(c), i, fate), w'.log, |w.log|, plan,
                  lost + (if fate.Uncommitted? then {TextOf(c)} else {}), i)
  {
    hide Effect, TextOf, IsPlanned, Replay, Recorded, RowOf;
    var trails' := TrailsAfter(trails, w.store.current, TextOf(c), i, fate);
    var lost' := lost + (if fate.Uncommitted? then {TextOf(c)} else {});
    var t, from := TextOf(c), w.store.current;
    assert w'.log[..|w.log|] == w.log;
    assert Holds(trails, w.log, w.store.heads, plan, main, lost, from);
    assert t !in lost;
    assert trails[from] + [] == trails[from] && (trails[from] + [i])[..|trails[from]|] == trails[from];
    assert BaseTrail(trails', t, lost') == trails[from];
    NotItself(NameOf(w.latest), t);
    RowIs(trails', w'.log, |w.log|, plan, lost', i, trails[from]);
  }

  lemma NotItself(b: Branch, t: Text)
    requires Earlier(b, t.order)
    ensures b != Some(t)
  {
    BeforeIrreflexive(t.order);
  }

  lemma RowIs<C>(trails: Trails, log: seq<Record>, k: nat, plan: seq<Planned<C>>, lost: set<Text>, i: nat,
                 base: seq<nat>)
    requires k < |log| && i < |plan| && log[k].text == NameAt(plan, i) && Some(log[k].text) in trails
    requires trails[Some(log[k].text)] == base + if log[k].text in lost then [] else [i]
    requires ValidTrail(plan, base) && forall x <- base :: Recorded(log[..k], NameAt(plan, x))
    requires Earlier(log[k].latest, log[k].text.order) && log[k].latest in trails && trails[log[k].latest] == base
    ensures RowOf(trails, log, k, plan, lost, i)
  {
    assert base + [] == base && (base + [i])[..|base|] == base;
  }

  lemma BookStep<C>(trails: Trails, w: World<C>, c: Coordinates, plan: seq<Planned<C>>, main: C, lost: set<Text>,
                    i: nat,
                    w': World<C>, fate: Fate)
    requires Open(w) && Book(trails, w.log, w.store.heads, plan, main, lost) && Placed(trails, w, plan)
    requires i < |plan| && NameAt(plan, i) == TextOf(c) && c.kind.Step? && !Recorded(w.log, TextOf(c))
    requires Earlier(NameOf(w.latest), c.order) && StepEffects(w, c, plan[i].writes, w', fate)
    ensures var trails' := TrailsAfter(trails, w.store.current, TextOf(c), i, fate);
            var lost' := lost + (if fate.Uncommitted? then {TextOf(c)} else {});
            Book(trails', w'.log, w'.store.heads, plan, main, lost')
  {
    hide Effect, TextOf, Replay, Recorded, RowOf, ValidTrail, Holds;
    var trails' := TrailsAfter(trails, w.store.current, TextOf(c), i, fate);
    var lost' := lost + (if fate.Uncommitted? then {TextOf(c)} else {});
    forall b | b in w'.store.heads ensures b in trails' && Holds(trails', w'.log, w'.store.heads, plan, main, lost', b) {
      HoldsAfter(trails, w, c, plan, main, lost, i, w', fate, b);
    }
    forall k | 0 <= k < |w'.log| && w'.log[k].text.kind.Step?
      ensures exists j | 0 <= j < |plan| :: RowOf(trails', w'.log, k, plan, lost', j)
    {
      RowsAfter(trails, w, c, plan, main, lost, i, w', fate, k);
    }
    forall t | t in lost' ensures t.kind.Step? && Recorded(w'.log, t) {
      if t in lost { RecordedLater(w.log, w'.log[|w.log|..], t); }
      if fate.Uncommitted? { RecordedAppend(w.log, w'.log[|w.log|], TextOf(c)); }
      assert w'.log == w.log + w'.log[|w.log|..] && (fate.Uncommitted? ==> w'.log == w.log + [w'.log[|w.log|]]);
    }
  }

  // ------------------------------------------------------------------------- the induction

  ghost predicate Booked<C>(trails: Trails, w: World<C>, plan: seq<Planned<C>>, main: C, before: set<Text>) {
    Book(trails, w.log, w.store.heads, plan, main, before + LostIn(w))
  }

  /** `p` is about to be run in a session of which the book is kept. */
  ghost predicate InBook<C>(p: Program<C>, w: World<C>, trails: Trails, plan: seq<Planned<C>>, main: C,
                            before: set<Text>) {
    && Safe(w) && CanHaveSubtasks(Top(w).kind) && WellPlanned(plan) && StablePlan(plan)
    && Follows(p, Top(w).path, Top(w).order, plan) && InStep(p, w)
    && Booked(trails, w, plan, main, before) && Placed(trails, w, plan)
  }

  ghost predicate Left<C>(out: (World<C>, Outcome), trails: Trails, plan: seq<Planned<C>>, main: C,
                          before: set<Text>, order: seq<int>)
    requires Open(out.0)
  {
    && Booked(trails, out.0, plan, main, before)
    && (!Killed(out.1) ==> Placed(trails, out.0, plan))
    && (!out.1.Raised? ==> Top(out.0).order == order)
  }

  /** A submission, a frame, a count or a flag changes nothing in the book. */
  lemma SameBook<C>(trails: Trails, w: World<C>, w': World<C>, plan: seq<Planned<C>>, main: C, before: set<Text>)
    requires Booked(trails, w, plan, main, before) && w'.log == w.log && w'.store.heads == w.store.heads && w'.lost == w.lost
    ensures Booked(trails, w', plan, main, before)
    ensures Placed(trails, w, plan) && w'.latest == w.latest && w'.store.current == w.store.current ==> Placed(trails, w', plan)
  {
    hide Book, IsPlanned, TextOf;
  }

  lemma PlannedLoads<C>(trails: Trails, w: World<C>, plan: seq<Planned<C>>, main: C, before: set<Text>, row: Record)
    requires Booked(trails, w, plan, main, before) && StablePlan(plan) && row in w.log && Load(row).Some?
    ensures NameOf(Load(row).value.latest) == row.latest
    ensures row.text.kind.Step? ==> TextOf(Load(row).value.coordinates) == row.text
  {
    hide TextOf, Reload, Holds;
    if row.latest.Some? { var j :| 0 <= j < |plan| && NameAt(plan, j) == row.latest.value; }
    if row.text.kind.Step? {
      var k :| 0 <= k < |w.log| && w.log[k] == row;
      var i :| 0 <= i < |plan| && RowOf(trails, w.log, k, plan, before + LostIn(w), i);
      assert Stable(NameAt(plan, i));
    }
  }

  /** A skipped task puts the session on the branch of its latest step. */
  lemma SkipBooked<C>(key: Key, kind: Kind, body: Program<C>, w: World<C>, trails: Trails, plan: seq<Planned<C>>,
                      main: C, before: set<Text>)
    requires Safe(w) && CanHaveSubtasks(Top(w).kind) && StablePlan(plan) && !(|w.stack| == 1 && key.Index?)
    requires Booked(trails, w, plan, main, before) && Placed(trails, w, plan)
    requires FindLog(w.log, CoordinatesOf(w, key, kind)).Found? && (kind.Step? || w.skipStages)
    requires kind.Step? ==> IsPlanned(TextOf(CoordinatesOf(w, key, kind)), plan, |plan|)
    ensures var out := Execute(key, kind, body, w);
            Left(out, trails, plan, main, before, Bump(Top(w).order))
  {
    hide WellFramed, SafeDisk, Increasing, AllBefore, Immutable, Advanced, Later, TextOf, FindLog, Skip, Book, Load,
         StablePlan, IsPlanned, Clean, Kept, Earlier, Connected, Booked;
    var c := CoordinatesOf(w, key, kind);
    var row := FoundIsInLog(w.log, c);
    PlannedLoads(trails, w, plan, main, before, row);
    SkipSafe(w, c, row);
    LatestPlanned(trails, w, plan, main, before, row);
    SameBook(trails, w, Execute(key, kind, body, w).0, plan, main, before);
  }

  lemma LatestPlanned<C>(trails: Trails, w: World<C>, plan: seq<Planned<C>>, main: C, before: set<Text>, row: Record)
    requires Booked(trails, w, plan, main, before) && row in w.log
    ensures row.latest.Some? ==> IsPlanned(row.latest.value, plan, |plan|)
    ensures trails.Keys == w.store.heads.Keys
  {
    hide Holds, RowOf;
  }

  /** A step that is run. */
  lemma StepBooked<C>(key: Key, body: Program<C>, w: World<C>, trails: Trails, plan: seq<Planned<C>>, main: C,
                      before: set<Text>, i: nat)
    returns (trails': Trails)
    requires Safe(w) && CanHaveSubtasks(Top(w).kind) && !(|w.stack| == 1 && key.Index?)
    requires Booked(trails, w, plan, main, before) && Placed(trails, w, plan)
    requires i < |plan| && plan[i] == Planned(CoordinatesOf(w, key, Step), Writes(body))
    requires FindLog(w.log, CoordinatesOf(w, key, Step)).Missing?
    ensures Left(Execute(key, Step, body, w), trails', plan, main, before, Bump(Top(w).order))
  {
    hide WellFramed, SafeDisk, Increasing, AllBefore, Immutable, Advanced, Later, TextOf, FindLog, Book, RunTask,
         Execute, Writes, Clean, StepEffects,
         Effect, TrailsAfter;
    var c := CoordinatesOf(w, key, Step);
    NotFound(w.log, c);
    UnrecordedStepRuns(key, body, w);
    RunTaskSafe(c, body, w);
    var fate := StepOutcome(c, body, w);
    var out := RunTask(c, body, Submit(w, c));
    assert !Recorded(w.log, TextOf(c));
    BookStep(trails, w, c, plan, main, before + LostIn(w), i, out.0, fate);
    trails' := TrailsAfter(trails, w.store.current, TextOf(c), i, fate);
    StepLost(w, c, plan[i].writes, out.0, fate, before);
    StepPlaced(trails, w, c, plan, i, out, fate);
    SameBook(trails', out.0, SetLatest(out, Some(c)).0, plan, main, before);
  }

  lemma StepLost<C>(w: World<C>, c: Coordinates, writes: seq<C -> C>, w': World<C>, fate: Fate, before: set<Text>)
    requires Open(w) && StepEffects(w, c, writes, w', fate)
    ensures before + LostIn(w') == before + LostIn(w) + (if fate.Uncommitted? then {TextOf(c)} else {})
  {
    hide TextOf, Effect;
  }

  lemma StepPlaced<C>(trails: Trails, w: World<C>, c: Coordinates, plan: seq<Planned<C>>, i: nat,
                      out: (World<C>, Outcome), fate: Fate)
    requires Safe(w) && Placed(trails, w, plan) && i < |plan| && NameAt(plan, i) == TextOf(c) && c.order == Top(w).order
    requires StepEffects(w, c, plan[i].writes, out.0, fate) && (out.1.Finished? <==> fate.Committed?)
    ensures Placed(TrailsAfter(trails, w.store.current, TextOf(c), i, fate), SetLatest(out, Some(c)).0, plan)
  {
    hide TextOf, WellFramed, SafeDisk, Increasing, AllBefore, Effect, Clean;
    NotItself(NameOf(w.latest), TextOf(c));
    assert IsPlanned(NameAt(plan, i), plan, |plan|);
    assert trails[w.store.current] + [] == trails[w.store.current];
  }

  /** A stage that is run. */
  lemma StageBooked<C>(c: Coordinates, body: Program<C>, w: World<C>, trails: Trails, plan: seq<Planned<C>>, main: C,
                       before: set<Text>)
    returns (trails': Trails)
    requires Submitted(w, c) && c.kind.Stage? && WellPlanned(plan) && StablePlan(plan)
    requires Booked(trails, w, plan, main, before) && Placed(trails, w, plan)
    requires Follows(body, c.path, c.order + [0], plan) && InStep(body, Enter(Submit(w, c), c).0)
    ensures Left(RunTask(c, body, Submit(w, c)), trails', plan, main, before, Bump(c.order))
    decreases body, 2
  {
    hide WellFramed, SafeDisk, Increasing, AllBefore, Immutable, Advanced, Later, WellPlanned, StablePlan, Run,
         Follows, InStep, Conclude, Earlier,
         Clean, TextOf, Book, Enter, Placed;
    StageOpened(c, body, w, trails, plan, main, before);
    var w1 := Enter(Submit(w, c), c).0;
    trails' := RunBooked(body, w1, trails, plan, main, before);
    RunSafe(body, w1);
    var (w2, r) := Run(body, w1);
    StageBodySafe(w, c, w1, w2, r);
    StageClosed(c, w, w2, r, trails', plan, main, before);
  }

  lemma StageOpened<C>(c: Coordinates, body: Program<C>, w: World<C>, trails: Trails, plan: seq<Planned<C>>, main: C,
                       before: set<Text>)
    requires Submitted(w, c) && c.kind.Stage? && WellPlanned(plan) && StablePlan(plan)
    requires Booked(trails, w, plan, main, before) && Placed(trails, w, plan)
    requires Follows(body, c.path, c.order + [0], plan) && InStep(body, Enter(Submit(w, c), c).0)
    ensures var (w1, r1) := Enter(Submit(w, c), c);
            r1 == Finished && Inside(w, c, w1) && InBook(body, w1, trails, plan, main, before)
  {
    hide WellFramed, SafeDisk, Increasing, AllBefore, Immutable, WellPlanned, StablePlan, Follows, InStep, Earlier,
         Clean, TextOf, Book;
    EnterSafe(w, c);
    var w1 := Enter(Submit(w, c), c).0;
    assert w1 == Submit(w, c).(stack := w1.stack) && Top(w1) == Frame(c.path, c.order + [0], Some(Stage));
  }

  /** The stage is logged if its body came to its end, and its frame is popped. */
  lemma StageClosed<C>(c: Coordinates, w: World<C>, w2: World<C>, r: Outcome, trails: Trails, plan: seq<Planned<C>>,
                       main: C, before: set<Text>)
    requires Submitted(w, c) && c.kind.Stage? && Open(w2) && !r.Swallowed? && !ProtocolError(r)
    requires !Killed(r) ==> Inside(w, c, w2)
    requires Booked(trails, w2, plan, main, before) && (!Killed(r) ==> Placed(trails, w2, plan))
    ensures Left(Conclude(w2, c, r), trails, plan, main, before, Bump(c.order))
  {
    hide WellFramed, SafeDisk, Increasing, AllBefore, Immutable, Later, Safe, Clean, Earlier, TextOf, Book,
         IsPlanned, Conclude,
         ProtocolError, Advanced, Kept;
    InsideIsDeeper(w, c, w2, r);
    StagePopped(w, c, w2, r);
    var (w3, r3) := Conclude(w2, c, r);
    StageBookStays(c, w2, r, trails, plan, main, before);
    SameBook(trails, AfterBody(w2, c, r).(lost := w2.lost), w3, plan, main, before);
    if !Killed(OfBlock(r)) { ConcludeSafe(w, c, w2, r); } else { ConcludeKilled(w2, c, r); }
  }

  lemma StageBookStays<C>(c: Coordinates, w: World<C>, r: Outcome, trails: Trails, plan: seq<Planned<C>>, main: C,
                          before: set<Text>)
    requires Open(w) && c.kind.Stage? && Booked(trails, w, plan, main, before) && (!Killed(r) ==> Placed(trails, w, plan))
    ensures Booked(trails, AfterBody(w, c, r).(lost := w.lost), plan, main, before)
  {
    hide Book, TextOf, IsPlanned;
    if Completed(r) {
      BookStage(trails, w.log, w.store.heads, plan, main, before + LostIn(w), Record(TextOf(c), w.env.clock(|w.log|), NameOf(w.latest)));
    }
  }

  // --------------------------------------------------------------------------------- calls

  lemma CallBooked<C>(key: Key, kind: Kind, body: Program<C>, next: Program<C>, w: World<C>, trails: Trails,
                      plan: seq<Planned<C>>, main: C, before: set<Text>)
    returns (trails': Trails)
    requires InBook(Call(key, kind, body, next), w, trails, plan, main, before)
    ensures Open(w) && Left(Execute(key, kind, body, w), trails', plan, main, before, Bump(Top(w).order))
    decreases body, 3
  {
    hide WellFramed, SafeDisk, Increasing, AllBefore, Immutable, Advanced, Later, WellPlanned, StablePlan, Run,
         RunTask, Earlier, Clean, TextOf,
         Book, Enter, Cursor, FindLog, Skip;
    trails' := trails;
    var c := CoordinatesOf(w, key, kind);
    var found := FindLog(w.log, c);
    if !CanHaveSubtasks(Top(w).kind) || (|w.stack| == 1 && key.Index?) {
    } else if found.Illegible? || found.Inconsistent? {
      SameBook(trails, w, Submit(w, c), plan, main, before);
    } else if found.Found? && (kind.Step? || w.skipStages) {
      if kind.Step? { assert NameAt(plan, Cursor(plan, Top(w).order)) == TextOf(c); }
      SkipBooked(key, kind, body, w, trails, plan, main, before);
    } else if kind.Step? {
      trails' := StepBooked(key, body, w, trails, plan, main, before, Cursor(plan, Top(w).order));
    } else {
      trails' := StageBooked(c, body, w, trails, plan, main, before);
    }
  }

  /** What follows something that did not raise. */
  lemma ThenBooked<C>(r: Outcome, next: Program<C>, w1: World<C>, order: seq<int>, trails: Trails,
                      plan: seq<Planned<C>>, main: C, before: set<Text>)
    returns (trails': Trails)
    requires InBook(next, w1, trails, plan, main, before) && Top(w1).order == order
    ensures order != [] && Left(Then(r, Run(next, w1)), trails', plan, main, before, Advance(order, Width(next)))
    decreases next, 4
  {
    hide Booked, Placed, Safe, WellPlanned, StablePlan, Follows, InStep, Run;
    trails' := RunBooked(next, w1, trails, plan, main, before);
  }

  /** The world after a part of a program, when the next part is about to be run. */
  lemma NextInBook<C>(w: World<C>, w1: World<C>, next: Program<C>, trails: Trails, plan: seq<Planned<C>>, main: C,
                      before: set<Text>)
    requires Safe(w) && CanHaveSubtasks(Top(w).kind) && WellPlanned(plan) && StablePlan(plan)
    requires Kept(w, w1, Finished) && Open(w1) && Follows(next, Top(w).path, Top(w1).order, plan) && InStep(next, w1)
    requires Booked(trails, w1, plan, main, before) && Placed(trails, w1, plan)
    ensures InBook(next, w1, trails, plan, main, before)
  {
    hide Book, WellPlanned, StablePlan, Follows, InStep, Placed, SafeDisk, WellFramed, Increasing, AllBefore;
  }

  lemma KeptIsFinished<C>(w: World<C>, w1: World<C>, r: Outcome)
    requires Kept(w, w1, r) && !Killed(r)
    ensures Kept(w, w1, Finished) && Open(w1)
  {
    hide SafeDisk, WellFramed, Increasing, AllBefore, Immutable;
  }

  lemma InScope<C>(skip: bool, body: Program<C>, next: Program<C>, w: World<C>, trails: Trails,
                   plan: seq<Planned<C>>, main: C, before: set<Text>)
    requires InBook(Scope(skip, body, next), w, trails, plan, main, before)
    ensures Open(w) && Safe(w) && Safe(w.(skipStages := skip)) && CanHaveSubtasks(Top(w).kind)
    ensures InBook(body, w.(skipStages := skip), trails, plan, main, before)
  {
    hide WellFramed, SafeDisk, Increasing, AllBefore, WellPlanned, StablePlan, Earlier, Clean, Book, Advance,
         IsPlanned, AfterBlock;
  }

  lemma ScopeBooked<C>(skip: bool, body: Program<C>, next: Program<C>, w: World<C>, trails: Trails,
                       plan: seq<Planned<C>>, main: C, before: set<Text>)
    returns (trails': Trails)
    requires InBook(Scope(skip, body, next), w, trails, plan, main, before)
    ensures Open(w) && Left(Run(Scope(skip, body, next), w), trails', plan, main, before, Advance(Top(w).order, Width(body) + Width(next)))
    decreases Scope(skip, body, next), 0
  {
    hide WellFramed, SafeDisk, Increasing, AllBefore, Immutable, Advanced, Later, WellPlanned, StablePlan, Run,
         Earlier, Clean, Book, Advance,
         Kept, IsPlanned, InBook, InStep, Follows, Safe, Placed, Booked;
    InScope(skip, body, next, w, trails, plan, main, before);
    var inside := w.(skipStages := skip);
    trails' := RunBooked(body, inside, trails, plan, main, before);
    RunSafe(body, inside);
    var (w1, r1) := Run(body, inside);
    BlockSafe(w, skip, w1, r1);
    RunScope(skip, body, next, w);
    var (w2, r) := AfterBlock(w, skip, body);
    SameBook(trails', w1, w2, plan, main, before);
    if !r.Raised? {
      KeptIsFinished(w, w2, r);
      AfterScopeInBook(skip, body, next, w, w2, trails, trails', plan, main, before);
      trails' := ThenBooked(r, next, w2, Top(w2).order, trails', plan, main, before);
      AdvanceAdds(Top(w).order, Width(body), Width(next));
    }
  }

  lemma AfterScopeInBook<C>(skip: bool, body: Program<C>, next: Program<C>, w: World<C>, w2: World<C>,
                            trails: Trails, trails': Trails,
                            plan: seq<Planned<C>>, main: C, before: set<Text>)
    requires InBook(Scope(skip, body, next), w, trails, plan, main, before)
    requires Kept(w, w2, Finished) && Open(w2) && w2 == AfterBlock(w, skip, body).0 && !AfterBlock(w, skip, body).1.Raised?
    requires Top(w2).order == Advance(Top(w).order, Width(body))
    requires Booked(trails', w2, plan, main, before) && Placed(trails', w2, plan)
    ensures InBook(next, w2, trails', plan, main, before)
  {
    hide Book, WellPlanned, StablePlan, Placed, SafeDisk, WellFramed, Increasing, AllBefore, Kept, AfterBlock,
         Booked, Clean, Earlier, Width, Advance;
    NextInBook(w, w2, next, trails', plan, main, before);
  }

  lemma TryBooked<C>(body: Program<C>, next: Program<C>, w: World<C>, trails: Trails, plan: seq<Planned<C>>, main: C,
                     before: set<Text>)
    returns (trails': Trails)
    requires InBook(Try(body, next), w, trails, plan, main, before)
    ensures Open(w) && Left(Run(Try(body, next), w), trails', plan, main, before, Advance(Top(w).order, Width(body) + Width(next)))
    decreases Try(body, next), 0
  {
    hide WellFramed, SafeDisk, Increasing, AllBefore, Immutable, Advanced, Later, WellPlanned, StablePlan, Run,
         Earlier, Clean, Book, Advance,
         Kept, IsPlanned;
    trails' := RunBooked(body, w, trails, plan, main, before);
    RunSafe(body, w);
    var (w1, r1) := Run(body, w);
    RunTry(body, next, w);
    if !Killed(OfBlock(r1)) {
      KeptIsFinished(w, w1, r1);
      NextInBook(w, w1, next, trails', plan, main, before);
      trails' := ThenBooked(OfBlock(r1), next, w1, Top(w1).order, trails', plan, main, before);
      AdvanceAdds(Top(w).order, Width(body), Width(next));
    }
  }

  lemma CallThenBooked<C>(key: Key, kind: Kind, body: Program<C>, next: Program<C>, w: World<C>, trails: Trails,
                          plan: seq<Planned<C>>, main: C, before: set<Text>)
    returns (trails': Trails)
    requires InBook(Call(key, kind, body, next), w, trails, plan, main, before)
    ensures Open(w) && Left(Run(Call(key, kind, body, next), w), trails', plan, main, before, Advance(Top(w).order, 1 + Width(next)))
    decreases Call(key, kind, body, next), 0
  {
    hide WellFramed, SafeDisk, Increasing, AllBefore, Immutable, Advanced, Later, WellPlanned, StablePlan, Run,
         Earlier, Clean, Book, Advance, Bump,
         Kept, IsPlanned, Execute, Cursor, Runs, Enter;
    trails' := CallBooked(key, kind, body, next, w, trails, plan, main, before);
    ExecuteSafe(key, kind, body, w);
    RunCall(key, kind, body, next, w);
    var (w1, r) := Execute(key, kind, body, w);
    if !r.Raised? {
      KeptIsFinished(w, w1, r);
      NextInBook(w, w1, next, trails', plan, main, before);
      trails' := ThenBooked(r, next, w1, Top(w1).order, trails', plan, main, before);
      AdvanceAdds(Top(w).order, 1, Width(next));
    }
  }

  /** Whatever is caught or swallowed: as long as no frame that goes on leaves out a task,
      every branch holds the effects of recorded steps, each on top of what the branch of the
      latest step before it held. */
  lemma {:induction false} RunBooked<C>(p: Program<C>, w: World<C>, trails: Trails, plan: seq<Planned<C>>, main: C,
                                        before: set<Text>)
    returns (trails': Trails)
    requires InBook(p, w, trails, plan, main, before)
    ensures Open(w) && Left(Run(p, w), trails', plan, main, before, Advance(Top(w).order, Width(p)))
    decreases p, 1
  {
    hide WellFramed, SafeDisk, Increasing, AllBefore, Cursor, WellPlanned, Follows, StablePlan, Book, Placed, InStep,
         Execute, Clean, Earlier,
         Booked, AfterBlock;
    trails' := trails;
    match p
    case End => AdvanceAdds(Top(w).order, 0, 0);
    case Struck(cause) => AdvanceAdds(Top(w).order, 0, 0);
    case Raise(exn, _) =>
    case Write(_, _) =>
    case Scope(skip, body, next) => trails' := ScopeBooked(skip, body, next, w, trails, plan, main, before);
    case Try(body, next) => trails' := TryBooked(body, next, w, trails, plan, main, before);
    case Call(key, kind, body, next) => trails' := CallThenBooked(key, kind, body, next, w, trails, plan, main, before);
  }

  // ------------------------------------------------------------------------------ sessions

  /** A session of a program with this plan that submits its tasks with their planned
      coordinates. */
  ghost predicate FaithfulSession<C>(p: Program<C>, disk: Disk<C>, env: Env, plan: seq<Planned<C>>) {
    None in disk.heads && Plan(p) == plan && InStep(p, Fresh(disk, env))
  }

  ghost predicate Faithful<C>(history: seq<Attempt<C>>, start: Disk<C>, plan: seq<Planned<C>>)
    requires None in start.heads
    decreases |history|
  {
    history != [] ==>
      var (last, before) := (history[|history| - 1], history[..|history| - 1]);
      Faithful(before, start, plan) && FaithfulSession(last.program, After(before, start), last.env, plan)
  }

  /** Steps that were struck between their log insertion and their commit. */
  ghost function LostSteps<C>(history: seq<Attempt<C>>, start: Disk<C>): set<Text>
    requires None in start.heads
    decreases |history|
  {
    if history == [] then {}
    else
      var (last, before) := (history[|history| - 1], history[..|history| - 1]);
      LostSteps(before, start) + LostIn(Session(last.program, After(before, start), last.env).0)
  }

  lemma FreshInBook<C>(p: Program<C>, disk: Disk<C>, env: Env, trails: Trails, main: C, before: set<Text>)
    requires FaithfulSession(p, disk, env, Plan(p)) && StablePlan(Plan(p)) && SafeDisk(disk.log, disk.heads)
    requires Book(trails, disk.log, disk.heads, Plan(p), main, before)
    ensures InBook(p, Fresh(disk, env), trails, Plan(p), main, before)
    ensures Booked(trails, Fresh(disk, env), Plan(p), main, before) && Placed(trails, Fresh(disk, env), Plan(p))
  {
    hide Book, Plan, StablePlan, InStep, WellPlanned, Follows, SafeDisk, WellFramed;
    FollowsOwnPlan(p);
    FreshIsSafe(disk, env);
    var w := Fresh(disk, env);
    assert before + LostIn(w) == before;
    BookHasMain(trails, disk, Plan(p), main, before);
  }

  lemma BookHasMain<C>(trails: Trails, disk: Disk<C>, plan: seq<Planned<C>>, main: C, before: set<Text>)
    requires Book(trails, disk.log, disk.heads, plan, main, before)
    ensures None in trails
  {
    hide Holds, RowOf;
  }

  lemma SessionBooked<C>(p: Program<C>, disk: Disk<C>, env: Env, trails: Trails, main: C,
                         before: set<Text>) returns (trails': Trails)
    requires FaithfulSession(p, disk, env, Plan(p)) && StablePlan(Plan(p)) && SafeDisk(disk.log, disk.heads)
    requires Book(trails, disk.log, disk.heads, Plan(p), main, before)
    ensures var (w, r) := Session(p, disk, env);
            && Booked(trails', w, Plan(p), main, before)
            && (!Killed(r) ==> Placed(trails', w, Plan(p)))
  {
    hide Book, Plan, StablePlan, InBook, Run, SafeDisk, InStep, CanOpen, Placed, Booked;
    FreshInBook(p, disk, env, trails, main, before);
    trails' := trails;
    if CanOpen(disk.marked) { trails' := RunBooked(p, Fresh(disk, env), trails, Plan(p), main, before); }
  }

  lemma FirstBook<C>(plan: seq<Planned<C>>, main: C)
    ensures Book(map[None := []], FirstDisk(main).log, FirstDisk(main).heads, plan, main, {})
  {
  }

  lemma {:induction false} HistoryBooked<C>(history: seq<Attempt<C>>, plan: seq<Planned<C>>,
                                            main: C) returns (trails: Trails)
    requires Faithful(history, FirstDisk(main), plan) && StablePlan(plan)
    ensures var disk := After(history, FirstDisk(main));
            Book(trails, disk.log, disk.heads, plan, main, LostSteps(history, FirstDisk(main)))
    decreases |history|
  {
    hide Book, StablePlan, InStep, Session, SafeDisk;
    var start := FirstDisk(main);
    if history == [] {
      trails := map[None := []];
      FirstBook(plan, main);
    } else {
      var (last, before) := (history[|history| - 1], history[..|history| - 1]);
      trails := HistoryBooked(before, plan, main);
      FirstDiskIsSafe(main);
      HistoryIsSafe(before, start);
      trails := SessionBooked(last.program, After(before, start), last.env, trails, main, LostSteps(before, start));
    }
  }
}
