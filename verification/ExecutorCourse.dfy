/** When the log of a program is on course, and what programs have to do with it. */
module ExecutorCourse {
  import opened ExecutorModel
  import opened TaskNames
  import opened TaskSemantics
  import opened ExecutorSafety
  import opened ExecutorPlan

  // ---------------------------------------------------------------------------- the log

  function NameAt<C>(plan: seq<Planned<C>>, i: nat): Text
    requires i < |plan|
  {
    TextOf(plan[i].coordinates)
  }

  ghost predicate Recorded(log: seq<Record>, t: Text) {
    exists r <- log :: r.text == t
  }

  ghost predicate IsPlanned<C>(t: Text, plan: seq<Planned<C>>, n: nat)
    requires n <= |plan|
  {
    exists i | 0 <= i < n :: NameAt(plan, i) == t
  }

  /** Row `k` is that of step `i`, made when the step before it was the latest one, and had
      its own row. */
  ghost predicate RightAfter<C>(log: seq<Record>, k: nat, plan: seq<Planned<C>>, i: nat)
    requires k < |log| && i < |plan|
  {
    && log[k].text == NameAt(plan, i) && log[k].latest == At(plan, i)
    && (i > 0 ==> Recorded(log[..k], NameAt(plan, i - 1)))
  }

  /** Every step that is recorded was recorded right after the one planned before it. */
  ghost predicate OnCourse<C>(log: seq<Record>, plan: seq<Planned<C>>) {
    forall k | 0 <= k < |log| && log[k].text.kind.Step? :: exists i | 0 <= i < |plan| :: RightAfter(log, k, plan, i)
  }

  /** A stage record remembers the last step before the end of the stage, and that step is
      one of the first `n`. */
  ghost predicate Accounted<C>(r: Record, plan: seq<Planned<C>>, n: nat)
    requires n <= |plan|
  {
    r.text.order != [] && var end := Cursor(plan, Bump(r.text.order)); end <= n && r.latest == At(plan, end)
  }

  ghost predicate StagesAccounted<C>(log: seq<Record>, plan: seq<Planned<C>>, n: nat)
    requires n <= |plan|
  {
    forall r <- log | r.text.kind.Stage? :: Accounted(r, plan, n)
  }

  /** The latest steps that rows remember read back under their own names. */
  ghost predicate LatestStable(log: seq<Record>) {
    forall r <- log | r.latest.Some? :: Stable(r.latest.value)
  }

  /** The recorded steps are the first `n` of the plan, each recorded right after the one
      before; stage records tell the same if `stages`. */
  ghost predicate OnDisk<C>(log: seq<Record>, plan: seq<Planned<C>>, n: nat, stages: bool) {
    && n <= |plan| && OnCourse(log, plan) && LatestStable(log)
    && (forall i | 0 <= i < n :: Recorded(log, NameAt(plan, i)))
    && (forall r <- log | r.text.kind.Step? :: IsPlanned(r.text, plan, n))
    && (stages ==> StagesAccounted(log, plan, n))
  }

  ghost predicate StablePlan<C>(plan: seq<Planned<C>>) {
    forall i | 0 <= i < |plan| :: Stable(NameAt(plan, i))
  }

  /** Steps with stable names can be committed. */
  lemma StableCommits(c: Coordinates)
    requires Stable(TextOf(c))
    ensures !CannotCommit(c)
  {
  }

  lemma PlannedCommits<C>(plan: seq<Planned<C>>, i: nat)
    requires StablePlan(plan) && i < |plan|
    ensures !CannotCommit(plan[i].coordinates)
  {
    hide Stable, CannotCommit;
    assert Stable(NameAt(plan, i));
    StableCommits(plan[i].coordinates);
  }

  // -------------------------------------------------------------------------- stable keys

  ghost predicate StablePath(path: seq<Key>) {
    forall k <- path :: StableKey(k)
  }

  ghost predicate StableKeys<C>(p: Program<C>) {
    match p
    case End => true
    case Struck(_) => true
    case Write(_, next) => StableKeys(next)
    case Raise(_, next) => StableKeys(next)
    case Scope(_, body, next) => StableKeys(body) && StableKeys(next)
    case Try(body, next) => StableKeys(body) && StableKeys(next)
    case Call(key, _, body, next) => StableKey(key) && StableKeys(body) && StableKeys(next)
  }

  lemma StableTask(path: seq<Key>, key: Key, order: seq<int>, kind: Kind)
    requires StablePath(path) && StableKey(key) && order != []
    ensures StablePath(path + [key]) && Stable(TextOf(Coordinates(path + [key], order, kind)))
  {
    hide StableKey, Stable, TextOf;
    StableByKeys(Coordinates(path + [key], order, kind));
  }

  lemma {:induction false} StepsStable<C>(p: Program<C>, path: seq<Key>, order: seq<int>)
    requires order != [] && StableKeys(p) && StablePath(path)
    ensures forall s <- Steps(p, path, order) :: Stable(TextOf(s.coordinates))
  {
    hide StableKey, Stable, TextOf;
    match p
    case End =>
    case Struck(_) =>
    case Write(_, next) => StepsStable(next, path, order);
    case Raise(_, next) => StepsStable(next, path, order);
    case Scope(_, body, next) =>
      StepsStable(body, path, order);
      StepsStable(next, path, Advance(order, Width(body)));
    case Try(body, next) =>
      StepsStable(body, path, order);
      StepsStable(next, path, Advance(order, Width(body)));
    case Call(key, kind, body, next) =>
      StableTask(path, key, order, Step);
      if kind.Stage? { StepsStable(body, path + [key], order + [0]); }
      StepsStable(next, path, Bump(order));
  }

  /** A program with stable keys plans steps with stable names. */
  lemma StableProgram<C>(p: Program<C>)
    requires StableKeys(p)
    ensures StablePlan(Plan(p))
  {
    StepsStable(p, [], [0]);
    forall i | 0 <= i < |Plan(p)| ensures Stable(NameAt(Plan(p), i)) { assert Plan(p)[i] in Plan(p); }
  }

  // ------------------------------------------------------------------------ names in a plan

  /** Steps of a plan have different names. */
  lemma NamesDiffer<C>(plan: seq<Planned<C>>, i: nat, j: nat)
    requires WellPlanned(plan) && i < |plan| && j < |plan| && NameAt(plan, i) == NameAt(plan, j)
    ensures i == j
  {
    if i != j {
      var (a, b) := if i < j then (i, j) else (j, i);
      assert Before(plan[a].coordinates.order, plan[b].coordinates.order);
      BeforeIrreflexive(plan[a].coordinates.order);
    }
  }

  lemma {:induction false} CursorMonotone<C>(plan: seq<Planned<C>>, a: seq<int>, b: seq<int>)
    requires a == b || Before(a, b)
    ensures Cursor(plan, a) <= Cursor(plan, b)
    decreases |plan|
  {
    if plan != [] {
      CursorMonotone(plan[..|plan| - 1], a, b);
      var o := plan[|plan| - 1].coordinates.order;
      if Before(o, a) && a != b { BeforeTransitive(o, a, b); }
    }
  }

  // --------------------------------------------------------------------- how the log grows

  lemma RecordedAppend(log: seq<Record>, r: Record, t: Text)
    ensures Recorded(log + [r], t) <==> Recorded(log, t) || r.text == t
  {
    assert forall q <- log :: q in log + [r];
    assert r in log + [r];
  }

  lemma CourseGrows<C>(log: seq<Record>, r: Record, plan: seq<Planned<C>>, i: nat)
    requires OnCourse(log, plan)
    requires r.text.kind.Step? ==> i < |plan| && RightAfter(log + [r], |log|, plan, i)
    ensures OnCourse(log + [r], plan)
  {
    hide Recorded;
    var log' := log + [r];
    forall k | 0 <= k < |log'| && log'[k].text.kind.Step? ensures exists i | 0 <= i < |plan| :: RightAfter(log', k, plan, i) {
      if k < |log| {
        var j :| 0 <= j < |plan| && RightAfter(log, k, plan, j);
        assert log'[..k] == log[..k];
        assert RightAfter(log', k, plan, j);
      }
    }
  }

  /** A stage record joins the log. */
  lemma StageJoins<C>(log: seq<Record>, plan: seq<Planned<C>>, n: nat, r: Record, stages: bool)
    requires OnDisk(log, plan, n, stages) && r.text.kind.Stage? && (r.latest.Some? ==> Stable(r.latest.value))
    requires stages ==> Accounted(r, plan, n)
    ensures OnDisk(log + [r], plan, n, stages)
  {
    hide Accounted, Recorded, OnCourse, Stable;
    CourseGrows(log, r, plan, 0);
    forall i | 0 <= i < n ensures Recorded(log + [r], NameAt(plan, i)) { RecordedAppend(log, r, NameAt(plan, i)); }
  }

  /** The record of the next step joins the log. */
  lemma StepJoins<C>(log: seq<Record>, plan: seq<Planned<C>>, n: nat, r: Record, stages: bool)
    requires OnDisk(log, plan, n, stages) && WellPlanned(plan) && StablePlan(plan) && n < |plan|
    requires r.text == NameAt(plan, n) && r.latest == At(plan, n)
    ensures OnDisk(log + [r], plan, n + 1, stages)
  {
    hide Recorded, OnCourse, Stable, Cursor;
    assert (log + [r])[..|log|] == log;
    CourseGrows(log, r, plan, n);
    forall i | 0 <= i < n + 1 ensures Recorded(log + [r], NameAt(plan, i)) { RecordedAppend(log, r, NameAt(plan, i)); }
    forall q | q in log + [r] && q.text.kind.Step? ensures IsPlanned(q.text, plan, n + 1) {
      if q in log {
        var i :| 0 <= i < n && NameAt(plan, i) == q.text;
        assert NameAt(plan, i) == q.text;
      } else {
        assert NameAt(plan, n) == q.text;
      }
    }
    forall q | q in log + [r] && q.latest.Some? ensures Stable(q.latest.value) {
      if q !in log { assert Stable(NameAt(plan, n - 1)); }
    }
    if stages {
      forall q | q in log + [r] && q.text.kind.Stage? ensures Accounted(q, plan, n + 1) { assert Accounted(q, plan, n); }
    }
  }

  // -------------------------------------------------------------------- leaving nothing out

  /** The task gets as far as its body. */
  ghost predicate Runs<C>(w: World<C>, key: Key, kind: Kind)
    requires Open(w)
  {
    && CanHaveSubtasks(Top(w).kind) && !(|w.stack| == 1 && key.Index?)
    && var found := FindLog(w.log, CoordinatesOf(w, key, kind));
       found.Missing? || (found.Found? && kind.Stage? && !w.skipStages)
  }

  /** No frame that goes on leaves out a task: wherever a handler carries on, the tasks of its
      block have been counted. So every task is submitted with its planned coordinates. */
  ghost predicate InStep<C>(p: Program<C>, w: World<C>)
    requires Open(w)
    decreases p
  {
    match p
    case End => true
    case Struck(_) => true
    case Write(_, _) => true
    case Raise(_, _) => true
    case Scope(skip, body, next) =>
      && InStep(body, w.(skipStages := skip))
      && var (w1, r) := AfterBlock(w, skip, body);
         !r.Raised? ==> InStep(next, w1)
    case Try(body, next) =>
      && InStep(body, w)
      && var (w1, r) := Run(body, w);
         !Killed(OfBlock(r)) ==> Top(w1).order == Advance(Top(w).order, Width(body)) && InStep(next, w1)
    case Call(key, kind, body, next) =>
      && (kind.Stage? && Runs(w, key, kind) ==>
            var c := CoordinatesOf(w, key, kind); InStep(body, Enter(Submit(w, c), c).0))
      && var (w1, r) := Execute(key, kind, body, w);
         !r.Raised? ==> InStep(next, w1)
  }
}
