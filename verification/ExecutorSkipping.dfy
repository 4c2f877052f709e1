/** Skipping a recorded stage and rerunning it. */
module ExecutorSkipping {
  import opened Prelude
  import opened ExecutorModel
  import opened TaskNames
  import opened BranchStore
  import opened TaskSemantics
  import opened ExecutorSafety
  import opened ExecutorPlan
  import opened ExecutorCourse
  import opened ExecutorProgress

  /** A recorded stage that is about to be submitted, in a session over the first `n` steps. */
  ghost predicate AtStage<C>(key: Key, body: Program<C>, w: World<C>, plan: seq<Planned<C>>, n: nat, stages: bool) {
    && Ready(Call(key, Stage, body, End), w, plan, n, stages) && Uninterrupted(body, Some(Stage))
    && !(|w.stack| == 1 && key.Index?) && FindLog(w.log, CoordinatesOf(w, key, Stage)).Found?
  }

  /** The last step before the end of the stage, counted from one. */
  function EndOf<C>(plan: seq<Planned<C>>, w: World<C>): (n: nat)
    requires Open(w)
    ensures n <= |plan|
  {
    Cursor(plan, Bump(Top(w).order))
  }

  /** The rows that were added are those of stages. */
  ghost predicate OnlyStagesAdded(log: seq<Record>, log': seq<Record>) {
    log <= log' && forall r <- log'[|log|..] :: r.text.kind.Stage?
  }

  lemma StagesAdded<C>(log: seq<Record>, log': seq<Record>, plan: seq<Planned<C>>, n: nat, stages: bool)
    requires log <= log' && AtMostOnce(log') && OnDisk(log, plan, n, stages) && OnDisk(log', plan, n, stages)
    ensures OnlyStagesAdded(log, log')
  {
    hide OnCourse, LatestStable, StagesAccounted, NameAt;
    var more := log'[|log|..];
    assert log' == log + more;
    forall r | r in more ensures r.text.kind.Stage? {
      if r.text.kind.Step? {
        assert r in log';
        var i :| 0 <= i < n && NameAt(plan, i) == r.text;
        assert Recorded(log, NameAt(plan, i));
        var q :| q in log && q.text == r.text;
        assert |RecordsOf(log', r.text)| <= 1;
        TwoRows(log, more, q, r);
      }
    }
  }

  lemma {:induction false} TwoRows(log: seq<Record>, more: seq<Record>, q: Record, r: Record)
    requires q in log && r in more && q.text == r.text
    ensures |RecordsOf(log + more, r.text)| >= 2
    decreases |more|
  {
    var (all, front) := (log + more, more[..|more| - 1]);
    assert all[..|all| - 1] == log + front && all[|all| - 1] == more[|more| - 1];
    if r in front {
      TwoRows(log, front, q, r);
    } else {
      assert more == front + [more[|more| - 1]];
      RecordsOfMembers(log + front, r.text);
      assert q in log + front;
      assert q in RecordsOf(log + front, r.text);
    }
  }

  /** Rerunning the stage ends after its last planned step, and invokes nothing exactly if that
      was recorded. */
  lemma StageRerun<C>(key: Key, body: Program<C>, w: World<C>, plan: seq<Planned<C>>, n: nat, stages: bool)
    requires AtStage(key, body, w, plan, n, stages)
    ensures Open(w)
    ensures var end := EndOf(plan, w);
            var (w', r) := Execute(key, Stage, body, w);
            && r.Finished? && Kept(w, w', r) && Clean(w'.store) && Top(w').order == Bump(Top(w).order)
            && NameOf(w'.latest) == w'.store.current == At(plan, end)
            && (w'.invoked == w.invoked <==> end <= n)
            && (end <= n ==> w'.store.heads == w.store.heads && OnlyStagesAdded(w.log, w'.log))
  {
    hide WellFramed, RecordSafe, Increasing, AllBefore, Immutable, Advanced, Earlier, Execute, OnDisk, Cursor,
         Follows, StableKeys, StablePath,
         StablePlan, WellPlanned, Uninterrupted, FindLog, Run;
    var n' := CallProgress(key, Stage, body, End, w, plan, n, stages);
    ExecuteSafe(key, Stage, body, w);
    var w' := Execute(key, Stage, body, w).0;
    StageLeavesParent(w, w');
    if n' == n { StagesAdded(w.log, w'.log, plan, n, stages); }
  }

  lemma StageLeavesParent<C>(w: World<C>, w': World<C>)
    requires Safe(w) && CanHaveSubtasks(Top(w).kind) && Kept(w, w', Finished)
    ensures Clean(w'.store) && AtMostOnce(w'.log)
  {
    hide Increasing, AllBefore, WellFramed, Immutable;
  }

  /** Skipping the stage ends where its record says. */
  lemma StageSkipped<C>(key: Key, body: Program<C>, w: World<C>, plan: seq<Planned<C>>, n: nat, stages: bool)
    requires AtStage(key, body, w, plan, n, stages)
    ensures Open(w)
    ensures var latest := NameOf(FindLog(w.log, CoordinatesOf(w, key, Stage)).record.latest);
            var (w', r) := Execute(key, Stage, body, w.(skipStages := true));
            && r.Finished? && Kept(w.(skipStages := true), w', r) && Top(w').order == Bump(Top(w).order)
            && NameOf(w'.latest) == latest && latest in w.store.heads
            && w'.store == Store(w.store.heads, latest, w.store.heads[latest], false) && w'.invoked == w.invoked && w'.log == w.log
  {
    hide WellFramed, RecordSafe, Increasing, AllBefore, Immutable, Later, Cursor, TextOf, FindLog, Skip, Stable,
         Advanced,
         OnCourse, Recorded, LatestStable, AtMostOnce, Follows, StablePlan, WellPlanned, Uninterrupted, StablePath, StableKey, Clean, Earlier;
    var c := CoordinatesOf(w, key, Stage);
    StableTask(Top(w).path, key, Top(w).order, Stage);
    StageLookup(w, c, plan, n, stages);
    var row := FoundIsInLog(w.log, c);
    assert Loads(row) by { LoadsFound(w.log, c, row); }
    RecordedIsThere(w, row);
    SkipSafe(w.(skipStages := true), c, row);
    ExecuteSafe(key, Stage, body, w.(skipStages := true));
  }

  lemma SameStack(s: seq<Frame>, a: seq<Frame>, b: seq<Frame>)
    requires Advanced(s, a) && Advanced(s, b) && a[|s| - 1].order == b[|s| - 1].order
    ensures a == b
  {
    assert a == a[..|s| - 1] + [a[|s| - 1]] && b == b[..|s| - 1] + [b[|s| - 1]];
  }

  lemma SameFrames<C>(w: World<C>, a: World<C>, b: World<C>)
    requires Open(w) && Open(a) && Open(b) && Kept(w.(skipStages := true), a, Finished) && Kept(w, b, Finished)
    requires Top(a).order == Top(b).order
    ensures a.stack == b.stack
  {
    hide Safe, SafeDisk, Increasing, Immutable, Later;
    SameStack(w.stack, a.stack, b.stack);
  }

  /** The session is in the same place: data, branches, latest step, frames, and nothing more
      was invoked; the log differs by rows of stages only. */
  ghost predicate SamePlace<C>(a: World<C>, b: World<C>) {
    && a.store == b.store && NameOf(a.latest) == NameOf(b.latest) && a.stack == b.stack && a.invoked == b.invoked
    && OnlyStagesAdded(a.log, b.log)
  }

  /** Skipping a recorded stage in one go puts the session in the same place as rerunning it, in
      which every inner step is skipped, if and only if all its steps are recorded and its
      record remembers the last of them. */
  lemma SkipEqualsRerun<C>(key: Key, body: Program<C>, w: World<C>, plan: seq<Planned<C>>, n: nat, stages: bool)
    requires AtStage(key, body, w, plan, n, stages)
    ensures Open(w)
    ensures var end := EndOf(plan, w);
            var record := FindLog(w.log, CoordinatesOf(w, key, Stage)).record;
            var skipped := Execute(key, Stage, body, w.(skipStages := true));
            var rerun := Execute(key, Stage, body, w);
            && skipped.1.Finished? && rerun.1.Finished?
            && (SamePlace(skipped.0, rerun.0) <==> end <= n && NameOf(record.latest) == At(plan, end))
  {
    hide Safe, Kept, AtStage, Execute, FindLog, Cursor, TextOf, At, OnlyStagesAdded;
    StageSkipped(key, body, w, plan, n, stages);
    StageRerun(key, body, w, plan, n, stages);
    var (a, b) := (Execute(key, Stage, body, w.(skipStages := true)).0, Execute(key, Stage, body, w).0);
    SameFrames(w, a, b);
  }

  /** So it does whenever stage records tell the truth, as they do after sessions that stop at
      their first unfinished task - for any placing of skipping scopes inside the stage. This
      is the assertion that is commented out in the executor. */
  lemma AccountedStage<C>(key: Key, body: Program<C>, w: World<C>, plan: seq<Planned<C>>, n: nat)
    requires AtStage(key, body, w, plan, n, true)
    ensures Open(w) && SamePlace(Execute(key, Stage, body, w.(skipStages := true)).0, Execute(key, Stage, body, w).0)
  {
    hide Execute, Cursor, TextOf, OnlyStagesAdded, SamePlace, StableKey, FindLog, Uninterrupted, OnCourse, Recorded,
         LatestStable, WellFramed, AtMostOnce,
         RecordSafe, Increasing, AllBefore, Follows, StablePlan, WellPlanned, StablePath, Clean, Stable;
    SkipEqualsRerun(key, body, w, plan, n, true);
    var c := CoordinatesOf(w, key, Stage);
    StableTask(Top(w).path, key, Top(w).order, Stage);
    var row := FoundIsInLog(w.log, c);
    assert Loads(row) by { LoadsFound(w.log, c, row); }
    assert Accounted(row, plan, n);
  }
}
