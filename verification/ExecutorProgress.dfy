/** How far a session of a program that stops at its first unfinished task gets along the
    plan, and that it keeps the log on course. */
module ExecutorProgress {
  import opened Prelude
  import opened ExecutorModel
  import opened TaskNames
  import opened BranchStore
  import opened TaskSemantics
  import opened ExecutorSafety
  import opened ExecutorPlan
  import opened ExecutorSteps
  import opened ExecutorCourse

  // ------------------------------------------------------------------------- invariants

  /** The session stands after the steps that precede the next order vector. */
  ghost predicate Synced<C>(w: World<C>, plan: seq<Planned<C>>, n: nat, stages: bool)
    requires Open(w)
  {
    && OnDisk(w.log, plan, n, stages) && (w.skipStages ==> stages)
    && var j := Cursor(plan, Top(w).order);
       j <= n && NameOf(w.latest) == At(plan, j) && w.store.current == At(plan, j)
  }

  function CoordinatesIn<C>(plan: seq<Planned<C>>, a: nat, b: nat): (r: seq<Coordinates>)
    requires a <= b <= |plan|
  {
    seq(b - a, i requires 0 <= i < b - a => plan[a + i].coordinates)
  }

  /** Only unrecorded steps were invoked, in plan order, each once; all of them but possibly
      the last were recorded. */
  ghost predicate InvokedRange<C>(invoked: seq<Coordinates>, invoked': seq<Coordinates>, plan: seq<Planned<C>>,
                                  n: nat, n': nat, all: bool) {
    var m := n + |invoked'| - |invoked|;
    && n <= n' <= m <= |plan| && m <= n' + 1 && (all ==> m == n')
    && invoked' == invoked + CoordinatesIn(plan, n, m)
  }

  ghost predicate Progress<C>(w: World<C>, n: nat, w': World<C>, r: Outcome, n': nat, plan: seq<Planned<C>>,
                              stages: bool)
    requires Open(w) && Open(w')
  {
    && OnDisk(w'.log, plan, n', stages)
    && InvokedRange(w.invoked, w'.invoked, plan, n, n', Completed(r))
    && (Completed(r) ==>
          && Synced(w', plan, n', stages) && w'.lost == w.lost
          && var j := Cursor(plan, Top(w').order);
             n' == if j > n then j else n)
  }

  lemma InvokedTransitive<C>(a: seq<Coordinates>, b: seq<Coordinates>, c: seq<Coordinates>, plan: seq<Planned<C>>,
                             n: nat, n1: nat, n2: nat, all: bool)
    requires InvokedRange(a, b, plan, n, n1, true) && InvokedRange(b, c, plan, n1, n2, all)
    ensures InvokedRange(a, c, plan, n, n2, all)
  {
    var m := n1 + |c| - |b|;
    assert CoordinatesIn(plan, n, n1) + CoordinatesIn(plan, n1, m) == CoordinatesIn(plan, n, m);
    assert c == a + (CoordinatesIn(plan, n, n1) + CoordinatesIn(plan, n1, m));
  }

  lemma ProgressTransitive<C>(w: World<C>, n: nat, w1: World<C>, n1: nat, w2: World<C>, r2: Outcome, n2: nat,
                              plan: seq<Planned<C>>, stages: bool)
    requires Open(w) && Open(w1) && Open(w2)
    requires Progress(w, n, w1, Finished, n1, plan, stages) && Progress(w1, n1, w2, r2, n2, plan, stages)
    requires Completed(r2) ==> Top(w2).order == Top(w1).order || Before(Top(w1).order, Top(w2).order)
    ensures Progress(w, n, w2, r2, n2, plan, stages)
  {
    hide InvokedRange, OnDisk, Before, Cursor;
    InvokedTransitive(w.invoked, w1.invoked, w2.invoked, plan, n, n1, n2, Completed(r2));
    if Completed(r2) { CursorMonotone(plan, Top(w1).order, Top(w2).order); }
  }

  // ------------------------------------------------------------------------------ lookups

  /** A task with a stable name can always be looked up, and what is found has its name. */
  lemma LegibleLookup(log: seq<Record>, c: Coordinates)
    requires LatestStable(log) && Stable(TextOf(c)) && AtMostOnce(log)
    ensures var found := FindLog(log, c);
            && !found.Illegible? && !found.Inconsistent? && (found.Found? <==> Recorded(log, TextOf(c)))
    ensures FindLog(log, c).Found? ==>
              var record := FindLog(log, c).record;
              TextOf(record.coordinates) == TextOf(c)
              && exists r <- log :: r.text == TextOf(c) && r.latest == NameOf(record.latest)
  {
    hide Stable, TextOf, FindLog;
    NotFound(log, c);
    forall r | r in log && r.text == TextOf(c) ensures Loads(r) { LoadsStable(r); }
    Consistent(log, c);
    if FindLog(log, c).Found? {
      var row := FoundIsInLog(log, c);
      assert Loads(row);
    }
  }

  ghost predicate Loads(r: Record) {
    Load(r).Some? && TextOf(Load(r).value.coordinates) == r.text && NameOf(Load(r).value.latest) == r.latest
  }

  lemma LoadsStable(r: Record)
    requires Stable(r.text) && (r.latest.Some? ==> Stable(r.latest.value))
    ensures Loads(r)
  {
    hide TextOf, Reload;
  }

  lemma Consistent(log: seq<Record>, c: Coordinates)
    requires AtMostOnce(log)
    ensures !FindLog(log, c).Inconsistent?
  {
    hide Load;
    assert c.kind.Step? ==> |RecordsOf(log, TextOf(c))| <= 1;
  }

  /** The next step is found exactly when it is one of the first `n`. */
  lemma NextStepLookup<C>(w: World<C>, plan: seq<Planned<C>>, n: nat, stages: bool)
    requires Open(w) && Synced(w, plan, n, stages) && WellPlanned(plan) && StablePlan(plan) && AtMostOnce(w.log)
    requires Cursor(plan, Top(w).order) < |plan|
    ensures var j := Cursor(plan, Top(w).order);
            var found := FindLog(w.log, plan[j].coordinates);
            && found.Found? == (j < n) && found.Missing? == (j == n)
            && (j < n ==> SkippedTo(found.record) == Some(NameAt(plan, j)))
            && (j == n ==> Unrecorded(w.log, plan[j].coordinates))
  {
    hide Stable, TextOf, FindLog, OnCourse, StagesAccounted, Cursor;
    var j := Cursor(plan, Top(w).order);
    assert Stable(NameAt(plan, j));
    LegibleLookup(w.log, plan[j].coordinates);
    if j == n {
      forall r | r in w.log && r.text.kind.Step? ensures r.text != NameAt(plan, n) {
        var i :| 0 <= i < n && NameAt(plan, i) == r.text;
        if r.text == NameAt(plan, n) { NamesDiffer(plan, i, n); }
      }
    }
  }

  // --------------------------------------------------------------------------- one step

  lemma SkippedStep<C>(key: Key, body: Program<C>, w: World<C>, plan: seq<Planned<C>>, n: nat, stages: bool)
    requires Safe(w) && CanHaveSubtasks(Top(w).kind) && Synced(w, plan, n, stages) && WellPlanned(plan) && StablePlan(plan)
    requires !(|w.stack| == 1 && key.Index?)
    requires var j := Cursor(plan, Top(w).order);
             j < n && plan[j].coordinates == CoordinatesOf(w, key, Step) && Cursor(plan, Bump(Top(w).order)) == j + 1
    ensures var (w', r) := Execute(key, Step, body, w);
            r.Finished? && Progress(w, n, w', r, n, plan, stages) && Top(w').order == Bump(Top(w).order)
  {
    hide WellFramed, RecordSafe, Increasing, AllBefore, Immutable, Advanced, Later, Cursor, TextOf, OnDisk, FindLog,
         Skip, Reload, Execute, StablePlan, WellPlanned;
    var c := CoordinatesOf(w, key, Step);
    RecordedNext(w, plan, n, stages);
    NextStepLookup(w, plan, n, stages);
    ExecuteByRecord(key, Step, body, w);
    var row := FoundIsInLog(w.log, c);
    RecordedIsThere(w, row);
    SkipSafe(w, c, row);
    assert CoordinatesIn(plan, n, n) == [];
  }

  lemma RecordedNext<C>(w: World<C>, plan: seq<Planned<C>>, n: nat, stages: bool)
    requires Safe(w) && Synced(w, plan, n, stages)
    ensures AtMostOnce(w.log) && n <= |plan|
  {
  }

  lemma RecordedIsThere<C>(w: World<C>, row: Record)
    requires Safe(w) && row in w.log
    ensures row.text.kind.Step? ==> Some(row.text) in w.store.heads
    ensures row.latest in w.store.heads
  {
    assert RecordSafe(row, w.store.heads);
  }

  /** An unrecorded step is run, and becomes the latest step unless an exception gets out. */
  lemma UnrecordedStepRuns<C>(key: Key, body: Program<C>, w: World<C>)
    requires Open(w) && CanHaveSubtasks(Top(w).kind) && !(|w.stack| == 1 && key.Index?)
    requires FindLog(w.log, CoordinatesOf(w, key, Step)).Missing?
    ensures var c := CoordinatesOf(w, key, Step);
            Execute(key, Step, body, w) == SetLatest(RunTask(c, body, Submit(w, c)), Some(c))
  {
    hide RunTask, FindLog;
  }

  lemma StepProgress<C>(w: World<C>, c: Coordinates, w': World<C>, r: Outcome, fate: Fate, plan: seq<Planned<C>>,
                        n: nat, stages: bool)
    requires Open(w) && Open(w') && Synced(w, plan, n, stages) && WellPlanned(plan) && StablePlan(plan)
    requires n == Cursor(plan, Top(w).order) < |plan| && plan[n].coordinates == c
    requires StepEffects(w, c, plan[n].writes, w'.(latest := w.latest), fate) && (r.Finished? <==> fate.Committed?) && !r.Late?
    requires r.Finished? ==>
               && w'.latest == Some(c) && Cursor(plan, Top(w').order) == n + 1 && w'.skipStages == w.skipStages
    ensures Progress(w, n, w', r, if fate.Undone? then n else n + 1, plan, stages)
  {
    hide OnDisk, WellPlanned, Before, Cursor, Bump, StablePlan, Effect, TextOf;
    assert CoordinatesIn(plan, n, n + 1) == [c];
    if fate.Undone? {
      assert w'.log == w.log;
    } else {
      StepJoins(w.log, plan, n, Record(TextOf(c), w.env.clock(|w.log|), NameOf(w.latest)), stages);
    }
  }

  lemma ExecutedStep<C>(key: Key, body: Program<C>, w: World<C>, plan: seq<Planned<C>>, n: nat,
                        stages: bool) returns (n': nat)
    requires Safe(w) && CanHaveSubtasks(Top(w).kind) && Synced(w, plan, n, stages) && WellPlanned(plan) && StablePlan(plan)
    requires !(|w.stack| == 1 && key.Index?)
    requires var j := Cursor(plan, Top(w).order);
             j == n < |plan| && plan[j] == Planned(CoordinatesOf(w, key, Step), Writes(body)) && Cursor(plan, Bump(Top(w).order)) == j + 1
    ensures var (w', r) := Execute(key, Step, body, w);
            && Progress(w, n, w', r, n', plan, stages)
            && (r.Finished? ==> Top(w').order == Bump(Top(w).order))
            && (Uninterrupted(body, Some(Step)) ==> r.Finished?)
  {
    hide CannotCommit, Safe, Connected, SafeDisk, Increasing, Immutable, Advanced, Later, WellPlanned, RunTask, FindLog,
         TextOf, Execute, Uninterrupted, Progress, Cursor, Clean, StepEffects, OnDisk, StablePlan;
    SafeIsOpen(w);
    var c := CoordinatesOf(w, key, Step);
    RecordedNext(w, plan, n, stages);
    NextStepLookup(w, plan, n, stages);
    UnrecordedStepRuns(key, body, w);
    RunTaskSafe(c, body, w);
    PlannedCommits(plan, n);
    var fate := StepOutcome(c, body, w);
    var out := RunTask(c, body, Submit(w, c));
    var (w', r) := SetLatest(out, Some(c));
    EffectsBeforeLatest(w, c, Writes(body), out, fate);
    StepProgress(w, c, w', r, fate, plan, n, stages);
    n' := if fate.Undone? then n else n + 1;
  }

  lemma EffectsBeforeLatest<C>(w: World<C>, c: Coordinates, writes: seq<C -> C>, out: (World<C>, Outcome), fate: Fate)
    requires Open(w) && StepEffects(w, c, writes, out.0, fate)
    ensures StepEffects(w, c, writes, SetLatest(out, Some(c)).0.(latest := w.latest), fate)
    ensures SetLatest(out, Some(c)).0.skipStages == out.0.skipStages && SetLatest(out, Some(c)).0.stack == out.0.stack
    ensures !out.1.Raised? ==> SetLatest(out, Some(c)).0.latest == Some(c)
  {
    assert out.0.latest == w.latest;
  }

  // -------------------------------------------------------------------------- one stage

  lemma SkippedStage<C>(key: Key, body: Program<C>, w: World<C>, plan: seq<Planned<C>>, n: nat)
    requires Safe(w) && CanHaveSubtasks(Top(w).kind) && Synced(w, plan, n, true)
    requires !(|w.stack| == 1 && key.Index?) && w.skipStages && Stable(TextOf(CoordinatesOf(w, key, Stage)))
    requires FindLog(w.log, CoordinatesOf(w, key, Stage)).Found?
    ensures var (w', r) := Execute(key, Stage, body, w);
            r.Finished? && Progress(w, n, w', r, n, plan, true) && Top(w').order == Bump(Top(w).order)
  {
    hide WellFramed, RecordSafe, Increasing, AllBefore, Immutable, Advanced, Later, Cursor, TextOf, FindLog, Skip,
         Stable,
         OnCourse, Recorded, LatestStable, AtMostOnce;
    var c := CoordinatesOf(w, key, Stage);
    StageLookup(w, c, plan, n, true);
    var row := FoundIsInLog(w.log, c);
    assert Loads(row) by { LoadsFound(w.log, c, row); }
    assert Accounted(row, plan, n);
    RecordedIsThere(w, row);
    SkipSafe(w, c, row);
    assert CoordinatesIn(plan, n, n) == [];
  }

  lemma LoadsFound(log: seq<Record>, c: Coordinates, row: Record)
    requires LatestStable(log) && Stable(TextOf(c)) && row in log && row.text == TextOf(c)
    ensures Loads(row)
  {
    hide Stable, TextOf;
    LoadsStable(row);
  }

  lemma StageLookup<C>(w: World<C>, c: Coordinates, plan: seq<Planned<C>>, n: nat, stages: bool)
    requires Safe(w) && Synced(w, plan, n, stages) && Stable(TextOf(c))
    ensures LatestStable(w.log) && AtMostOnce(w.log)
    ensures FindLog(w.log, c).Found? || FindLog(w.log, c).Missing?
  {
    hide FindLog, Stable, TextOf, WellFramed, Cursor;
    LegibleLookup(w.log, c);
  }

  /** What a stage that comes to the end of its body leaves in the log. */
  lemma StageLogged<C>(w1: World<C>, c: Coordinates, r: Outcome, plan: seq<Planned<C>>, n': nat, stages: bool)
    requires Open(w1) && c.kind.Stage? && c.order != [] && StablePlan(plan) && OnDisk(w1.log, plan, n', stages)
    requires Completed(r) ==> Synced(w1, plan, n', stages) && Cursor(plan, Top(w1).order) == Cursor(plan, Bump(c.order))
    ensures var w2 := AfterBody(w1, c, r);
            && OnDisk(w2.log, plan, n', stages)
            && w2 == w1.(log := w2.log)
  {
    hide Cursor, TextOf, Stable, OnCourse, Recorded, IsPlanned, LatestStable;
    if Completed(r) {
      var record := Record(TextOf(c), w1.env.clock(|w1.log|), NameOf(w1.latest));
      var j := Cursor(plan, Top(w1).order);
      if j > 0 { assert Stable(NameAt(plan, j - 1)); }
      assert Accounted(record, plan, n');
      StageJoins(w1.log, plan, n', record, stages);
    }
  }

  /** The callbacks find nothing to do, and the frame is popped. */
  lemma StagePopped<C>(w: World<C>, c: Coordinates, w1: World<C>, r: Outcome)
    requires Submitted(w, c) && c.kind.Stage? && Open(w1) && !r.Swallowed? && (!Killed(r) ==> Inside(w, c, w1))
    ensures var (w2, r2) := Conclude(w1, c, r);
            && w2.log == AfterBody(w1, c, r).log && w2.store == w1.store && w2.invoked == w1.invoked && w2.lost == w1.lost
            && w2.latest == w1.latest && w2.skipStages == w1.skipStages
            && (r2.Finished? <==> r.Finished?) && !r2.Late? && (r2.Finished? ==> Top(w2).order == Bump(c.order))
  {
    hide WellFramed, SafeDisk, Increasing, AllBefore, Immutable, Advanced, Earlier, RecordsOf, TextOf;
    if !Killed(OfBlock(r)) {
      ConcludeByCases(w, c, w1, r);
      FinishSafe(w, c, w1, r);
      LeaveCounts(w, c, OnFinished(AfterBody(w1, c, r), c, Succeeds(c, r)).0);
    }
  }

  /** A stage body ended as `r`; the stage is concluded and counted. */
  lemma ConcludedStage<C>(w: World<C>, c: Coordinates, w1: World<C>, r: Outcome, n': nat, plan: seq<Planned<C>>,
                          stages: bool)
    requires Submitted(w, c) && c.kind.Stage? && Open(w1) && StablePlan(plan)
    requires !Killed(r) ==> Inside(w, c, w1)
    requires !r.Swallowed? && OnDisk(w1.log, plan, n', stages)
    requires Completed(r) ==> Synced(w1, plan, n', stages) && Cursor(plan, Top(w1).order) == Cursor(plan, Bump(c.order))
    ensures var (w2, r2) := Conclude(w1, c, r);
            && OnDisk(w2.log, plan, n', stages) && w2.store == w1.store && w2.invoked == w1.invoked && w2.lost == w1.lost
            && (r2.Finished? <==> r.Finished?) && !r2.Late?
            && (r2.Finished? ==> Synced(w2, plan, n', stages) && Top(w2).order == Bump(c.order))
  {
    hide Safe, Inside, Cursor, OnDisk, TextOf, Conclude, AfterBody, StablePlan;
    StagePopped(w, c, w1, r);
    StageOrder(w, c);
    StageLogged(w1, c, r, plan, n', stages);
  }

  lemma StageOrder<C>(w: World<C>, c: Coordinates)
    requires Submitted(w, c)
    ensures c.order != []
  {
  }

  lemma LeaveCounts<C>(w: World<C>, c: Coordinates, w1: World<C>)
    requires Submitted(w, c) && Open(w1)
    requires |w1.stack| == |w.stack| + 1 && w1.stack[..|w.stack|] == w.stack
    ensures Top(Leave(w1)).order == Bump(c.order)
  {
  }

  // ------------------------------------------------------------------- nothing to be continued

  /** What does not mention the to-be-continued exception is not swallowed. */
  lemma {:induction false} NotSwallowed<C>(p: Program<C>, w: World<C>)
    requires Open(w) && !MentionsToBeContinued(p)
    ensures var r := Run(p, w).1; r != Raised(ToBeContinued) && !r.Swallowed?
    decreases p, 1
  {
    hide Run, Execute;
    match p
    case End => NothingToContinue(p, w);
    case Struck(_) => NothingToContinue(p, w);
    case Raise(_, _) => NothingToContinue(p, w);
    case Write(f, next) =>
      RunWrite(f, next, w);
      if w.access == RW { NotSwallowed(next, w.(store := BranchStore.Write(w.store, f))); }
    case Scope(skip, body, next) =>
      RunScope(skip, body, next, w);
      NotSwallowed(body, w.(skipStages := skip));
      var (w1, r) := AfterBlock(w, skip, body);
      if !r.Raised? { NotSwallowed(next, w1); }
    case Try(body, next) =>
      RunTry(body, next, w);
      NotSwallowed(body, w);
      var (w1, r) := Run(body, w);
      if !Killed(OfBlock(r)) { NotSwallowed(next, w1); }
    case Call(key, kind, body, next) =>
      RunCall(key, kind, body, next, w);
      NotSwallowedTask(key, kind, body, w);
      var (w1, r) := Execute(key, kind, body, w);
      if !r.Raised? { NotSwallowed(next, w1); }
  }

  lemma NothingToContinue<C>(p: Program<C>, w: World<C>)
    requires Open(w) && (p.End? || p.Struck? || (p.Raise? && !p.exn.ToBeContinued?))
    ensures var r := Run(p, w).1; r != Raised(ToBeContinued) && !r.Swallowed?
  {
  }

  lemma {:induction false} NotSwallowedRun<C>(c: Coordinates, body: Program<C>, w: World<C>)
    requires Open(w) && !MentionsToBeContinued(body)
    ensures var r := RunTask(c, body, w).1; r != Raised(ToBeContinued) && !r.Swallowed?
    decreases body, 2
  {
    hide Run, Enter, Conclude, Connected;
    var (w1, r1) := Enter(w, c);
    EnteredQuietly(w, c);
    if !r1.Raised? { NotSwallowed(body, w1); }
    var (w2, r2) := if r1.Raised? then (w1, r1) else Run(body, w1);
    ConcludedQuietly(w2, c, r2);
  }

  lemma {:induction false} NotSwallowedTask<C>(key: Key, kind: Kind, body: Program<C>, w: World<C>)
    requires Open(w) && !MentionsToBeContinued(body)
    ensures var r := Execute(key, kind, body, w).1; r != Raised(ToBeContinued) && !r.Swallowed?
    decreases body, 3
  {
    hide RunTask, FindLog, Skip, OnSkipped, Connected;
    var c := CoordinatesOf(w, key, kind);
    NotSwallowedRun(c, body, Submit(w, c));
    var found := FindLog(w.log, c);
    if found.Found? { SkippedQuietly(Submit(w, c), found.record); }
  }

  lemma SkippedQuietly<C>(w: World<C>, record: Loaded)
    requires Open(w)
    ensures Skip(w, record).1 in {Finished, Raised(BranchMissing)}
  {
  }

  lemma EnteredQuietly<C>(w: World<C>, c: Coordinates)
    requires Open(w)
    ensures var r := Enter(w, c).1; r != Raised(ToBeContinued) && !r.Swallowed? && !r.Late?
  {
  }

  lemma ConcludedQuietly<C>(w: World<C>, c: Coordinates, r: Outcome)
    requires Open(w) && (!Killed(r) && r != Late(Kill) ==> |w.stack| >= 2) && r != Raised(ToBeContinued) && !r.Swallowed?
    ensures var r2 := Conclude(w, c, r).1; r2 != Raised(ToBeContinued) && !r2.Swallowed?
  {
  }

  // ---------------------------------------------------------------------- nothing to be done

  /** A program without tasks does nothing outside of a step but raise. */
  lemma {:induction false} IdleRun<C>(p: Program<C>, w: World<C>)
    requires Open(w) && w.access == RO && Width(p) == 0
    ensures var (w', r) := Run(p, w); w'.(skipStages := w.skipStages) == w && !r.Swallowed?
    ensures !Killed(Run(p, w).1) ==> Run(p, w).0 == w
    decreases p
  {
    hide Run, Execute, Connected;
    match p
    case End => IdleEnd(p, w);
    case Struck(_) => IdleEnd(p, w);
    case Raise(_, _) => IdleEnd(p, w);
    case Write(f, next) => RunWrite(f, next, w);
    case Scope(skip, body, next) =>
      RunScope(skip, body, next, w);
      IdleRun(body, w.(skipStages := skip));
      var (w1, r) := AfterBlock(w, skip, body);
      if !r.Raised? { IdleRun(next, w1); }
    case Try(body, next) =>
      RunTry(body, next, w);
      IdleRun(body, w);
      AdvanceAdds(Top(w).order, 0, 0);
      var (w1, r) := Run(body, w);
      if !Killed(OfBlock(r)) { IdleRun(next, w1); }
  }

  lemma IdleEnd<C>(p: Program<C>, w: World<C>)
    requires Open(w) && (p.End? || p.Struck? || p.Raise?)
    ensures var (w', r) := Run(p, w); w' == w && !r.Swallowed?
  {
  }

  // ------------------------------------------------------------------------- the induction

  ghost predicate Ready<C>(p: Program<C>, w: World<C>, plan: seq<Planned<C>>, n: nat, stages: bool) {
    && Safe(w) && CanHaveSubtasks(Top(w).kind) && WellPlanned(plan) && StablePlan(plan)
    && StopsAtFailure(p, Top(w).kind) && (stages || SkipsNoStage(p))
    && StableKeys(p) && StablePath(Top(w).path)
    && Follows(p, Top(w).path, Top(w).order, plan)
    && Synced(w, plan, n, stages)
  }

  /** Where running `p` from `w` leads. */
  ghost predicate Leads<C>(p: Program<C>, w: World<C>, out: (World<C>, Outcome), n': nat, plan: seq<Planned<C>>,
                           n: nat, stages: bool)
    requires Open(w) && Open(out.0)
  {
    && Progress(w, n, out.0, out.1, n', plan, stages)
    && (Completed(out.1) ==> Top(out.0).order == Advance(Top(w).order, Width(p)))
    && (Uninterrupted(p, Top(w).kind) ==> out.1.Finished?)
  }

  lemma NoProgress<C>(p: Program<C>, w: World<C>, plan: seq<Planned<C>>, n: nat, r: Outcome, stages: bool)
    requires Ready(p, w, plan, n, stages)
    ensures Progress(w, n, w, r, n, plan, stages)
  {
    hide Cursor, Safe, Follows, OnCourse, StagesAccounted, LatestStable;
    assert CoordinatesIn(plan, n, n) == [];
  }

  lemma RunStage<C>(c: Coordinates, body: Program<C>, w: World<C>, plan: seq<Planned<C>>, n: nat,
                    stages: bool) returns (n': nat)
    requires Submitted(w, c) && c.kind.Stage? && WellPlanned(plan) && StablePlan(plan) && Synced(w, plan, n, stages)
    requires StopsAtFailure(body, Some(Stage)) && (stages || SkipsNoStage(body)) && StableKeys(body) && StablePath(c.path)
    requires Follows(body, c.path, c.order + [0], plan)
    requires Cursor(plan, c.order + [0]) == Cursor(plan, c.order)
    requires Cursor(plan, c.order + [Width(body)]) == Cursor(plan, Bump(c.order))
    ensures var (w', r) := RunTask(c, body, Submit(w, c));
            && Progress(w, n, w', r, n', plan, stages)
            && (r.Finished? ==> Top(w').order == Bump(c.order))
            && (Uninterrupted(body, Some(Stage)) ==> r.Finished?)
    decreases body, 2
  {
    hide WellFramed, SafeDisk, Increasing, AllBefore, Immutable, Advanced, Later, Cursor, WellPlanned, Run, Follows,
         OnDisk, Conclude,
         Earlier, Clean, StablePlan, StablePath, StableKeys, StopsAtFailure, InvokedRange, TextOf, Ready, Progress, Synced, Enter;
    StageReady(c, body, w, plan, n, stages);
    EnterSafe(w, c);
    var w1 := Enter(Submit(w, c), c).0;
    n' := RunProgress(body, w1, plan, n, stages);
    ReadySafe(body, w1, plan, n, stages);
    var (w2, r) := Run(body, w1);
    StageBodySafe(w, c, w1, w2, r);
    StageLed(c, body, w1, w2, r, plan, n, n', stages);
    ConcludedStage(w, c, w2, r, n', plan, stages);
    StageProgress(w, w1, w2, r, Conclude(w2, c, r), n, n', plan, stages);
  }

  lemma StageReady<C>(c: Coordinates, body: Program<C>, w: World<C>, plan: seq<Planned<C>>, n: nat, stages: bool)
    requires Submitted(w, c) && c.kind.Stage? && WellPlanned(plan) && StablePlan(plan) && Synced(w, plan, n, stages)
    requires StopsAtFailure(body, Some(Stage)) && (stages || SkipsNoStage(body)) && StableKeys(body) && StablePath(c.path)
    requires Follows(body, c.path, c.order + [0], plan)
    requires Cursor(plan, c.order + [0]) == Cursor(plan, c.order)
    ensures var (w1, r1) := Enter(Submit(w, c), c);
            && r1 == Finished && Ready(body, w1, plan, n, stages) && w1.invoked == w.invoked && w1.lost == w.lost
            && Top(w1) == Frame(c.path, c.order + [0], Some(Stage))
  {
    hide WellFramed, SafeDisk, Increasing, AllBefore, Immutable, Cursor, WellPlanned, Follows, OnDisk, Earlier,
         Clean, StablePlan,
         StablePath, StableKeys, StopsAtFailure, TextOf;
    EnterSafe(w, c);
    var w1 := Enter(Submit(w, c), c).0;
    assert w1 == Submit(w, c).(stack := w1.stack) && Top(w1) == Frame(c.path, c.order + [0], Some(Stage));
  }

  lemma StageLed<C>(c: Coordinates, body: Program<C>, w1: World<C>, w2: World<C>, r: Outcome, plan: seq<Planned<C>>,
                    n: nat, n': nat, stages: bool)
    requires c.order != [] && Open(w1) && Open(w2) && Leads(body, w1, (w2, r), n', plan, n, stages)
    requires Top(w1).order == c.order + [0] && Cursor(plan, c.order + [Width(body)]) == Cursor(plan, Bump(c.order))
    ensures OnDisk(w2.log, plan, n', stages)
    ensures Completed(r) ==> Synced(w2, plan, n', stages) && Cursor(plan, Top(w2).order) == Cursor(plan, Bump(c.order))
  {
    hide OnDisk, Cursor, InvokedRange, Uninterrupted, Width, At;
    assert Advance(c.order + [0], Width(body)) == c.order + [Width(body) as int];
  }

  lemma StageProgress<C>(w: World<C>, w1: World<C>, w2: World<C>, r: Outcome, out: (World<C>, Outcome), n: nat, n': nat,
                         plan: seq<Planned<C>>, stages: bool)
    requires Open(w) && Open(w1) && Open(w2) && Open(out.0)
    requires w1.invoked == w.invoked && w1.lost == w.lost && Progress(w1, n, w2, r, n', plan, stages)
    requires OnDisk(out.0.log, plan, n', stages) && out.0.invoked == w2.invoked && out.0.lost == w2.lost
    requires (out.1.Finished? <==> r.Finished?) && !out.1.Late?
    requires r.Finished? ==> Synced(out.0, plan, n', stages) && Cursor(plan, Top(out.0).order) == Cursor(plan, Top(w2).order)
    ensures Progress(w, n, out.0, out.1, n', plan, stages)
  {
    hide OnDisk, Cursor;
  }

  lemma CallProgress<C>(key: Key, kind: Kind, body: Program<C>, next: Program<C>, w: World<C>, plan: seq<Planned<C>>,
                        n: nat, stages: bool)
    returns (n': nat)
    requires Ready(Call(key, kind, body, next), w, plan, n, stages)
    ensures var (w', r) := Execute(key, kind, body, w);
            && Progress(w, n, w', r, n', plan, stages)
            && (r.Finished? ==> Top(w').order == Bump(Top(w).order))
            && (Uninterrupted(body, Some(kind)) && !(|w.stack| == 1 && key.Index?) ==> r.Finished?)
    decreases body, 3
  {
    hide WellFramed, SafeDisk, Increasing, AllBefore, Immutable, Advanced, Later, Cursor, WellPlanned, Run, RunTask,
         OnDisk, StablePlan,
         StableKey, Stable, TextOf, FindLog, Enter, InvokedRange;
    var c := CoordinatesOf(w, key, kind);
    if |w.stack| == 1 && key.Index? {
      n' := n;
      NoProgress(Call(key, kind, body, next), w, plan, n, Raised(NotAllowed), stages);
    } else if kind.Step? {
      if Cursor(plan, Top(w).order) < n {
        n' := n;
        SkippedStep(key, body, w, plan, n, stages);
      } else {
        n' := ExecutedStep(key, body, w, plan, n, stages);
      }
      ExecuteSafe(key, kind, body, w);
    } else {
      StableTask(Top(w).path, key, Top(w).order, Stage);
      StageLookup(w, c, plan, n, stages);
      if FindLog(w.log, c).Found? && w.skipStages {
        n' := n;
        SkippedStage(key, body, w, plan, n);
      } else {
        n' := RunStage(c, body, w, plan, n, stages);
      }
    }
  }

  /** The part of a program after something that finished. */
  lemma ThenProgress<C>(w: World<C>, n: nat, w1: World<C>, n1: nat, next: Program<C>, plan: seq<Planned<C>>,
                        stages: bool) returns (n': nat)
    requires Open(w) && Ready(next, w1, plan, n1, stages) && Progress(w, n, w1, Finished, n1, plan, stages)
    ensures var (w', r) := Run(next, w1);
            && Progress(w, n, w', r, n', plan, stages)
            && (Completed(r) ==> Top(w').order == Advance(Top(w1).order, Width(next)))
            && (Uninterrupted(next, Top(w1).kind) ==> r.Finished?)
    decreases next, 3
  {
    hide Run, Progress, Ready, Advance, Cursor, Uninterrupted, Safe;
    n' := RunProgress(next, w1, plan, n1, stages);
    ReadySafe(next, w1, plan, n1, stages);
    var (w', r) := Run(next, w1);
    if !Killed(r) { KeptOrder(w1, w', r); }
    ProgressTransitive(w, n, w1, n1, w', r, n', plan, stages);
  }

  lemma KeptOrder<C>(w: World<C>, w': World<C>, r: Outcome)
    requires Open(w) && Open(w') && Kept(w, w', r) && !Killed(r)
    ensures Top(w').order == Top(w).order || Before(Top(w).order, Top(w').order)
  {
  }

  /** Nothing follows a swallowed task. */
  lemma SwallowedProgress<C>(w: World<C>, n: nat, w1: World<C>, n1: nat, next: Program<C>, plan: seq<Planned<C>>,
                             stages: bool)
    requires Open(w) && Safe(w1) && w1.access == RO && Width(next) == 0 && Progress(w, n, w1, Swallowed, n1, plan, stages)
    ensures var (w', r) := Then(Swallowed, Run(next, w1));
            Progress(w, n, w', r, n1, plan, stages) && !Completed(r)
  {
    hide OnDisk, Run, Cursor, WellFramed, SafeDisk, Increasing, AllBefore;
    IdleRun(next, w1);
  }

  lemma ReadyNext<C>(w: World<C>, w1: World<C>, next: Program<C>, plan: seq<Planned<C>>, n1: nat, stages: bool)
    requires Safe(w) && CanHaveSubtasks(Top(w).kind) && WellPlanned(plan) && StablePlan(plan) && StopsAtFailure(next, Top(w).kind)
    requires (stages || SkipsNoStage(next)) && StableKeys(next) && StablePath(Top(w).path)
    requires Kept(w, w1, Finished) && Open(w1)
    requires Follows(next, Top(w).path, Top(w1).order, plan) && Synced(w1, plan, n1, stages)
    ensures Ready(next, w1, plan, n1, stages) && Top(w1).kind == Top(w).kind
  {
  }

  // ------------------------------------------------------------------------------- blocks

  /** The progress made inside a block stays when the flag is given back. */
  lemma BlockProgress<C>(w: World<C>, n: nat, skip: bool, w1: World<C>, flag: bool, r: Outcome, n': nat,
                         plan: seq<Planned<C>>, stages: bool)
    requires Open(w) && Open(w1) && Progress(w.(skipStages := skip), n, w1, r, n', plan, stages)
    requires r.Finished? && flag ==> stages
    ensures Progress(w, n, w1.(skipStages := flag), OfBlock(r), n', plan, stages)
  {
    hide OnDisk, Cursor, CoordinatesIn;
  }

  lemma BlockReady<C>(skip: bool, body: Program<C>, next: Program<C>, w: World<C>, plan: seq<Planned<C>>, n: nat,
                      stages: bool)
    requires Ready(Scope(skip, body, next), w, plan, n, stages)
    ensures Safe(w) && Ready(body, w.(skipStages := skip), plan, n, stages) && (w.skipStages ==> stages)
  {
    hide OnDisk, Cursor, Advance, WellFramed, SafeDisk, Increasing, AllBefore, Clean;
  }

  lemma BlockLeft<C>(skip: bool, body: Program<C>, next: Program<C>, w: World<C>, w1: World<C>,
                     plan: seq<Planned<C>>, n: nat, n': nat, stages: bool)
    requires Ready(Scope(skip, body, next), w, plan, n, stages)
    requires Open(w1) && Kept(w, w1, Finished) && Progress(w, n, w1, Finished, n', plan, stages)
    requires Top(w1).order == Advance(Top(w).order, Width(body))
    ensures Ready(next, w1, plan, n', stages) && Top(w1).kind == Top(w).kind
  {
    hide Cursor, WellFramed, SafeDisk, Increasing, AllBefore, Immutable, Advanced, Later, WellPlanned, StablePlan,
         OnDisk,
         Kept, Clean, Advance, Earlier, Synced;
    SyncedAfter(w, n, w1, n', plan, stages);
    ReadyNext(w, w1, next, plan, n', stages);
  }

  lemma SyncedAfter<C>(w: World<C>, n: nat, w1: World<C>, n1: nat, plan: seq<Planned<C>>, stages: bool)
    requires Open(w) && Open(w1) && Progress(w, n, w1, Finished, n1, plan, stages)
    ensures Synced(w1, plan, n1, stages)
  {
  }

  lemma ScopeProgress<C>(skip: bool, body: Program<C>, next: Program<C>, w: World<C>, plan: seq<Planned<C>>, n: nat,
                         stages: bool)
    returns (n': nat)
    requires Ready(Scope(skip, body, next), w, plan, n, stages)
    ensures Leads(Scope(skip, body, next), w, Run(Scope(skip, body, next), w), n', plan, n, stages)
    decreases Scope(skip, body, next), 0
  {
    hide WellFramed, SafeDisk, Increasing, AllBefore, Clean, Ready, Progress, Run, Advance, Kept, Safe, Then;
    BlockReady(skip, body, next, w, plan, n, stages);
    assert Open(w) by { SafeIsOpen(w); }
    var inside := w.(skipStages := skip);
    n' := RunProgress(body, inside, plan, n, stages);
    ReadySafe(body, inside, plan, n, stages);
    var (w1, r1) := Run(body, inside);
    BlockSafe(w, skip, w1, r1);
    RunScope(skip, body, next, w);
    var (w2, r) := AfterBlock(w, skip, body);
    BlockProgress(w, n, skip, w1, if Killed(r) then w1.skipStages else w.skipStages, r1, n', plan, stages);
    n' := AfterScope(skip, body, next, w, plan, n, stages, n');
  }

  lemma AfterScope<C>(skip: bool, body: Program<C>, next: Program<C>, w: World<C>, plan: seq<Planned<C>>, n: nat,
                      stages: bool, n1: nat)
    returns (n': nat)
    requires Ready(Scope(skip, body, next), w, plan, n, stages)
    requires var (w1, r) := AfterBlock(w, skip, body);
             && Kept(w, w1, r) && Progress(w, n, w1, r, n1, plan, stages)
             && (r.Finished? ==> Top(w1).order == Advance(Top(w).order, Width(body)))
             && (Uninterrupted(body, Top(w).kind) ==> r.Finished?)
    ensures Leads(Scope(skip, body, next), w, Run(Scope(skip, body, next), w), n', plan, n, stages)
    decreases next, 4
  {
    hide WellFramed, SafeDisk, Increasing, AllBefore, Clean, Ready, Progress, Run, Advance, Kept, Safe, AfterBlock,
         Connected;
    assert Open(w) by { ReadyIsSafe(Scope(skip, body, next), w, plan, n, stages); }
    RunScope(skip, body, next, w);
    var (w1, r) := AfterBlock(w, skip, body);
    n' := n1;
    if r.Finished? {
      BlockLeft(skip, body, next, w, w1, plan, n, n1, stages);
      n' := ThenProgress(w, n, w1, n1, next, plan, stages);
      AdvanceAdds(Top(w).order, Width(body), Width(next));
    } else if r.Swallowed? {
      SwallowedBlock(skip, body, next, w, plan, n, stages);
      SwallowedProgress(w, n, w1, n1, next, plan, stages);
    }
  }

  lemma ReadyIsSafe<C>(p: Program<C>, w: World<C>, plan: seq<Planned<C>>, n: nat, stages: bool)
    requires Ready(p, w, plan, n, stages)
    ensures Open(w) && Safe(w)
  {
  }

  lemma RootIsUnnamed<C>(w: World<C>)
    requires Safe(w) && |w.stack| == 1
    ensures Top(w).kind.None?
  {
  }

  /** A swallowed task was at the top level, and nothing follows it. */
  lemma SwallowedBlock<C>(skip: bool, body: Program<C>, next: Program<C>, w: World<C>, plan: seq<Planned<C>>, n: nat,
                          stages: bool)
    requires Ready(Scope(skip, body, next), w, plan, n, stages)
    requires var (w1, r) := AfterBlock(w, skip, body); Kept(w, w1, r) && r.Swallowed?
    ensures var w1 := AfterBlock(w, skip, body).0; Safe(w1) && w1.access == RO
    ensures Width(next) == 0
  {
    hide WellFramed, SafeDisk, Increasing, AllBefore, Clean, Synced, Follows, Immutable;
    ReadyIsSafe(Scope(skip, body, next), w, plan, n, stages);
    if !MentionsToBeContinued(body) { NotSwallowed(body, w.(skipStages := skip)); }
    RootIsUnnamed(w);
  }

  /** A handler around a block that cannot fail. */
  lemma TryProgress<C>(body: Program<C>, next: Program<C>, w: World<C>, plan: seq<Planned<C>>, n: nat, stages: bool)
    returns (n': nat)
    requires Ready(Try(body, next), w, plan, n, stages)
    ensures Leads(Try(body, next), w, Run(Try(body, next), w), n', plan, n, stages)
    decreases Try(body, next), 0
  {
    hide WellFramed, SafeDisk, Increasing, AllBefore, Clean, Ready, Progress, Run, Advance, Kept, Safe;
    TryReady(body, next, w, plan, n, stages);
    assert Open(w) by { SafeIsOpen(w); }
    n' := RunProgress(body, w, plan, n, stages);
    ReadySafe(body, w, plan, n, stages);
    RunTry(body, next, w);
    var (w1, r) := Run(body, w);
    assert r.Finished?;
    TryLeft(body, next, w, w1, plan, n, n', stages);
    n' := ThenProgress(w, n, w1, n', next, plan, stages);
    AdvanceAdds(Top(w).order, Width(body), Width(next));
  }

  lemma TryReady<C>(body: Program<C>, next: Program<C>, w: World<C>, plan: seq<Planned<C>>, n: nat, stages: bool)
    requires Ready(Try(body, next), w, plan, n, stages)
    ensures Safe(w) && Ready(body, w, plan, n, stages) && Uninterrupted(body, Top(w).kind)
  {
    hide OnDisk, Cursor, Advance, WellFramed, SafeDisk, Increasing, AllBefore, Clean;
    UninterruptedStops(body, Top(w).kind);
  }

  lemma TryLeft<C>(body: Program<C>, next: Program<C>, w: World<C>, w1: World<C>, plan: seq<Planned<C>>, n: nat,
                   n': nat, stages: bool)
    requires Ready(Try(body, next), w, plan, n, stages)
    requires Open(w1) && Kept(w, w1, Finished) && Progress(w, n, w1, Finished, n', plan, stages)
    requires Top(w1).order == Advance(Top(w).order, Width(body))
    ensures Ready(next, w1, plan, n', stages) && Top(w1).kind == Top(w).kind
  {
    hide Cursor, WellFramed, SafeDisk, Increasing, AllBefore, Immutable, Advanced, Later, WellPlanned, StablePlan,
         OnDisk,
         Kept, Clean, Advance, Earlier, Synced;
    SyncedAfter(w, n, w1, n', plan, stages);
    ReadyNext(w, w1, next, plan, n', stages);
  }

  // -------------------------------------------------------------------------------- calls

  lemma CallLeft<C>(key: Key, kind: Kind, body: Program<C>, next: Program<C>, w: World<C>, w1: World<C>,
                    plan: seq<Planned<C>>,
                    n: nat, n': nat, stages: bool)
    requires Ready(Call(key, kind, body, next), w, plan, n, stages)
    requires Open(w1) && Kept(w, w1, Finished) && Progress(w, n, w1, Finished, n', plan, stages)
    requires Top(w1).order == Bump(Top(w).order)
    ensures Ready(next, w1, plan, n', stages) && Top(w1).kind == Top(w).kind
  {
    hide Cursor, WellFramed, SafeDisk, Increasing, AllBefore, Immutable, Advanced, Later, WellPlanned, StablePlan,
         OnDisk,
         Kept, Clean, Advance, Earlier, Synced, StableKey, TextOf;
    SyncedAfter(w, n, w1, n', plan, stages);
    ReadyNext(w, w1, next, plan, n', stages);
  }

  lemma CallFinishes<C>(key: Key, kind: Kind, body: Program<C>, next: Program<C>, w: World<C>)
    requires Safe(w) && Uninterrupted(Call(key, kind, body, next), Top(w).kind)
    ensures !(|w.stack| == 1 && key.Index?)
  {
    if |w.stack| == 1 { RootIsUnnamed(w); }
  }

  lemma SwallowedCall<C>(key: Key, kind: Kind, body: Program<C>, next: Program<C>, w: World<C>,
                         plan: seq<Planned<C>>, n: nat, stages: bool)
    requires Ready(Call(key, kind, body, next), w, plan, n, stages)
    requires var (w1, r) := Execute(key, kind, body, w); Kept(w, w1, r) && r.Swallowed?
    ensures var w1 := Execute(key, kind, body, w).0; Safe(w1) && w1.access == RO
    ensures Width(next) == 0
  {
    hide WellFramed, SafeDisk, Increasing, AllBefore, Clean, Synced, Follows, Immutable, Execute, StableKey;
    ReadyIsSafe(Call(key, kind, body, next), w, plan, n, stages);
    if !MentionsToBeContinued(body) { NotSwallowedTask(key, kind, body, w); }
    RootIsUnnamed(w);
  }

  lemma CallThenProgress<C>(key: Key, kind: Kind, body: Program<C>, next: Program<C>, w: World<C>,
                            plan: seq<Planned<C>>, n: nat, stages: bool)
    returns (n': nat)
    requires Ready(Call(key, kind, body, next), w, plan, n, stages)
    ensures Leads(Call(key, kind, body, next), w, Run(Call(key, kind, body, next), w), n', plan, n, stages)
    decreases Call(key, kind, body, next), 0
  {
    hide WellFramed, SafeDisk, Increasing, AllBefore, Clean, Earlier, Progress, Execute, Advance, Ready, Kept,
         Synced, Run, Enter, Safe;
    ReadyIsSafe(Call(key, kind, body, next), w, plan, n, stages);
    assert Open(w) by { SafeIsOpen(w); }
    n' := CallProgress(key, kind, body, next, w, plan, n, stages);
    ExecuteSafe(key, kind, body, w);
    RunCall(key, kind, body, next, w);
    var (w1, r) := Execute(key, kind, body, w);
    if Uninterrupted(Call(key, kind, body, next), Top(w).kind) { CallFinishes(key, kind, body, next, w); }
    if r.Finished? {
      CallLeft(key, kind, body, next, w, w1, plan, n, n', stages);
      n' := ThenProgress(w, n, w1, n', next, plan, stages);
      AdvanceAdds(Top(w).order, 1, Width(next));
    } else if r.Swallowed? {
      SwallowedCall(key, kind, body, next, w, plan, n, stages);
      SwallowedProgress(w, n, w1, n', next, plan, stages);
    }
  }

  /** Running a program that stops at its first unfinished task, from a world in step with the
      plan: the recorded steps stay a prefix of the plan and grow, each recorded right after
      the one before; recorded steps are not invoked; at the end the session stands exactly
      after the planned steps, on their branch. */
  lemma {:induction false} RunProgress<C>(p: Program<C>, w: World<C>, plan: seq<Planned<C>>, n: nat,
                                          stages: bool) returns (n': nat)
    requires Ready(p, w, plan, n, stages)
    ensures Open(w) && Leads(p, w, Run(p, w), n', plan, n, stages)
    decreases p, 1
  {
    hide WellFramed, SafeDisk, Increasing, AllBefore, Cursor, WellPlanned, OnDisk, Follows, StablePlan, StablePath;
    n' := n;
    match p
    case End =>
      NoProgress(p, w, plan, n, Finished, stages);
      AdvanceAdds(Top(w).order, 0, 0);
    case Struck(cause) =>
      NoProgress(p, w, plan, n, Late(cause), stages);
      AdvanceAdds(Top(w).order, 0, 0);
    case Raise(exn, _) => NoProgress(p, w, plan, n, Raised(exn), stages);
    case Write(_, _) => NoProgress(p, w, plan, n, Raised(WritingDisabled), stages);
    case Scope(skip, body, next) => n' := ScopeProgress(skip, body, next, w, plan, n, stages);
    case Try(body, next) => n' := TryProgress(body, next, w, plan, n, stages);
    case Call(key, kind, body, next) => n' := CallThenProgress(key, kind, body, next, w, plan, n, stages);
  }

  lemma SafeIsOpen<C>(w: World<C>)
    requires Safe(w)
    ensures Open(w)
  {
  }

  lemma ReadySafe<C>(p: Program<C>, w: World<C>, plan: seq<Planned<C>>, n: nat, stages: bool)
    requires Ready(p, w, plan, n, stages)
    ensures Open(w)
    ensures var (w', r) := Run(p, w); Kept(w, w', r)
  {
    RunSafe(p, w);
  }
}
