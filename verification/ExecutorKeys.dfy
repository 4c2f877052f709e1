/** What the keys of tasks have to do with rerunning: the log and the branches know tasks by
    texts, and a text may read back as that of another task. */
module ExecutorKeys {
  import opened Prelude
  import opened ExecutorModel
  import opened TaskNames
  import opened BranchStore
  import opened TaskSemantics
  import opened ExecutorSafety
  import opened ExecutorPlan
  import opened ExecutorSteps
  import opened ExecutorCourse
  import opened ExecutorProgress
  import opened ExecutorBook
  import opened CoordinatesText

  // ---------------------------------------------------------------------------- programs

  /** One task, and nothing of importance after it. */
  predicate OneTask<C>(p: Program<C>, kind: Option<Kind>) {
    p.Call? && Width(p.next) == 0 && CanHaveSubtasks(kind) && (kind.None? ==> p.key.Name?)
  }

  /** Outside of steps, handlers surround single tasks or blocks that cannot fail. */
  predicate Orderly<C>(p: Program<C>, kind: Option<Kind>) {
    match p
    case End => true
    case Struck(_) => true
    case Write(_, next) => Orderly(next, kind)
    case Raise(_, next) => Orderly(next, kind)
    case Scope(_, body, next) => Orderly(body, kind) && Orderly(next, kind)
    case Try(body, next) => (Uninterrupted(body, kind) || OneTask(body, kind)) && Orderly(body, kind) && Orderly(next, kind)
    case Call(_, k, body, next) => (k.Stage? ==> Orderly(body, Some(Stage))) && Orderly(next, kind)
  }

  // -------------------------------------------------------------------------- stable keys

  /** All names in the session read back as themselves. */
  ghost predicate StableSoFar<C>(w: World<C>) {
    && LatestStable(w.log)
    && (forall c <- w.submitted :: Stable(TextOf(c))) && forall c <- w.invoked :: Stable(TextOf(c))
  }

  ghost predicate Legible<C>(w: World<C>) {
    && StableSoFar(w) && (w.latest.Some? ==> Stable(TextOf(w.latest.value)))
    && w.stack != [] && StablePath(Top(w).path)
  }

  /** The failures of a lookup or a skip. */
  predicate ReloadError(r: Outcome) {
    r == Raised(BranchMissing) || r == Raised(Unreadable)
  }

  ghost predicate KeptLegible<C>(w': World<C>, r: Outcome) {
    !ReloadError(r) && StableSoFar(w') && (!Killed(r) ==> Legible(w'))
  }

  lemma ConcludedReads<C>(w: World<C>, c: Coordinates, r: Outcome)
    requires Open(w) && (!Killed(r) && r != Late(Kill) ==> |w.stack| >= 2) && !ReloadError(r)
    requires c.kind.Step? && !r.Raised? && !r.Late? ==> Commit(w.store).Some?
    ensures !ReloadError(Conclude(w, c, r).1)
  {
  }

  lemma StepReads<C>(c: Coordinates, body: Program<C>, w: World<C>)
    requires Submitted(w, c) && Unrecorded(w.log, c) && c.kind.Step? && !CannotCommit(c)
    ensures !ReloadError(RunTask(c, body, Submit(w, c)).1)
  {
    hide WellFramed, SafeDisk, Increasing, AllBefore, Immutable, Advanced, Later, Unrecorded, Effect, Run, Writes,
         Conclude, TextOf;
    StepBodyEnds(c, body, w);
    var w1 := Enter(Submit(w, c), c).0;
    StepEntered(w, c);
    StepBody(body, w1);
    var (w2, r) := Run(body, w1);
    ConcludedReads(w2, c, r);
  }

  lemma SubmitStable<C>(w: World<C>, c: Coordinates)
    requires Legible(w) && Stable(TextOf(c))
    ensures Legible(Submit(w, c))
  {
    hide Stable, TextOf;
  }

  /** A row joins the log. */
  lemma LogStable<C>(w: World<C>, r: Record)
    requires LatestStable(w.log) && (r.latest.Some? ==> Stable(r.latest.value))
    ensures LatestStable(w.log + [r])
  {
    hide Stable;
  }

  /** A step that is run. */
  lemma StepLegible<C>(key: Key, body: Program<C>, w: World<C>)
    requires Safe(w) && CanHaveSubtasks(Top(w).kind) && Legible(w) && StableKey(key)
    requires !(|w.stack| == 1 && key.Index?) && FindLog(w.log, CoordinatesOf(w, key, Step)).Missing?
    ensures var (w', r) := Execute(key, Step, body, w);
            && KeptLegible(w', r)
            && (!Killed(r) ==> Top(w').order == Bump(Top(w).order))
            && (Uninterrupted(body, Some(Step)) ==> r.Finished?)
  {
    hide WellFramed, SafeDisk, Increasing, AllBefore, Immutable, Later, TextOf, Stable, StableKey, FindLog, RunTask,
         Execute, Writes, Effect, Clean,
         Earlier, LatestStable, Uninterrupted, CannotCommit;
    var c := CoordinatesOf(w, key, Step);
    StableTask(Top(w).path, key, Top(w).order, Step);
    NotFound(w.log, c);
    UnrecordedStepRuns(key, body, w);
    RunTaskSafe(c, body, w);
    StableCommits(c);
    var fate := StepOutcome(c, body, w);
    StepReads(c, body, w);
    LogStable(w, Record(TextOf(c), w.env.clock(|w.log|), NameOf(w.latest)));
    assert w.log + [] == w.log;
    var out := RunTask(c, body, Submit(w, c));
    assert LatestStable(out.0.log);
    assert StableSoFar(out.0);
  }

  /** A stable name leads a skip to its branch. */
  lemma SkipLegible<C>(key: Key, kind: Kind, body: Program<C>, w: World<C>)
    requires Safe(w) && CanHaveSubtasks(Top(w).kind) && Legible(w) && StableKey(key) && !(|w.stack| == 1 && key.Index?)
    requires FindLog(w.log, CoordinatesOf(w, key, kind)).Found? && (kind.Step? || w.skipStages)
    ensures var (w', r) := Execute(key, kind, body, w);
            KeptLegible(w', r) && r.Finished? && Top(w').order == Bump(Top(w).order)
  {
    hide WellFramed, RecordSafe, Increasing, AllBefore, Immutable, Later, TextOf, Stable, StableKey, FindLog, Skip,
         Clean, Earlier, LatestStable,
         AtMostOnce, Load;
    var c := CoordinatesOf(w, key, kind);
    StableTask(Top(w).path, key, Top(w).order, kind);
    var row := FoundIsInLog(w.log, c);
    LoadsFound(w.log, c, row);
    RecordedIsThere(w, row);
    LatestOfRow(w.log, row);
    SkipSafe(w, c, row);
  }

  lemma LatestOfRow(log: seq<Record>, row: Record)
    requires LatestStable(log) && row in log
    ensures row.latest.Some? ==> Stable(row.latest.value)
  {
  }

  // --------------------------------------------------------------------- the search by text

  /** What is found has the coordinates that were looked for exactly if they survive printing. */
  lemma FoundIsTheTask(log: seq<Record>, c: Coordinates)
    requires FindLog(log, c).Found?
    ensures FindLog(log, c).record.coordinates == c <==> CleanCoordinates(c)
  {
    hide TextOf, FindLog, Show, CleanCoordinates, Parse;
    var row := FoundIsInLog(log, c);
    ReloadIsParse(c);
    RoundTrip(c);
  }

  /** For such coordinates the search by text is a search for the task: it finds nothing
      exactly if the task is not among the `tasks` of the rows. */
  lemma SearchIsByTask(log: seq<Record>, tasks: seq<Coordinates>, c: Coordinates)
    requires |tasks| == |log| && forall i | 0 <= i < |log| :: log[i].text == TextOf(tasks[i]) && CleanCoordinates(tasks[i])
    requires CleanCoordinates(c)
    ensures FindLog(log, c).Missing? <==> c !in tasks
    ensures FindLog(log, c).Found? ==> FindLog(log, c).record.coordinates == c
  {
    hide TextOf, FindLog, Show, CleanCoordinates;
    NotFound(log, c);
    forall i | 0 <= i < |log| ensures log[i].text == TextOf(c) <==> tasks[i] == c {
      SameText(tasks[i], c);
      if Show(tasks[i]) == Show(c) { ShowInjective(tasks[i], c); }
    }
    if c in tasks {
      var i :| 0 <= i < |tasks| && tasks[i] == c;
      assert log[i] in log;
    }
    if FindLog(log, c).Found? { FoundIsTheTask(log, c); }
  }

  // ------------------------------------------------------------------------- the induction

  ghost predicate ReadyKeys<C>(p: Program<C>, w: World<C>) {
    Safe(w) && CanHaveSubtasks(Top(w).kind) && Legible(w) && StableKeys(p)
  }

  /** Nothing that is caught leaves out a task, if `p` is orderly; without interruptions `p`
      finishes. */
  ghost predicate KeptInStep<C>(p: Program<C>, w: World<C>, w': World<C>, r: Outcome)
    requires Open(w) && Open(w')
  {
    && (Orderly(p, Top(w).kind) ==> InStep(p, w) && (!r.Raised? ==> Top(w').order == Advance(Top(w).order, Width(p))))
    && (Uninterrupted(p, Top(w).kind) ==> r.Finished?)
  }

  lemma StageOpenedKeys<C>(c: Coordinates, body: Program<C>, w: World<C>)
    requires Submitted(w, c) && c.kind.Stage? && Legible(w) && Stable(TextOf(c)) && StablePath(c.path) && StableKeys(body)
    ensures var (w1, r1) := Enter(Submit(w, c), c);
            r1 == Finished && Inside(w, c, w1) && ReadyKeys(body, w1) && Top(w1) == Frame(c.path, c.order + [0], Some(Stage))
  {
    hide WellFramed, SafeDisk, Increasing, AllBefore, Immutable, Earlier, Clean, TextOf, Stable, StableKeys,
         StablePath, LatestStable;
    EnterSafe(w, c);
    SubmitStable(w, c);
    var w1 := Enter(Submit(w, c), c).0;
    assert w1 == Submit(w, c).(stack := w1.stack) && Top(w1) == Frame(c.path, c.order + [0], Some(Stage));
  }

  lemma StageClosedKeys<C>(c: Coordinates, w: World<C>, w2: World<C>, r: Outcome)
    requires Submitted(w, c) && c.kind.Stage? && Legible(w) && Open(w2) && !r.Swallowed? && !ProtocolError(r)
    requires !Killed(r) ==> Inside(w, c, w2)
    requires KeptLegible(w2, r)
    ensures var (w', r') := Conclude(w2, c, r);
            && KeptLegible(w', r') && (!Killed(r') ==> Top(w').order == Bump(c.order))
            && (r.Finished? ==> r'.Finished?)
  {
    hide WellFramed, SafeDisk, Increasing, AllBefore, Immutable, Later, Safe, Clean, Earlier, TextOf, Conclude,
         ProtocolError, Stable,
         StablePath, LatestStable;
    InsideIsDeeper(w, c, w2, r);
    StagePopped(w, c, w2, r);
    ConcludedReads(w2, c, r);
    if Completed(r) { LogStable(w2, Record(TextOf(c), w2.env.clock(|w2.log|), NameOf(w2.latest))); }
    ConcludeSubmits(w2, c, r);
    if !Killed(OfBlock(r)) { ConcludeSafe(w, c, w2, r); } else { ConcludeKilled(w2, c, r); }
  }

  lemma ConcludeSubmits<C>(w: World<C>, c: Coordinates, r: Outcome)
    requires Open(w) && (!Killed(r) && r != Late(Kill) ==> |w.stack| >= 2)
    ensures Conclude(w, c, r).0.submitted == w.submitted
  {
    hide Commit, Rollback, Connected, Clean, TextOf;
  }

  /** A stage that is run. */
  lemma StageLegible<C>(c: Coordinates, body: Program<C>, w: World<C>)
    requires Submitted(w, c) && c.kind.Stage? && Legible(w) && Stable(TextOf(c)) && StablePath(c.path) && StableKeys(body)
    ensures var (w', r) := RunTask(c, body, Submit(w, c));
            && KeptLegible(w', r) && (!Killed(r) ==> Top(w').order == Bump(c.order))
            && (Uninterrupted(body, Some(Stage)) ==> r.Finished?)
    ensures Orderly(body, Some(Stage)) ==> InStep(body, Enter(Submit(w, c), c).0)
    decreases body, 2
  {
    hide WellFramed, SafeDisk, Increasing, AllBefore, Immutable, Advanced, Later, Earlier, Clean, TextOf, Stable,
         StableKeys, StablePath,
         LatestStable, Run, Conclude, Enter, InStep, Uninterrupted, Orderly, Legible, StableSoFar;
    StageOpenedKeys(c, body, w);
    var w1 := Enter(Submit(w, c), c).0;
    RunLegible(body, w1);
    RunSafe(body, w1);
    var (w2, r) := Run(body, w1);
    StageBodySafe(w, c, w1, w2, r);
    StageClosedKeys(c, w, w2, r);
  }

  /** One call. */
  lemma ExecuteLegible<C>(key: Key, kind: Kind, body: Program<C>, w: World<C>)
    requires Safe(w) && CanHaveSubtasks(Top(w).kind) && Legible(w) && StableKey(key) && StableKeys(body)
    ensures var (w', r) := Execute(key, kind, body, w);
            && KeptLegible(w', r)
            && (!(|w.stack| == 1 && key.Index?) ==>
                  && (!Killed(r) ==> Top(w').order == Bump(Top(w).order))
                  && (Uninterrupted(body, Some(kind)) ==> r.Finished?))
            && (|w.stack| == 1 && key.Index? ==> r.Raised?)
    ensures kind.Stage? && Runs(w, key, kind) && Orderly(body, Some(Stage)) ==>
              var c := CoordinatesOf(w, key, kind); InStep(body, Enter(Submit(w, c), c).0)
    decreases body, 3
  {
    hide WellFramed, SafeDisk, Increasing, AllBefore, Immutable, Advanced, Later, Earlier, Clean, TextOf, Stable,
         StableKeys, StableKey,
         LatestStable, RunTask, FindLog, Enter, InStep, Uninterrupted, Orderly, Skip;
    var c := CoordinatesOf(w, key, kind);
    if !(|w.stack| == 1 && key.Index?) {
      StableTask(Top(w).path, key, Top(w).order, kind);
      LegibleHere(w, c);
      if FindLog(w.log, c).Found? && (kind.Step? || w.skipStages) {
        SkipLegible(key, kind, body, w);
      } else if kind.Step? {
        StepLegible(key, body, w);
      } else {
        StageLegible(c, body, w);
      }
    }
  }

  lemma LegibleHere<C>(w: World<C>, c: Coordinates)
    requires Safe(w) && Legible(w) && Stable(TextOf(c))
    ensures FindLog(w.log, c).Found? || FindLog(w.log, c).Missing?
  {
    hide FindLog, Stable, TextOf, WellFramed, LatestStable;
    LegibleLookup(w.log, c);
  }

  lemma NextKeys<C>(w: World<C>, w1: World<C>, r: Outcome, next: Program<C>)
    requires Safe(w) && CanHaveSubtasks(Top(w).kind) && Kept(w, w1, r) && !Killed(r) && Legible(w1) && StableKeys(next)
    ensures ReadyKeys(next, w1) && Top(w1).kind == Top(w).kind && Top(w1).path == Top(w).path
  {
    hide WellFramed, SafeDisk, Increasing, AllBefore, Immutable, Later, Legible;
  }

  // Unfolding one construct.

  lemma SyntaxOfScope<C>(skip: bool, body: Program<C>, next: Program<C>, kind: Option<Kind>)
    ensures var p := Scope(skip, body, next);
            && (Orderly(p, kind) <==> Orderly(body, kind) && Orderly(next, kind))
            && (Uninterrupted(p, kind) <==> Uninterrupted(body, kind) && Uninterrupted(next, kind))
            && Width(p) == Width(body) + Width(next)
  {
  }

  lemma SyntaxOfTry<C>(body: Program<C>, next: Program<C>, kind: Option<Kind>)
    ensures var p := Try(body, next);
            && (Orderly(p, kind) <==>
                  (Uninterrupted(body, kind) || OneTask(body, kind)) && Orderly(body, kind) && Orderly(next, kind))
            && (Uninterrupted(p, kind) <==> Uninterrupted(body, kind) && Uninterrupted(next, kind))
            && Width(p) == Width(body) + Width(next)
  {
    hide OneTask;
  }

  lemma SyntaxOfCall<C>(key: Key, k: Kind, body: Program<C>, next: Program<C>, kind: Option<Kind>)
    ensures var p := Call(key, k, body, next);
            && (Orderly(p, kind) <==> (k.Stage? ==> Orderly(body, Some(Stage))) && Orderly(next, kind))
            && (Uninterrupted(p, kind) ==> Uninterrupted(next, kind))
            && Width(p) == 1 + Width(next)
  {
  }

  lemma InStepScope<C>(skip: bool, body: Program<C>, next: Program<C>, w: World<C>)
    requires Open(w) && InStep(body, w.(skipStages := skip))
    requires var (w1, r) := AfterBlock(w, skip, body); !r.Raised? ==> InStep(next, w1)
    ensures InStep(Scope(skip, body, next), w)
  {
    hide AfterBlock, Connected;
  }

  lemma InStepTry<C>(body: Program<C>, next: Program<C>, w: World<C>)
    requires Open(w) && InStep(body, w)
    requires var (w1, r) := Run(body, w);
             !Killed(OfBlock(r)) ==> Top(w1).order == Advance(Top(w).order, Width(body)) && InStep(next, w1)
    ensures InStep(Try(body, next), w)
  {
    hide Run, Connected, Advance, Width;
  }

  lemma InStepCall<C>(key: Key, kind: Kind, body: Program<C>, next: Program<C>, w: World<C>)
    requires Open(w)
    requires kind.Stage? && Runs(w, key, kind) ==>
               var c := CoordinatesOf(w, key, kind); InStep(body, Enter(Submit(w, c), c).0)
    requires var (w1, r) := Execute(key, kind, body, w); !r.Raised? ==> InStep(next, w1)
    ensures InStep(Call(key, kind, body, next), w)
  {
    hide Execute, Runs, Enter, Connected;
  }

  lemma InScopeKeys<C>(skip: bool, body: Program<C>, next: Program<C>, w: World<C>)
    requires ReadyKeys(Scope(skip, body, next), w)
    ensures Open(w) && Safe(w) && CanHaveSubtasks(Top(w).kind) && StableKeys(next)
    ensures var inside := w.(skipStages := skip);
            ReadyKeys(body, inside) && Safe(inside) && Top(inside) == Top(w)
  {
    hide WellFramed, SafeDisk, Increasing, AllBefore, Earlier, Clean, LatestStable, Stable, TextOf, StablePath;
  }

  /** Leaving a block. */
  lemma BlockLegible<C>(w1: World<C>, flag: bool, r: Outcome)
    requires KeptLegible(w1, r)
    ensures KeptLegible(w1.(skipStages := flag), OfBlock(r)) && KeptLegible(w1, OfBlock(r))
  {
    hide LatestStable, Stable, TextOf, StablePath;
  }

  lemma ScopeLegible<C>(skip: bool, body: Program<C>, next: Program<C>, w: World<C>)
    requires ReadyKeys(Scope(skip, body, next), w)
    ensures var (w', r) := Run(Scope(skip, body, next), w);
            Open(w) && KeptLegible(w', r) && KeptInStep(Scope(skip, body, next), w, w', r)
    decreases Scope(skip, body, next), 0
  {
    hide Safe, ReadyKeys, Legible, StableSoFar, Run, Kept, Advance, Execute, InStep, Orderly, Uninterrupted, Connected;
    InScopeKeys(skip, body, next, w);
    var inside := w.(skipStages := skip);
    RunLegible(body, inside);
    RunSafe(body, inside);
    var (w1, r1) := Run(body, inside);
    BlockSafe(w, skip, w1, r1);
    BlockLegible(w1, w.skipStages, r1);
    AfterScopeLegible(skip, body, next, w);
  }

  lemma AfterScopeLegible<C>(skip: bool, body: Program<C>, next: Program<C>, w: World<C>)
    requires ReadyKeys(Scope(skip, body, next), w)
    requires var (w2, r) := AfterBlock(w, skip, body);
             && Kept(w, w2, r) && KeptLegible(w2, r) && (Uninterrupted(body, Top(w).kind) ==> r.Finished?)
             && (Orderly(body, Top(w).kind) ==>
                   InStep(body, w.(skipStages := skip)) && (!r.Raised? ==> Top(w2).order == Advance(Top(w).order, Width(body))))
    ensures var (w', r) := Run(Scope(skip, body, next), w);
            Open(w) && KeptLegible(w', r) && KeptInStep(Scope(skip, body, next), w, w', r)
    decreases next, 4
  {
    hide Safe, ReadyKeys, Legible, StableSoFar, Run, Kept, Advance, Execute, AfterBlock, InStep, Orderly, Uninterrupted,
         Width, Connected;
    InScopeKeys(skip, body, next, w);
    RunScope(skip, body, next, w);
    SyntaxOfScope(skip, body, next, Top(w).kind);
    var (w2, r) := AfterBlock(w, skip, body);
    if !r.Raised? {
      NextKeys(w, w2, r, next);
      RunLegible(next, w2);
      AdvanceAdds(Top(w).order, Width(body), Width(next));
    }
    if Orderly(Scope(skip, body, next), Top(w).kind) { InStepScope(skip, body, next, w); }
  }

  /** A handler around one task: the task is counted whatever comes of it. */
  lemma OneTaskCounted<C>(p: Program<C>, w: World<C>)
    requires ReadyKeys(p, w) && OneTask(p, Top(w).kind)
    requires var (w1, r) := Execute(p.key, p.kind, p.body, w);
             && KeptLegible(w1, r) && Kept(w, w1, r)
             && (!(|w.stack| == 1 && p.key.Index?) && !Killed(r) ==> Top(w1).order == Bump(Top(w).order))
    ensures Open(w) && !Killed(OfBlock(Run(p, w).1)) ==> Top(Run(p, w).0).order == Advance(Top(w).order, Width(p))
  {
    hide WellFramed, SafeDisk, Increasing, AllBefore, Immutable, Later, Earlier, Clean, Run, Execute, Legible,
         StableKeys;
    RunCall(p.key, p.kind, p.body, p.next, w);
    var (w1, r) := Execute(p.key, p.kind, p.body, w);
    if |w.stack| == 1 { RootIsUnnamed(w); }
    AdvanceAdds(Top(w).order, 0, 0);
    if !r.Raised? { IdleRun(p.next, w1); }
  }

  lemma InTryKeys<C>(body: Program<C>, next: Program<C>, w: World<C>)
    requires ReadyKeys(Try(body, next), w)
    ensures Open(w) && Safe(w) && CanHaveSubtasks(Top(w).kind) && StableKeys(next) && ReadyKeys(body, w)
  {
    hide WellFramed, SafeDisk, Increasing, AllBefore, Earlier, Clean, Legible;
  }

  lemma TryLegible<C>(body: Program<C>, next: Program<C>, w: World<C>)
    requires ReadyKeys(Try(body, next), w)
    ensures var (w', r) := Run(Try(body, next), w);
            Open(w) && KeptLegible(w', r) && KeptInStep(Try(body, next), w, w', r)
    decreases Try(body, next), 0
  {
    hide Safe, ReadyKeys, Legible, StableSoFar, Run, Kept, Advance, Execute;
    InTryKeys(body, next, w);
    RunLegible(body, w);
    RunSafe(body, w);
    var (w1, r) := Run(body, w);
    BlockLegible(w1, w.skipStages, r);
    if OneTask(body, Top(w).kind) { OneTaskCounts(body, w); }
    AfterTryLegible(body, next, w);
  }

  lemma AfterTryLegible<C>(body: Program<C>, next: Program<C>, w: World<C>)
    requires ReadyKeys(Try(body, next), w)
    requires var (w1, r) := Run(body, w);
             && Kept(w, w1, r) && KeptLegible(w1, r) && KeptLegible(w1, OfBlock(r)) && KeptInStep(body, w, w1, r)
             && (OneTask(body, Top(w).kind) && !Killed(OfBlock(r)) ==> Top(w1).order == Advance(Top(w).order, Width(body)))
    ensures var (w', r) := Run(Try(body, next), w);
            Open(w) && KeptLegible(w', r) && KeptInStep(Try(body, next), w, w', r)
    decreases next, 4
  {
    hide Safe, ReadyKeys, Legible, StableSoFar, Run, Kept, Advance, Execute, OneTask, Connected, InStep, Orderly,
         Uninterrupted, Width;
    InTryKeys(body, next, w);
    RunTry(body, next, w);
    SyntaxOfTry(body, next, Top(w).kind);
    var (w1, r) := Run(body, w);
    if !Killed(OfBlock(r)) {
      NextKeys(w, w1, r, next);
      RunLegible(next, w1);
      AdvanceAdds(Top(w).order, Width(body), Width(next));
    }
    if Orderly(Try(body, next), Top(w).kind) { InStepTry(body, next, w); }
  }

  lemma OneTaskCounts<C>(p: Program<C>, w: World<C>)
    requires ReadyKeys(p, w) && OneTask(p, Top(w).kind)
    ensures Open(w) && !Killed(OfBlock(Run(p, w).1)) ==> Top(Run(p, w).0).order == Advance(Top(w).order, Width(p))
    decreases p, 0
  {
    hide WellFramed, SafeDisk, Increasing, AllBefore, Run, Kept, Advance, Execute, LatestStable, StablePath, StableKey;
    ExecuteLegible(p.key, p.kind, p.body, w);
    ExecuteSafe(p.key, p.kind, p.body, w);
    OneTaskCounted(p, w);
  }

  lemma CallLegible<C>(key: Key, kind: Kind, body: Program<C>, next: Program<C>, w: World<C>)
    requires ReadyKeys(Call(key, kind, body, next), w)
    ensures var (w', r) := Run(Call(key, kind, body, next), w);
            Open(w) && KeptLegible(w', r) && KeptInStep(Call(key, kind, body, next), w, w', r)
    decreases Call(key, kind, body, next), 0
  {
    hide Safe, ReadyKeys, Legible, StableSoFar, Run, Kept, Advance, Execute, StableKey, Enter, Bump, Runs, InStep,
         Connected;
    InCallKeys(key, kind, body, next, w);
    ExecuteLegible(key, kind, body, w);
    ExecuteSafe(key, kind, body, w);
    if |w.stack| == 1 { RootIsUnnamed(w); }
    AfterCallLegible(key, kind, body, next, w);
  }

  lemma InCallKeys<C>(key: Key, kind: Kind, body: Program<C>, next: Program<C>, w: World<C>)
    requires ReadyKeys(Call(key, kind, body, next), w)
    ensures Open(w) && Safe(w) && CanHaveSubtasks(Top(w).kind) && Legible(w) && StableKey(key) && StableKeys(body) && StableKeys(next)
  {
    hide WellFramed, SafeDisk, Increasing, AllBefore, Earlier, Clean, Legible, StableKey;
  }

  lemma AfterCallLegible<C>(key: Key, kind: Kind, body: Program<C>, next: Program<C>, w: World<C>)
    requires ReadyKeys(Call(key, kind, body, next), w)
    requires var (w1, r) := Execute(key, kind, body, w);
             && Kept(w, w1, r) && KeptLegible(w1, r) && !r.Late?
             && (!r.Raised? ==> Top(w1).order == Bump(Top(w).order))
             && (Uninterrupted(Call(key, kind, body, next), Top(w).kind) ==> r.Finished?)
    requires kind.Stage? && Runs(w, key, kind) && Orderly(body, Some(Stage)) ==>
               var c := CoordinatesOf(w, key, kind); InStep(body, Enter(Submit(w, c), c).0)
    ensures var (w', r) := Run(Call(key, kind, body, next), w);
            Open(w) && KeptLegible(w', r) && KeptInStep(Call(key, kind, body, next), w, w', r)
    decreases next, 4
  {
    hide Safe, ReadyKeys, Legible, StableSoFar, Run, Kept, Advance, Execute, StableKey, Enter, Bump, Runs, Connected,
         InStep, Orderly, Uninterrupted, Width;
    InCallKeys(key, kind, body, next, w);
    RunCall(key, kind, body, next, w);
    SyntaxOfCall(key, kind, body, next, Top(w).kind);
    var (w1, r) := Execute(key, kind, body, w);
    if !r.Raised? {
      NextKeys(w, w1, r, next);
      RunLegible(next, w1);
      AdvanceAdds(Top(w).order, 1, Width(next));
    }
    if Orderly(Call(key, kind, body, next), Top(w).kind) { InStepCall(key, kind, body, next, w); }
  }

  /** With stable keys nothing that is looked up is illegible and no skipped task's branch is
      missing, whatever is caught and whatever raises. */
  lemma {:induction false} RunLegible<C>(p: Program<C>, w: World<C>)
    requires ReadyKeys(p, w)
    ensures var (w', r) := Run(p, w);
            Open(w) && KeptLegible(w', r) && KeptInStep(p, w, w', r)
    decreases p, 1
  {
    hide WellFramed, SafeDisk, Increasing, AllBefore, Earlier, Clean, LatestStable, Stable, TextOf, StablePath,
         Execute, StableKey, AfterBlock;
    match p
    case End => AdvanceAdds(Top(w).order, 0, 0);
    case Struck(cause) => AdvanceAdds(Top(w).order, 0, 0);
    case Raise(exn, _) =>
    case Write(_, _) =>
    case Scope(skip, body, next) => ScopeLegible(skip, body, next, w);
    case Try(body, next) => TryLegible(body, next, w);
    case Call(key, kind, body, next) => CallLegible(key, kind, body, next, w);
  }

  // ------------------------------------------------------------------------------ sessions

  ghost predicate AllStable<C>(history: seq<Attempt<C>>) {
    forall a <- history :: StableKeys(a.program)
  }

  lemma FreshKeys<C>(p: Program<C>, disk: Disk<C>, env: Env)
    requires SafeDisk(disk.log, disk.heads) && LatestStable(disk.log) && StableKeys(p)
    ensures ReadyKeys(p, Fresh(disk, env))
  {
    hide SafeDisk, LatestStable, StableKeys;
    FreshIsSafe(disk, env);
  }

  /** What later sessions read back: the latest steps that rows remember, and the marks. */
  ghost predicate LegibleDisk<C>(disk: Disk<C>) {
    LatestStable(disk.log) && CanOpen(disk.marked)
  }

  lemma MarksAreStable<C>(w: World<C>)
    requires StableSoFar(w)
    ensures LatestStable(w.log) && CanOpen(Names(w.invoked))
  {
    hide TextOf, Reload, LatestStable;
    forall t | t in Names(w.invoked) ensures Reload(t).Some? {
      var i :| 0 <= i < |w.invoked| && Names(w.invoked)[i] == t;
      assert Stable(TextOf(w.invoked[i]));
    }
  }

  lemma {:induction false} HistoryLegible<C>(history: seq<Attempt<C>>, start: Disk<C>)
    requires SafeDisk(start.log, start.heads) && LegibleDisk(start) && AllStable(history)
    ensures var disk := After(history, start); SafeDisk(disk.log, disk.heads) && LegibleDisk(disk)
    decreases |history|
  {
    hide AtMostOnce, RecordSafe, LatestStable, StableKeys, Run, StableSoFar, CanOpen;
    if history != [] {
      var (last, before) := (history[|history| - 1], history[..|history| - 1]);
      assert last in history && forall a <- before :: a in history;
      HistoryLegible(before, start);
      var disk := After(before, start);
      FreshKeys(last.program, disk, last.env);
      RunLegible(last.program, Fresh(disk, last.env));
      MarksAreStable(Session(last.program, disk, last.env).0);
      SessionIsSafe(last.program, disk, last.env);
    }
  }

  lemma NothingUnread<C>(w: World<C>, i: nat, order: seq<int>)
    requires StableSoFar(w) && i < |w.submitted|
    ensures Behind(w.log, w.submitted[i], order) ==> Before(w.submitted[i].order, order)
  {
    hide TextOf, Stable;
    var c := w.submitted[i];
    assert Stable(TextOf(c));
    forall r | r in w.log && r.text == TextOf(c) ensures Load(r).Some? { LoadsStable(r); }
  }

  /** With stable keys, no session of any history - ended however - fails in a lookup or for a
      missing branch; tasks are submitted in strictly increasing order; and a session that
      nothing interrupts finishes. */
  lemma StableSessions<C>(history: seq<Attempt<C>>, p: Program<C>, env: Env, main: C)
    requires AllStable(history) && StableKeys(p)
    ensures var (w, r) := Session(p, After(history, FirstDisk(main)), env);
            && !ReloadError(r) && !ProtocolError(r)
            && (forall i, j | 0 <= i < j < |w.submitted| :: Before(w.submitted[i].order, w.submitted[j].order))
            && (Uninterrupted(p, None) ==> r.Finished?)
  {
    hide SafeDisk, LatestStable, StableKeys, Run, AllStable, Unread, Uninterrupted, StableSoFar, InStep, CanOpen;
    FirstDiskIsSafe(main);
    NothingLogged(main);
    HistoryLegible(history, FirstDisk(main));
    var disk := After(history, FirstDisk(main));
    FreshKeys(p, disk, env);
    RunLegible(p, Fresh(disk, env));
    SessionIsSafe(p, disk, env);
    var w := Session(p, disk, env).0;
    forall i, j | 0 <= i < j < |w.submitted| ensures Before(w.submitted[i].order, w.submitted[j].order) {
      assert Behind(w.log, w.submitted[i], w.submitted[j].order);
      NothingUnread(w, i, w.submitted[j].order);
    }
  }

  lemma NothingLogged<C>(main: C)
    ensures LegibleDisk(FirstDisk(main))
  {
  }

  /** Tasks submitted in one session share a text, and with it a row or a branch, only if the
      row of the earlier one could not be read - with stable keys, never. */
  lemma SessionTextsDiffer<C>(history: seq<Attempt<C>>, p: Program<C>, env: Env, main: C, i: nat, j: nat)
    requires i < j < |Session(p, After(history, FirstDisk(main)), env).0.submitted|
    ensures var w := Session(p, After(history, FirstDisk(main)), env).0;
            && (Show(w.submitted[i]) == Show(w.submitted[j]) ==> Unread(w.log, w.submitted[i]))
            && (AllStable(history) && StableKeys(p) ==> Show(w.submitted[i]) != Show(w.submitted[j]))
  {
    hide SafeDisk, Run, AllStable, StableKeys, Unread, Show, TextOf;
    SessionsAreSafe(history, p, env, main);
    var w := Session(p, After(history, FirstDisk(main)), env).0;
    var (c, d) := (w.submitted[i], w.submitted[j]);
    assert Behind(w.log, c, d.order);
    SameText(c, d);
    BeforeIrreflexive(c.order);
    if AllStable(history) && StableKeys(p) { StableSessions(history, p, env, main); }
  }

  /** The block of a handler in a program that stops at its first unfinished task cannot fail. */
  lemma {:induction false} StoppingIsOrderly<C>(p: Program<C>, kind: Option<Kind>)
    requires StopsAtFailure(p, kind)
    ensures Orderly(p, kind)
  {
    match p
    case End =>
    case Struck(_) =>
    case Write(_, next) => StoppingIsOrderly(next, kind);
    case Raise(_, next) => StoppingIsOrderly(next, kind);
    case Scope(_, body, next) =>
      StoppingIsOrderly(body, kind);
      StoppingIsOrderly(next, kind);
    case Try(body, next) =>
      UninterruptedStops(body, kind);
      StoppingIsOrderly(body, kind);
      StoppingIsOrderly(next, kind);
    case Call(_, k, body, next) =>
      StoppingIsOrderly(body, Some(k));
      StoppingIsOrderly(next, kind);
  }

  /** Orderly programs with stable keys and one plan submit every task with its planned
      coordinates. */
  lemma {:induction false} OrderlyIsFaithful<C>(history: seq<Attempt<C>>, start: Disk<C>, plan: seq<Planned<C>>)
    requires SafeDisk(start.log, start.heads) && LegibleDisk(start) && AllStable(history)
    requires forall a <- history :: Plan(a.program) == plan && Orderly(a.program, None)
    ensures Faithful(history, start, plan)
    decreases |history|
  {
    hide AtMostOnce, RecordSafe, LatestStable, StableKeys, Run, Plan, Orderly, InStep, CanOpen;
    if history != [] {
      var (last, before) := (history[|history| - 1], history[..|history| - 1]);
      assert last in history && forall a <- before :: a in history;
      OrderlyIsFaithful(before, start, plan);
      HistoryLegible(before, start);
      var disk := After(before, start);
      FreshKeys(last.program, disk, last.env);
      RunLegible(last.program, Fresh(disk, last.env));
    }
  }
}
