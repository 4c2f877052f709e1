/** What recovery rests on: sessions that lose a commit or that go on after an unfinished
    task, and the data their reruns end with. */
module ExecutorLimits {
  import opened Prelude
  import opened CoordinatesText
  import opened ExecutorModel
  import opened TaskNames
  import opened BranchStore
  import opened TaskSemantics
  import opened ExecutorSafety
  import opened ExecutorPlan
  import opened ExecutorSteps
  import opened ExecutorCourse
  import opened ExecutorProgress
  import opened ExecutorBook
  import opened ExecutorContent
  import opened ExecutorKeys
  import opened ExecutorRecovery
  import opened ExecutorRerun

  // -------------------------------------------------------------- a commit that gets lost

  lemma StruckStep<C>(key: string, f: C -> C, cause: Strike)
    ensures var (p, struck) := (OneStep(key, f, End), OneStep(key, f, Struck(cause)));
            && Plan(struck) == Plan(p) == [Planned(Coordinates([Name(key)], [0], Step), [f])]
            && StopsAtFailure(struck, None) && Uninterrupted(p, None)
            && (StableKey(Name(key)) ==> StableKeys(struck) && StableKeys(p))
  {
    hide StableKey;
    OneStepPlan(key, f, End);
    OneStepPlan(key, f, Struck(cause));
    var (body, stricken) := (Program.Write(f, End), Program.Write(f, Struck(cause)));
    assert Uninterrupted(body, Some(Step)) && StopsAtFailure(stricken, Some(Step)) && !MentionsToBeContinued(stricken);
    assert StableKeys(body) && StableKeys(stricken);
  }

  lemma StruckBody<C>(f: C -> C, cause: Strike, w: World<C>)
    requires Open(w) && w.access == RW
    ensures Run(Program.Write(f, Struck(cause)), w).1 == Late(cause)
  {
    RunWrite(f, Struck(cause), w);
  }

  ghost predicate NoRow<C>(disk: Disk<C>, t: Text) {
    SafeDisk(disk.log, disk.heads) && forall r <- disk.log :: r.text != t
  }

  /** A first call whose task has no row. */
  lemma FreshCall<C>(key: string, kind: Kind, disk: Disk<C>, env: Env)
    requires NoRow(disk, TextOf(Coordinates([Name(key)], [0], kind)))
    ensures var w := Fresh(disk, env);
            && Safe(w) && CanHaveSubtasks(Top(w).kind) && Submitted(w, CoordinatesOf(w, Name(key), kind))
            && CoordinatesOf(w, Name(key), kind) == Coordinates([Name(key)], [0], kind)
            && FindLog(w.log, CoordinatesOf(w, Name(key), kind)).Missing?
  {
    hide AtMostOnce, RecordSafe, TextOf, FindLog;
    FreshIsSafe(disk, env);
    var w := Fresh(disk, env);
    assert [] + [Name(key)] == [Name(key)];
    NotFound(w.log, CoordinatesOf(w, Name(key), kind));
  }

  /** The first session is struck after the log insertion of its step. */
  lemma StruckSession<C>(key: string, f: C -> C, cause: Strike, env: Env, main: C)
    ensures var t := TextOf(Coordinates([Name(key)], [0], Step));
            var (w, r) := Session(OneStep(key, f, Struck(cause)), FirstDisk(main), env);
            r.Raised? && LostIn(w) == {t} && Recorded(w.log, t)
  {
    hide WellFramed, SafeDisk, Increasing, AllBefore, Immutable, Clean, Earlier, RunTask, Effect, TextOf, Execute,
         Inside, Writes, FindLog;
    var body := Program.Write(f, Struck(cause));
    var w0 := Fresh(FirstDisk(main), env);
    var c := Coordinates([Name(key)], [0], Step);
    FirstDiskIsSafe(main);
    FreshCall(key, Step, FirstDisk(main), env);
    NotFound(w0.log, c);
    UnrecordedStepRuns(Name(key), body, w0);
    StepEntered(w0, c);
    StruckBody(f, cause, Enter(Submit(w0, c), c).0);
    StepFate(c, body, w0);
    RunCall(Name(key), Step, body, End, w0);
    var w := Session(OneStep(key, f, Struck(cause)), FirstDisk(main), env).0;
    assert w.log[0] in w.log;
    assert w.lost == [TextOf(c)];
  }

  /** The window between log insertion and commit. A session that is killed or interrupted
      there leaves the log saying that the step is finished, and an empty branch: the rerun
      finishes without invoking the step and without its effect. (`LostCommitsDecide` has the
      exact condition for all programs.) */
  lemma LostCommitWindow<C>(key: string, f: C -> C, cause: Strike, env: Env, env': Env, main: C)
    requires StableKey(Name(key))
    ensures var (struck, p) := (OneStep(key, f, Struck(cause)), OneStep(key, f, End));
            var (w, r) := Session(p, After([Attempt(struck, env)], FirstDisk(main)), env');
            && Plan(struck) == Plan(p) && r.Finished? && w.invoked == []
            && w.store.working == main && Ideal(Plan(p), main) == f(main)
  {
    hide StableKey, StableKeys, StopsAtFailure, Uninterrupted, Plan, Run, SafeDisk, Recorded, OnDisk, TextOf, Effect,
         LostIn;
    var (struck, p) := (OneStep(key, f, Struck(cause)), OneStep(key, f, End));
    var (history, start, plan) := ([Attempt(struck, env)], FirstDisk(main), Plan(p));
    StruckStep(key, f, cause);
    StruckSession(key, f, cause, env, main);
    FirstHistory(plan, main);
    assert history == [] + history;
    UninterruptedStops(p, None);
    OneMore([], struck, env, main);
    var n := FinishedSession(history, p, env', main);
    assert Recorded(After(history, start).log, NameAt(plan, 0));
    EffectOfOne(f, main);
    assert plan[..0] == [];
    assert Content(plan, 0, main, LostSteps(history, start)) == main;
  }

  // ------------------------------------------------------------- a name that cannot be read

  /** A top-level step with `@` in its key is legal, and nothing has to interrupt it: it runs,
      it is logged, and its commit raises. Its effect is lost, its row stays, and no context is
      ever opened again over what it leaves behind. */
  lemma UnreadableKey<C>(key: string, f: C -> C, env: Env, main: C, more: seq<Attempt<C>>, q: Program<C>, env': Env)
    requires '@' in key
    ensures var t := TextOf(Coordinates([Name(key)], [0], Step));
            var (first, start) := ([Attempt(OneStep(key, f, End), env)], FirstDisk(main));
            var (w, r) := Session(OneStep(key, f, End), start, env);
            && r == Raised(Unreadable) && Recorded(w.log, t) && LostIn(w) == {t}
            && w.store.heads == map[None := main, Some(t) := main] && w.store.working == main
            && After(first + more, start) == DiskAfter(start, w)
            && Session(q, After(first + more, start), env').1 == Raised(Unreadable)
  {
    hide Run, TextOf, Reload, Session;
    var (first, start) := ([Attempt(OneStep(key, f, End), env)], FirstDisk(main));
    UnreadableSession(key, f, env, main);
    var w := Session(OneStep(key, f, End), start, env).0;
    var disk := DiskAfter(start, w);
    assert first[..0] == [] && After<C>([], start) == start;
    OneKeyPath(key, [0]);
    assert Names(w.invoked)[0] in disk.marked;
    StaysClosed(first, more, start);
    ClosedSession(q, disk, env');
  }

  lemma ClosedSession<C>(q: Program<C>, disk: Disk<C>, env: Env)
    requires None in disk.heads && !CanOpen(disk.marked)
    ensures Session(q, disk, env).1 == Raised(Unreadable)
  {
  }

  lemma UnreadableSession<C>(key: string, f: C -> C, env: Env, main: C)
    requires '@' in key
    ensures var c := Coordinates([Name(key)], [0], Step);
            var (w, r) := Session(OneStep(key, f, End), FirstDisk(main), env);
            && r == Raised(Unreadable) && Recorded(w.log, TextOf(c)) && LostIn(w) == {TextOf(c)} && w.invoked == [c]
            && w.store.heads == map[None := main, Some(TextOf(c)) := main] && w.store.working == main
  {
    hide WellFramed, SafeDisk, Increasing, AllBefore, Immutable, Earlier, RunTask, Effect, TextOf, Execute, Inside,
         Writes, FindLog, Run;
    var body := Program.Write(f, End);
    var w0 := Fresh(FirstDisk(main), env);
    var c := Coordinates([Name(key)], [0], Step);
    FirstDiskIsSafe(main);
    FreshCall(key, Step, FirstDisk(main), env);
    NotFound(w0.log, c);
    UnrecordedStepRuns(Name(key), body, w0);
    OneKeyPath(key, [0]);
    assert Uninterrupted(body, Some(Step)) by { assert Uninterrupted<C>(End, Some(Step)); }
    StepFate(c, body, w0);
    RunCall(Name(key), Step, body, End, w0);
    var w := Session(OneStep(key, f, End), FirstDisk(main), env).0;
    assert w.log[0] in w.log;
    assert w.lost == [TextOf(c)];
  }

  // -------------------------------------------------------- going on after an unfinished task

  const A := Coordinates([Name("a")], [0], Stage)
  const S := Coordinates([Name("a"), Name("s")], [0, 0], Step)
  const Z := Coordinates([Name("z")], [1], Step)

  function StepS<C>(g: C -> C): Program<C> {
    Call(Name("s"), Step, Program.Write(g, End), End)
  }

  function StepZ<C>(h: C -> C): Program<C> {
    Call(Name("z"), Step, Program.Write(h, End), End)
  }

  /** Stage a with step s, then step z. */
  function Whole<C>(g: C -> C, h: C -> C): Program<C> {
    Call(Name("a"), Stage, StepS(g), StepZ(h))
  }

  /** The same with stage a interrupted before s, and the session going on with z: by a
      handler, or without one if the stage is to be continued. */
  function Continued<C>(g: C -> C, h: C -> C, cause: Cause): Program<C> {
    if cause.ToBeContinued? then Call(Name("a"), Stage, Raise(cause, StepS(g)), StepZ(h))
    else Try(Call(Name("a"), Stage, Raise(cause, StepS(g)), End), StepZ(h))
  }

  lemma StagePlan<C>(body: Program<C>, next: Program<C>)
    ensures Steps(Call(Name("a"), Stage, body, next), [], [0]) == Steps(body, [Name("a")], [0, 0]) + Steps(next, [], [1])
  {
    hide Steps;
    UnfoldCall(Name("a"), Stage, body, next, [], [0]);
    assert [] + [Name("a")] == [Name("a")] && [0] + [0] == [0, 0] && Bump([0]) == [1];
  }

  lemma UnfoldCall<C>(key: Key, kind: Kind, body: Program<C>, next: Program<C>, path: seq<Key>, order: seq<int>)
    requires order != []
    ensures Steps(Call(key, kind, body, next), path, order) == StepsOfTask(key, kind, body, path, order) + Steps(next, path, Bump(order))
  {
  }

  lemma StepPlan<C>(key: string, f: C -> C, path: seq<Key>, order: seq<int>)
    requires order != []
    ensures Steps(OneStep(key, f, End), path, order) == [Planned(Coordinates(path + [Name(key)], order, Step), [f])]
  {
    assert Writes(Program.Write(f, End)) == [f] + Writes<C>(End) == [f];
    assert Steps<C>(End, path, Bump(order)) == [];
  }

  lemma PlanOfWhole<C>(g: C -> C, h: C -> C, cause: Cause, main: C)
    ensures var plan := [Planned(S, [g]), Planned(Z, [h])];
            Plan(Whole(g, h)) == Plan(Continued(g, h, cause)) == plan && Ideal(plan, main) == h(g(main))
  {
    hide Steps, Effect;
    var plan := [Planned(S, [g]), Planned(Z, [h])];
    StepPlan("s", g, [Name("a")], [0, 0]);
    StepPlan("z", h, [], [1]);
    assert [Name("a")] + [Name("s")] == [Name("a"), Name("s")] && [] + [Name("z")] == [Name("z")];
    assert StepS(g) == OneStep("s", g, End) && StepZ(h) == OneStep("z", h, End);
    RaisePlan(cause, StepS(g), [Name("a")], [0, 0]);
    StagePlan(StepS(g), StepZ(h));
    StagePlan(Raise(cause, StepS(g)), StepZ(h));
    StagePlan(Raise(cause, StepS(g)), End);
    TryPlan(Call(Name("a"), Stage, Raise(cause, StepS(g)), End), StepZ(h));
    NoSteps<C>([], [1]);
    EffectOfOne(g, main);
    EffectOfOne(h, g(main));
    assert plan[..1] == [Planned(S, [g])] && plan[..1][..0] == [];
    assert Ideal(plan[..1], main) == g(main);
  }

  lemma NoSteps<C>(path: seq<Key>, order: seq<int>)
    requires order != []
    ensures Steps<C>(End, path, order) == []
  {
  }

  lemma RaisePlan<C>(cause: Cause, next: Program<C>, path: seq<Key>, order: seq<int>)
    requires order != []
    ensures Steps(Raise(cause, next), path, order) == Steps(next, path, order)
  {
  }

  lemma TryPlan<C>(body: Program<C>, next: Program<C>)
    requires Width(body) == 1
    ensures Steps(Try(body, next), [], [0]) == Steps(body, [], [0]) + Steps(next, [], [1])
  {
    hide Steps, Width;
    UnfoldTry(body, next, [], [0]);
    assert Advance([0], 1) == [1];
  }

  lemma UnfoldTry<C>(body: Program<C>, next: Program<C>, path: seq<Key>, order: seq<int>)
    requires order != []
    ensures Steps(Try(body, next), path, order) == Steps(body, path, order) + Steps(next, path, Advance(order, Width(body)))
  {
    hide Width, Advance;
  }

  lemma LettersAreStable(s: string)
    requires s == "a" || s == "s" || s == "z"
    ensures StableKey(Name(s))
  {
    SplitAppend(s, "", '/');
    forall p | p in Split(s, '/') ensures StablePiece(p) {
      assert Strip(s) == s;
      assert ParseDigits(s).None?;
    }
  }

  lemma Syntax<C>(g: C -> C, h: C -> C, cause: Cause)
    ensures StableKeys(Whole(g, h)) && StableKeys(Continued(g, h, cause))
    ensures Uninterrupted(Whole(g, h), None) && Orderly(Continued(g, h, cause), None)
  {
    hide StableKey;
    LettersAreStable("a");
    LettersAreStable("s");
    LettersAreStable("z");
    var (s, z) := (Program.Write(g, End), Program.Write(h, End));
    assert StableKeys<C>(End) && Uninterrupted<C>(End, Some(Step)) && Uninterrupted<C>(End, Some(Stage)) && Uninterrupted<C>(End, None);
    assert StableKeys(s) && StableKeys(z) && Uninterrupted(s, Some(Step)) && Uninterrupted(z, Some(Step));
    assert StableKeys(StepS(g)) && StableKeys(StepZ(h)) && Uninterrupted(StepS(g), Some(Stage)) && Uninterrupted(StepZ(h), None);
    assert Orderly(StepS(g), Some(Stage)) && Orderly(StepZ(h), None);
    var block := Raise(cause, StepS(g));
    assert StableKeys(block) && Orderly(block, Some(Stage));
    var stage := Call(Name("a"), Stage, block, End);
    assert Width<C>(End) == 0 && StableKeys<C>(End) && Orderly<C>(End, None);
    assert StableKeys(stage) && Orderly(stage, None);
  }

  lemma RaisingStage<C>(g: C -> C, cause: Cause, disk: Disk<C>, env: Env)
    requires NoRow(disk, TextOf(A))
    ensures var w0 := Fresh(disk, env);
            var w1 := Enter(Submit(w0, A), A).0;
            && CoordinatesOf(w0, Name("a"), Stage) == A && Submitted(w0, A)
            && Inside(w0, A, w1) && w1 == Submit(w0, A).(stack := w1.stack)
            && Execute(Name("a"), Stage, Raise(cause, StepS(g)), w0) == Conclude(w1, A, Raised(cause))
  {
    hide WellFramed, AtMostOnce, RecordSafe, Increasing, AllBefore, Immutable, Clean, Earlier, TextOf, FindLog, Later,
         Conclude, Connected;
    var w0 := Fresh(disk, env);
    FreshCall("a", Stage, disk, env);
    EnterSafe(w0, A);
    var w1 := Enter(Submit(w0, A), A).0;
    assert Run(Raise(cause, StepS(g)), w1) == (w1, Raised(cause));
  }

  /** Stage a of the interrupted session: nothing is logged, and the stage is counted. */
  lemma InterruptedStage<C>(g: C -> C, cause: Cause, disk: Disk<C>, env: Env)
    requires !cause.Kill? && NoRow(disk, TextOf(A))
    ensures var w0 := Fresh(disk, env);
            var (w, r) := Execute(Name("a"), Stage, Raise(cause, StepS(g)), w0);
            && Safe(w) && w.stack == [Frame([], [1], None)] && !Killed(r) && (r.Raised? <==> !cause.ToBeContinued?)
            && w.log == disk.log && w.latest == None && w.env == env && w.store == w0.store
  {
    hide Safe, Kept, TextOf, Conclude, Connected, Enter, Execute, Inside, Submitted, Advanced, Bump,
         AtMostOnce, RecordSafe;
    RaisingStage(g, cause, disk, env);
    var w0 := Fresh(disk, env);
    var w1 := Enter(Submit(w0, A), A).0;
    ConcludeByCases(w0, A, w1, Raised(cause));
    ConcludeSafe(w0, A, w1, Raised(cause));
    StagePopped(w0, A, w1, Raised(cause));
    RootCounted(w0, Conclude(w1, A, Raised(cause)).0, OutcomeAfter(A, Raised(cause)));
  }

  lemma RootCounted<C>(w: World<C>, w': World<C>, r: Outcome)
    requires w.stack == [Frame([], [0], None)] && Kept(w, w', r) && !Killed(r) && w'.stack != [] && Top(w').order == Bump([0])
    ensures Safe(w') && w'.stack == [Frame([], [1], None)] && w'.env == w.env
  {
    hide Safe, Immutable, SafeDisk, Increasing;
    assert Bump([0]) == [1];
    assert w'.stack == [Top(w')];
  }

  /** Step z of the interrupted session: it is logged after nothing. */
  lemma ContinuedSession<C>(g: C -> C, h: C -> C, cause: Cause, disk: Disk<C>, env: Env)
    requires !cause.Kill? && NoRow(disk, TextOf(A)) && NoRow(disk, TextOf(Z)) && CanOpen(disk.marked)
    ensures var (w, r) := Session(Continued(g, h, cause), disk, env);
            && !r.Raised? && w.log == disk.log + [Record(TextOf(Z), env.clock(|disk.log|), None)]
            && Some(TextOf(Z)) in w.store.heads && w.store.heads[Some(TextOf(Z))] == h(disk.heads[None])
  {
    hide WellFramed, AtMostOnce, RecordSafe, Increasing, AllBefore, Immutable, Clean, Earlier, TextOf, FindLog, Later,
         Execute, Run, Effect, RunTask, Writes;
    var w0 := Fresh(disk, env);
    InterruptedStage(g, cause, disk, env);
    var (w1, r1) := Execute(Name("a"), Stage, Raise(cause, StepS(g)), w0);
    ContinuedRuns(g, h, cause, w0);
    assert [] + [Name("z")] == [Name("z")];
    assert CoordinatesOf(w1, Name("z"), Step) == Z;
    NotFound(w1.log, Z);
    var body := Program.Write(h, End);
    UnrecordedStepRuns(Name("z"), body, w1);
    assert Uninterrupted(body, Some(Step)) by { Syntax(g, h, cause); }
    assert !CannotCommit(Z) by { OneKeyPath("z", [1]); }
    var fate := StepOutcome(Z, body, w1);
    assert Writes(body) == [h] by { OneWrite(h); }
    EffectOfOne(h, disk.heads[None]);
    RunCall(Name("z"), Step, body, End, w1);
    EndRuns(Execute(Name("z"), Step, body, w1).0);
  }

  lemma OneWrite<C>(f: C -> C)
    ensures Writes(Program.Write(f, End)) == [f]
  {
    assert [f] + Writes<C>(End) == [f];
  }

  lemma EndRuns<C>(w: World<C>)
    requires Open(w)
    ensures Run(End, w) == (w, Finished)
  {
  }

  /** What the session does after stage a, with or without a handler. */
  lemma ContinuedRuns<C>(g: C -> C, h: C -> C, cause: Cause, w: World<C>)
    requires Open(w)
    requires var r := Execute(Name("a"), Stage, Raise(cause, StepS(g)), w).1; !Killed(r) && (r.Raised? <==> !cause.ToBeContinued?)
    ensures var w1 := Execute(Name("a"), Stage, Raise(cause, StepS(g)), w).0;
            var (w2, r2) := Run(Continued(g, h, cause), w);
            w2 == Run(StepZ(h), w1).0 && (r2.Raised? <==> Run(StepZ(h), w1).1.Raised?)
  {
    hide Execute, Run, Connected;
    var stage := Call(Name("a"), Stage, Raise(cause, StepS(g)), End);
    RunCall(Name("a"), Stage, Raise(cause, StepS(g)), StepZ(h), w);
    RunCall(Name("a"), Stage, Raise(cause, StepS(g)), End, w);
    RunTry(stage, StepZ(h), w);
    EndRuns(Execute(Name("a"), Stage, Raise(cause, StepS(g)), w).0);
  }

  /** A recorded step is skipped, and its branch checked out. */
  lemma RecordedStep<C>(key: Key, body: Program<C>, w: World<C>)
    requires Safe(w) && CanHaveSubtasks(Top(w).kind) && Legible(w) && StableKey(key) && !(|w.stack| == 1 && key.Index?)
    requires Recorded(w.log, TextOf(CoordinatesOf(w, key, Step)))
    ensures var t := TextOf(CoordinatesOf(w, key, Step));
            var (w', r) := Execute(key, Step, body, w);
            r.Finished? && Some(t) in w.store.heads && w'.store.working == w.store.heads[Some(t)]
  {
    hide WellFramed, RecordSafe, Increasing, AllBefore, Immutable, Later, TextOf, Stable, StableKey, FindLog, Skip,
         Clean, Earlier, LatestStable,
         AtMostOnce, Load, Advanced, Kept;
    var c := CoordinatesOf(w, key, Step);
    StableTask(Top(w).path, key, Top(w).order, Step);
    LegibleHere(w, c);
    NotFound(w.log, c);
    var row := FoundIsInLog(w.log, c);
    LoadsFound(w.log, c, row);
    RecordedIsThere(w, row);
    SkipSafe(w, c, row);
  }

  /** The rerun takes the branch of z as it is. */
  lemma RerunSession<C>(g: C -> C, h: C -> C, disk: Disk<C>, env: Env)
    requires SafeDisk(disk.log, disk.heads) && LegibleDisk(disk) && Recorded(disk.log, TextOf(Z))
    ensures var (w, r) := Session(Whole(g, h), disk, env);
            r.Finished? && Some(TextOf(Z)) in disk.heads && w.store.working == disk.heads[Some(TextOf(Z))]
  {
    hide Run, Execute, TextOf, WellFramed, RunTask, StableKey, AtMostOnce, RecordSafe, LatestStable, Increasing,
         AllBefore, Clean, Earlier, Stable, Uninterrupted, Stamped, Reload, Immutable, FindLog;
    var (w0, cause) := (Fresh(disk, env), Failure);
    var (s, z) := (StepS(g), Program.Write(h, End));
    Syntax(g, h, cause);
    FreshKeys(Whole(g, h), disk, env);
    LettersAreStable("a");
    LettersAreStable("z");
    SyntaxOfStage(g, h);
    RunCall(Name("a"), Stage, s, StepZ(h), w0);
    ExecuteLegible(Name("a"), Stage, s, w0);
    ExecuteSafe(Name("a"), Stage, s, w0);
    var (w1, r1) := Execute(Name("a"), Stage, s, w0);
    assert Bump([0]) == [1] && [] + [Name("z")] == [Name("z")];
    assert CoordinatesOf(w1, Name("z"), Step) == Z;
    RecordedLater(disk.log, w1.log[|disk.log|..], TextOf(Z));
    assert w1.log == disk.log + w1.log[|disk.log|..];
    RecordedStep(Name("z"), z, w1);
    RunCall(Name("z"), Step, z, End, w1);
    EndRuns(Execute(Name("z"), Step, z, w1).0);
    BranchStays(disk, w1, TextOf(Z));
  }

  lemma SyntaxOfStage<C>(g: C -> C, h: C -> C)
    ensures Uninterrupted(StepS(g), Some(Stage)) && StableKeys(StepS(g))
  {
    hide StableKey;
    Syntax(g, h, Failure);
    assert Whole(g, h).body == StepS(g);
  }

  lemma BranchStays<C>(disk: Disk<C>, w: World<C>, t: Text)
    requires SafeDisk(disk.log, disk.heads) && Recorded(disk.log, t) && t.kind.Step?
    requires Immutable(disk.log, disk.heads, w.store.heads)
    ensures Some(t) in disk.heads && Some(t) in w.store.heads && w.store.heads[Some(t)] == disk.heads[Some(t)]
  {
    var r :| r in disk.log && r.text == t;
    assert RecordSafe(r, disk.heads);
  }

  /** The interrupted session and its rerun, over any disk on which a and z have no row:
      whether s was recorded before makes no difference, its effect is not in the data. */
  lemma PassingOver<C>(g: C -> C, h: C -> C, cause: Cause, disk: Disk<C>, env: Env, env': Env)
    requires !cause.Kill? && LegibleDisk(disk) && NoRow(disk, TextOf(A)) && NoRow(disk, TextOf(Z))
    ensures var (w1, r1) := Session(Continued(g, h, cause), disk, env);
            var (w, r) := Session(Whole(g, h), DiskAfter(disk, w1), env');
            !r1.Raised? && r.Finished? && w.store.working == h(disk.heads[None])
  {
    hide AtMostOnce, RecordSafe, Run, TextOf, Whole, Continued, LatestStable, StableKeys, Increasing, Immutable, Clean;
    ContinuedSession(g, h, cause, disk, env);
    Syntax(g, h, cause);
    FreshKeys(Continued(g, h, cause), disk, env);
    RunLegible(Continued(g, h, cause), Fresh(disk, env));
    SessionIsSafe(Continued(g, h, cause), disk, env);
    var w1 := Session(Continued(g, h, cause), disk, env).0;
    MarksAreStable(w1);
    assert w1.log[|disk.log|] in w1.log;
    RerunSession(g, h, DiskAfter(disk, w1), env');
  }

  /** Going on after an unfinished stage: the later step z is recorded on a branch without the
      step of the stage, and the next session takes that branch as it is. The rerun finishes
      without the effect of s. This is so for a failure and an interrupt that a handler
      catches, and for a to-be-continued stage without any handler. (`OnCourseDecides` has the
      exact condition for all programs and histories.) */
  lemma ContinuingLosesSteps<C>(g: C -> C, h: C -> C, cause: Cause, env: Env, env': Env, main: C)
    requires !cause.Kill?
    ensures var (p, q) := (Whole(g, h), Continued(g, h, cause));
            var (w, r) := Session(p, After([Attempt(q, env)], FirstDisk(main)), env');
            && Plan(q) == Plan(p) && !Session(q, FirstDisk(main), env).1.Raised? && r.Finished?
            && w.store.working == h(main) && Ideal(Plan(p), main) == h(g(main))
  {
    hide SafeDisk, Run, Plan, Ideal, TextOf, Whole, Continued, LatestStable;
    var (q, start) := (Continued(g, h, cause), FirstDisk(main));
    var history := [Attempt(q, env)];
    assert history[..0] == [] && After<C>([], start) == start;
    PlanOfWhole(g, h, cause, main);
    FirstDiskIsSafe(main);
    NothingLogged(main);
    PassingOver(g, h, cause, start, env, env');
  }
}
