/** Interrupting and rerunning gives the same data as one uninterrupted run - and exactly when
    it does so, for sessions that catch exceptions and carry on. */
module ExecutorRecovery {
  import opened Prelude
  import opened ExecutorModel
  import opened TaskNames
  import opened TaskSemantics
  import opened ExecutorSafety
  import opened ExecutorPlan
  import opened ExecutorCourse
  import opened ExecutorProgress
  import opened ExecutorBook
  import opened ExecutorContent
  import opened ExecutorKeys

  // --------------------------------------------------------------------- when data is right

  /** All planned steps are recorded, each right after the one planned before it, the last one
      is the latest, and no commit was lost. */
  ghost predicate InOrder<C>(w: World<C>, plan: seq<Planned<C>>, lost: set<Text>) {
    && OnCourse(w.log, plan) && (forall i | 0 <= i < |plan| :: Recorded(w.log, NameAt(plan, i)))
    && NameOf(w.latest) == At(plan, |plan|) && lost == {}
  }

  /** What is checked out at the end of a session. */
  lemma CheckedOut<C>(trails: Trails, w: World<C>, plan: seq<Planned<C>>, main: C, lost: set<Text>)
    requires Book(trails, w.log, w.store.heads, plan, main, lost) && Placed(trails, w, plan) && Clean(w.store)
    ensures NameOf(w.latest) in trails && ValidTrail(plan, trails[NameOf(w.latest)])
    ensures w.store.working == Replay(plan, trails[NameOf(w.latest)], main)
  {
    hide RowOf, Replay, IsPlanned, TextOf;
    assert Holds(trails, w.log, w.store.heads, plan, main, lost, w.store.current);
  }

  lemma {:induction false} NothingLost<C>(plan: seq<Planned<C>>, n: nat)
    requires n <= |plan|
    ensures Surviving(plan, n, {}) == UpTo(n)
  {
    if n > 0 { NothingLost(plan, n - 1); }
  }

  lemma IdealReplay<C>(plan: seq<Planned<C>>, main: C)
    ensures ValidTrail(plan, UpTo(|plan|)) && Replay(plan, UpTo(|plan|), main) == Ideal(plan, main)
  {
    hide Replay, ValidTrail, Ideal, Content, Surviving;
    NothingLost(plan, |plan|);
    SurvivingContent(plan, |plan|, main, {});
    IdealIsContent(plan, |plan|, main);
    assert plan[..|plan|] == plan;
  }

  lemma InOrderIsRight<C>(trails: Trails, w: World<C>, plan: seq<Planned<C>>, main: C, lost: set<Text>)
    requires Book(trails, w.log, w.store.heads, plan, main, lost) && Placed(trails, w, plan) && Clean(w.store) && WellPlanned(plan)
    requires InOrder(w, plan, lost)
    ensures w.store.working == Ideal(plan, main)
  {
    hide Book, Replay, ValidTrail, Ideal, Surviving, Placed, WellPlanned, OnCourse, Recorded;
    CheckedOut(trails, w, plan, main, lost);
    CourseTrail(trails, w.log, w.store.heads, plan, main, lost, |plan|);
    NothingLost(plan, |plan|);
    IdealReplay(plan, main);
  }

  lemma LatestIsLast<C>(trails: Trails, w: World<C>, plan: seq<Planned<C>>, main: C, lost: set<Text>)
    requires Book(trails, w.log, w.store.heads, plan, main, lost) && Placed(trails, w, plan) && WellPlanned(plan)
    requires trails[NameOf(w.latest)] == UpTo(|plan|)
    ensures NameOf(w.latest) == At(plan, |plan|)
  {
    hide RowOf, Holds, WellPlanned, TextOf, Recorded;
    var n := |plan|;
    if w.latest.Some? {
      var j :| 0 <= j < n && NameAt(plan, j) == TextOf(w.latest.value);
      assert UpTo(n)[j] == j;
      NotLost(trails, w.log, w.store.heads, plan, main, lost, NameOf(w.latest), j);
      LastInTrail(trails, w.log, w.store.heads, plan, main, lost, j, n);
    }
  }

  lemma RightIsInOrder(trails: Trails, w: World<seq<Coordinates>>, plan: seq<Planned<seq<Coordinates>>>,
                       main: seq<Coordinates>, lost: set<Text>)
    requires Book(trails, w.log, w.store.heads, plan, main, lost) && Placed(trails, w, plan) && Clean(w.store) && WellPlanned(plan)
    requires Marked(plan) && w.store.working == Ideal(plan, main)
    ensures InOrder(w, plan, lost)
  {
    hide Book, Replay, ValidTrail, Ideal, WellPlanned, OnCourse, Recorded, Marked;
    CheckedOut(trails, w, plan, main, lost);
    IdealReplay(plan, main);
    SameMarks(plan, trails[NameOf(w.latest)], UpTo(|plan|), main);
    LatestIsLast(trails, w, plan, main, lost);
    InOrderOnCourse(trails, w.log, w.store.heads, plan, main, lost);
  }

  /** The book of a history and one more session. */
  lemma SessionBook<C>(history: seq<Attempt<C>>, p: Program<C>, env: Env, main: C) returns (trails: Trails)
    requires var disk := After(history, FirstDisk(main));
             Faithful(history, FirstDisk(main), Plan(p)) && FaithfulSession(p, disk, env, Plan(p)) && StablePlan(Plan(p))
    ensures var (w, r) := Session(p, After(history, FirstDisk(main)), env);
            && Book(trails, w.log, w.store.heads, Plan(p), main, LostSteps(history, FirstDisk(main)) + LostIn(w))
            && (!Killed(r) ==> Placed(trails, w, Plan(p)) && Clean(w.store))
            && WellPlanned(Plan(p))
  {
    hide Book, Plan, StablePlan, Run, InStep, AtMostOnce, RecordSafe, WellPlanned;
    FirstDiskIsSafe(main);
    HistoryIsSafe(history, FirstDisk(main));
    trails := HistoryBooked(history, Plan(p), main);
    trails := SessionBooked(p, After(history, FirstDisk(main)), env, trails, main, LostSteps(history, FirstDisk(main)));
    SessionIsSafe(p, After(history, FirstDisk(main)), env);
    FollowsOwnPlan(p);
  }

  /** Whatever the sessions of a history caught, swallowed or skipped, as long as they submit
      the tasks of the plan: if all steps were recorded in order and none was lost, the data
      is the ideal one. */
  lemma InOrderData<C>(history: seq<Attempt<C>>, p: Program<C>, env: Env, main: C)
    requires var disk := After(history, FirstDisk(main));
             Faithful(history, FirstDisk(main), Plan(p)) && FaithfulSession(p, disk, env, Plan(p)) && StablePlan(Plan(p))
    ensures var (w, r) := Session(p, After(history, FirstDisk(main)), env);
            !Killed(r) && InOrder(w, Plan(p), LostSteps(history, FirstDisk(main)) + LostIn(w)) ==> w.store.working == Ideal(Plan(p), main)
  {
    hide Book, Plan, StablePlan, Run, InStep, WellPlanned, InOrder, Placed, Clean, Ideal, Faithful, After;
    var trails := SessionBook(history, p, env, main);
    var (w, r) := Session(p, After(history, FirstDisk(main)), env);
    var lost := LostSteps(history, FirstDisk(main)) + LostIn(w);
    if !Killed(r) && InOrder(w, Plan(p), lost) { InOrderIsRight(trails, w, Plan(p), main, lost); }
  }

  /** The exact condition. If steps leave marks, so that no two orders of steps have the same
      data, then the data is right if and only if every step was recorded right after the one
      planned before it, the last one is the latest, and no commit was lost. */
  lemma DataIsRight(history: seq<Attempt<seq<Coordinates>>>, p: Program<seq<Coordinates>>, env: Env,
                    main: seq<Coordinates>)
    requires var disk := After(history, FirstDisk(main));
             Faithful(history, FirstDisk(main), Plan(p)) && FaithfulSession(p, disk, env, Plan(p)) && StablePlan(Plan(p))
    requires Marked(Plan(p))
    ensures var (w, r) := Session(p, After(history, FirstDisk(main)), env);
            !Killed(r) ==>
              (w.store.working == Ideal(Plan(p), main) <==> InOrder(w, Plan(p), LostSteps(history, FirstDisk(main)) + LostIn(w)))
  {
    hide Book, Plan, StablePlan, Run, InStep, WellPlanned, InOrder, Placed, Clean, Ideal, Faithful, After, Marked;
    var trails := SessionBook(history, p, env, main);
    var (w, r) := Session(p, After(history, FirstDisk(main)), env);
    InOrderData(history, p, env, main);
    if !Killed(r) && w.store.working == Ideal(Plan(p), main) {
      RightIsInOrder(trails, w, Plan(p), main, LostSteps(history, FirstDisk(main)) + LostIn(w));
    }
  }

  // -------------------------------------------------------------------- before the session

  lemma {:induction false} DownClosed<C>(log: seq<Record>, plan: seq<Planned<C>>, i: nat, j: nat)
    requires OnCourse(log, plan) && WellPlanned(plan) && i <= j < |plan| && Recorded(log, NameAt(plan, j))
    ensures Recorded(log, NameAt(plan, i))
    decreases j - i
  {
    hide OnCourse, WellPlanned, Recorded, TextOf;
    if i < j {
      var k := RowFor(log, NameAt(plan, j));
      CourseOf(log, plan, k, j);
      RecordedBefore(log, k, NameAt(plan, j - 1));
      DownClosed(log, plan, i, j - 1);
    }
  }

  ghost function FirstUnrecorded<C>(log: seq<Record>, plan: seq<Planned<C>>, k: nat): (n: nat)
    requires k <= |plan|
    ensures n <= k && (forall i | 0 <= i < n :: Recorded(log, NameAt(plan, i))) && (n < k ==> !Recorded(log, NameAt(plan, n)))
  {
    if k == 0 then 0
    else
      var n := FirstUnrecorded(log, plan, k - 1);
      if n == k - 1 && Recorded(log, NameAt(plan, n)) then k else n
  }

  /** On course, the recorded steps are the first ones. */
  lemma CourseIsPrefix<C>(log: seq<Record>, plan: seq<Planned<C>>) returns (n: nat)
    requires OnCourse(log, plan) && WellPlanned(plan) && LatestStable(log)
    ensures n == FirstUnrecorded(log, plan, |plan|) && OnDisk(log, plan, n, false)
  {
    hide WellPlanned, Recorded, LatestStable, NameAt;
    n := FirstUnrecorded(log, plan, |plan|);
    forall r | r in log && r.text.kind.Step? ensures IsPlanned(r.text, plan, n) {
      var k :| 0 <= k < |log| && log[k] == r;
      var i :| 0 <= i < |plan| && RightAfter(log, k, plan, i);
      assert Recorded(log, NameAt(plan, i)) by { RowIsRecorded(log, k, NameAt(plan, i)); }
      if n <= i { DownClosed(log, plan, n, i); }
      assert NameAt(plan, i) == r.text;
    }
  }

  lemma RowIsRecorded(log: seq<Record>, k: nat, t: Text)
    requires k < |log| && log[k].text == t
    ensures Recorded(log, t)
  {
    assert log[k] in log;
  }

  /** A log that stays on course was on course. */
  lemma CourseBefore<C>(log: seq<Record>, log': seq<Record>, plan: seq<Planned<C>>)
    requires OnCourse(log', plan) && log <= log'
    ensures OnCourse(log, plan)
  {
    hide Recorded, NameAt;
    forall k | 0 <= k < |log| && log[k].text.kind.Step? ensures exists i | 0 <= i < |plan| :: RightAfter(log, k, plan, i) {
      var i :| 0 <= i < |plan| && RightAfter(log', k, plan, i);
      assert log'[..k] == log[..k];
      assert RightAfter(log, k, plan, i);
    }
  }

  lemma FreshReady<C>(p: Program<C>, disk: Disk<C>, env: Env, n: nat, stages: bool)
    requires SafeDisk(disk.log, disk.heads) && OnDisk(disk.log, Plan(p), n, stages)
    requires StopsAtFailure(p, None) && StableKeys(p) && (stages || SkipsNoStage(p))
    ensures Ready(p, Fresh(disk, env), Plan(p), n, stages)
  {
    hide OnDisk, AtMostOnce, RecordSafe, Plan, StableKeys, StopsAtFailure, Cursor;
    FollowsOwnPlan(p);
    StableProgram(p);
    FreshIsSafe(disk, env);
  }

  /** A session over a disk that holds the first `n` steps moves it to `n'` steps; if it
      finishes, to all of them, and it has invoked exactly those that were not there. */
  lemma SessionProgress<C>(p: Program<C>, disk: Disk<C>, env: Env, n: nat, stages: bool) returns (n': nat)
    requires SafeDisk(disk.log, disk.heads) && OnDisk(disk.log, Plan(p), n, stages) && CanOpen(disk.marked)
    requires StopsAtFailure(p, None) && StableKeys(p) && (stages || SkipsNoStage(p))
    ensures var (w, r) := Session(p, disk, env);
            && n <= n' && OnDisk(w.log, Plan(p), n', stages)
            && (Uninterrupted(p, None) ==> r.Finished?)
            && (r.Finished? ==> InOrder(w, Plan(p), LostIn(w)) && w.store.current == At(Plan(p), |Plan(p)|) && n <= |Plan(p)|
                                && w.invoked == CoordinatesIn(Plan(p), n, |Plan(p)|))
  {
    hide SafeDisk, Run, Plan, StableKeys, StopsAtFailure, Cursor, OnCourse, Recorded, LatestStable, StagesAccounted,
         IsPlanned, Ready;
    FollowsOwnPlan(p);
    FreshReady(p, disk, env, n, stages);
    n' := RunProgress(p, Fresh(disk, env), Plan(p), n, stages);
  }

  /** A session that nothing interrupts and that skips no stage ends with the ideal data if
      the log it finds is on course and no commit was lost before. */
  lemma OnCourseData<C>(history: seq<Attempt<C>>, p: Program<C>, env: Env, main: C)
    requires AllStable(history) && Faithful(history, FirstDisk(main), Plan(p))
    requires StableKeys(p) && Uninterrupted(p, None) && SkipsNoStage(p)
    ensures var disk := After(history, FirstDisk(main));
            var (w, r) := Session(p, disk, env);
            && r.Finished?
            && (OnCourse(disk.log, Plan(p)) ==> InOrder(w, Plan(p), LostIn(w)))
            && (OnCourse(disk.log, Plan(p)) && LostSteps(history, FirstDisk(main)) == {} ==> w.store.working == Ideal(Plan(p), main))
  {
    hide AtMostOnce, RecordSafe, Run, Plan, StableKeys, StopsAtFailure, Cursor, OnCourse, Recorded, AllStable,
         Uninterrupted, LatestStable,
         Ideal, LostSteps, WellPlanned, StagesAccounted, InStep;
    var disk := After(history, FirstDisk(main));
    UninterruptedIsReady(history, p, env, main);
    if OnCourse(disk.log, Plan(p)) {
      FollowsOwnPlan(p);
      var n := CourseIsPrefix(disk.log, Plan(p));
      var n' := SessionProgress(p, disk, env, n, false);
      InOrderData(history, p, env, main);
      var w := Session(p, disk, env).0;
      assert LostSteps(history, FirstDisk(main)) == {} ==> LostSteps(history, FirstDisk(main)) + LostIn(w) == LostIn(w);
    }
  }

  lemma UninterruptedIsReady<C>(history: seq<Attempt<C>>, p: Program<C>, env: Env, main: C)
    requires AllStable(history) && StableKeys(p) && Uninterrupted(p, None)
    ensures var disk := After(history, FirstDisk(main));
            && SafeDisk(disk.log, disk.heads) && LegibleDisk(disk) && FaithfulSession(p, disk, env, Plan(p)) && StablePlan(Plan(p))
            && Session(p, disk, env).1.Finished? && StopsAtFailure(p, None)
  {
    hide AtMostOnce, RecordSafe, Run, Plan, StableKeys, AllStable, LatestStable, WellPlanned, InStep;
    var disk := After(history, FirstDisk(main));
    FirstDiskIsSafe(main);
    NothingLogged(main);
    HistoryLegible(history, FirstDisk(main));
    StableProgram(p);
    UninterruptedStops(p, None);
    StoppingIsOrderly(p, None);
    FreshKeys(p, disk, env);
    RunLegible(p, Fresh(disk, env));
  }

  /** The exact condition, before the session. If steps leave marks, then a session that
      nothing interrupts and that skips no stage ends with the ideal data if and only if the
      log it finds is on course - every step recorded right after the one planned before it -
      and no commit was lost. */
  lemma OnCourseDecides(history: seq<Attempt<seq<Coordinates>>>, p: Program<seq<Coordinates>>, env: Env,
                        main: seq<Coordinates>)
    requires AllStable(history) && Faithful(history, FirstDisk(main), Plan(p))
    requires StableKeys(p) && Uninterrupted(p, None) && SkipsNoStage(p) && Marked(Plan(p))
    ensures var disk := After(history, FirstDisk(main));
            var (w, r) := Session(p, disk, env);
            && r.Finished?
            && (w.store.working == Ideal(Plan(p), main) <==> OnCourse(disk.log, Plan(p)) && LostSteps(history, FirstDisk(main)) == {})
  {
    hide AtMostOnce, RecordSafe, Run, Plan, StableKeys, Cursor, OnCourse, Recorded, AllStable, Uninterrupted,
         LatestStable,
         Ideal, LostSteps, WellPlanned, InStep, Marked, Increasing, Immutable, Clean;
    UninterruptedIsReady(history, p, env, main);
    OnCourseData(history, p, env, main);
    DataIsRight(history, p, env, main);
    var disk := After(history, FirstDisk(main));
    SessionIsSafe(p, disk, env);
    var w := Session(p, disk, env).0;
    if OnCourse(w.log, Plan(p)) { CourseBefore(disk.log, w.log, Plan(p)); }
  }

  // ------------------------------------------------------------- stopping at the first failure

  /** All sessions of the history run programs with the same plan and stable keys, and end at
      their first unfinished task. */
  ghost predicate SamePlan<C>(history: seq<Attempt<C>>, plan: seq<Planned<C>>) {
    forall a <- history :: Plan(a.program) == plan && StopsAtFailure(a.program, None) && StableKeys(a.program)
  }

  lemma SamePlanBefore<C>(history: seq<Attempt<C>>, plan: seq<Planned<C>>)
    requires SamePlan(history, plan) && history != []
    ensures SamePlan(history[..|history| - 1], plan)
    ensures var last := history[|history| - 1].program;
            Plan(last) == plan && StopsAtFailure(last, None) && StableKeys(last)
  {
    hide StopsAtFailure, StableKeys, Plan;
    var before := history[..|history| - 1];
    assert history[|history| - 1] in history && forall a <- before :: a in history;
  }

  lemma SamePlanIsFaithful<C>(history: seq<Attempt<C>>, plan: seq<Planned<C>>, main: C)
    requires SamePlan(history, plan)
    ensures AllStable(history) && Faithful(history, FirstDisk(main), plan)
  {
    hide StopsAtFailure, StableKeys, Plan, SafeDisk;
    FirstDiskIsSafe(main);
    NothingLogged(main);
    forall a | a in history ensures Orderly(a.program, None) { StoppingIsOrderly(a.program, None); }
    OrderlyIsFaithful(history, FirstDisk(main), plan);
  }

  lemma NothingOnDisk<C>(plan: seq<Planned<C>>, main: C)
    ensures OnDisk(FirstDisk(main).log, plan, 0, true)
  {
  }

  /** However sessions that stop at their first unfinished task ended: the recorded steps are
      the first `n` of the plan, each recorded right after the one before, and stage records
      remember the last step before the end of their stage. */
  lemma {:induction false} StoppingKeepsCourse<C>(history: seq<Attempt<C>>, plan: seq<Planned<C>>,
                                                  main: C) returns (n: nat)
    requires SamePlan(history, plan)
    ensures var disk := After(history, FirstDisk(main));
            SafeDisk(disk.log, disk.heads) && OnDisk(disk.log, plan, n, true) && CanOpen(disk.marked)
    decreases |history|
  {
    hide AtMostOnce, RecordSafe, OnDisk, Run, Plan, StopsAtFailure, StableKeys, InOrder;
    var start := FirstDisk(main);
    FirstDiskIsSafe(main);
    NothingLogged(main);
    SamePlanIsFaithful(history, plan, main);
    HistoryLegible(history, start);
    if history == [] {
      n := 0;
      NothingOnDisk(plan, main);
    } else {
      var (last, before) := (history[|history| - 1], history[..|history| - 1]);
      SamePlanBefore(history, plan);
      n := StoppingKeepsCourse(before, plan, main);
      n := SessionProgress(last.program, After(before, start), last.env, n, true);
      HistoryIsSafe(history, start);
    }
  }

  /** After any history of sessions of one plan whose log is on course - as it is when they
      stop at their first unfinished task - the branch of a recorded step holds the effects of
      the steps up to it, folded over `main`, except those whose commit was lost. */
  lemma BranchHistory<C>(history: seq<Attempt<C>>, plan: seq<Planned<C>>, main: C, i: nat)
    requires Faithful(history, FirstDisk(main), plan) && StablePlan(plan) && WellPlanned(plan)
    requires var log := After(history, FirstDisk(main)).log;
             OnCourse(log, plan) && i <= |plan| && (i > 0 ==> Recorded(log, NameAt(plan, i - 1)))
    ensures var heads := After(history, FirstDisk(main)).heads;
            At(plan, i) in heads && heads[At(plan, i)] == Content(plan, i, main, LostSteps(history, FirstDisk(main)))
  {
    hide Book, Faithful, StablePlan, WellPlanned, OnCourse, Recorded, Content, Session;
    var trails := HistoryBooked(history, plan, main);
    var disk := After(history, FirstDisk(main));
    CourseContent(trails, disk.log, disk.heads, plan, main, LostSteps(history, FirstDisk(main)), i);
  }

  /** Of sessions that stop at their first unfinished task: the `n` recorded steps and all
      their branches. */
  lemma StoppedHistory<C>(history: seq<Attempt<C>>, p: Program<C>, main: C) returns (n: nat)
    requires SamePlan(history, Plan(p)) && StableKeys(p)
    ensures var (plan, disk, lost) := (Plan(p), After(history, FirstDisk(main)), LostSteps(history, FirstDisk(main)));
            && OnDisk(disk.log, plan, n, true)
            && forall i | 0 <= i <= n :: At(plan, i) in disk.heads && disk.heads[At(plan, i)] == Content(plan, i, main, lost)
  {
    hide SafeDisk, Run, Plan, StopsAtFailure, StableKeys, WellPlanned, Content, Recorded, OnCourse, Session;
    var plan := Plan(p);
    n := StoppingKeepsCourse(history, plan, main);
    SamePlanIsFaithful(history, plan, main);
    StableProgram(p);
    FollowsOwnPlan(p);
    forall i | 0 <= i <= n
      ensures var disk := After(history, FirstDisk(main));
              At(plan, i) in disk.heads && disk.heads[At(plan, i)] == Content(plan, i, main, LostSteps(history, FirstDisk(main)))
    {
      BranchHistory(history, plan, main, i);
    }
  }

  /** How a session ends that has all planned steps behind it. */
  ghost predicate EndsWith<C>(w: World<C>, plan: seq<Planned<C>>, main: C, lost: set<Text>)
    requires Open(w)
  {
    && w.store.working == Content(plan, |plan|, main, lost) && !w.store.dirty
    && w.store.current == At(plan, |plan|) && NameOf(w.latest) == At(plan, |plan|)
    && forall i | 0 <= i <= |plan| :: At(plan, i) in w.store.heads && w.store.heads[At(plan, i)] == Content(plan, i, main, lost)
  }

  /** A session that finishes after any sessions that stopped at their first unfinished task
      has all planned effects in its data, once each and in order - except those of steps
      whose commit was lost before it. It invoked exactly the steps that were not recorded
      before. A session that nothing interrupts does finish. */
  lemma FinishedSession<C>(history: seq<Attempt<C>>, p: Program<C>, env: Env, main: C) returns (n: nat)
    requires SamePlan(history, Plan(p)) && StopsAtFailure(p, None) && StableKeys(p)
    ensures var plan := Plan(p);
            var disk := After(history, FirstDisk(main));
            var lost := LostSteps(history, FirstDisk(main));
            var (w, r) := Session(p, disk, env);
            && (Uninterrupted(p, None) ==> r.Finished?)
            && (r.Finished? ==>
                  && EndsWith(w, plan, main, lost) && OnDisk(w.log, plan, |plan|, true)
                  && (forall i | 0 <= i < |plan| :: Recorded(disk.log, NameAt(plan, i)) <==> i < n)
                  && n <= |plan| && w.invoked == CoordinatesIn(plan, n, |plan|))
  {
    hide SafeDisk, Run, Plan, StopsAtFailure, StableKeys, WellPlanned, Content, Recorded, OnCourse, StagesAccounted,
         LatestStable, Session,
         Clean, EndsWith;
    var plan := Plan(p);
    n := StoppingKeepsCourse(history, plan, main);
    var disk := After(history, FirstDisk(main));
    var n' := SessionProgress(p, disk, env, n, true);
    var (w, r) := Session(p, disk, env);
    if r.Finished? {
      FollowsOwnPlan(p);
      RecordedPrefix(disk.log, plan, n, true);
      AllOnDisk(w.log, plan, n');
      SessionEnds(history, p, env, main);
    }
  }

  lemma OneMore<C>(history: seq<Attempt<C>>, p: Program<C>, env: Env, main: C)
    requires SamePlan(history, Plan(p)) && StopsAtFailure(p, None) && StableKeys(p)
    ensures var all := history + [Attempt(p, env)];
            var w := Session(p, After(history, FirstDisk(main)), env).0;
            && SamePlan(all, Plan(p))
            && After(all, FirstDisk(main)) == DiskAfter(After(history, FirstDisk(main)), w)
            && LostSteps(all, FirstDisk(main)) == LostSteps(history, FirstDisk(main)) + LostIn(w)
  {
    hide Plan, StopsAtFailure, StableKeys, Session, LostIn;
    var all := history + [Attempt(p, env)];
    assert all[..|all| - 1] == history;
  }

  lemma SessionEnds<C>(history: seq<Attempt<C>>, p: Program<C>, env: Env, main: C)
    requires SamePlan(history, Plan(p)) && StopsAtFailure(p, None) && StableKeys(p)
    requires var (w, r) := Session(p, After(history, FirstDisk(main)), env);
             && r.Finished? && InOrder(w, Plan(p), LostIn(w)) && w.store.current == At(Plan(p), |Plan(p)|)
    ensures var w := Session(p, After(history, FirstDisk(main)), env).0;
            EndsWith(w, Plan(p), main, LostSteps(history, FirstDisk(main)))
  {
    hide Plan, StopsAtFailure, StableKeys, SafeDisk, Run, WellPlanned, Content, Recorded, OnDisk, OnCourse, SamePlan,
         Increasing, Immutable;
    var (plan, start) := (Plan(p), FirstDisk(main));
    var all := history + [Attempt(p, env)];
    var (w, r) := Session(p, After(history, start), env);
    OneMore(history, p, env, main);
    var n := StoppedHistory(all, p, main);
    FollowsOwnPlan(p);
    AllOnDisk(w.log, plan, n);
    assert LostSteps(history, start) + LostIn(w) == LostSteps(history, start);
    FirstDiskIsSafe(main);
    HistoryIsSafe(history, start);
    SessionIsSafe(p, After(history, start), env);
  }

  lemma RecordedPrefix<C>(log: seq<Record>, plan: seq<Planned<C>>, n: nat, stages: bool)
    requires OnDisk(log, plan, n, stages) && WellPlanned(plan)
    ensures forall i | 0 <= i < |plan| :: Recorded(log, NameAt(plan, i)) <==> i < n
  {
    hide OnCourse, LatestStable, StagesAccounted, TextOf;
    forall i | 0 <= i < |plan| && Recorded(log, NameAt(plan, i)) ensures i < n {
      var r :| r in log && r.text == NameAt(plan, i);
      assert r.text.kind.Step? by { assert plan[i].coordinates.kind.Step?; }
      var j :| 0 <= j < n && NameAt(plan, j) == r.text;
      NamesDiffer(plan, i, j);
    }
  }

  lemma AllOnDisk<C>(log: seq<Record>, plan: seq<Planned<C>>, n: nat)
    requires OnDisk(log, plan, n, true) && WellPlanned(plan) && forall i | 0 <= i < |plan| :: Recorded(log, NameAt(plan, i))
    ensures n == |plan|
  {
    hide OnCourse, LatestStable, StagesAccounted, TextOf;
    if n < |plan| {
      var r :| r in log && r.text == NameAt(plan, n);
      assert r.text.kind.Step? by { assert plan[n].coordinates.kind.Step?; }
      var j :| 0 <= j < n && NameAt(plan, j) == r.text;
      NamesDiffer(plan, n, j);
    }
  }

  // --------------------------------------------------------------------- the main results

  lemma OneRecordEach<C>(log: seq<Record>, plan: seq<Planned<C>>, t: Text)
    requires AtMostOnce(log) && OnDisk(log, plan, |plan|, true) && t.kind.Step?
    ensures |RecordsOf(log, t)| == if IsPlanned(t, plan, |plan|) then 1 else 0
  {
    hide OnCourse, LatestStable, StagesAccounted, NameAt;
    RecordsOfMembers(log, t);
    var found := RecordsOf(log, t);
    if IsPlanned(t, plan, |plan|) {
      var i :| 0 <= i < |plan| && NameAt(plan, i) == t;
      assert Recorded(log, NameAt(plan, i));
      var r :| r in log && r.text == t;
      assert r in found;
    }
    if found != [] { assert found[0] in found; }
  }

  lemma FirstHistory<C>(plan: seq<Planned<C>>, main: C)
    ensures SamePlan([], plan) && LostSteps([], FirstDisk(main)) == {} && After([], FirstDisk(main)) == FirstDisk(main)
  {
  }

  lemma FinishedData<C>(history: seq<Attempt<C>>, p: Program<C>, env: Env, main: C)
    requires SamePlan(history, Plan(p)) && LostSteps(history, FirstDisk(main)) == {}
    requires Uninterrupted(p, None) && StableKeys(p)
    ensures var plan := Plan(p);
            var (w, r) := Session(p, After(history, FirstDisk(main)), env);
            && r.Finished? && w.store.working == Ideal(plan, main)
            && w.store.current == At(plan, |plan|) && NameOf(w.latest) == At(plan, |plan|)
            && (forall i | 0 <= i <= |plan| :: At(plan, i) in w.store.heads && w.store.heads[At(plan, i)] == Content(plan, i, main, {}))
            && (forall t: Text | t.kind.Step? :: |RecordsOf(w.log, t)| == if IsPlanned(t, plan, |plan|) then 1 else 0)
  {
    hide Plan, StableKeys, RecordSafe, Run, Content, OnDisk, SamePlan, Increasing, Immutable, LostSteps, AtMostOnce,
         IsPlanned, InStep,
         Uninterrupted, StopsAtFailure, Clean, Ideal;
    var plan := Plan(p);
    UninterruptedStops(p, None);
    var n := FinishedSession(history, p, env, main);
    var w := Session(p, After(history, FirstDisk(main)), env).0;
    IdealIsContent(plan, |plan|, main);
    assert plan[..|plan|] == plan;
    FirstDiskIsSafe(main);
    HistoryIsSafe(history, FirstDisk(main));
    SessionIsSafe(p, After(history, FirstDisk(main)), env);
    forall t: Text | t.kind.Step? ensures |RecordsOf(w.log, t)| == if IsPlanned(t, plan, |plan|) then 1 else 0 {
      OneRecordEach(w.log, plan, t);
    }
  }

  /** Crash recovery. However the earlier sessions of a program ended - as long as each ended
      at its first unfinished task, and none was struck between a log insertion and its
      commit - a session that nothing interrupts ends with the same data, branch and latest
      step as one uninterrupted run from scratch (`q` may place its skipping scopes
      differently), and that data is the ideal one. */
  lemma Recovery<C>(history: seq<Attempt<C>>, p: Program<C>, env: Env, q: Program<C>, env': Env, main: C)
    requires SamePlan(history, Plan(p)) && LostSteps(history, FirstDisk(main)) == {}
    requires Uninterrupted(p, None) && Uninterrupted(q, None) && Plan(q) == Plan(p) && StableKeys(p) && StableKeys(q)
    ensures var (w, r) := Session(p, After(history, FirstDisk(main)), env);
            var (w', r') := Session(q, FirstDisk(main), env');
            && r.Finished? && r'.Finished?
            && w.store.working == w'.store.working == Ideal(Plan(p), main)
            && w.store.current == w'.store.current && NameOf(w.latest) == NameOf(w'.latest)
            && (forall t: Text | t.kind.Step? :: |RecordsOf(w.log, t)| == |RecordsOf(w'.log, t)|)
            && (forall i | 0 <= i <= |Plan(p)| ::
                  && At(Plan(p), i) in w.store.heads && At(Plan(p), i) in w'.store.heads
                  && w.store.heads[At(Plan(p), i)] == w'.store.heads[At(Plan(p), i)])
  {
    hide Plan, StableKeys, Run, Content, SamePlan, LostSteps, IsPlanned, Uninterrupted, After, TextOf, Ideal;
    FirstHistory(Plan(p), main);
    FinishedData(history, p, env, main);
    FinishedData([], q, env', main);
  }

  /** The exact condition for sessions that stop at their first unfinished task: if steps leave
      marks, the data of a finished session is right if and only if no earlier session was
      struck between the log insertion of a step and its commit. */
  lemma LostCommitsDecide(history: seq<Attempt<seq<Coordinates>>>, p: Program<seq<Coordinates>>, env: Env,
                          main: seq<Coordinates>)
    requires SamePlan(history, Plan(p)) && StopsAtFailure(p, None) && StableKeys(p) && Marked(Plan(p))
    ensures var (w, r) := Session(p, After(history, FirstDisk(main)), env);
            r.Finished? ==> (w.store.working == Ideal(Plan(p), main) <==> LostSteps(history, FirstDisk(main)) == {})
  {
    hide Plan, StableKeys, Run, SamePlan, LostSteps, StopsAtFailure, Ideal, Marked, OnDisk, OnCourse, InStep,
         SafeDisk, Recorded;
    SamePlanIsFaithful(history, Plan(p), main);
    var disk := After(history, FirstDisk(main));
    StableProgram(p);
    StoppingIsFaithful(history, p, env, main);
    DataIsRight(history, p, env, main);
    var n := StoppingKeepsCourse(history, Plan(p), main);
    var n' := SessionProgress(p, disk, env, n, true);
    var (w, r) := Session(p, disk, env);
    assert r.Finished? ==> LostSteps(history, FirstDisk(main)) + LostIn(w) == LostSteps(history, FirstDisk(main));
  }

  lemma StoppingIsFaithful<C>(history: seq<Attempt<C>>, p: Program<C>, env: Env, main: C)
    requires SamePlan(history, Plan(p)) && StopsAtFailure(p, None) && StableKeys(p)
    ensures FaithfulSession(p, After(history, FirstDisk(main)), env, Plan(p))
  {
    hide Plan, StableKeys, StopsAtFailure, SamePlan, InStep, After, Session;
    OneMore(history, p, env, main);
    var all := history + [Attempt(p, env)];
    SamePlanIsFaithful(all, Plan(p), main);
    assert all[..|all| - 1] == history;
  }
}
