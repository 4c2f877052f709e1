/** Sessions that skip stages: what the log must say for their data to be right. */
module ExecutorWalk {
  import opened Prelude
  import opened ExecutorModel
  import opened TaskNames
  import opened BranchStore
  import opened TaskSemantics
  import opened ExecutorSafety
  import opened ExecutorPlan
  import opened ExecutorSteps
  import opened ExecutorCourse
  import opened ExecutorProgress
  import opened ExecutorBook
  import opened ExecutorContent
  import opened ExecutorKeys
  import opened ExecutorRecovery
  import opened ExecutorRerun

  // ------------------------------------------------------------------- walking over a disk

  /** The first `recorded` steps of the plan are, and the latest step is that of `at`. */
  datatype Place = Place(recorded: nat, at: Branch)

  /** Step `j` is skipped if it is recorded; otherwise it may only be run right after the step
      planned before it. None: the data cannot come right any more. */
  ghost function AfterStep<C>(plan: seq<Planned<C>>, j: nat, s: Place): (r: Option<Place>)
    requires j < |plan|
  {
    if j < s.recorded then Some(Place(s.recorded, At(plan, j + 1)))
    else if j == s.recorded && s.at == At(plan, j) then Some(Place(j + 1, At(plan, j + 1)))
    else None
  }

  /** A skipped stage leads to where its record says, and must not skip an unrecorded step. */
  ghost function AfterSkip<C>(plan: seq<Planned<C>>, end: nat, latest: Branch, s: Place): (r: Option<Place>) {
    if end <= s.recorded then Some(Place(s.recorded, latest)) else None
  }

  /** Where an uninterrupted program leads over a disk, by the rows of its stages. */
  ghost function Walk<C>(p: Program<C>, path: seq<Key>, order: seq<int>, skip: bool, disk: Disk<C>,
                         plan: seq<Planned<C>>,
                         s: Option<Place>): (r: Option<Place>)
    requires order != []
    decreases p, 0
  {
    match p
    case End => s
    case Struck(_) => s
    case Write(_, next) => Walk(next, path, order, skip, disk, plan, s)
    case Raise(_, next) => Walk(next, path, order, skip, disk, plan, s)
    case Scope(flag, body, next) =>
      Walk(next, path, Advance(order, Width(body)), skip, disk, plan, Walk(body, path, order, flag, disk, plan, s))
    case Try(body, next) =>
      Walk(next, path, Advance(order, Width(body)), skip, disk, plan, Walk(body, path, order, skip, disk, plan, s))
    case Call(key, kind, body, next) =>
      Walk(next, path, Bump(order), skip, disk, plan, WalkTask(key, kind, body, path, order, skip, disk, plan, s))
  }

  ghost function WalkTask<C>(key: Key, kind: Kind, body: Program<C>, path: seq<Key>, order: seq<int>, skip: bool,
                             disk: Disk<C>,
                             plan: seq<Planned<C>>, s: Option<Place>): (r: Option<Place>)
    requires order != []
    decreases body, 1
  {
    if s.None? then None
    else if kind.Step? then
      var j := Cursor(plan, order);
      if j < |plan| then AfterStep(plan, j, s.value) else None
    else
      var found := FindLog(disk.log, Coordinates(path + [key], order, Stage));
      if skip && found.Found? then AfterSkip(plan, Cursor(plan, Bump(order)), NameOf(found.record.latest), s.value)
      else Walk(body, path + [key], order + [0], skip, disk, plan, s)
  }

  // ------------------------------------------------------------------------- right or wrong

  /** The log is off course, or a step was passed over that is not recorded. */
  ghost predicate Wrong<C>(w: World<C>, plan: seq<Planned<C>>)
    requires Open(w)
  {
    || !OnCourse(w.log, plan)
    || exists i | 0 <= i < Cursor(plan, Top(w).order) :: !Recorded(w.log, NameAt(plan, i))
  }

  /** The world is where the walk is. */
  ghost predicate Tracks<C>(w: World<C>, disk: Disk<C>, plan: seq<Planned<C>>, s: Option<Place>)
    requires Open(w)
  {
    && Grown(disk, w.log, w.store.heads, Top(w).order)
    && match s
       case None => Wrong(w, plan)
       case Some(place) =>
         && OnDisk(w.log, plan, place.recorded, false) && NameOf(w.latest) == place.at
         && Cursor(plan, Top(w).order) <= place.recorded
  }

  /** Nothing is recorded: what was wrong stays wrong further on. */
  lemma WrongFurther<C>(w: World<C>, w': World<C>, plan: seq<Planned<C>>)
    requires Open(w) && Open(w') && Wrong(w, plan) && w'.log == w.log
    requires Top(w').order == Top(w).order || Before(Top(w).order, Top(w').order)
    ensures Wrong(w', plan)
  {
    hide OnCourse, Recorded, Cursor, NameAt;
    CursorMonotone(plan, Top(w).order, Top(w').order);
  }

  /** A row of another task joins the log. */
  lemma WrongStays<C>(w: World<C>, w': World<C>, plan: seq<Planned<C>>, r: Record)
    requires Open(w) && Open(w') && Wrong(w, plan) && w'.log == w.log + [r]
    requires Top(w').order == Top(w).order || Before(Top(w).order, Top(w').order)
    requires forall i | 0 <= i < Cursor(plan, Top(w).order) :: NameAt(plan, i) != r.text
    ensures Wrong(w', plan)
  {
    hide OnCourse, Recorded, Cursor, NameAt;
    CursorMonotone(plan, Top(w).order, Top(w').order);
    if OnCourse(w'.log, plan) {
      CourseBefore(w.log, w'.log, plan);
      var i :| 0 <= i < Cursor(plan, Top(w).order) && !Recorded(w.log, NameAt(plan, i));
      RecordedAppend(w.log, r, NameAt(plan, i));
    }
  }

  /** A step that is recorded from the wrong place puts the log off course. */
  lemma OffCourse<C>(log: seq<Record>, r: Record, plan: seq<Planned<C>>, j: nat)
    requires WellPlanned(plan) && j < |plan| && r.text == NameAt(plan, j) && r.latest != At(plan, j)
    ensures !OnCourse(log + [r], plan)
  {
    hide Recorded, TextOf, WellPlanned, OnCourse;
    if OnCourse(log + [r], plan) { CourseOf(log + [r], plan, |log|, j); }
  }

  // ----------------------------------------------------------------------------- one task

  /** A recorded step. */
  lemma SkippedStepTracks<C>(w: World<C>, w': World<C>, disk: Disk<C>, plan: seq<Planned<C>>, s: Option<Place>, j: nat)
    requires Open(w) && Open(w') && Tracks(w, disk, plan, s) && WellPlanned(plan)
    requires j == Cursor(plan, Top(w).order) < |plan| && Cursor(plan, Top(w').order) == j + 1
    requires Before(Top(w).order, Top(w').order) && Recorded(w.log, NameAt(plan, j))
    requires w'.log == w.log && w'.store.heads == w.store.heads && NameOf(w'.latest) == Some(NameAt(plan, j))
    ensures Tracks(w', disk, plan, if s.None? then None else AfterStep(plan, j, s.value))
  {
    hide OnCourse, Recorded, Cursor, TextOf, Grown, LatestStable, WellPlanned, Before, Wrong, Bump, StagesAccounted;
    SameDiskGrown(disk, w.log, w.store.heads, Top(w).order, Top(w').order);
    if s.None? {
      WrongFurther(w, w', plan);
    } else {
      RecordedPrefix(w.log, plan, s.value.recorded, false);
    }
  }

  /** A step that is run and committed. */
  lemma ExecutedStepTracks<C>(w: World<C>, w': World<C>, disk: Disk<C>, plan: seq<Planned<C>>, s: Option<Place>,
                              j: nat, r: Record)
    requires Open(w) && Open(w') && Tracks(w, disk, plan, s) && WellPlanned(plan) && StablePlan(plan)
    requires j == Cursor(plan, Top(w).order) < |plan| && Cursor(plan, Top(w').order) == j + 1
    requires Before(Top(w).order, Top(w').order) && !Recorded(w.log, NameAt(plan, j))
    requires w'.log == w.log + [r] && r.text == NameAt(plan, j) && r.latest == NameOf(w.latest)
    requires NameOf(w'.latest) == Some(NameAt(plan, j)) && Grown(disk, w'.log, w'.store.heads, Top(w').order)
    ensures Tracks(w', disk, plan, if s.None? then None else AfterStep(plan, j, s.value))
  {
    hide OnCourse, Recorded, Cursor, TextOf, Grown, LatestStable, WellPlanned, StablePlan, IsPlanned, Before, Bump,
         StagesAccounted;
    forall i | 0 <= i < j ensures NameAt(plan, i) != r.text {
      if NameAt(plan, i) == r.text { NamesDiffer(plan, i, j); }
    }
    if s.None? {
      WrongStays(w, w', plan, r);
    } else {
      RecordedPrefix(w.log, plan, s.value.recorded, false);
      if s.value.at == At(plan, j) {
        StepJoins(w.log, plan, j, r, false);
      } else {
        OffCourse(w.log, r, plan, j);
      }
    }
  }

  /** What an uninterrupted step does, recorded or not. */
  lemma StepDone<C>(key: Key, body: Program<C>, w: World<C>)
    requires Safe(w) && CanHaveSubtasks(Top(w).kind) && Legible(w) && StableKey(key) && !(|w.stack| == 1 && key.Index?)
    requires Uninterrupted(body, Some(Step))
    ensures var t := TextOf(CoordinatesOf(w, key, Step));
            var (w', r) := Execute(key, Step, body, w);
            && r.Finished? && Top(w').order == Bump(Top(w).order) && NameOf(w'.latest) == Some(t) && w'.lost == w.lost
            && (Recorded(w.log, t) ==> w'.log == w.log && w'.store.heads == w.store.heads)
            && (!Recorded(w.log, t) ==>
                  && w'.log == w.log + [Record(t, w.env.clock(|w.log|), NameOf(w.latest))]
                  && w'.store.heads.Keys == w.store.heads.Keys + {Some(t)})
  {
    hide WellFramed, SafeDisk, Increasing, AllBefore, Immutable, Later, TextOf, Stable, StableKey, FindLog, RunTask,
         Skip,
         Execute, Writes, Effect, Clean, Earlier, LatestStable, CannotCommit, Kept, Uninterrupted;
    var c := CoordinatesOf(w, key, Step);
    StableTask(Top(w).path, key, Top(w).order, Step);
    LegibleHere(w, c);
    NotFound(w.log, c);
    if FindLog(w.log, c).Found? {
      StepSkipped(key, body, w);
    } else {
      StepLegible(key, body, w);
      UnrecordedStepRuns(key, body, w);
      StableCommits(c);
      var fate := StepOutcome(c, body, w);
      assert w.lost + [] == w.lost;
    }
  }

  lemma StepSkipped<C>(key: Key, body: Program<C>, w: World<C>)
    requires Safe(w) && CanHaveSubtasks(Top(w).kind) && Legible(w) && StableKey(key) && !(|w.stack| == 1 && key.Index?)
    requires FindLog(w.log, CoordinatesOf(w, key, Step)).Found?
    ensures var c := CoordinatesOf(w, key, Step);
            var (w', r) := Execute(key, Step, body, w);
            && Recorded(w.log, TextOf(c)) && r.Finished? && Top(w').order == Bump(Top(w).order) && w'.latest == Some(c)
            && w'.lost == w.lost && w'.log == w.log && w'.store.heads == w.store.heads
  {
    hide WellFramed, SafeDisk, Increasing, AllBefore, Immutable, Later, TextOf, Stable, StableKey, FindLog, Skip, Clean,
         Earlier, LatestStable, Kept, Load, KeptLegible;
    var c := CoordinatesOf(w, key, Step);
    SkipLegible(key, Step, body, w);
    var row := FoundIsInLog(w.log, c);
    SkipSafe(w, c, row);
  }

  /** What skipping a stage does. */
  lemma StageSkips<C>(key: Key, body: Program<C>, w: World<C>)
    requires Safe(w) && CanHaveSubtasks(Top(w).kind) && Legible(w) && StableKey(key) && !(|w.stack| == 1 && key.Index?)
    requires FindLog(w.log, CoordinatesOf(w, key, Stage)).Found? && w.skipStages
    ensures var (w', r) := Execute(key, Stage, body, w);
            && r.Finished? && Top(w').order == Bump(Top(w).order)
            && NameOf(w'.latest) == NameOf(FindLog(w.log, CoordinatesOf(w, key, Stage)).record.latest)
            && w'.lost == w.lost && w'.log == w.log && w'.store.heads == w.store.heads
  {
    hide WellFramed, SafeDisk, Increasing, AllBefore, Immutable, Later, TextOf, Stable, StableKey, FindLog, Skip, Clean,
         Earlier, LatestStable, Kept, Load, KeptLegible;
    var c := CoordinatesOf(w, key, Stage);
    SkipLegible(key, Stage, body, w);
    var row := FoundIsInLog(w.log, c);
    SkipSafe(w, c, row);
  }

  // ------------------------------------------------------------- lookups during the session

  lemma {:induction false} RecordsOfMore(log: seq<Record>, more: seq<Record>, t: Text)
    requires forall r <- more :: r.text != t
    ensures RecordsOf(log + more, t) == RecordsOf(log, t)
    decreases |more|
  {
    if more == [] {
      assert log + more == log;
    } else {
      var (front, last) := (more[..|more| - 1], more[|more| - 1]);
      assert log + more == (log + front) + [last];
      assert last in more && forall r <- front :: r in more;
      RecordsOfAppend(log + front, last, t);
      RecordsOfMore(log, front, t);
    }
  }

  /** The rows of the next task are those that were on the disk. */
  lemma SameLookup<C>(disk: Disk<C>, log: seq<Record>, heads: map<Branch, C>, c: Coordinates)
    requires Grown(disk, log, heads, c.order)
    ensures FindLog(log, c) == FindLog(disk.log, c)
  {
    hide TextOf, Load, Newest, RecordsOf;
    var more := log[|disk.log|..];
    assert log == disk.log + more;
    forall r | r in more ensures r.text != TextOf(c) {
      if r.text == TextOf(c) { BeforeIrreflexive(c.order); }
    }
    RecordsOfMore(disk.log, more, TextOf(c));
  }

  // ------------------------------------------------------------------------- the induction

  ghost predicate ReadyToWalk<C>(p: Program<C>, w: World<C>, disk: Disk<C>, plan: seq<Planned<C>>, s: Option<Place>) {
    && ReadyKeys(p, w) && WellPlanned(plan) && StablePlan(plan) && Uninterrupted(p, Top(w).kind)
    && Follows(p, Top(w).path, Top(w).order, plan) && Tracks(w, disk, plan, s)
  }

  ghost predicate Walked<C>(p: Program<C>, w: World<C>, disk: Disk<C>, plan: seq<Planned<C>>, s: Option<Place>)
    requires Open(w)
  {
    var (w', r) := Run(p, w);
    && r.Finished? && Top(w').order == Advance(Top(w).order, Width(p)) && w'.lost == w.lost
    && Tracks(w', disk, plan, Walk(p, Top(w).path, Top(w).order, w.skipStages, disk, plan, s))
  }

  lemma StepWalks<C>(key: Key, body: Program<C>, next: Program<C>, w: World<C>, disk: Disk<C>, plan: seq<Planned<C>>,
                     s: Option<Place>)
    requires ReadyToWalk(Call(key, Step, body, next), w, disk, plan, s)
    ensures var (w', r) := Execute(key, Step, body, w);
            && r.Finished? && Top(w').order == Bump(Top(w).order) && w'.lost == w.lost
            && Tracks(w', disk, plan, WalkTask(key, Step, body, Top(w).path, Top(w).order, w.skipStages, disk, plan, s))
  {
    hide WellFramed, SafeDisk, Increasing, AllBefore, Clean, TextOf, Stable, StableKey, Execute, WellPlanned,
         StablePlan,
         Legible, Tracks, Cursor, AfterStep, Recorded, Bump, Earlier;
    CallFinishes(key, Step, body, next, w);
    StepDone(key, body, w);
    BeforeBump(Top(w).order);
    var c := CoordinatesOf(w, key, Step);
    var j := Cursor(plan, Top(w).order);
    var w' := Execute(key, Step, body, w).0;
    if Recorded(w.log, TextOf(c)) {
      SkippedStepTracks(w, w', disk, plan, s, j);
    } else {
      StepGrows(w, c, w', disk, plan, s);
      ExecutedStepTracks(w, w', disk, plan, s, j, Record(TextOf(c), w.env.clock(|w.log|), NameOf(w.latest)));
    }
  }

  lemma StepGrows<C>(w: World<C>, c: Coordinates, w': World<C>, disk: Disk<C>, plan: seq<Planned<C>>, s: Option<Place>)
    requires Open(w) && Open(w') && Tracks(w, disk, plan, s) && c.order == Top(w).order && Top(w').order == Bump(c.order)
    requires w'.log == w.log + [Record(TextOf(c), w.env.clock(|w.log|), NameOf(w.latest))]
    requires w'.store.heads.Keys == w.store.heads.Keys + {Some(TextOf(c))}
    ensures Grown(disk, w'.log, w'.store.heads, Top(w').order)
  {
    hide Grown, Cursor, OnDisk, Wrong;
    BeforeBump(c.order);
    assert w'.log[|w.log|..] == [Record(TextOf(c), w.env.clock(|w.log|), NameOf(w.latest))];
    GrownLater(disk, w.log, w.store.heads, c.order, w'.log, w'.store.heads, Bump(c.order));
  }

  lemma SkippedStageTracks<C>(w: World<C>, w': World<C>, disk: Disk<C>, plan: seq<Planned<C>>, s: Option<Place>)
    requires Open(w) && Open(w') && Tracks(w, disk, plan, s) && WellPlanned(plan) && Top(w').order == Bump(Top(w).order)
    requires w'.log == w.log && w'.store.heads == w.store.heads
    ensures var end := Cursor(plan, Bump(Top(w).order));
            Tracks(w', disk, plan, if s.None? then None else AfterSkip(plan, end, NameOf(w'.latest), s.value))
  {
    hide OnCourse, Recorded, Cursor, TextOf, Grown, LatestStable, WellPlanned, Before, Bump, StagesAccounted, IsPlanned;
    BeforeBump(Top(w).order);
    SameDiskGrown(disk, w.log, w.store.heads, Top(w).order, Top(w').order);
    if s.None? {
      WrongFurther(w, w', plan);
    } else {
      var (n, end) := (s.value.recorded, Cursor(plan, Top(w').order));
      RecordedPrefix(w.log, plan, n, false);
      assert n < end ==> !Recorded(w'.log, NameAt(plan, n));
    }
  }

  /** A stage is logged and its frame popped. */
  lemma LoggedStageTracks<C>(w: World<C>, w': World<C>, c: Coordinates, disk: Disk<C>, plan: seq<Planned<C>>,
                             s: Option<Place>)
    requires Open(w) && Open(w') && Tracks(w, disk, plan, s) && WellPlanned(plan) && c.kind.Stage? && c.order != []
    requires w.latest.Some? ==> Stable(TextOf(w.latest.value))
    requires Before(Top(w).order, Bump(c.order)) && Cursor(plan, Top(w).order) == Cursor(plan, Bump(c.order))
    requires w'.log == MarkFinished(w, c).log && w'.store == w.store && w'.latest == w.latest && Top(w').order == Bump(c.order)
    ensures Tracks(w', disk, plan, s)
  {
    hide OnCourse, Recorded, Cursor, TextOf, Grown, LatestStable, WellPlanned, Before, Bump, StagesAccounted, IsPlanned,
         Stable, Wrong;
    var r := Record(TextOf(c), w.env.clock(|w.log|), NameOf(w.latest));
    assert w'.log[|w.log|..] == [r];
    BeforeBump(c.order);
    GrownLater(disk, w.log, w.store.heads, Top(w).order, w'.log, w'.store.heads, Bump(c.order));
    if s.None? {
      forall i | 0 <= i < |plan| ensures NameAt(plan, i) != r.text { StepsAreNoStages(plan, i); }
      WrongStays(w, w', plan, r);
    } else {
      StageJoins(w.log, plan, s.value.recorded, r, false);
    }
  }

  lemma StepsAreNoStages<C>(plan: seq<Planned<C>>, i: nat)
    requires WellPlanned(plan) && i < |plan|
    ensures NameAt(plan, i).kind.Step?
  {
  }

  lemma StageToWalk<C>(c: Coordinates, body: Program<C>, w: World<C>, disk: Disk<C>, plan: seq<Planned<C>>,
                       s: Option<Place>)
    requires Submitted(w, c) && c.kind.Stage? && Legible(w) && Stable(TextOf(c)) && StablePath(c.path) && StableKeys(body)
    requires WellPlanned(plan) && StablePlan(plan) && Uninterrupted(body, Some(Stage)) && Tracks(w, disk, plan, s)
    requires Follows(body, c.path, c.order + [0], plan) && Cursor(plan, c.order + [0]) == Cursor(plan, c.order)
    ensures var (w1, r1) := Enter(Submit(w, c), c);
            && r1 == Finished && Inside(w, c, w1) && ReadyToWalk(body, w1, disk, plan, s)
            && w1 == Submit(w, c).(stack := w1.stack) && Top(w1) == Frame(c.path, c.order + [0], Some(Stage))
            && RunTask(c, body, Submit(w, c)) == Conclude(Run(body, w1).0, c, Run(body, w1).1)
  {
    hide WellFramed, SafeDisk, Increasing, AllBefore, Immutable, Earlier, Clean, TextOf, Stable, StableKeys, StablePath,
         Legible, Grown, Run, Conclude, Uninterrupted, Follows, WellPlanned, StablePlan, OnDisk, Wrong, Cursor;
    StageOpenedKeys(c, body, w);
    var w1 := Enter(Submit(w, c), c).0;
    assert w1 == Submit(w, c).(stack := w1.stack);
    BeforeExtension(c.order, 0);
    SameDiskGrown(disk, w.log, w.store.heads, c.order, c.order + [0]);
    if s.None? { WrongFurther(w, w1, plan); }
  }

  /** Nothing makes it right again. */
  lemma {:induction false} WalkWrong<C>(p: Program<C>, path: seq<Key>, order: seq<int>, skip: bool, disk: Disk<C>,
                                        plan: seq<Planned<C>>)
    requires order != []
    ensures Walk(p, path, order, skip, disk, plan, None) == None
    decreases p
  {
    match p
    case End =>
    case Struck(_) =>
    case Write(_, next) => WalkWrong(next, path, order, skip, disk, plan);
    case Raise(_, next) => WalkWrong(next, path, order, skip, disk, plan);
    case Scope(flag, body, next) =>
      WalkWrong(body, path, order, flag, disk, plan);
      WalkWrong(next, path, Advance(order, Width(body)), skip, disk, plan);
    case Try(body, next) =>
      WalkWrong(body, path, order, skip, disk, plan);
      WalkWrong(next, path, Advance(order, Width(body)), skip, disk, plan);
    case Call(_, _, _, next) => WalkWrong(next, path, Bump(order), skip, disk, plan);
  }

  lemma StageRunWalks<C>(c: Coordinates, body: Program<C>, w: World<C>, disk: Disk<C>, plan: seq<Planned<C>>,
                         s: Option<Place>)
    requires Submitted(w, c) && c.kind.Stage? && Legible(w) && Stable(TextOf(c)) && StablePath(c.path) && StableKeys(body)
    requires WellPlanned(plan) && StablePlan(plan) && Uninterrupted(body, Some(Stage)) && Tracks(w, disk, plan, s)
    requires Follows(body, c.path, c.order + [0], plan) && Cursor(plan, c.order + [0]) == Cursor(plan, c.order)
    requires Cursor(plan, c.order + [Width(body)]) == Cursor(plan, Bump(c.order))
    ensures var (w', r) := RunTask(c, body, Submit(w, c));
            && r.Finished? && Top(w').order == Bump(c.order) && w'.lost == w.lost
            && Tracks(w', disk, plan, Walk(body, c.path, c.order + [0], w.skipStages, disk, plan, s))
    decreases body, 2
  {
    hide WellFramed, SafeDisk, Increasing, AllBefore, Immutable, Later, Advanced, Earlier, Clean, TextOf, Stable,
         StableKeys,
         StablePath, Run, Conclude, Uninterrupted, Follows, WellPlanned, StablePlan, Tracks, Cursor, Walk, Enter, Legible;
    StageToWalk(c, body, w, disk, plan, s);
    var w1 := Enter(Submit(w, c), c).0;
    RunWalk(body, w1, disk, plan, s);
    RunSafe(body, w1);
    RunLegible(body, w1);
    var (w2, r) := Run(body, w1);
    StageBodySafe(w, c, w1, w2, r);
    StagePopped(w, c, w2, r);
    StageEnd(c, Width(body));
    LatestIsStable(w2);
    LoggedStageTracks(w2, Conclude(w2, c, r).0, c, disk, plan, Walk(body, c.path, c.order + [0], w.skipStages, disk, plan, s));
  }

  lemma StageEnd(c: Coordinates, n: nat)
    requires c.order != []
    ensures Advance(c.order + [0], n) == c.order + [n as int] && Before(c.order + [n as int], Bump(c.order))
  {
    ExtensionBeforeBump(c.order, n as int);
  }

  lemma LatestIsStable<C>(w: World<C>)
    requires Legible(w)
    ensures w.latest.Some? ==> Stable(TextOf(w.latest.value))
  {
  }

  lemma StageWalks<C>(key: Key, body: Program<C>, next: Program<C>, w: World<C>, disk: Disk<C>, plan: seq<Planned<C>>,
                      s: Option<Place>)
    requires ReadyToWalk(Call(key, Stage, body, next), w, disk, plan, s)
    ensures var (w', r) := Execute(key, Stage, body, w);
            && r.Finished? && Top(w').order == Bump(Top(w).order) && w'.lost == w.lost
            && Tracks(w', disk, plan, WalkTask(key, Stage, body, Top(w).path, Top(w).order, w.skipStages, disk, plan, s))
    decreases body, 3
  {
    hide WellFramed, SafeDisk, Increasing, AllBefore, Immutable, Clean, TextOf, Stable, StableKey, WellPlanned,
         StablePlan, Legible, Cursor, Bump, Earlier, RunTask, FindLog, Skip, Walk, OnDisk, Wrong, Grown, Connected;
    CallFinishes(key, Stage, body, next, w);
    var c := CoordinatesOf(w, key, Stage);
    StageIsStable(key, body, next, w);
    LegibleHere(w, c);
    SameLookup(disk, w.log, w.store.heads, c);
    if FindLog(w.log, c).Found? && w.skipStages {
      StageSkips(key, body, w);
      SkippedStageTracks(w, Execute(key, Stage, body, w).0, disk, plan, s);
    } else {
      StageRunWalks(c, body, w, disk, plan, s);
      if s.None? { WalkWrong(body, c.path, c.order + [0], w.skipStages, disk, plan); }
    }
  }

  lemma StageIsStable<C>(key: Key, body: Program<C>, next: Program<C>, w: World<C>)
    requires ReadyKeys(Call(key, Stage, body, next), w)
    ensures Open(w) && Safe(w) && Legible(w) && CanHaveSubtasks(Top(w).kind) && StableKey(key) && StableKeys(body)
    ensures var c := CoordinatesOf(w, key, Stage);
            Submitted(w, c) && Stable(TextOf(c)) && StablePath(c.path)
  {
    hide WellFramed, SafeDisk, Increasing, AllBefore, Clean, TextOf, Stable, StableKey, StableSoFar;
    StableTask(Top(w).path, key, Top(w).order, Stage);
  }

  lemma NextToWalk<C>(w: World<C>, w1: World<C>, next: Program<C>, disk: Disk<C>, plan: seq<Planned<C>>,
                      s: Option<Place>)
    requires Safe(w) && CanHaveSubtasks(Top(w).kind) && WellPlanned(plan) && StablePlan(plan)
    requires Kept(w, w1, Finished) && Open(w1) && Legible(w1) && StableKeys(next) && Uninterrupted(next, Top(w).kind)
    requires Follows(next, Top(w).path, Top(w1).order, plan) && Tracks(w1, disk, plan, s)
    ensures ReadyToWalk(next, w1, disk, plan, s) && Top(w1).path == Top(w).path && w1.skipStages == w.skipStages
  {
    hide WellFramed, SafeDisk, Increasing, AllBefore, Immutable, Later, Legible, Tracks, WellPlanned, StablePlan,
         Follows;
  }

  lemma CallWalks<C>(key: Key, kind: Kind, body: Program<C>, next: Program<C>, w: World<C>, disk: Disk<C>,
                     plan: seq<Planned<C>>, s: Option<Place>)
    requires ReadyToWalk(Call(key, kind, body, next), w, disk, plan, s)
    ensures Open(w) && Walked(Call(key, kind, body, next), w, disk, plan, s)
    decreases Call(key, kind, body, next), 0
  {
    hide WellFramed, SafeDisk, Increasing, AllBefore, Immutable, Advanced, Later, Clean, Earlier, Run, Kept, Advance,
         Bump,
         Execute, Tracks, WellPlanned, StablePlan, Legible, Cursor, StableKey, WalkTask, KeptLegible, InStep, Orderly, Runs, Enter;
    if kind.Step? { StepWalks(key, body, next, w, disk, plan, s); } else { StageWalks(key, body, next, w, disk, plan, s); }
    ExecuteSafe(key, kind, body, w);
    ExecuteLegible(key, kind, body, w);
    RunCall(key, kind, body, next, w);
    var w1 := Execute(key, kind, body, w).0;
    KeptLegibly(w1, Finished);
    var s1 := WalkTask(key, kind, body, Top(w).path, Top(w).order, w.skipStages, disk, plan, s);
    NextToWalk(w, w1, next, disk, plan, s1);
    RunWalk(next, w1, disk, plan, s1);
    AdvanceAdds(Top(w).order, 1, Width(next));
  }

  lemma KeptLegibly<C>(w: World<C>, r: Outcome)
    requires KeptLegible(w, r) && !Killed(r)
    ensures Legible(w)
  {
  }

  /** The flag makes no difference. */
  lemma FlagTracks<C>(w: World<C>, flag: bool, disk: Disk<C>, plan: seq<Planned<C>>, s: Option<Place>)
    requires Open(w) && Tracks(w, disk, plan, s)
    ensures Tracks(w.(skipStages := flag), disk, plan, s)
  {
    hide Grown, OnDisk, OnCourse, Recorded, Cursor;
  }

  lemma InScopeWalk<C>(skip: bool, body: Program<C>, next: Program<C>, w: World<C>, disk: Disk<C>,
                       plan: seq<Planned<C>>,
                       s: Option<Place>)
    requires ReadyToWalk(Scope(skip, body, next), w, disk, plan, s)
    ensures Open(w) && Safe(w) && CanHaveSubtasks(Top(w).kind) && StableKeys(next) && Uninterrupted(next, Top(w).kind)
    ensures WellPlanned(plan) && StablePlan(plan) && Follows(next, Top(w).path, Advance(Top(w).order, Width(body)), plan)
    ensures var inside := w.(skipStages := skip);
            ReadyToWalk(body, inside, disk, plan, s) && ReadyKeys(body, inside) && Safe(inside) && Top(inside) == Top(w)
  {
    hide WellFramed, SafeDisk, Increasing, AllBefore, Earlier, Clean, StableSoFar, StablePath, OnDisk, Grown, Cursor,
         WellPlanned,
         StablePlan, OnCourse, Recorded, ReadyKeys, Legible, Tracks, Safe, Connected;
    assert ReadyKeys(Scope(skip, body, next), w);
    InScopeKeys(skip, body, next, w);
    FlagTracks(w, skip, disk, plan, s);
    assert Uninterrupted(body, Top(w).kind);
    assert Follows(body, Top(w).path, Top(w).order, plan);
  }

  lemma ScopeWalks<C>(skip: bool, body: Program<C>, next: Program<C>, w: World<C>, disk: Disk<C>, plan: seq<Planned<C>>,
                      s: Option<Place>)
    requires ReadyToWalk(Scope(skip, body, next), w, disk, plan, s)
    ensures Open(w) && Walked(Scope(skip, body, next), w, disk, plan, s)
    decreases Scope(skip, body, next), 0
  {
    hide Safe, Kept, Run, Advance, Tracks, WellPlanned, StablePlan, Legible, ReadyKeys, ReadyToWalk, Follows, InStep,
         Orderly,
         Uninterrupted, Connected, StableKeys;
    InScopeWalk(skip, body, next, w, disk, plan, s);
    var inside := w.(skipStages := skip);
    RunWalk(body, inside, disk, plan, s);
    RunSafe(body, inside);
    RunLegible(body, inside);
    var (w1, r1) := Run(body, inside);
    BlockSafe(w, skip, w1, r1);
    BlockLegible(w1, w.skipStages, r1);
    RunScope(skip, body, next, w);
    var w2 := w1.(skipStages := w.skipStages);
    var s1 := Walk(body, Top(w).path, Top(w).order, skip, disk, plan, s);
    FlagTracks(w1, w.skipStages, disk, plan, s1);
    KeptLegibly(w2, Finished);
    NextToWalk(w, w2, next, disk, plan, s1);
    RunWalk(next, w2, disk, plan, s1);
    AdvanceAdds(Top(w).order, Width(body), Width(next));
  }

  lemma InTryWalk<C>(body: Program<C>, next: Program<C>, w: World<C>, disk: Disk<C>, plan: seq<Planned<C>>,
                     s: Option<Place>)
    requires ReadyToWalk(Try(body, next), w, disk, plan, s)
    ensures Open(w) && Safe(w) && CanHaveSubtasks(Top(w).kind) && StableKeys(next) && Uninterrupted(next, Top(w).kind)
    ensures WellPlanned(plan) && StablePlan(plan) && Follows(next, Top(w).path, Advance(Top(w).order, Width(body)), plan)
    ensures ReadyToWalk(body, w, disk, plan, s) && ReadyKeys(body, w)
  {
    hide WellFramed, SafeDisk, Increasing, AllBefore, Earlier, Clean, Legible, OnDisk, Grown, Cursor, WellPlanned,
         StablePlan, OnCourse, Recorded;
  }

  lemma TryWalks<C>(body: Program<C>, next: Program<C>, w: World<C>, disk: Disk<C>, plan: seq<Planned<C>>,
                    s: Option<Place>)
    requires ReadyToWalk(Try(body, next), w, disk, plan, s)
    ensures Open(w) && Walked(Try(body, next), w, disk, plan, s)
    decreases Try(body, next), 0
  {
    hide Safe, Kept, Run, Advance, Tracks, WellPlanned, StablePlan, Legible, ReadyKeys, ReadyToWalk, Follows, InStep,
         Orderly,
         Uninterrupted, Connected, StableKeys;
    InTryWalk(body, next, w, disk, plan, s);
    RunWalk(body, w, disk, plan, s);
    RunSafe(body, w);
    RunLegible(body, w);
    var (w1, r1) := Run(body, w);
    RunTry(body, next, w);
    var s1 := Walk(body, Top(w).path, Top(w).order, w.skipStages, disk, plan, s);
    KeptLegibly(w1, Finished);
    NextToWalk(w, w1, next, disk, plan, s1);
    RunWalk(next, w1, disk, plan, s1);
    AdvanceAdds(Top(w).order, Width(body), Width(next));
  }

  lemma {:induction false} RunWalk<C>(p: Program<C>, w: World<C>, disk: Disk<C>, plan: seq<Planned<C>>,
                                      s: Option<Place>)
    requires ReadyToWalk(p, w, disk, plan, s)
    ensures Open(w) && Walked(p, w, disk, plan, s)
    decreases p, 1
  {
    hide WellFramed, SafeDisk, Increasing, AllBefore, Clean, Earlier, Tracks, WellPlanned, StablePlan, Legible, Execute,
         WalkTask;
    match p
    case End => AdvanceAdds(Top(w).order, 0, 0);
    case Write(_, _) => assert false;
    case Scope(skip, body, next) => ScopeWalks(skip, body, next, w, disk, plan, s);
    case Try(body, next) => TryWalks(body, next, w, disk, plan, s);
    case Call(key, kind, body, next) => CallWalks(key, kind, body, next, w, disk, plan, s);
  }

  // ------------------------------------------------------------------------------ sessions

  /** Walking over the disk from its start, an uninterrupted program comes to the end of the
      plan: the steps that it runs come right after the ones planned before them, and the rows
      of the stages that it skips lead to where it goes on. */
  ghost predicate LeadsThrough<C>(p: Program<C>, disk: Disk<C>) {
    var plan := Plan(p);
    var start := Place(FirstUnrecorded(disk.log, plan, |plan|), None);
    Walk(p, [], [0], false, disk, plan, Some(start)) == Some(Place(|plan|, At(plan, |plan|)))
  }

  lemma FreshToWalk<C>(p: Program<C>, disk: Disk<C>, env: Env)
    requires SafeDisk(disk.log, disk.heads) && LegibleDisk(disk) && StableKeys(p) && Uninterrupted(p, None)
    requires OnCourse(disk.log, Plan(p))
    ensures var start := Place(FirstUnrecorded(disk.log, Plan(p), |Plan(p)|), None);
            ReadyToWalk(p, Fresh(disk, env), disk, Plan(p), Some(start))
  {
    hide Plan, WellPlanned, StablePlan, OnCourse, Recorded, Follows, Uninterrupted, SafeDisk, StableKeys, WellFramed,
         LatestStable;
    FollowsOwnPlan(p);
    StableProgram(p);
    FreshKeys(p, disk, env);
    var n := CourseIsPrefix(disk.log, Plan(p));
    assert disk.log[|disk.log|..] == [];
  }

  /** The session puts everything in order exactly if the walk leads through. */
  lemma WalkDecides<C>(p: Program<C>, disk: Disk<C>, env: Env)
    requires SafeDisk(disk.log, disk.heads) && LegibleDisk(disk) && StableKeys(p) && Uninterrupted(p, None)
    ensures var w := Session(p, disk, env).0;
            && (InOrder(w, Plan(p), {}) <==> OnCourse(disk.log, Plan(p)) && LeadsThrough(p, disk))
            && (OnCourse(disk.log, Plan(p)) ==> w.lost == [])
  {
    hide Plan, WellPlanned, StablePlan, OnCourse, Recorded, Follows, Uninterrupted, AtMostOnce, RecordSafe,
         StableKeys, Run, Walk, Increasing,
         Immutable, Clean, LatestStable, FirstUnrecorded, Grown, StagesAccounted;
    var plan := Plan(p);
    var w := Session(p, disk, env).0;
    SessionIsSafe(p, disk, env);
    FollowsOwnPlan(p);
    if !OnCourse(disk.log, plan) {
      if OnCourse(w.log, plan) { CourseBefore(disk.log, w.log, plan); }
    } else {
      FreshToWalk(p, disk, env);
      var start := Some(Place(FirstUnrecorded(disk.log, plan, |plan|), None));
      RunWalk(p, Fresh(disk, env), disk, plan, start);
      WalkEnds(w, disk, plan, Walk(p, [], [0], false, disk, plan, start));
    }
  }

  lemma WalkEnds<C>(w: World<C>, disk: Disk<C>, plan: seq<Planned<C>>, s: Option<Place>)
    requires Open(w) && Tracks(w, disk, plan, s) && Cursor(plan, Top(w).order) == |plan|
    ensures InOrder(w, plan, {}) <==> s == Some(Place(|plan|, At(plan, |plan|)))
  {
    hide OnCourse, Recorded, Cursor, NameAt, Grown, LatestStable, StagesAccounted, IsPlanned;
  }

  /** The exact condition for sessions that skip stages, too. If steps leave marks, then a
      session that nothing interrupts ends with the ideal data if and only if the log it finds
      is on course, no commit was lost, and what the rows of the stages it skips remember leads
      through the plan. */
  lemma SkippingDecides(history: seq<Attempt<seq<Coordinates>>>, p: Program<seq<Coordinates>>, env: Env,
                        main: seq<Coordinates>)
    requires AllStable(history) && Faithful(history, FirstDisk(main), Plan(p))
    requires StableKeys(p) && Uninterrupted(p, None) && Marked(Plan(p))
    ensures var disk := After(history, FirstDisk(main));
            var (w, r) := Session(p, disk, env);
            && r.Finished?
            && (w.store.working == Ideal(Plan(p), main) <==>
                  OnCourse(disk.log, Plan(p)) && LostSteps(history, FirstDisk(main)) == {} && LeadsThrough(p, disk))
  {
    hide AtMostOnce, RecordSafe, Run, Plan, StableKeys, OnCourse, Recorded, AllStable, Uninterrupted, LatestStable,
         Ideal,
         LostSteps, WellPlanned, InStep, Marked, LeadsThrough, CanOpen, Faithful;
    UninterruptedIsReady(history, p, env, main);
    DataIsRight(history, p, env, main);
    var disk := After(history, FirstDisk(main));
    WalkDecides(p, disk, env);
    var (w, lost) := (Session(p, disk, env).0, LostSteps(history, FirstDisk(main)));
    assert w.lost == [] ==> lost + LostIn(w) == lost;
  }
}
