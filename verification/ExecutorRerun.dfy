/** Exactly when a program can be run over what is on disk, whatever the keys of its tasks
    are: reading a row back may fail, or may name another branch. */
module ExecutorRerun {
  import opened Prelude
  import opened CoordinatesText
  import opened ExecutorModel
  import opened TaskNames
  import opened BranchStore
  import opened TaskSemantics
  import opened ExecutorSafety
  import opened ExecutorPlan
  import opened ExecutorSteps
  import opened ExecutorCourse
  import opened ExecutorProgress
  import opened ExecutorBook
  import opened ExecutorKeys

  /** Outside of steps, nothing is caught. */
  predicate Straight<C>(p: Program<C>) {
    match p
    case End => true
    case Struck(_) => true
    case Write(_, next) => Straight(next)
    case Raise(_, next) => Straight(next)
    case Scope(_, body, next) => Straight(body) && Straight(next)
    case Try(_, _) => false
    case Call(_, k, body, next) => (k.Stage? ==> Straight(body)) && Straight(next)
  }

  /** The rows of a task can be read back, and that of a step leads to a branch. The name of a
      step can be read, too: its commit reads it. */
  ghost predicate Passes<C>(disk: Disk<C>, c: Coordinates) {
    && !CannotCommit(c)
    && forall r <- disk.log | r.text == TextOf(c) :: Load(r).Some? && (c.kind.Step? ==> SkippedTo(Load(r).value) in disk.heads)
  }

  ghost predicate Passable<C>(p: Program<C>, path: seq<Key>, order: seq<int>, disk: Disk<C>)
    requires order != []
  {
    match p
    case End => true
    case Struck(_) => true
    case Write(_, next) => Passable(next, path, order, disk)
    case Raise(_, next) => Passable(next, path, order, disk)
    case Scope(_, body, next) => Passable(body, path, order, disk) && Passable(next, path, Advance(order, Width(body)), disk)
    case Try(body, next) => Passable(body, path, order, disk) && Passable(next, path, Advance(order, Width(body)), disk)
    case Call(key, kind, body, next) =>
      && Passes(disk, Coordinates(path + [key], order, kind))
      && (kind.Stage? ==> Passable(body, path + [key], order + [0], disk))
      && Passable(next, path, Bump(order), disk)
  }

  /** What the session has added to the disk it started from is behind it. */
  ghost predicate Grown<C>(disk: Disk<C>, log: seq<Record>, heads: map<Branch, C>, order: seq<int>) {
    && disk.log <= log && (forall r <- log[|disk.log|..] :: Before(r.text.order, order))
    && disk.heads.Keys <= heads.Keys && (forall b <- heads | b !in disk.heads :: Earlier(b, order))
  }

  // ------------------------------------------------------------------------- one lookup

  lemma OnlyRow(log: seq<Record>, t: Text, r: Record, q: Record)
    requires AtMostOnce(log) && t.kind.Step? && r in log && q in log && r.text == q.text == t
    ensures r == q
  {
    RecordsOfMembers(log, t);
    assert r in RecordsOf(log, t) && q in RecordsOf(log, t);
    assert |RecordsOf(log, t)| <= 1;
  }

  /** The rows of the next task are those that were there at the start. */
  lemma RowsAtStart<C>(disk: Disk<C>, log: seq<Record>, heads: map<Branch, C>, c: Coordinates, r: Record)
    requires Grown(disk, log, heads, c.order) && r.text == TextOf(c)
    ensures r in log <==> r in disk.log
  {
    hide TextOf;
    BeforeIrreflexive(c.order);
    assert log == disk.log + log[|disk.log|..];
  }

  lemma BranchAtStart<C>(disk: Disk<C>, log: seq<Record>, heads: map<Branch, C>, order: seq<int>, b: Branch)
    requires Grown(disk, log, heads, order) && b.Some? && b.value.order == order
    ensures b in heads <==> b in disk.heads
  {
    BeforeIrreflexive(order);
  }

  /** The lookup fails exactly if some row of the disk cannot be read, and a step is skipped
      exactly if it can. */
  lemma LookupPasses<C>(w: World<C>, c: Coordinates, disk: Disk<C>)
    requires Safe(w) && c.order == Top(w).order && Grown(disk, w.log, w.store.heads, c.order)
    ensures var found := FindLog(w.log, c);
            && !found.Inconsistent?
            && (found.Illegible? ==> !Passes(disk, c))
            && (found.Missing? ==> (Passes(disk, c) <==> !CannotCommit(c)) && forall r <- w.log :: r.text != TextOf(c))
            && (found.Found? ==> (Passes(disk, c) <==> c.kind.Step? ==> SkippedTo(found.record) in w.store.heads))
  {
    hide FindLog, TextOf, WellFramed, RecordSafe, Increasing, AllBefore, Clean, Load, AtMostOnce;
    NotFound(w.log, c);
    assert AtMostOnce(w.log);
    Consistent(w.log, c);
    forall r: Record | r.text == TextOf(c) ensures r in w.log <==> r in disk.log { RowsAtStart(disk, w.log, w.store.heads, c, r); }
    if FindLog(w.log, c).Found? { FoundPasses(w, c, disk); }
  }

  lemma FoundCommits(c: Coordinates, row: Record)
    requires row.text == TextOf(c) && Load(row).Some?
    ensures !CannotCommit(c)
  {
    hide TextOf, Reload;
  }

  lemma FoundPasses<C>(w: World<C>, c: Coordinates, disk: Disk<C>)
    requires AtMostOnce(w.log) && Grown(disk, w.log, w.store.heads, c.order) && FindLog(w.log, c).Found?
    requires forall r: Record | r.text == TextOf(c) :: r in w.log <==> r in disk.log
    ensures Passes(disk, c) <==> c.kind.Step? ==> SkippedTo(FindLog(w.log, c).record) in w.store.heads
  {
    hide FindLog, TextOf, Load, AtMostOnce;
    var row := FoundIsInLog(w.log, c);
    NotFound(w.log, c);
    var record := FindLog(w.log, c).record;
    assert !CannotCommit(c) by { FoundCommits(c, row); }
    if c.kind.Step? {
      BranchAtStart(disk, w.log, w.store.heads, c.order, SkippedTo(record));
      forall r | r in disk.log && r.text == TextOf(c) ensures r == row { OnlyRow(w.log, TextOf(c), r, row); }
    }
  }

  // ------------------------------------------------------------------------- the induction

  ghost predicate AllRecorded<C>(p: Program<C>, path: seq<Key>, order: seq<int>, log: seq<Record>)
    requires order != []
    decreases p, 0
  {
    match p
    case End => true
    case Struck(_) => true
    case Write(_, next) => AllRecorded(next, path, order, log)
    case Raise(_, next) => AllRecorded(next, path, order, log)
    case Scope(_, body, next) => AllRecorded(body, path, order, log) && AllRecorded(next, path, Advance(order, Width(body)), log)
    case Try(body, next) => AllRecorded(body, path, order, log) && AllRecorded(next, path, Advance(order, Width(body)), log)
    case Call(key, kind, body, next) => TaskRecorded(key, kind, body, path, order, log) && AllRecorded(next, path, Bump(order), log)
  }

  ghost predicate TaskRecorded<C>(key: Key, kind: Kind, body: Program<C>, path: seq<Key>, order: seq<int>,
                                  log: seq<Record>)
    requires order != []
    decreases body, 1
  {
    && Recorded(log, TextOf(Coordinates(path + [key], order, kind)))
    && (kind.Stage? ==> AllRecorded(body, path + [key], order + [0], log))
  }

  lemma {:induction false} RecordedStays<C>(p: Program<C>, path: seq<Key>, order: seq<int>, log: seq<Record>,
                                            more: seq<Record>)
    requires order != [] && AllRecorded(p, path, order, log)
    ensures AllRecorded(p, path, order, log + more)
  {
    hide Recorded, TextOf;
    match p
    case End =>
    case Struck(_) =>
    case Write(_, next) => RecordedStays(next, path, order, log, more);
    case Raise(_, next) => RecordedStays(next, path, order, log, more);
    case Scope(_, body, next) =>
      RecordedStays(body, path, order, log, more);
      RecordedStays(next, path, Advance(order, Width(body)), log, more);
    case Try(body, next) =>
      RecordedStays(body, path, order, log, more);
      RecordedStays(next, path, Advance(order, Width(body)), log, more);
    case Call(key, kind, body, next) =>
      RecordedLater(log, more, TextOf(Coordinates(path + [key], order, kind)));
      if kind.Stage? { RecordedStays(body, path + [key], order + [0], log, more); }
      RecordedStays(next, path, Bump(order), log, more);
  }

  /** Branches and marks are made for steps of the program only. */
  ghost predicate NewNames<C>(w: World<C>, w': World<C>, steps: seq<Planned<C>>) {
    && (forall b <- w'.store.heads :: b in w.store.heads || exists s <- steps :: b == Some(TextOf(s.coordinates)))
    && (forall c <- w'.invoked :: c in w.invoked || exists s <- steps :: s.coordinates == c)
  }

  lemma NewNamesTransitive<C>(w: World<C>, w1: World<C>, w2: World<C>, a: seq<Planned<C>>, b: seq<Planned<C>>)
    requires NewNames(w, w1, a) && NewNames(w1, w2, b)
    ensures NewNames(w, w2, a + b)
  {
    hide TextOf;
    assert forall s <- a :: s in a + b;
    assert forall s <- b :: s in a + b;
  }

  lemma GrownLater<C>(disk: Disk<C>, log: seq<Record>, heads: map<Branch, C>, order: seq<int>, log': seq<Record>,
                      heads': map<Branch, C>,
                      later: seq<int>)
    requires Grown(disk, log, heads, order) && Before(order, later) && log <= log' && heads.Keys <= heads'.Keys
    requires forall r <- log'[|log|..] :: Before(r.text.order, later)
    requires forall b <- heads' | b !in heads :: Earlier(b, later)
    ensures Grown(disk, log', heads', later)
  {
    forall r | r in log'[|disk.log|..] ensures Before(r.text.order, later) {
      var k :| |disk.log| <= k < |log'| && log'[k] == r;
      if k < |log| {
        assert log[|disk.log|..][k - |disk.log|] == r;
        BeforeTransitive(r.text.order, order, later);
      } else {
        assert log'[|log|..][k - |log|] == r;
      }
    }
    forall b | b in heads' && b !in disk.heads ensures Earlier(b, later) {
      if b in heads { EarlierStill(b, order, later); }
    }
  }

  ghost predicate Ran<C>(p: Program<C>, w: World<C>, w': World<C>, disk: Disk<C>)
    requires Open(w) && Open(w')
  {
    && Grown(disk, w'.log, w'.store.heads, Top(w').order) && Top(w').order == Advance(Top(w).order, Width(p))
    && AllRecorded(p, Top(w).path, Top(w).order, w'.log)
    && NewNames(w, w', Steps(p, Top(w).path, Top(w).order))
  }

  ghost predicate TaskRan<C>(key: Key, kind: Kind, body: Program<C>, w: World<C>, w': World<C>, disk: Disk<C>)
    requires Open(w) && Open(w')
  {
    && Grown(disk, w'.log, w'.store.heads, Top(w').order) && Top(w').order == Bump(Top(w).order)
    && TaskRecorded(key, kind, body, Top(w).path, Top(w).order, w'.log)
    && NewNames(w, w', StepsOfTask(key, kind, body, Top(w).path, Top(w).order))
  }

  /** `p` is uninterrupted, catches nothing and skips no stage. */
  predicate Plain<C>(p: Program<C>, kind: Option<Kind>) {
    Uninterrupted(p, kind) && Straight(p) && SkipsNoStage(p)
  }

  ghost predicate ReadyToPass<C>(p: Program<C>, w: World<C>, disk: Disk<C>) {
    && Safe(w) && CanHaveSubtasks(Top(w).kind) && Plain(p, Top(w).kind) && !w.skipStages
    && Grown(disk, w.log, w.store.heads, Top(w).order)
  }

  /** A step whose row is there. */
  lemma SkipPasses<C>(key: Key, body: Program<C>, w: World<C>, disk: Disk<C>)
    requires Safe(w) && CanHaveSubtasks(Top(w).kind) && !(|w.stack| == 1 && key.Index?)
    requires Grown(disk, w.log, w.store.heads, Top(w).order) && FindLog(w.log, CoordinatesOf(w, key, Step)).Found?
    ensures var (w', r) := Execute(key, Step, body, w);
            && (r.Finished? || ReloadError(r)) && (r.Finished? <==> Passes(disk, CoordinatesOf(w, key, Step)))
            && (r.Finished? ==> TaskRan(key, Step, body, w, w', disk))
  {
    hide WellFramed, SafeDisk, Increasing, AllBefore, Immutable, Later, Advanced, Clean, Earlier, TextOf, FindLog,
         Skip, Load, Passes, Grown, Writes, Kept;
    var c := CoordinatesOf(w, key, Step);
    LookupPasses(w, c, disk);
    var row := FoundIsInLog(w.log, c);
    SkipSafe(w, c, row);
    if Execute(key, Step, body, w).1.Finished? {
      BeforeBump(c.order);
      SameDiskGrown(disk, w.log, w.store.heads, c.order, Bump(c.order));
    }
  }

  lemma SameDiskGrown<C>(disk: Disk<C>, log: seq<Record>, heads: map<Branch, C>, order: seq<int>, later: seq<int>)
    requires Grown(disk, log, heads, order) && Before(order, later)
    ensures Grown(disk, log, heads, later)
  {
    assert log[|log|..] == [];
    GrownLater(disk, log, heads, order, log, heads, later);
  }

  /** A step without a row. */
  lemma StepPasses<C>(key: Key, body: Program<C>, w: World<C>, disk: Disk<C>)
    requires Safe(w) && CanHaveSubtasks(Top(w).kind) && !(|w.stack| == 1 && key.Index?) && Uninterrupted(body, Some(Step))
    requires Grown(disk, w.log, w.store.heads, Top(w).order) && FindLog(w.log, CoordinatesOf(w, key, Step)).Missing?
    ensures var (w', r) := Execute(key, Step, body, w);
            && (r.Finished? || ReloadError(r)) && (r.Finished? <==> Passes(disk, CoordinatesOf(w, key, Step)))
            && (r.Finished? ==> TaskRan(key, Step, body, w, w', disk))
  {
    hide WellFramed, SafeDisk, Increasing, AllBefore, Immutable, Later, Advanced, Clean, Earlier, TextOf, FindLog,
         RunTask, Passes, Grown, Writes,
         Effect, Uninterrupted, Execute, Recorded, CannotCommit;
    var c := CoordinatesOf(w, key, Step);
    LookupPasses(w, c, disk);
    UnrecordedStepRuns(key, body, w);
    RunTaskSafe(c, body, w);
    var fate := StepOutcome(c, body, w);
    if CannotCommit(c) { return; }
    var w' := RunTask(c, body, Submit(w, c)).0;
    var row := Record(TextOf(c), w.env.clock(|w.log|), NameOf(w.latest));
    assert w'.log == w.log + [row] && w'.log[|w.log|..] == [row];
    BeforeBump(c.order);
    RecordedAppend(w.log, row, TextOf(c));
    assert Earlier(Some(TextOf(c)), Bump(c.order)) by { StepIsEarlier(c); }
    GrownLater(disk, w.log, w.store.heads, c.order, w'.log, w'.store.heads, Bump(c.order));
  }

  lemma StepIsEarlier(c: Coordinates)
    requires c.order != []
    ensures Earlier(Some(TextOf(c)), Bump(c.order))
  {
    BeforeBump(c.order);
  }

  /** A stage: its body, its row, its frame. */
  lemma StagePasses<C>(key: Key, body: Program<C>, w: World<C>, disk: Disk<C>)
    requires Safe(w) && CanHaveSubtasks(Top(w).kind) && !(|w.stack| == 1 && key.Index?) && Plain(body, Some(Stage)) && !w.skipStages
    requires Grown(disk, w.log, w.store.heads, Top(w).order)
    requires FindLog(w.log, CoordinatesOf(w, key, Stage)).Found? || FindLog(w.log, CoordinatesOf(w, key, Stage)).Missing?
    ensures var (w', r) := Execute(key, Stage, body, w);
            && (r.Finished? || ReloadError(r))
            && (r.Finished? <==> Passable(body, Top(w).path + [key], Top(w).order + [0], disk))
            && (r.Finished? ==> TaskRan(key, Stage, body, w, w', disk))
    decreases body, 2
  {
    hide WellFramed, SafeDisk, Increasing, AllBefore, Immutable, Later, Advanced, Clean, Earlier, TextOf, FindLog,
         RunTask, Grown, Safe,
         Plain, Run, Conclude, Passable, Enter, AllRecorded, Steps, Recorded;
    assert Open(w) by { SafeIsOpen(w); }
    var c := CoordinatesOf(w, key, Stage);
    StageRuns(key, body, w);
    StageToPass(c, body, w, disk);
    var w1 := Enter(Submit(w, c), c).0;
    RunPassable(body, w1, disk);
    RunSafe(body, w1);
    var (w2, r) := Run(body, w1);
    StageBodySafe(w, c, w1, w2, r);
    StageRan(key, body, w, c, w1, w2, r, disk);
  }

  lemma StageRuns<C>(key: Key, body: Program<C>, w: World<C>)
    requires Open(w) && CanHaveSubtasks(Top(w).kind) && !(|w.stack| == 1 && key.Index?) && !w.skipStages
    requires FindLog(w.log, CoordinatesOf(w, key, Stage)).Found? || FindLog(w.log, CoordinatesOf(w, key, Stage)).Missing?
    ensures var c := CoordinatesOf(w, key, Stage);
            Execute(key, Stage, body, w) == RunTask(c, body, Submit(w, c))
    ensures Safe(w) ==> Submitted(w, CoordinatesOf(w, key, Stage))
  {
    hide RunTask, FindLog, Safe;
  }

  lemma StageToPass<C>(c: Coordinates, body: Program<C>, w: World<C>, disk: Disk<C>)
    requires Submitted(w, c) && c.kind.Stage? && Plain(body, Some(Stage)) && !w.skipStages
    requires Grown(disk, w.log, w.store.heads, Top(w).order)
    ensures var (w1, r1) := Enter(Submit(w, c), c);
            && r1 == Finished && Inside(w, c, w1) && ReadyToPass(body, w1, disk)
            && w1.log == w.log && w1.store == w.store && w1.invoked == w.invoked && Top(w1) == Frame(c.path, c.order + [0], Some(Stage))
            && RunTask(c, body, Submit(w, c)) == Conclude(Run(body, w1).0, c, Run(body, w1).1)
  {
    hide WellFramed, SafeDisk, Increasing, AllBefore, Immutable, Clean, Earlier, TextOf, Grown, Plain, Run, Conclude;
    EnterSafe(w, c);
    var w1 := Enter(Submit(w, c), c).0;
    assert w1 == Submit(w, c).(stack := w1.stack) && Top(w1) == Frame(c.path, c.order + [0], Some(Stage));
    BeforeExtension(c.order, 0);
    SameDiskGrown(disk, w.log, w.store.heads, c.order, c.order + [0]);
  }

  lemma StageRan<C>(key: Key, body: Program<C>, w: World<C>, c: Coordinates, w1: World<C>, w2: World<C>, r: Outcome,
                    disk: Disk<C>)
    requires Submitted(w, c) && c == CoordinatesOf(w, key, Stage) && Open(w1) && Open(w2) && (r.Finished? || ReloadError(r))
    requires w1.store == w.store && w1.invoked == w.invoked && Top(w1) == Frame(c.path, c.order + [0], Some(Stage)) && Inside(w, c, w2)
    requires r.Finished? ==> Ran(body, w1, w2, disk)
    ensures var (w', r') := Conclude(w2, c, r);
            && (r'.Finished? || ReloadError(r')) && (r'.Finished? <==> r.Finished?)
            && (r'.Finished? ==> TaskRan(key, Stage, body, w, w', disk))
  {
    hide WellFramed, SafeDisk, Increasing, AllBefore, Immutable, Later, Advanced, Clean, Earlier, TextOf, Grown,
         Safe, Conclude,
         AllRecorded, Steps, Recorded;
    StagePopped(w, c, w2, r);
    ConcludeByCases(w, c, w2, r);
    if r.Finished? { StageRowGrows(key, body, w, c, w2, disk); }
  }

  lemma StageRowGrows<C>(key: Key, body: Program<C>, w: World<C>, c: Coordinates, w2: World<C>, disk: Disk<C>)
    requires Open(w) && c == CoordinatesOf(w, key, Stage) && Open(w2) && c.order != []
    requires Grown(disk, w2.log, w2.store.heads, Top(w2).order) && Top(w2).order == Advance(c.order + [0], Width(body))
    requires AllRecorded(body, c.path, c.order + [0], w2.log)
    ensures var log' := MarkFinished(w2, c).log;
            && Grown(disk, log', w2.store.heads, Bump(c.order))
            && TaskRecorded(key, Stage, body, Top(w).path, Top(w).order, log')
  {
    hide TextOf, Grown, Recorded, Steps;
    var row := Record(TextOf(c), w2.env.clock(|w2.log|), NameOf(w2.latest));
    var log' := w2.log + [row];
    assert log'[|w2.log|..] == [row];
    assert Advance(c.order + [0], Width(body)) == c.order + [Width(body) as int];
    ExtensionBeforeBump(c.order, Width(body) as int);
    BeforeBump(c.order);
    RecordedAppend(w2.log, row, TextOf(c));
    RecordedStays(body, c.path, c.order + [0], w2.log, [row]);
    GrownLater(disk, w2.log, w2.store.heads, Top(w2).order, log', w2.store.heads, Bump(c.order));
  }

  lemma CallPasses<C>(key: Key, kind: Kind, body: Program<C>, next: Program<C>, w: World<C>, disk: Disk<C>)
    requires ReadyToPass(Call(key, kind, body, next), w, disk)
    ensures var (w', r) := Execute(key, kind, body, w);
            && (r.Finished? || ReloadError(r))
            && (r.Finished? <==> Passes(disk, CoordinatesOf(w, key, kind)) && (kind.Stage? ==> Passable(body, Top(w).path + [key], Top(w).order + [0], disk)))
            && (r.Finished? ==> TaskRan(key, kind, body, w, w', disk))
    decreases body, 3
  {
    hide WellFramed, SafeDisk, Increasing, AllBefore, Immutable, Later, Advanced, Clean, Earlier, TextOf, FindLog,
         RunTask, Grown, Skip,
         TaskRan, Passes;
    var c := CoordinatesOf(w, key, kind);
    CallFinishes(key, kind, body, next, w);
    LookupPasses(w, c, disk);
    var found := FindLog(w.log, c);
    if found.Illegible? {
    } else if kind.Stage? {
      StagePasses(key, body, w, disk);
    } else if found.Found? {
      SkipPasses(key, body, w, disk);
    } else {
      StepPasses(key, body, w, disk);
    }
  }

  lemma NextToPass<C>(w: World<C>, w1: World<C>, next: Program<C>, disk: Disk<C>)
    requires Safe(w) && CanHaveSubtasks(Top(w).kind) && Plain(next, Top(w).kind) && !w.skipStages
    requires Kept(w, w1, Finished) && Open(w1) && Grown(disk, w1.log, w1.store.heads, Top(w1).order)
    ensures ReadyToPass(next, w1, disk) && Top(w1).path == Top(w).path && Top(w1).kind == Top(w).kind
  {
    hide WellFramed, SafeDisk, Increasing, AllBefore, Immutable, Later, Grown;
  }

  /** What running `p` comes to. */
  ghost predicate Passed<C>(p: Program<C>, w: World<C>, disk: Disk<C>)
    requires Open(w)
  {
    var (w', r) := Run(p, w);
    && (r.Finished? || ReloadError(r)) && (r.Finished? <==> Passable(p, Top(w).path, Top(w).order, disk))
    && (r.Finished? ==> Ran(p, w, w', disk))
  }

  lemma RanBlock<C>(skip: bool, body: Program<C>, next: Program<C>, w: World<C>, w1: World<C>, w2: World<C>,
                    disk: Disk<C>)
    requires Open(w) && Open(w1) && Open(w2) && Top(w1).path == Top(w).path && w1.log <= w2.log
    requires Ran(body, w, w1, disk) && Ran(next, w1, w2, disk)
    ensures Ran(Scope(skip, body, next), w, w2, disk)
  {
    hide Grown, Recorded, NewNames, TaskRecorded;
    AdvanceAdds(Top(w).order, Width(body), Width(next));
    assert w2.log == w1.log + w2.log[|w1.log|..];
    RecordedStays(body, Top(w).path, Top(w).order, w1.log, w2.log[|w1.log|..]);
    NewNamesTransitive(w, w1, w2,
                       Steps(body, Top(w).path, Top(w).order), Steps(next, Top(w).path, Top(w1).order));
  }

  lemma ScopePasses<C>(skip: bool, body: Program<C>, next: Program<C>, w: World<C>, disk: Disk<C>)
    requires ReadyToPass(Scope(skip, body, next), w, disk)
    ensures Open(w) && Passed(Scope(skip, body, next), w, disk)
    decreases Scope(skip, body, next), 0
  {
    hide WellFramed, SafeDisk, Increasing, AllBefore, Immutable, Advanced, Clean, Earlier, Grown, Run, Advance,
         AllRecorded, Steps, NewNames, Width;
    assert w.(skipStages := skip) == w;
    RunPassable(body, w, disk);
    RunSafe(body, w);
    var (w1, r1) := Run(body, w);
    RunScope(skip, body, next, w);
    if r1.Finished? {
      assert w1.(skipStages := w.skipStages) == w1;
      NextToPass(w, w1, next, disk);
      RunPassable(next, w1, disk);
      RunSafe(next, w1);
      if Run(next, w1).1.Finished? { RanBlock(skip, body, next, w, w1, Run(next, w1).0, disk); }
    }
  }

  lemma RanCall<C>(key: Key, kind: Kind, body: Program<C>, next: Program<C>, w: World<C>, w1: World<C>, w2: World<C>,
                   disk: Disk<C>)
    requires Open(w) && Open(w1) && Open(w2) && Top(w1).path == Top(w).path && w1.log <= w2.log
    requires TaskRan(key, kind, body, w, w1, disk) && Ran(next, w1, w2, disk)
    ensures Ran(Call(key, kind, body, next), w, w2, disk)
  {
    hide Grown, Recorded, NewNames, StepsOfTask, TextOf;
    AdvanceAdds(Top(w).order, 1, Width(next));
    assert w2.log == w1.log + w2.log[|w1.log|..];
    RecordedLater(w1.log, w2.log[|w1.log|..], TextOf(CoordinatesOf(w, key, kind)));
    if kind.Stage? { RecordedStays(body, Top(w).path + [key], Top(w).order + [0], w1.log, w2.log[|w1.log|..]); }
    NewNamesTransitive(w, w1, w2,
                       StepsOfTask(key, kind, body, Top(w).path, Top(w).order), Steps(next, Top(w).path, Top(w1).order));
    assert TaskRecorded(key, kind, body, Top(w).path, Top(w).order, w2.log);
    assert AllRecorded(Call(key, kind, body, next), Top(w).path, Top(w).order, w2.log);
    assert NewNames(w, w2, Steps(Call(key, kind, body, next), Top(w).path, Top(w).order));
    assert Top(w2).order == Advance(Top(w).order, Width(Call(key, kind, body, next)));
  }

  lemma CallThenPasses<C>(key: Key, kind: Kind, body: Program<C>, next: Program<C>, w: World<C>, disk: Disk<C>)
    requires ReadyToPass(Call(key, kind, body, next), w, disk)
    ensures Open(w) && Passed(Call(key, kind, body, next), w, disk)
    decreases Call(key, kind, body, next), 0
  {
    hide WellFramed, SafeDisk, Increasing, AllBefore, Immutable, Advanced, Clean, Earlier, Grown, Run, Advance,
         AllRecorded, Steps, NewNames, Width,
         Execute, Passes, TaskRecorded, TextOf;
    CallPasses(key, kind, body, next, w, disk);
    ExecuteSafe(key, kind, body, w);
    var (w1, r1) := Execute(key, kind, body, w);
    RunCall(key, kind, body, next, w);
    if r1.Finished? {
      NextToPass(w, w1, next, disk);
      RunPassable(next, w1, disk);
      RunSafe(next, w1);
      if Run(next, w1).1.Finished? { RanCall(key, kind, body, next, w, w1, Run(next, w1).0, disk); }
    }
  }

  /** Without interruptions, handlers and skipped stages, running a program finishes exactly if
      it can pass over what was on disk; otherwise reading a row back is what fails. */
  lemma {:induction false} RunPassable<C>(p: Program<C>, w: World<C>, disk: Disk<C>)
    requires ReadyToPass(p, w, disk)
    ensures Open(w) && Passed(p, w, disk)
    decreases p, 1
  {
    hide WellFramed, SafeDisk, Increasing, AllBefore, Clean, Earlier, Grown, Execute;
    match p
    case End => AdvanceAdds(Top(w).order, 0, 0);
    case Write(_, _) => assert false;
    case Scope(skip, body, next) => ScopePasses(skip, body, next, w, disk);
    case Call(key, kind, body, next) => CallThenPasses(key, kind, body, next, w, disk);
  }

  // ------------------------------------------------------------------------------ sessions

  lemma FreshToPass<C>(p: Program<C>, disk: Disk<C>, env: Env)
    requires SafeDisk(disk.log, disk.heads) && Plain(p, None)
    ensures ReadyToPass(p, Fresh(disk, env), disk)
  {
    hide Plain;
    FreshIsSafe(disk, env);
  }

  /** Over any safe disk, whoever left it: an uninterrupted program finishes if and only if
      the marks of the last process can be read back, every row of its tasks can, those of its
      steps lead to a branch, and the names of its steps can be read. */
  lemma FinishesIfPassable<C>(p: Program<C>, disk: Disk<C>, env: Env)
    requires SafeDisk(disk.log, disk.heads) && Plain(p, None)
    ensures var (w, r) := Session(p, disk, env);
            && (r.Finished? <==> CanOpen(disk.marked) && Passable(p, [], [0], disk))
            && (!r.Finished? ==> ReloadError(r))
  {
    hide SafeDisk, Run, Passable, ReadyToPass, CanOpen;
    FreshToPass(p, disk, env);
    RunPassable(p, Fresh(disk, env), disk);
  }

  ghost predicate Readable<C>(steps: seq<Planned<C>>) {
    forall s <- steps :: Reload(TextOf(s.coordinates)).Some?
  }

  lemma ReadableAppend<C>(a: seq<Planned<C>>, b: seq<Planned<C>>)
    ensures Readable(a + b) <==> Readable(a) && Readable(b)
  {
    hide TextOf, Reload;
    assert forall s <- a :: s in a + b;
    assert forall s <- b :: s in a + b;
  }

  /** A program that can pass plans steps with readable names; over an empty log nothing more
      is needed. */
  lemma {:induction false} PassableReads<C>(p: Program<C>, path: seq<Key>, order: seq<int>, disk: Disk<C>)
    requires order != []
    ensures Passable(p, path, order, disk) ==> Readable(Steps(p, path, order))
    ensures disk.log == [] && Readable(Steps(p, path, order)) ==> Passable(p, path, order, disk)
  {
    hide TextOf, Reload, Advance, Bump, Readable;
    match p
    case End => NothingPlanned<C>();
    case Struck(_) => NothingPlanned<C>();
    case Write(_, next) => PassableReads(next, path, order, disk);
    case Raise(_, next) => PassableReads(next, path, order, disk);
    case Scope(_, body, next) =>
      PassableReads(body, path, order, disk);
      PassableReads(next, path, Advance(order, Width(body)), disk);
      ReadableAppend(Steps(body, path, order), Steps(next, path, Advance(order, Width(body))));
    case Try(body, next) =>
      PassableReads(body, path, order, disk);
      PassableReads(next, path, Advance(order, Width(body)), disk);
      ReadableAppend(Steps(body, path, order), Steps(next, path, Advance(order, Width(body))));
    case Call(key, kind, body, next) =>
      if kind.Stage? {
        PassableReads(body, path + [key], order + [0], disk);
      } else {
        OneStepReads(Coordinates(path + [key], order, Step), Writes(body));
      }
      PassableReads(next, path, Bump(order), disk);
      ReadableAppend(StepsOfTask(key, kind, body, path, order), Steps(next, path, Bump(order)));
  }

  lemma NothingPlanned<C>()
    ensures Readable<C>([])
  {
  }

  lemma OneStepReads<C>(c: Coordinates, writes: seq<C -> C>)
    requires c.kind.Step?
    ensures Readable([Planned(c, writes)]) <==> !CannotCommit(c)
  {
    hide TextOf, Reload;
    assert [Planned(c, writes)][0] == Planned(c, writes);
  }

  /** The name of a step reads back as itself, and that of a stage as any. */
  ghost predicate GoodName(c: Coordinates) {
    if c.kind.Step? then Stable(TextOf(c)) else Reload(TextOf(c)).Some?
  }

  ghost predicate GoodNames<C>(p: Program<C>, path: seq<Key>, order: seq<int>)
    requires order != []
  {
    match p
    case End => true
    case Struck(_) => true
    case Write(_, next) => GoodNames(next, path, order)
    case Raise(_, next) => GoodNames(next, path, order)
    case Scope(_, body, next) => GoodNames(body, path, order) && GoodNames(next, path, Advance(order, Width(body)))
    case Try(body, next) => GoodNames(body, path, order) && GoodNames(next, path, Advance(order, Width(body)))
    case Call(key, kind, body, next) =>
      && GoodName(Coordinates(path + [key], order, kind))
      && (kind.Stage? ==> GoodNames(body, path + [key], order + [0]))
      && GoodNames(next, path, Bump(order))
  }

  /** A disk with branches for `main` and steps of the plan only. */
  ghost predicate OnlyPlanned<C>(disk: Disk<C>, plan: seq<Planned<C>>) {
    && SafeDisk(disk.log, disk.heads) && WellPlanned(plan)
    && forall b <- disk.heads :: b == None || exists s <- plan :: b == Some(TextOf(s.coordinates))
  }

  ghost predicate PartOf<C>(steps: seq<Planned<C>>, plan: seq<Planned<C>>) {
    forall s <- steps :: s in plan
  }

  lemma SameOrderSameStep<C>(plan: seq<Planned<C>>, a: Planned<C>, b: Planned<C>)
    requires WellPlanned(plan) && a in plan && b in plan && a.coordinates.order == b.coordinates.order
    ensures a == b
  {
    var i :| 0 <= i < |plan| && plan[i] == a;
    var j :| 0 <= j < |plan| && plan[j] == b;
    if i != j {
      var (x, y) := if i < j then (i, j) else (j, i);
      assert Before(plan[x].coordinates.order, plan[y].coordinates.order);
      BeforeIrreflexive(a.coordinates.order);
    }
  }

  /** A recorded task that passes has a good name. */
  lemma PassesThenGood<C>(disk: Disk<C>, plan: seq<Planned<C>>, c: Coordinates)
    requires OnlyPlanned(disk, plan) && Passes(disk, c) && Recorded(disk.log, TextOf(c))
    requires c.kind.Step? ==> exists s <- plan :: s.coordinates == c
    ensures GoodName(c)
  {
    hide SafeDisk, WellPlanned, TextOf;
    var r :| r in disk.log && r.text == TextOf(c);
    if c.kind.Step? {
      var t := TextOf(Load(r).value.coordinates);
      var s :| s in plan && Some(t) == Some(TextOf(s.coordinates));
      var own :| own in plan && own.coordinates == c;
      SameOrderSameStep(plan, s, own);
    }
  }

  lemma GoodThenPasses<C>(disk: Disk<C>, plan: seq<Planned<C>>, c: Coordinates)
    requires OnlyPlanned(disk, plan) && forall s <- plan :: Stable(TextOf(s.coordinates))
    requires GoodName(c)
    ensures Passes(disk, c)
  {
    hide AtMostOnce, WellPlanned, TextOf;
    forall r | r in disk.log && r.text == TextOf(c)
      ensures Load(r).Some? && (c.kind.Step? ==> SkippedTo(Load(r).value) in disk.heads)
    {
      assert RecordSafe(r, disk.heads);
      if r.latest.Some? { var s :| s in plan && r.latest == Some(TextOf(s.coordinates)); }
    }
  }

  lemma {:induction false} PassableThenGood<C>(p: Program<C>, path: seq<Key>, order: seq<int>, disk: Disk<C>,
                                               plan: seq<Planned<C>>)
    requires order != [] && OnlyPlanned(disk, plan) && PartOf(Steps(p, path, order), plan)
    requires AllRecorded(p, path, order, disk.log) && Passable(p, path, order, disk)
    ensures GoodNames(p, path, order)
  {
    hide OnlyPlanned, Passes, TextOf, Reload, Stable, Recorded, Advance, Bump;
    match p
    case End =>
    case Struck(_) =>
    case Write(_, next) => PassableThenGood(next, path, order, disk, plan);
    case Raise(_, next) => PassableThenGood(next, path, order, disk, plan);
    case Scope(_, body, next) =>
      PassableThenGood(body, path, order, disk, plan);
      PassableThenGood(next, path, Advance(order, Width(body)), disk, plan);
    case Try(body, next) =>
      PassableThenGood(body, path, order, disk, plan);
      PassableThenGood(next, path, Advance(order, Width(body)), disk, plan);
    case Call(key, kind, body, next) =>
      var c := Coordinates(path + [key], order, kind);
      if kind.Step? { assert StepsOfTask(key, kind, body, path, order)[0] in Steps(p, path, order); }
      PassesThenGood(disk, plan, c);
      if kind.Stage? { PassableThenGood(body, path + [key], order + [0], disk, plan); }
      PassableThenGood(next, path, Bump(order), disk, plan);
  }

  lemma {:induction false} GoodThenPassable<C>(p: Program<C>, path: seq<Key>, order: seq<int>, disk: Disk<C>,
                                               plan: seq<Planned<C>>)
    requires order != [] && OnlyPlanned(disk, plan) && forall s <- plan :: Stable(TextOf(s.coordinates))
    requires GoodNames(p, path, order)
    ensures Passable(p, path, order, disk)
  {
    hide OnlyPlanned, Passes, TextOf, Reload, Stable, Advance, Bump;
    match p
    case End =>
    case Struck(_) =>
    case Write(_, next) => GoodThenPassable(next, path, order, disk, plan);
    case Raise(_, next) => GoodThenPassable(next, path, order, disk, plan);
    case Scope(_, body, next) =>
      GoodThenPassable(body, path, order, disk, plan);
      GoodThenPassable(next, path, Advance(order, Width(body)), disk, plan);
    case Try(body, next) =>
      GoodThenPassable(body, path, order, disk, plan);
      GoodThenPassable(next, path, Advance(order, Width(body)), disk, plan);
    case Call(key, kind, body, next) =>
      GoodThenPasses(disk, plan, Coordinates(path + [key], order, kind));
      if kind.Stage? { GoodThenPassable(body, path + [key], order + [0], disk, plan); }
      GoodThenPassable(next, path, Bump(order), disk, plan);
  }

  lemma {:induction false} GoodSteps<C>(p: Program<C>, path: seq<Key>, order: seq<int>)
    requires order != [] && GoodNames(p, path, order)
    ensures forall s <- Steps(p, path, order) :: Stable(TextOf(s.coordinates))
  {
    hide TextOf, Reload, Stable, Advance, Bump;
    match p
    case End =>
    case Struck(_) =>
    case Write(_, next) => GoodSteps(next, path, order);
    case Raise(_, next) => GoodSteps(next, path, order);
    case Scope(_, body, next) =>
      GoodSteps(body, path, order);
      GoodSteps(next, path, Advance(order, Width(body)));
    case Try(body, next) =>
      GoodSteps(body, path, order);
      GoodSteps(next, path, Advance(order, Width(body)));
    case Call(key, kind, body, next) =>
      if kind.Stage? { GoodSteps(body, path + [key], order + [0]); }
      GoodSteps(next, path, Bump(order));
  }

  /** The first run of an uninterrupted program finishes if and only if the names of its steps
      can be read - which their commits do - and then leaves every task recorded. */
  lemma FirstRun<C>(p: Program<C>, env: Env, main: C)
    requires Plain(p, None)
    ensures var (w, r) := Session(p, FirstDisk(main), env);
            && (r.Finished? <==> Readable(Plan(p))) && (!r.Finished? ==> ReloadError(r))
            && (r.Finished? ==>
                  && AllRecorded(p, [], [0], w.log) && OnlyPlanned(DiskAfter(FirstDisk(main), w), Plan(p))
                  && CanOpen(Names(w.invoked)))
  {
    hide SafeDisk, Run, Passable, ReadyToPass, AllRecorded, Steps, TextOf, WellPlanned, Readable, Reload, NewNames,
         Grown;
    var start := FirstDisk(main);
    FirstDiskIsSafe(main);
    FreshToPass(p, start, env);
    RunPassable(p, Fresh(start, env), start);
    PassableReads(p, [], [0], start);
    SessionIsSafe(p, start, env);
    FollowsOwnPlan(p);
    var (w, r) := Session(p, start, env);
    if r.Finished? { OnlyPlannedAfter(start, Fresh(start, env), w, Plan(p)); }
  }

  lemma OnlyPlannedAfter<C>(start: Disk<C>, w0: World<C>, w: World<C>, plan: seq<Planned<C>>)
    requires w0.invoked == [] && w0.store.heads.Keys == {None} && start.marked == [] && NewNames(w0, w, plan)
    requires SafeDisk(w.log, w.store.heads) && WellPlanned(plan) && Readable(plan)
    ensures OnlyPlanned(DiskAfter(start, w), plan) && CanOpen(Names(w.invoked))
  {
    hide SafeDisk, WellPlanned, TextOf, Reload;
    forall t | t in Names(w.invoked) ensures Reload(t).Some? {
      var i :| 0 <= i < |w.invoked| && Names(w.invoked)[i] == t;
      assert w.invoked[i] in w.invoked;
    }
  }

  /** An uninterrupted program can be run twice if and only if the names of its steps read back
      as themselves and those of its stages can be read at all. */
  lemma RerunNeedsGoodNames<C>(p: Program<C>, env: Env, env': Env, main: C)
    requires Plain(p, None)
    ensures var disk := After([Attempt(p, env)], FirstDisk(main));
            var (w, r) := Session(p, disk, env');
            (r.Finished? <==> GoodNames(p, [], [0])) && (!r.Finished? ==> ReloadError(r))
  {
    hide Run, Passable, AllRecorded, Steps, TextOf, GoodNames, OnlyPlanned, Stable, AtMostOnce, RecordSafe, Plain,
         Readable,
         CanOpen, Session;
    var (history, start) := ([Attempt(p, env)], FirstDisk(main));
    assert history[..0] == [] && After<C>([], start) == start;
    FirstRun(p, env, main);
    FirstDiskIsSafe(main);
    SessionIsSafe(p, start, env);
    var disk := After(history, start);
    FinishesIfPassable(p, disk, env');
    PassableReads(p, [], [0], disk);
    if Passable(p, [], [0], disk) { PassableThenGood(p, [], [0], disk, Plan(p)); }
    if GoodNames(p, [], [0]) {
      GoodSteps(p, [], [0]);
      StableReads(Plan(p));
      assert CanOpen(start.marked) by { NothingMarked(main); }
      GoodThenPassable(p, [], [0], disk, Plan(p));
    }
  }

  lemma NothingMarked<C>(main: C)
    ensures CanOpen(FirstDisk(main).marked)
  {
  }

  lemma StableReads<C>(plan: seq<Planned<C>>)
    requires forall s <- plan :: Stable(TextOf(s.coordinates))
    ensures Readable(plan)
  {
    hide TextOf, Reload;
  }

  /** Once a process has marked a step whose name cannot be read, no context is ever opened
      again: later sessions of whatever programs do nothing. */
  lemma {:induction false} StaysClosed<C>(history: seq<Attempt<C>>, more: seq<Attempt<C>>, start: Disk<C>)
    requires None in start.heads && !CanOpen(After(history, start).marked)
    ensures After(history + more, start) == After(history, start)
    decreases |more|
  {
    hide CanOpen, Run;
    if more == [] {
      assert history + more == history;
    } else {
      var all := history + more;
      assert all[..|all| - 1] == history + more[..|more| - 1];
      StaysClosed(history, more[..|more| - 1], start);
    }
  }

  // ----------------------------------------------------------------------- counterexamples

  /** The top-level key `01` is a legal one. The step runs, and its rerun fails: the row says
      `STEP:01@0`, and what is read from it names the branch of `STEP:1@0`. */
  lemma LeadingZero<C>(f: C -> C, env: Env, env': Env, main: C)
    ensures var p := OneStep("01", f, End);
            && Session(p, FirstDisk(main), env).1.Finished?
            && ReloadError(Session(p, After([Attempt(p, env)], FirstDisk(main)), env').1)
  {
    hide Run, Stable, TextOf, Reload;
    var p := OneStep("01", f, End);
    assert Plain(p, None) by { OneStepIsPlain("01", f); }
    FirstRun(p, env, main);
    RerunNeedsGoodNames(p, env, env', main);
    var c := Coordinates([Name("01")], [0], Step);
    assert [] + [Name("01")] == [Name("01")];
    assert !Stable(TextOf(c)) by { UnusualInteger(c); }
    OneStepPlan("01", f, End);
    assert Plan(p)[0].coordinates == c;
    OneKeyPath("01", [0]);
  }

  lemma OneStepIsPlain<C>(key: string, f: C -> C)
    ensures Plain(OneStep(key, f, End), None)
  {
    var body := Program.Write(f, End);
    assert Uninterrupted(body, Some(Step)) && SkipsNoStage(body);
  }

  lemma UnusualInteger(c: Coordinates)
    requires c == Coordinates([Name("01")], [0], Step)
    ensures !Stable(TextOf(c))
  {
    hide Stable, TextOf, ParseInt, ShowInt;
    StableByKeys(c);
    assert c.path[0] == Name("01") && c.path[0] in c.path;
    SplitAppend("01", "", '/');
    assert "01" in Split("01", '/');
    ReadZeroOne();
  }

  lemma ReadZeroOne()
    ensures ParseInt("01") == Some(1) && ShowInt(1) != "01"
  {
    var s := "01";
    assert Strip(s) == s;
    assert s[..1] == "0" && s[1] == '1';
    assert ParseDigits("0") == Some(0);
    assert ParseDigits(s) == Some(1);
    assert ShowNat(1) == ['1'] && |ShowInt(1)| == 1;
  }
}
