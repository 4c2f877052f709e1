/** What one session of the task executor does, as a function over its state
    (thinking_executor/executor.py, thinking_executor_data/common/consistency.py). */
module TaskSemantics {
  import opened Prelude
  import opened ExecutorModel
  import opened TaskNames
  import opened BranchStore

  datatype Exn =
    | Failure | Interrupt | ToBeContinued          // raised by task bodies
    | NotAllowed | InconsistentLog | WritingDisabled   // raised by guards and the lookup
    | Unreadable                                   // a text that cannot be parsed
    | StoreFailure | BranchMissing | AlreadyWriting | UnmanagedWrites   // raised by callbacks
    | Kill                                         // the process dies; nothing is caught

  /** What can interrupt a body between two of its calls. */
  type Cause = e: Exn | e.Failure? || e.Interrupt? || e.ToBeContinued? || e.Kill? witness Failure

  /** What can strike a task after its log insertion and before its commit. */
  type Strike = e: Exn | e.Interrupt? || e.Kill? witness Kill

  /** How a call, a body or a session ends. `Swallowed` is the end of a top-level task that is
      to be continued, and of a session that went on after one. `Late` is the end of a body
      whose task will be struck once it is logged. */
  datatype Outcome = Finished | Swallowed | Late(cause: Strike) | Raised(exn: Exn)

  /** The process is gone: no handler, no `finally`. */
  predicate Killed(r: Outcome) {
    r == Raised(Kill)
  }

  /** The end of a block is not the end of the task: whatever strikes there strikes before the
      task is logged. */
  function OfBlock(r: Outcome): Outcome {
    if r.Late? then Raised(r.cause) else r
  }

  /** A task body, or the top level of a session, as the calls it makes in order.

      `Scope` is a `with executor.skip_executed_stages(skip)` block and `Try` a handler that
      carries on after anything but the death of the process. A body that ends in `Struck` is
      interrupted or killed right after its task was logged, before the finish callbacks. */
  datatype Program<!C> =
    | End
    | Struck(cause: Strike)
    | Write(f: C -> C, next: Program<C>)
    | Call(key: Key, kind: Kind, body: Program<C>, next: Program<C>)
    | Scope(skip: bool, body: Program<C>, next: Program<C>)
    | Try(body: Program<C>, next: Program<C>)
    | Raise(exn: Cause, next: Program<C>)

  /** A row of the log table, which holds texts. */
  datatype Record = Record(text: Text, finish: int, latest: Option<Text>)

  /** The same row as the executor gets it. */
  datatype Loaded = Loaded(coordinates: Coordinates, finish: int, latest: Option<Coordinates>)

  datatype Frame = Frame(path: seq<Key>, order: seq<int>, kind: Option<Kind>)

  datatype Access = RO | RW

  /** What a session finds in its process: the clock read at the n-th log insertion and
      whether `UnmanagedWritesWarning` is configured to be an error. */
  datatype Env = Env(clock: nat -> int, strict: bool)

  /** `invoked` are the steps marked as invoked. `submitted` and `lost` only keep track: of the
      tasks submitted, and of the steps that were logged but not committed. */
  datatype World<C> = World(
    log: seq<Record>,
    store: Store<C>,
    stack: seq<Frame>,
    latest: Option<Coordinates>,
    skipStages: bool,
    access: Access,
    submitted: seq<Coordinates>,
    invoked: seq<Coordinates>,
    lost: seq<Text>,
    env: Env)

  predicate Open<C>(w: World<C>) {
    w.stack != [] && (forall f <- w.stack :: f.order != []) && Connected(w.store)
  }

  function Top<C>(w: World<C>): Frame
    requires w.stack != []
  {
    w.stack[|w.stack| - 1]
  }

  /** `stack[-1].next_subtask_order[-1] += 1` */
  function BumpTop<C>(w: World<C>): (r: World<C>)
    requires Open(w)
    ensures Open(r)
  {
    var top := Top(w);
    w.(stack := w.stack[..|w.stack| - 1] + [top.(order := Bump(top.order))])
  }

  // ---------------------------------------------------------------- the execution log

  datatype Lookup = Missing | Found(record: Loaded) | Illegible | Inconsistent

  /** The rows with a text. */
  function RecordsOf(log: seq<Record>, t: Text): (r: seq<Record>) {
    if log == [] then []
    else RecordsOf(log[..|log| - 1], t) +
         (if log[|log| - 1].text == t then [log[|log| - 1]] else [])
  }

  /** First element of a stable descending sort by `finish`. */
  function Newest(records: seq<Record>): (r: Record)
    requires records != []
  {
    var last := records[|records| - 1];
    if |records| == 1 then last
    else
      var best := Newest(records[..|records| - 1]);
      if last.finish > best.finish then last else best
  }

  /** A row deserialised; None when its texts cannot be parsed. */
  function Load(r: Record): (l: Option<Loaded>)
    ensures l.Some? ==> l.value.coordinates.kind == r.text.kind && l.value.coordinates.order == r.text.order
    ensures l.Some? ==> l.value.finish == r.finish && (l.value.latest.Some? <==> r.latest.Some?)
  {
    var c := Reload(r.text);
    if c.None? then None
    else if r.latest.None? then Some(Loaded(c.value, r.finish, None))
    else
      var latest := Reload(r.latest.value);
      if latest.None? then None else Some(Loaded(c.value, r.finish, latest))
  }

  /** Every row found is deserialised before anything is made of them. */
  function FindLog(log: seq<Record>, c: Coordinates): Lookup {
    var found := RecordsOf(log, TextOf(c));
    if exists r <- found :: Load(r).None? then Illegible
    else if |found| >= 2 && c.kind.Step? then Inconsistent
    else if found == [] then Missing
    else
      NewestIsFound(found);
      Found(Load(Newest(found)).value)
  }

  lemma {:induction false} NewestIsFound(records: seq<Record>)
    requires records != []
    ensures Newest(records) in records
  {
    if |records| > 1 { NewestIsFound(records[..|records| - 1]); }
  }

  function MarkFinished<C>(w: World<C>, c: Coordinates): (r: World<C>)
    requires Open(w)
    ensures Open(r)
  {
    w.(log := w.log + [Record(TextOf(c), w.env.clock(|w.log|), NameOf(w.latest))])
  }

  /** A task that gets no further than its log insertion. */
  function Lose<C>(w: World<C>, c: Coordinates): (r: World<C>)
    requires Open(w)
    ensures Open(r)
  {
    w.(lost := w.lost + if c.kind.Step? then [TextOf(c)] else [])
  }

  // ------------------------------------------------- the consistent-versioning callback

  /** ensure_empty_branch, checkout, allow_writing; then the session notes the step. */
  function OnInvoked<C>(w: World<C>, c: Coordinates): (r: (World<C>, Outcome))
    requires Open(w)
    ensures Open(r.0) && r.0.stack == w.stack
    ensures r.1 in {Finished, Raised(StoreFailure), Raised(AlreadyWriting)}
  {
    if c.kind.Stage? then (w, Finished)
    else
      match EnsureEmptyBranch(w.store, TextOf(c))
      case None => (w, Raised(StoreFailure))
      case Some(empty) =>
        match Checkout(empty, Some(TextOf(c)))
        case None => (w.(store := empty), Raised(StoreFailure))
        case Some(s) =>
          if w.access == RW then (w.(store := s), Raised(AlreadyWriting))
          else (w.(store := s, access := RW, invoked := w.invoked + [c]), Finished)
  }

  function OnFinished<C>(w: World<C>, c: Coordinates, success: bool): (r: (World<C>, Outcome))
    requires Open(w)
    ensures Open(r.0) && r.0.stack == w.stack
    ensures r.1 in {Finished, Raised(UnmanagedWrites), Raised(Unreadable)}
  {
    if c.kind.Step? && success then
      match Commit(w.store)
      case None => (w, Raised(Unreadable))
      case Some(s) => (w.(store := s, access := RO), Finished)
    else if c.kind.Step? then
      (w.(store := Rollback(w.store), access := RO), Finished)
    else if w.store.dirty && w.env.strict then
      (w.(store := Rollback(w.store)), Raised(UnmanagedWrites))
    else
      (w, Finished)
  }

  /** The branch of a skipped step, or of the latest step of a skipped stage. */
  function SkippedTo(record: Loaded): Branch {
    if record.coordinates.kind.Step? then Some(TextOf(record.coordinates)) else NameOf(record.latest)
  }

  function OnSkipped<C>(w: World<C>, record: Loaded): (r: (World<C>, Outcome))
    requires Open(w)
    ensures Open(r.0) && r.0.stack == w.stack
    ensures r.1 in {Finished, Raised(BranchMissing)}
  {
    match Checkout(w.store, SkippedTo(record))
    case None => (w, Raised(BranchMissing))
    case Some(s) => (w.(store := s), Finished)
  }

  // ------------------------------------------------------------------------ execution

  function Skip<C>(w: World<C>, record: Loaded): (r: (World<C>, Outcome))
    requires Open(w)
    ensures Open(r.0) && |r.0.stack| == |w.stack| && !Killed(r.1)
  {
    OnSkipped(BumpTop(w), record)
  }

  /** The `finally` block: count the task in the parent frame, drop its own frame. */
  function Leave<C>(w: World<C>): (r: World<C>)
    requires Open(w) && |w.stack| >= 2
    ensures Open(r) && |r.stack| == |w.stack| - 1
  {
    BumpTop(w.(stack := w.stack[..|w.stack| - 1]))
  }

  /** The exception handler. It swallows a to-be-continued outcome of a top-level task. */
  function Handle<C>(w: World<C>, c: Coordinates, e: Exn): (r: (World<C>, Outcome))
    requires Open(w) && !Killed(Raised(e))
    ensures Open(r.0) && r.0.stack == w.stack && !r.1.Finished? && !Killed(r.1)
  {
    var (w1, r1) := OnFinished(w, c, false);
    if r1.Raised? then (w1, r1)
    else if |c.path| <= 1 && e.ToBeContinued? then (w1, Swallowed)
    else (w1, Raised(e))
  }

  /** What follows a body that ended with `r`: log insertion, finish callbacks, handler. */
  function Conclude<C>(w: World<C>, c: Coordinates, r: Outcome): (out: (World<C>, Outcome))
    requires Open(w) && (!Killed(r) && r != Late(Kill) ==> |w.stack| >= 2)
    ensures Open(out.0) && !out.1.Late?
    ensures !Killed(out.1) ==> |out.0.stack| == |w.stack| - 1
  {
    if Killed(r) then (w, r)
    else if r == Late(Kill) then (Lose(MarkFinished(w, c), c), Raised(Kill))
    else
      var (w1, r1) :=
        if r.Raised? then Handle(w, c, r.exn)
        else if r.Late? then Handle(Lose(MarkFinished(w, c), c), c, r.cause)
        else
          var (done, r2) := OnFinished(MarkFinished(w, c), c, true);
          if r2.Raised? then Handle(Lose(done, c), c, r2.exn) else (done, Finished);
      (Leave(w1), r1)
  }

  /** The frame and the callbacks of an invocation. */
  function Enter<C>(w: World<C>, c: Coordinates): (r: (World<C>, Outcome))
    requires Open(w)
    ensures Open(r.0) && |r.0.stack| == |w.stack| + 1 && !Killed(r.1)
  {
    OnInvoked(w.(stack := w.stack + [Frame(c.path, c.order + [0], Some(c.kind))]), c)
  }

  function RunTask<C>(c: Coordinates, body: Program<C>, w: World<C>): (out: (World<C>, Outcome))
    requires Open(w)
    ensures Open(out.0)
    ensures !Killed(out.1) ==> |out.0.stack| == |w.stack|
    ensures !out.1.Late?
    decreases body, 1
  {
    var (w1, r1) := Enter(w, c);
    var (w2, r2) := if r1.Raised? then (w1, r1) else Run(body, w1);
    Conclude(w2, c, r2)
  }

  function CoordinatesOf<C>(w: World<C>, key: Key, kind: Kind): Coordinates
    requires Open(w)
  {
    Coordinates(Top(w).path + [key], Top(w).order, kind)
  }

  function Execute<C>(key: Key, kind: Kind, body: Program<C>, w: World<C>): (out: (World<C>, Outcome))
    requires Open(w)
    ensures Open(out.0)
    ensures !Killed(out.1) ==> |out.0.stack| == |w.stack|
    ensures !out.1.Late?
    decreases body, 2
  {
    if !CanHaveSubtasks(Top(w).kind) || (|w.stack| == 1 && key.Index?) then
      (w, Raised(NotAllowed))
    else
      var c := CoordinatesOf(w, key, kind);
      var w1 := w.(submitted := w.submitted + [c]);
      match FindLog(w1.log, c)
      case Illegible => (w1, Raised(Unreadable))
      case Inconsistent => (w1, Raised(InconsistentLog))
      case Missing =>
        var out := RunTask(c, body, w1);
        if kind.Step? then SetLatest(out, Some(c)) else out
      case Found(record) =>
        if kind.Step? then SetLatest(Skip(w1, record), Some(c))
        else if w1.skipStages then SetLatest(Skip(w1, record), record.latest)
        else RunTask(c, body, w1)
  }

  /** `self.latest_step = ...`, not reached by an exception. */
  function SetLatest<C>(out: (World<C>, Outcome), latest: Option<Coordinates>): (World<C>, Outcome) {
    if out.1.Raised? then out else (out.0.(latest := latest), out.1)
  }

  /** What follows something that ended with `r`: a session that went on after a swallowed
      task is marked. */
  function Then<C>(r: Outcome, out: (World<C>, Outcome)): (World<C>, Outcome) {
    if r.Swallowed? && !out.1.Raised? then (out.0, Swallowed) else out
  }

  function Run<C>(p: Program<C>, w: World<C>): (out: (World<C>, Outcome))
    requires Open(w)
    ensures Open(out.0)
    ensures !Killed(out.1) ==> |out.0.stack| == |w.stack|
    decreases p, 0
  {
    match p
    case End => (w, Finished)
    case Struck(cause) => (w, Late(cause))
    case Raise(exn, _) => (w, Raised(exn))
    case Write(f, next) =>
      if w.access == RO then (w, Raised(WritingDisabled))
      else Run(next, w.(store := BranchStore.Write(w.store, f)))
    case Scope(skip, body, next) =>
      var (w1, r1) := Run(body, w.(skipStages := skip));
      var r := OfBlock(r1);
      if Killed(r) then (w1, r)
      else
        var w2 := w1.(skipStages := w.skipStages);
        if r.Raised? then (w2, r) else Then(r, Run(next, w2))
    case Try(body, next) =>
      var (w1, r1) := Run(body, w);
      var r := OfBlock(r1);
      if Killed(r) then (w1, r) else Then(r, Run(next, w1))
    case Call(key, kind, body, next) =>
      var (w1, r) := Execute(key, kind, body, w);
      if r.Raised? then (w1, r) else Then(r, Run(next, w1))
  }

  // ------------------------------------------------------------------------- sessions

  /** What outlives the process: the log table, the branches, and the names of the steps that
      the last process which opened a context has marked as invoked. */
  datatype Disk<C> = Disk(log: seq<Record>, heads: map<Branch, C>, marked: seq<Text>)

  function FirstDisk<C>(main: C): Disk<C> {
    Disk([], map[None := main], [])
  }

  function Names(cs: seq<Coordinates>): (ts: seq<Text>)
    ensures |ts| == |cs| && forall i | 0 <= i < |cs| :: ts[i] == TextOf(cs[i])
  {
    seq(|cs|, i requires 0 <= i < |cs| => TextOf(cs[i]))
  }

  /** Opening a context reads back what was marked, before anything else. */
  predicate CanOpen(marked: seq<Text>) {
    forall t <- marked :: Reload(t).Some?
  }

  /** A new context: an empty root frame, `main` checked out, read-only. */
  function Fresh<C>(disk: Disk<C>, env: Env): (w: World<C>)
    requires None in disk.heads
    ensures Open(w)
  {
    World(disk.log, Store(disk.heads, None, disk.heads[None], false),
          [Frame([], [0], None)], None, false, RO, [], [], [], env)
  }

  /** A session whose context cannot be opened does nothing. */
  function Session<C>(p: Program<C>, disk: Disk<C>, env: Env): (out: (World<C>, Outcome))
    requires None in disk.heads
    ensures Open(out.0)
  {
    if CanOpen(disk.marked) then Run(p, Fresh(disk, env)) else (Fresh(disk, env), Raised(Unreadable))
  }

  /** The disk after a session over `disk` that ended in `w`. */
  function DiskAfter<C>(disk: Disk<C>, w: World<C>): Disk<C> {
    Disk(w.log, w.store.heads, if CanOpen(disk.marked) then Names(w.invoked) else disk.marked)
  }

  datatype Attempt<!C> = Attempt(program: Program<C>, env: Env)

  /** The disk after a history of sessions, oldest first. */
  ghost function After<C>(history: seq<Attempt<C>>, start: Disk<C>): (disk: Disk<C>)
    requires None in start.heads
    ensures None in disk.heads
    decreases |history|
  {
    if history == [] then start
    else
      var last := history[|history| - 1];
      var disk := After(history[..|history| - 1], start);
      DiskAfter(disk, Session(last.program, disk, last.env).0)
  }
}
