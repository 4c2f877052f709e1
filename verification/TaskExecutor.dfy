/** The task executor and its versioning callback as objects that update their fields in
    place; each method is proved to do what the functions of TaskSemantics say
    (thinking_executor/executor.py, thinking_executor_data/common/consistency.py). */
module TaskExecutor {
  import opened Prelude
  import opened ExecutorModel
  import opened TaskNames
  import opened BranchStore
  import opened TaskSemantics
  import opened ExecutorPlan
  import opened ExecutorCourse
  import opened ExecutorBook
  import opened ExecutorRecovery
  import opened ExecutorSafety
  import opened Versioning

  /** Bodies write one content per back end. */
  ghost predicate WritesFit<D(!new)>(p: Program<seq<D>>, n: nat) {
    match p
    case End => true
    case Struck(_) => true
    case Write(f, next) => (forall x: seq<D> | |x| == n :: |f(x)| == n) && WritesFit(next, n)
    case Call(_, _, body, next) => WritesFit(body, n) && WritesFit(next, n)
    case Scope(_, body, next) => WritesFit(body, n) && WritesFit(next, n)
    case Try(body, next) => WritesFit(body, n) && WritesFit(next, n)
    case Raise(_, next) => WritesFit(next, n)
  }

  class ConsistentDataVersioningCallback<D> {
    const versioning: VersioningManager<D>
    const writability: WritabilityManager
    const strict: bool

    constructor (v: VersioningManager<D>, w: WritabilityManager, s: bool)
      ensures versioning == v && writability == w && strict == s
    {
      versioning, writability, strict := v, w, s;
    }

    ghost function Objects(): set<object> {
      {writability} + versioning.Objects()
    }

    /** The objects hold the store and the access flag of `w`. */
    ghost predicate Mirrors(w: World<seq<D>>)
      reads Objects()
    {
      && versioning.Valid() && w.store == versioning.Content() && w.access == writability.access
      && w.env.strict == strict
    }

    method OnTaskInvoked(c: Coordinates, ghost w: World<seq<D>>) returns (r: Outcome)
      requires Open(w) && Mirrors(w)
      modifies Objects()
      ensures r == OnInvoked(w, c).1 && Mirrors(OnInvoked(w, c).0)
    {
      hide Joint, Lockstep, EnsureEmptyBranch, Checkout, TextOf;
      if c.kind.Stage? { return Finished; }
      var ok := versioning.EnsureEmpty(TextOf(c));
      if !ok { return Raised(StoreFailure); }
      ok := versioning.CheckOut(Some(TextOf(c)));
      if !ok { return Raised(StoreFailure); }
      ok := writability.AllowWriting();
      if !ok { return Raised(AlreadyWriting); }
      return Finished;
    }

    method OnTaskFinished(c: Coordinates, success: bool, ghost w: World<seq<D>>) returns (r: Outcome)
      requires Open(w) && Mirrors(w)
      modifies Objects()
      ensures r == OnFinished(w, c, success).1 && Mirrors(OnFinished(w, c, success).0)
    {
      hide Joint, Lockstep, Commit, Rollback;
      if c.kind.Step? {
        if success {
          var ok := versioning.CommitAll();
          if !ok { return Raised(Unreadable); }
        } else {
          versioning.Reset();
        }
        writability.DisallowWriting();
        return Finished;
      }
      var dirty := versioning.IsDirty();
      if dirty && strict {
        versioning.Reset();
        return Raised(UnmanagedWrites);
      }
      return Finished;
    }

    method OnTaskSkipped(record: Loaded, ghost w: World<seq<D>>) returns (r: Outcome)
      requires Open(w) && Mirrors(w)
      modifies Objects()
      ensures r == OnSkipped(w, record).1 && Mirrors(OnSkipped(w, record).0)
    {
      hide Joint, Lockstep, Checkout, TextOf;
      var ok := versioning.CheckOut(if record.coordinates.kind.Step? then Some(TextOf(record.coordinates)) else NameOf(record.latest));
      if !ok { return Raised(BranchMissing); }
      return Finished;
    }
  }

  /** What keeps track only is ghost. */
  class SimpleTaskExecutor<D(!new)> {
    const callback: ConsistentDataVersioningCallback<D>
    const clock: nat -> int
    var table: seq<Record>
    var stack: seq<Frame>
    var skipStages: bool
    var latestStep: Option<Coordinates>
    var invoked: seq<Coordinates>
    ghost var submitted: seq<Coordinates>
    ghost var lost: seq<Text>

    /** A new session over the log and the branches that earlier sessions left. */
    constructor (c: ConsistentDataVersioningCallback<D>, log: seq<Record>, now: nat -> int)
      ensures callback == c && clock == now
      ensures Resumable(c) ==>
                Valid() && forall marked :: State() == Fresh(Disk(log, c.versioning.Content().heads, marked), Env(now, c.strict))
    {
      callback, clock, table := c, now, log;
      stack, skipStages, latestStep := [Frame([], [0], None)], false, None;
      submitted, invoked, lost := [], [], [];
    }

    ghost predicate Valid()
      reads this, callback.Objects()
    {
      && this !in callback.Objects() && callback.versioning.Valid()
      && stack != [] && forall f <- stack :: f.order != []
    }

    ghost function State(): (w: World<seq<D>>)
      reads this, callback.Objects()
      requires Valid()
      ensures Open(w) && callback.Mirrors(w)
    {
      World(table, callback.versioning.Content(), stack, latestStep, skipStages, callback.writability.access,
            submitted, invoked, lost, Env(clock, callback.strict))
    }

    /** The search by text. */
    method Search(c: Coordinates) returns (found: seq<Record>)
      ensures found == RecordsOf(table, TextOf(c))
    {
      hide TextOf;
      found := [];
      for i := 0 to |table|
        invariant found == RecordsOf(table[..i], TextOf(c))
      {
        assert table[..i + 1][..i] == table[..i];
        if table[i].text == TextOf(c) { found := found + [table[i]]; }
      }
      assert table[..|table|] == table;
    }

    /** Every row found is read back, before anything is made of them. */
    method FindExecutionLog(c: Coordinates) returns (l: Lookup)
      ensures l == FindLog(table, c)
    {
      hide TextOf, Load, RecordsOf;
      var found := Search(c);
      var records: seq<Loaded> := [];
      for i := 0 to |found|
        invariant |records| == i && forall j | 0 <= j < i :: Load(found[j]) == Some(records[j])
      {
        var record := Load(found[i]);
        if record.None? {
          assert found[i] in found;
          return Illegible;
        }
        records := records + [record.value];
      }
      if |found| >= 2 && c.kind.Step? { return Inconsistent; }
      if found == [] { return Missing; }
      var best := records[0];
      for i := 1 to |found|
        invariant Load(Newest(found[..i])) == Some(best)
      {
        assert found[..i + 1][..i] == found[..i];
        if records[i].finish > best.finish { best := records[i]; }
      }
      assert found[..|found|] == found;
      return Found(best);
    }

    method RecordFinished(c: Coordinates)
      requires Valid()
      modifies this`table
      ensures Valid() && State() == MarkFinished(old(State()), c)
    {
      table := table + [Record(TextOf(c), clock(|table|), NameOf(latestStep))];
    }

    /** A logged task does not get to its commit. */
    ghost method NoteLost(c: Coordinates)
      requires Valid()
      modifies this`lost
      ensures Valid() && State() == Lose(old(State()), c)
    {
      lost := lost + if c.kind.Step? then [TextOf(c)] else [];
    }

    /** `self.stack[-1].next_subtask_order[-1] += 1` */
    method CountSubtask()
      requires Valid()
      modifies this`stack
      ensures Valid() && State() == BumpTop(old(State()))
    {
      var top := stack[|stack| - 1];
      stack := stack[..|stack| - 1] + [top.(order := Bump(top.order))];
    }

    method SkipTask(record: Loaded, latest: Option<Coordinates>) returns (r: Outcome)
      requires Valid()
      modifies this, callback.Objects()
      ensures Valid() && (State(), r) == SetLatest(Skip(old(State()), record), latest)
    {
      hide Checkout, Joint, Lockstep;
      CountSubtask();
      r := callback.OnTaskSkipped(record, State());
      if !r.Raised? { latestStep := latest; }
    }

    /** The `finally` block. */
    method LeaveFrame()
      requires Valid() && |stack| >= 2
      modifies this`stack
      ensures Valid() && State() == Leave(old(State()))
    {
      hide Joint, Lockstep;
      stack := stack[..|stack| - 1];
      CountSubtask();
    }

    method NotifyFinished(c: Coordinates, success: bool) returns (r: Outcome)
      requires Valid()
      modifies callback.Objects()
      ensures Valid() && (State(), r) == OnFinished(old(State()), c, success)
    {
      hide Joint, Lockstep, Commit, Rollback;
      r := callback.OnTaskFinished(c, success, State());
    }

    /** The exception handler. */
    method HandleException(c: Coordinates, e: Exn) returns (r: Outcome)
      requires Valid() && !Killed(Raised(e))
      modifies this, callback.Objects()
      ensures Valid() && (State(), r) == Handle(old(State()), c, e)
    {
      hide Joint, Lockstep, OnFinished;
      r := NotifyFinished(c, false);
      if r.Raised? { return r; }
      if |c.path| <= 1 && e.ToBeContinued? { return Swallowed; }
      return Raised(e);
    }

    /** The end of the `try` statement around a body that ended with `r`. */
    method ConcludeTask(c: Coordinates, r: Outcome) returns (out: Outcome)
      requires Valid() && (!Killed(r) && r != Late(Kill) ==> |stack| >= 2)
      modifies this, callback.Objects()
      ensures Valid() && (State(), out) == Conclude(old(State()), c, r)
    {
      hide Joint, Lockstep, MarkFinished, Lose, Handle, Leave, OnFinished;
      if Killed(r) { return r; }
      if r.Raised? {
        out := HandleException(c, r.exn);
      } else if r.Late? {
        RecordFinished(c);
        NoteLost(c);
        if r.cause.Kill? { return Raised(Kill); }
        out := HandleException(c, r.cause);
      } else {
        RecordFinished(c);
        out := NotifyFinished(c, true);
        if out.Raised? {
          NoteLost(c);
          out := HandleException(c, out.exn);
        }
      }
      LeaveFrame();
    }

    method EnterTask(c: Coordinates) returns (r: Outcome)
      requires Valid()
      modifies this, callback.Objects()
      ensures Valid() && (State(), r) == Enter(old(State()), c)
    {
      hide EnsureEmptyBranch, Checkout, Joint, Lockstep, TextOf, Connected;
      stack := stack + [Frame(c.path, c.order + [0], Some(c.kind))];
      assert Valid();
      r := callback.OnTaskInvoked(c, State());
      if r.Finished? && c.kind.Step? { invoked := invoked + [c]; }
    }

    method RunTask(c: Coordinates, body: Program<seq<D>>) returns (r: Outcome)
      requires Valid() && WritesFit(body, |callback.versioning.versionings|)
      modifies this, callback.Objects()
      ensures Valid() && (State(), r) == TaskSemantics.RunTask(c, body, old(State()))
      decreases body, 2
    {
      hide Conclude, Enter, Run, Joint, Lockstep;
      r := EnterTask(c);
      if !r.Raised? { r := RunBody(body); }
      r := ConcludeTask(c, r);
    }

    /** The lookup and what follows from it. */
    method ExecuteSubmitted(c: Coordinates, body: Program<seq<D>>) returns (r: Outcome)
      requires Valid() && WritesFit(body, |callback.versioning.versionings|)
      modifies this, callback.Objects()
      ensures Valid()
      ensures (State(), r) == match FindLog(old(State()).log, c)
                              case Illegible => (old(State()), Raised(Unreadable))
                              case Inconsistent => (old(State()), Raised(InconsistentLog))
                              case Missing =>
                                var out := TaskSemantics.RunTask(c, body, old(State()));
                                if c.kind.Step? then SetLatest(out, Some(c)) else out
                              case Found(record) =>
                                if c.kind.Step? then SetLatest(TaskSemantics.Skip(old(State()), record), Some(c))
                                else if old(skipStages) then SetLatest(TaskSemantics.Skip(old(State()), record), record.latest)
                                else TaskSemantics.RunTask(c, body, old(State()))
      decreases body, 3
    {
      hide TaskSemantics.RunTask, FindLog, TaskSemantics.Skip, WritesFit, Lockstep, Joint, Connected;
      var log := FindExecutionLog(c);
      if log.Illegible? { return Raised(Unreadable); }
      if log.Inconsistent? { return Raised(InconsistentLog); }
      if log.Found? && (c.kind.Step? || skipStages) {
        r := SkipTask(log.record, if c.kind.Step? then Some(c) else log.record.latest);
      } else {
        r := RunTask(c, body);
        if c.kind.Step? && !r.Raised? { latestStep := Some(c); }
      }
    }

    method Execute(key: Key, kind: Kind, body: Program<seq<D>>) returns (r: Outcome)
      requires Valid() && WritesFit(body, |callback.versioning.versionings|)
      modifies this, callback.Objects()
      ensures Valid() && (State(), r) == TaskSemantics.Execute(key, kind, body, old(State()))
      decreases body, 4
    {
      hide TaskSemantics.RunTask, FindLog, TaskSemantics.Skip, SetLatest, WritesFit, Lockstep, Joint, Connected, TextOf;
      var parent := stack[|stack| - 1];
      if !CanHaveSubtasks(parent.kind) || (|stack| == 1 && key.Index?) { return Raised(NotAllowed); }
      var c := Coordinates(parent.path + [key], parent.order, kind);
      submitted := submitted + [c];
      r := ExecuteSubmitted(c, body);
    }

    method WriteContent(f: seq<D> -> seq<D>)
      requires Valid() && forall x: seq<D> | |x| == |callback.versioning.versionings| :: |f(x)| == |callback.versioning.versionings|
      modifies callback.versioning.Objects()
      ensures Valid() && State() == old(State()).(store := BranchStore.Write(old(State()).store, f))
    {
      callback.versioning.Save(f);
    }

    /** The calls after something that ended with `r` and did not raise. */
    method RunRest(r: Outcome, next: Program<seq<D>>) returns (out: Outcome)
      requires Valid() && WritesFit(next, |callback.versioning.versionings|)
      modifies this, callback.Objects()
      ensures Valid() && (State(), out) == Then(r, Run(next, old(State())))
      decreases next, 2
    {
      hide Run, Joint, Lockstep;
      out := RunBody(next);
      if r.Swallowed? && !out.Raised? { out := Swallowed; }
    }

    /** StagesSkippingScope sets the flag when it is made and gives it back on exit. */
    method RunScope(skip: bool, body: Program<seq<D>>, next: Program<seq<D>>) returns (r: Outcome)
      requires Valid() && WritesFit(Scope(skip, body, next), |callback.versioning.versionings|)
      modifies this, callback.Objects()
      ensures Valid() && (State(), r) == Run(Scope(skip, body, next), old(State()))
      decreases Scope(skip, body, next), 0
    {
      hide TaskSemantics.Execute, Joint, Lockstep;
      var previous := skipStages;
      skipStages := skip;
      r := RunBody(body);
      r := OfBlock(r);
      if Killed(r) { return; }
      skipStages := previous;
      if !r.Raised? { r := RunRest(r, next); }
    }

    /** The calls of a body, in order. */
    method RunBody(p: Program<seq<D>>) returns (r: Outcome)
      requires Valid() && WritesFit(p, |callback.versioning.versionings|)
      modifies this, callback.Objects()
      ensures Valid() && (State(), r) == Run(p, old(State()))
      decreases p, 1
    {
      hide TaskSemantics.Execute, Joint, Lockstep;
      match p
      case End => r := Finished;
      case Struck(cause) => r := Late(cause);
      case Raise(cause, _) => r := Raised(cause);
      case Write(f, next) =>
        r := callback.writability.RequireWriting();
        if r.Finished? {
          WriteContent(f);
          r := RunBody(next);
        }
      case Scope(skip, body, next) =>
        r := RunScope(skip, body, next);
      case Try(body, next) =>
        r := RunBody(body);
        r := OfBlock(r);
        if !Killed(r) { r := RunRest(r, next); }
      case Call(key, kind, body, next) =>
        r := Execute(key, kind, body);
        if !r.Raised? { r := RunRest(r, next); }
    }
  }

  /** `main` is checked out read-only, as in every new process. */
  ghost predicate Resumable<D>(callback: ConsistentDataVersioningCallback<D>)
    reads callback.Objects()
  {
    && callback.versioning.Valid() && callback.writability.access == RO
    && callback.versioning.Content().current == None && Clean(callback.versioning.Content())
  }

  /** The session manager reads back the row of the last process. */
  method ReadMarked(marked: seq<Text>) returns (ok: bool)
    ensures ok <==> CanOpen(marked)
  {
    hide Reload;
    for i := 0 to |marked|
      invariant forall j | 0 <= j < i :: Reload(marked[j]).Some?
    {
      var coordinates := Reload(marked[i]);
      if coordinates.None? { return false; }
    }
    return true;
  }

  /** One session, over the log, the branches and the marks that earlier ones left. */
  method RunSession<D(!new)>(callback: ConsistentDataVersioningCallback<D>, log: seq<Record>, marked: seq<Text>,
                             clock: nat -> int, p: Program<seq<D>>)
    returns (executor: SimpleTaskExecutor<D>, r: Outcome)
    requires Resumable(callback) && WritesFit(p, |callback.versioning.versionings|)
    modifies callback.Objects()
    ensures executor.Valid() && executor.callback == callback
    ensures (executor.State(), r) == Session(p, Disk(log, old(callback.versioning.Content().heads), marked), Env(clock, callback.strict))
  {
    hide Run, WritesFit, Joint, Lockstep, CanOpen;
    executor := new SimpleTaskExecutor(callback, log, clock);
    var ok := ReadMarked(marked);
    if !ok { return executor, Raised(Unreadable); }
    r := executor.RunBody(p);
  }

  /** Crash recovery of the objects themselves: once nothing interrupts the program, all the
      back ends hold what one run from scratch would have left in them. */
  method Resume<D(!new)>(callback: ConsistentDataVersioningCallback<D>, log: seq<Record>, marked: seq<Text>,
                         clock: nat -> int, p: Program<seq<D>>,
                         ghost history: seq<Attempt<seq<D>>>, ghost main: seq<D>)
    returns (r: Outcome)
    requires Resumable(callback) && WritesFit(p, |callback.versioning.versionings|)
    requires Disk(log, callback.versioning.Content().heads, marked) == After(history, FirstDisk(main))
    requires SamePlan(history, Plan(p)) && LostSteps(history, FirstDisk(main)) == {} && Uninterrupted(p, None) && StableKeys(p)
    modifies callback.Objects()
    ensures r.Finished? && callback.versioning.Valid() && callback.writability.access == RO
    ensures callback.versioning.Content().working == Ideal(Plan(p), main)
    ensures forall i | 0 <= i < |callback.versioning.versionings| ::
              i < |Ideal(Plan(p), main)| && callback.versioning.versionings[i].store.working == Ideal(Plan(p), main)[i]
  {
    hide Run, WritesFit, Joint, Lockstep, SamePlan, LostSteps, Uninterrupted, Ideal, After, StableKeys;
    ghost var env := Env(clock, callback.strict);
    Recovery(history, p, env, p, env, main);
    var executor;
    executor, r := RunSession(callback, log, marked, clock, p);
    SessionsAreSafe(history, p, env, main);
    Contents(callback.versioning);
  }

  lemma Contents<D>(v: VersioningManager<D>)
    requires v.Valid()
    ensures |v.Content().working| == |v.versionings|
    ensures forall i | 0 <= i < |v.versionings| :: v.Content().working[i] == v.versionings[i].store.working
  {
  }
}
