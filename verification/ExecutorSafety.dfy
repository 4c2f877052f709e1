/** What holds in every session of every program, whatever is skipped, fails, is caught or
    is killed, and whatever programs ran in earlier sessions. */
module ExecutorSafety {
  import opened Prelude
  import opened ExecutorModel
  import opened TaskNames
  import opened BranchStore
  import opened TaskSemantics

  // ------------------------------------------------------------------------ invariants

  /** A frame pushed on top of `parent`: its path and its order extend the parent's by one
      entry, and the parent is no step. */
  ghost predicate ChildOf(child: Frame, parent: Frame) {
    && child.kind.Some? && parent.kind != Some(Step)
    && |child.path| == |parent.path| + 1 && child.path[..|parent.path|] == parent.path
    && |child.order| == |parent.order| + 1 && child.order[..|parent.order|] == parent.order
  }

  ghost predicate WellFramed(stack: seq<Frame>) {
    && stack != []
    && if |stack| == 1 then stack[0].kind == None && stack[0].path == [] && |stack[0].order| == 1
       else ChildOf(stack[|stack| - 1], stack[|stack| - 2]) && WellFramed(stack[..|stack| - 1])
  }

  /** A branch that cannot be taken by a task submitted later at `order`. */
  ghost predicate Earlier(b: Branch, order: seq<int>) {
    b.Some? ==> Before(b.value.order, order)
  }

  ghost predicate RecordSafe<C>(r: Record, heads: map<Branch, C>) {
    && r.text.order != [] && r.latest in heads
    && (r.text.kind.Step? ==> Some(r.text) in heads)
    && Earlier(r.latest, Bump(r.text.order))
  }

  ghost predicate AtMostOnce(log: seq<Record>) {
    forall t: Text | t.kind.Step? :: |RecordsOf(log, t)| <= 1
  }

  /** What every session leaves on disk, even when the process dies. */
  ghost predicate SafeDisk<C>(log: seq<Record>, heads: map<Branch, C>) {
    && None in heads
    && AtMostOnce(log)
    && forall r <- log :: RecordSafe(r, heads)
  }

  /** A row of the task is there and cannot be read. */
  ghost predicate Unread(log: seq<Record>, c: Coordinates) {
    exists r <- log :: r.text == TextOf(c) && Load(r).None?
  }

  /** A submitted task that is behind a task at `order`. Only one that failed because its row
      could not be read is not counted, so that the next one gets the same order. */
  ghost predicate Behind(log: seq<Record>, c: Coordinates, order: seq<int>) {
    Before(c.order, order) || (c.order == order && Unread(log, c))
  }

  ghost predicate Increasing(log: seq<Record>, cs: seq<Coordinates>) {
    forall i, j | 0 <= i < j < |cs| :: Behind(log, cs[i], cs[j].order)
  }

  ghost predicate AllBefore(log: seq<Record>, cs: seq<Coordinates>, order: seq<int>) {
    forall c <- cs :: Behind(log, c, order)
  }

  ghost predicate Clean<C>(s: Store<C>) {
    Connected(s) && !s.dirty && s.working == s.heads[s.current]
  }

  /** Holds at every point of a session. */
  ghost predicate Safe<C>(w: World<C>) {
    && Open(w) && WellFramed(w.stack)
    && SafeDisk(w.log, w.store.heads)
    && NameOf(w.latest) in w.store.heads
    && Earlier(NameOf(w.latest), Top(w).order) && Earlier(w.store.current, Top(w).order)
    && Increasing(w.log, w.submitted) && AllBefore(w.log, w.submitted, Top(w).order)
    && (w.access == RW <==> Top(w).kind == Some(Step))
    && (w.access == RO ==> Clean(w.store))
  }

  /** `main` and the branches of recorded steps are never touched again. */
  ghost predicate Immutable<C>(log: seq<Record>, heads: map<Branch, C>, heads': map<Branch, C>) {
    && heads.Keys <= heads'.Keys
    && (None in heads ==> heads'[None] == heads[None])
    && forall r <- log | r.text.kind.Step? && Some(r.text) in heads :: heads'[Some(r.text)] == heads[Some(r.text)]
  }

  /** The innermost frame counted some more subtasks; nothing else about it changed. */
  ghost predicate Moved(f: Frame, g: Frame) {
    && g == f.(order := g.order)
    && |g.order| == |f.order| > 0 && g.order[..|f.order| - 1] == f.order[..|f.order| - 1]
    && (g.order == f.order || Before(f.order, g.order))
  }

  ghost predicate Advanced(stack: seq<Frame>, stack': seq<Frame>) {
    && |stack'| == |stack| > 0
    && stack'[..|stack| - 1] == stack[..|stack| - 1]
    && Moved(stack[|stack| - 1], stack'[|stack| - 1])
  }

  /** The rows from `n` on bear the time of their insertion. */
  ghost predicate Stamped(n: nat, log: seq<Record>, clock: nat -> int) {
    forall i | n <= i < |log| :: log[i].finish == clock(i)
  }

  /** Nothing that was logged, submitted or committed is lost; rows are stamped by the clock;
      branches change only when a step is invoked. */
  ghost predicate Later<C>(w: World<C>, w': World<C>) {
    && w.log <= w'.log && Stamped(|w.log|, w'.log, w'.env.clock)
    && w.submitted <= w'.submitted && w.invoked <= w'.invoked && w.lost <= w'.lost && w'.env == w.env
    && (w'.invoked == w.invoked ==> w'.store.heads == w.store.heads)
    && Immutable(w.log, w.store.heads, w'.store.heads)
  }

  /** Failures that only a broken protocol could cause. */
  ghost predicate ProtocolError(r: Outcome) {
    r.Raised? && (r.exn.StoreFailure? || r.exn.InconsistentLog? || r.exn.AlreadyWriting? || r.exn.UnmanagedWrites?)
  }

  /** What running anything from a safe world does to it. */
  ghost predicate Kept<C>(w: World<C>, w': World<C>, r: Outcome) {
    && Later(w, w')
    && SafeDisk(w'.log, w'.store.heads)
    && Increasing(w'.log, w'.submitted)
    && (!Killed(r) ==>
          Safe(w') && Advanced(w.stack, w'.stack) && w'.skipStages == w.skipStages)
    && !ProtocolError(r)
    && (r.Swallowed? ==> |w.stack| == 1)
  }

  lemma KeptSelf<C>(w: World<C>, r: Outcome)
    requires Safe(w) && !ProtocolError(r) && !r.Swallowed?
    ensures Kept(w, w, r)
  {
  }

  lemma AdvancedTransitive(s: seq<Frame>, s1: seq<Frame>, s2: seq<Frame>)
    requires Advanced(s, s1) && Advanced(s1, s2)
    ensures Advanced(s, s2)
  {
    var (a, b, c) := (s[|s| - 1].order, s1[|s| - 1].order, s2[|s| - 1].order);
    if a != b && b != c { BeforeTransitive(a, b, c); }
  }

  lemma LaterTransitive<C>(w: World<C>, w1: World<C>, w2: World<C>)
    requires Later(w, w1) && Later(w1, w2)
    ensures Later(w, w2)
  {
  }

  lemma KeptTransitive<C>(w: World<C>, w1: World<C>, r1: Outcome, w2: World<C>, r2: Outcome)
    requires Kept(w, w1, r1) && !Killed(r1) && Kept(w1, w2, r2)
    ensures Kept(w, w2, r2)
  {
    LaterTransitive(w, w1, w2);
    if !Killed(r2) { AdvancedTransitive(w.stack, w1.stack, w2.stack); }
  }

  // --------------------------------------------------------------------- running by parts

  /** What is left of a block after it: the flag is given back, and its end is no task's end. */
  function AfterBlock<C>(w: World<C>, skip: bool, body: Program<C>): (out: (World<C>, Outcome))
    requires Open(w)
    ensures Open(out.0) && !out.1.Late?
  {
    var (w1, r1) := Run(body, w.(skipStages := skip));
    (if Killed(OfBlock(r1)) then w1 else w1.(skipStages := w.skipStages), OfBlock(r1))
  }

  lemma RunScope<C>(skip: bool, body: Program<C>, next: Program<C>, w: World<C>)
    requires Open(w)
    ensures var (w1, r) := AfterBlock(w, skip, body);
            Run(Scope(skip, body, next), w) == if r.Raised? then (w1, r) else Then(r, Run(next, w1))
  {
    hide Execute;
  }

  lemma RunTry<C>(body: Program<C>, next: Program<C>, w: World<C>)
    requires Open(w)
    ensures var (w1, r1) := Run(body, w);
            Run(Try(body, next), w) == if Killed(OfBlock(r1)) then (w1, OfBlock(r1)) else Then(OfBlock(r1), Run(next, w1))
  {
    hide Execute;
  }

  lemma RunCall<C>(key: Key, kind: Kind, body: Program<C>, next: Program<C>, w: World<C>)
    requires Open(w)
    ensures var (w1, r) := Execute(key, kind, body, w);
            Run(Call(key, kind, body, next), w) == if r.Raised? then (w1, r) else Then(r, Run(next, w1))
  {
    hide Execute;
  }

  lemma RunWrite<C>(f: C -> C, next: Program<C>, w: World<C>)
    requires Open(w)
    ensures Run(Program.Write(f, next), w)
         == if w.access == RO then (w, Raised(WritingDisabled)) else Run(next, w.(store := BranchStore.Write(w.store, f)))
  {
    hide Execute;
  }

  // ------------------------------------------------------------------------ step bodies

  /** A step body changes nothing but the working content. */
  ghost predicate OnlyWorking<C>(w: World<C>, w': World<C>) {
    w' == w.(store := w.store.(working := w'.store.working, dirty := w'.store.dirty), skipStages := w'.skipStages)
  }

  ghost predicate StepEnd<C>(w: World<C>, w': World<C>, r: Outcome) {
    && OnlyWorking(w, w')
    && (!Killed(r) ==> w'.skipStages == w.skipStages)
    && !ProtocolError(r) && !r.Swallowed?
    && (r.Raised? ==> !r.exn.BranchMissing? && !r.exn.Unreadable?)
  }

  /** A block and what follows it. */
  lemma StepEndThen<C>(w: World<C>, w1: World<C>, r1: Outcome, flag: bool, w2: World<C>, r2: Outcome)
    requires StepEnd(w.(skipStages := flag), w1, r1) && !Killed(OfBlock(r1))
    requires StepEnd(w1.(skipStages := w.skipStages), w2, r2)
    ensures StepEnd(w, w2, r2) && Then(OfBlock(r1), (w2, r2)) == (w2, r2)
  {
  }

  /** A scope with a step body, and a handler around one. */
  lemma {:induction false} StepScope<C>(skip: bool, body: Program<C>, next: Program<C>, w: World<C>)
    requires Open(w) && Top(w).kind == Some(Step)
    ensures var (w', r) := Run(Scope(skip, body, next), w); StepEnd(w, w', r)
    decreases Scope(skip, body, next), 0
  {
    hide Run, Execute, WellFramed, Connected;
    var inside := w.(skipStages := skip);
    StepBody(body, inside);
    var (w1, r1) := Run(body, inside);
    RunScope(skip, body, next, w);
    if !OfBlock(r1).Raised? {
      var w2 := w1.(skipStages := w.skipStages);
      StepBody(next, w2);
      StepEndThen(w, w1, r1, skip, Run(next, w2).0, Run(next, w2).1);
    }
  }

  lemma {:induction false} StepTry<C>(body: Program<C>, next: Program<C>, w: World<C>)
    requires Open(w) && Top(w).kind == Some(Step)
    ensures var (w', r) := Run(Try(body, next), w); StepEnd(w, w', r)
    decreases Try(body, next), 0
  {
    hide Run, Execute, WellFramed, Connected;
    StepBody(body, w);
    var (w1, r1) := Run(body, w);
    RunTry(body, next, w);
    if !Killed(OfBlock(r1)) {
      StepBody(next, w1);
      StepEndThen(w, w1, r1, w.skipStages, Run(next, w1).0, Run(next, w1).1);
    }
  }

  lemma {:induction false} StepBody<C>(p: Program<C>, w: World<C>)
    requires Open(w) && Top(w).kind == Some(Step)
    ensures var (w', r) := Run(p, w); StepEnd(w, w', r)
    decreases p, 1
  {
    hide Execute, WellFramed;
    match p
    case End =>
    case Struck(_) =>
    case Raise(_, _) =>
    case Write(f, next) =>
      if w.access == RW { StepBody(next, w.(store := BranchStore.Write(w.store, f))); }
    case Scope(skip, body, next) => StepScope(skip, body, next, w);
    case Try(body, next) => StepTry(body, next, w);
    case Call(key, kind, body, next) => Refused(key, kind, body, w);
  }

  /** Steps have no subtasks, and top-level keys are strings: any other call is refused before
      it is submitted. */
  lemma Refused<C>(key: Key, kind: Kind, body: Program<C>, w: World<C>)
    requires Open(w) && (Top(w).kind == Some(Step) || (|w.stack| == 1 && key.Index?))
    ensures Execute(key, kind, body, w) == (w, Raised(NotAllowed))
  {
  }

  /** Writes that did not ask, found at the end of a stage: they are rolled back and raised if
      the warning about them is an error, and stay where they are otherwise. */
  lemma UnmanagedWritesAreFound<C>(w: World<C>, c: Coordinates, success: bool)
    requires Open(w) && c.kind.Stage? && w.store.dirty
    ensures var (w', r) := OnFinished(w, c, success);
            if w.env.strict then r == Raised(UnmanagedWrites) && Clean(w'.store) && w'.store.heads == w.store.heads
            else r == Finished && w' == w
  {
  }

  // -------------------------------------------------------------------------- the log

  /** RecordsOf is the subsequence of the log with the given text. */
  lemma {:induction false} RecordsOfMembers(log: seq<Record>, t: Text)
    ensures forall r :: r in RecordsOf(log, t) <==> r in log && r.text == t
  {
    if log != [] {
      RecordsOfMembers(log[..|log| - 1], t);
      assert log == log[..|log| - 1] + [log[|log| - 1]];
    }
  }

  lemma RecordsOfAppend(log: seq<Record>, r: Record, t: Text)
    ensures RecordsOf(log + [r], t) == RecordsOf(log, t) + (if r.text == t then [r] else [])
  {
    assert (log + [r])[..|log|] == log;
  }

  /** The executor takes the newest record; of several equally new ones, the oldest insertion. */
  lemma {:induction false} NewestIsNewest(records: seq<Record>) returns (i: nat)
    requires records != []
    ensures i < |records| && Newest(records) == records[i]
    ensures forall j | 0 <= j < |records| :: records[j].finish <= records[i].finish
    ensures forall j | 0 <= j < i :: records[j].finish < records[i].finish
  {
    if |records| == 1 {
      i := 0;
    } else {
      i := NewestIsNewest(records[..|records| - 1]);
      if records[|records| - 1].finish > records[i].finish { i := |records| - 1; }
    }
  }

  /** What is found is a row with the text of the coordinates, read back. */
  lemma FoundIsInLog(log: seq<Record>, c: Coordinates) returns (row: Record)
    requires FindLog(log, c).Found?
    ensures row in log && row.text == TextOf(c) && Load(row) == Some(FindLog(log, c).record)
    ensures var Loaded(coordinates, finish, latest) := FindLog(log, c).record;
            && Reload(row.text) == Some(coordinates) && finish == row.finish
            && (if row.latest.None? then latest.None? else latest.Some? && Reload(row.latest.value) == latest)
    ensures forall r <- log | r.text == TextOf(c) :: r.finish <= row.finish
  {
    RecordsOfMembers(log, TextOf(c));
    var found := RecordsOf(log, TextOf(c));
    var i := NewestIsNewest(found);
    row := found[i];
    assert row in found;
    forall r | r in log && r.text == TextOf(c) ensures r.finish <= row.finish { assert r in found; }
  }

  /** Nothing is found exactly if no row has the text, and nothing can be read exactly if one
      of those that have it cannot. */
  lemma NotFound(log: seq<Record>, c: Coordinates)
    ensures FindLog(log, c).Missing? <==> forall r <- log :: r.text != TextOf(c)
    ensures FindLog(log, c).Illegible? <==> exists r <- log :: r.text == TextOf(c) && Load(r).None?
    ensures forall r :: Load(r).None? <==> Reload(r.text).None? || (r.latest.Some? && Reload(r.latest.value).None?)
  {
    hide Reload;
    RecordsOfMembers(log, TextOf(c));
    var found := RecordsOf(log, TextOf(c));
    if found != [] { assert found[0] in found; }
  }

  // ------------------------------------------------------------------------------ steps

  /** `c` has just been submitted from `w`. */
  ghost predicate Submitted<C>(w: World<C>, c: Coordinates) {
    && Safe(w) && CanHaveSubtasks(Top(w).kind)
    && |c.path| == |Top(w).path| + 1 && c.path[..|Top(w).path|] == Top(w).path
    && c.order == Top(w).order
  }

  ghost predicate Unrecorded(log: seq<Record>, c: Coordinates) {
    c.kind.Step? ==> forall r <- log :: r.text != TextOf(c)
  }

  lemma UnrecordedHasNoRecords(log: seq<Record>, c: Coordinates)
    requires c.kind.Step? && Unrecorded(log, c)
    ensures RecordsOf(log, TextOf(c)) == []
  {
    var found := RecordsOf(log, TextOf(c));
    if found != [] {
      assert found[0] in found;
      RecordsOfMembers(log, TextOf(c));
    }
  }

  function Submit<C>(w: World<C>, c: Coordinates): World<C> {
    w.(submitted := w.submitted + [c])
  }

  /** A fresh branch at the current head, checked out, is created without an error: the
      checked-out branch is never the one that has to be deleted. */
  lemma FreshBranch<C>(s: Store<C>, t: Text)
    requires Clean(s) && Earlier(s.current, t.order)
    ensures EnsureEmptyBranch(s, t).Some?
    ensures var s1 := EnsureEmptyBranch(s, t).value;
            && s1.heads == s.heads[Some(t) := s.heads[s.current]] && s1.current == s.current
            && Checkout(s1, Some(t)) == Some(Store(s1.heads, Some(t), s.working, false))
  {
    if s.current == Some(t) { BeforeIrreflexive(t.order); }
    if Some(t) in s.heads {
      assert (s.heads - {Some(t)})[Some(t) := s.heads[s.current]] == s.heads[Some(t) := s.heads[s.current]];
    }
  }

  /** `w1` is inside the frame of the task `c`, submitted from `w`. */
  ghost predicate Inside<C>(w: World<C>, c: Coordinates, w1: World<C>) {
    && Safe(w1) && Later(Submit(w, c), w1)
    && |w1.stack| == |w.stack| + 1 && w1.stack[..|w.stack|] == w.stack
    && Top(w1).path == c.path && Top(w1).kind == Some(c.kind)
    && |Top(w1).order| == |c.order| + 1 && Top(w1).order[..|c.order|] == c.order
    && w1.skipStages == w.skipStages
    && (c.kind.Step? ==>
          w1.store.current == Some(TextOf(c)) && Unrecorded(w1.log, c) && |w.invoked| < |w1.invoked|)
  }

  lemma EnterSafe<C>(w: World<C>, c: Coordinates)
    requires Submitted(w, c) && Unrecorded(w.log, c)
    ensures var (w1, r) := Enter(Submit(w, c), c);
            r == Finished && Inside(w, c, w1) && w1.log == w.log
  {
    hide EnsureEmptyBranch, Checkout, AtMostOnce, Increasing, AllBefore, TextOf;
    var (w1, r) := Enter(Submit(w, c), c);
    var order := c.order + [0];
    BeforeExtension(c.order, 0);
    if c.kind.Step? { FreshBranch(w.store, TextOf(c)); }
    assert w1.stack[..|w.stack|] == w.stack;
    SubmittedEarlier(w.log, w.submitted, c, order);
    EarlierStill(NameOf(w.latest), c.order, order);
    EarlierStill(w.store.current, c.order, order);
    assert Top(w1).order == order;
    assert Immutable(w.log, w.store.heads, w1.store.heads);
  }

  lemma EarlierStill(b: Branch, order: seq<int>, later: seq<int>)
    requires Earlier(b, order) && Before(order, later)
    ensures Earlier(b, later)
  {
    if b.Some? { BeforeTransitive(b.value.order, order, later); }
  }

  lemma SubmittedEarlier(log: seq<Record>, cs: seq<Coordinates>, c: Coordinates, later: seq<int>)
    requires Increasing(log, cs) && AllBefore(log, cs, c.order) && Before(c.order, later)
    ensures Increasing(log, cs + [c]) && AllBefore(log, cs + [c], later)
  {
    hide Unread;
    forall d | d in cs ensures Before(d.order, later) {
      if Before(d.order, c.order) { BeforeTransitive(d.order, c.order, later); }
    }
  }

  lemma BehindLater(log: seq<Record>, cs: seq<Coordinates>, order: seq<int>, log': seq<Record>, later: seq<int>)
    requires AllBefore(log, cs, order) && Before(order, later)
    ensures AllBefore(log', cs, later)
  {
    hide Unread;
    forall d | d in cs ensures Before(d.order, later) {
      if Before(d.order, order) { BeforeTransitive(d.order, order, later); }
    }
  }

  lemma IncreasingStays(log: seq<Record>, cs: seq<Coordinates>, log': seq<Record>)
    requires Increasing(log, cs) && log <= log'
    ensures Increasing(log', cs)
  {
    forall i, j | 0 <= i < j < |cs| ensures Behind(log', cs[i], cs[j].order) {
      assert Behind(log, cs[i], cs[j].order);
      assert forall r <- log :: r in log';
    }
  }

  lemma AllBeforeStays(log: seq<Record>, cs: seq<Coordinates>, order: seq<int>, log': seq<Record>)
    requires AllBefore(log, cs, order) && log <= log'
    ensures AllBefore(log', cs, order)
  {
    forall d | d in cs ensures Behind(log', d, order) {
      assert Behind(log, d, order);
      assert forall r <- log :: r in log';
    }
  }

  /** The frame is popped and the task counted in its parent. */
  lemma LeaveSafe<C>(w: World<C>, c: Coordinates, w1: World<C>)
    requires Submitted(w, c)
    requires Open(w1) && SafeDisk(w1.log, w1.store.heads) && Later(Submit(w, c), w1)
    requires |w1.stack| == |w.stack| + 1 && w1.stack[..|w.stack|] == w.stack
    requires |Top(w1).order| == |c.order| + 1 && Top(w1).order[..|c.order|] == c.order
    requires NameOf(w1.latest) in w1.store.heads
    requires Earlier(NameOf(w1.latest), Top(w1).order) && Earlier(w1.store.current, Top(w1).order)
    requires Increasing(w1.log, w1.submitted) && AllBefore(w1.log, w1.submitted, Top(w1).order)
    requires w1.access == RO && Clean(w1.store)
    ensures var w2 := Leave(w1);
            && Safe(w2) && Advanced(w.stack, w2.stack) && Top(w2).order == Bump(c.order)
            && w2 == w1.(stack := w2.stack)
  {
    var w2 := Leave(w1);
    var inner := Top(w1).order;
    assert inner == c.order + [inner[|c.order|]];
    ExtensionBeforeBump(c.order, inner[|c.order|]);
    BeforeBump(c.order);
    assert w1.stack[..|w1.stack| - 1] == w.stack;
    assert w2.stack[..|w.stack| - 1] == w.stack[..|w.stack| - 1];
    assert Top(w2) == Top(w).(order := Bump(c.order));
    BehindLater(w1.log, w1.submitted, inner, w1.log, Bump(c.order));
    EarlierStill(NameOf(w1.latest), inner, Bump(c.order));
    EarlierStill(w1.store.current, inner, Bump(c.order));
  }

  /** Logging the finished task keeps the disk safe. */
  lemma MarkSafe<C>(w: World<C>, c: Coordinates, w1: World<C>)
    requires Submitted(w, c) && Inside(w, c, w1)
    ensures var w2 := MarkFinished(w1, c);
            SafeDisk(w2.log, w2.store.heads) && w1.log <= w2.log
  {
    var w2 := MarkFinished(w1, c);
    var r := w2.log[|w1.log|];
    assert w2.log == w1.log + [r];
    var inner := Top(w1).order;
    assert inner == c.order + [inner[|c.order|]];
    ExtensionBeforeBump(c.order, inner[|c.order|]);
    EarlierStill(NameOf(w1.latest), inner, Bump(c.order));
    assert RecordSafe(r, w2.store.heads);
    forall t: Text | t.kind.Step? ensures |RecordsOf(w2.log, t)| <= 1 {
      RecordsOfAppend(w1.log, r, t);
      if t == TextOf(c) { UnrecordedHasNoRecords(w1.log, c); }
    }
  }

  /** A step whose name cannot be read is logged and not committed. */
  predicate CannotCommit(c: Coordinates) {
    c.kind.Step? && Reload(TextOf(c)).None?
  }

  /** The body ended, nothing struck its task, and its commit goes through. */
  predicate Succeeds(c: Coordinates, r: Outcome) {
    r.Finished? && !CannotCommit(c)
  }

  /** The log and the tracking of lost commits after a body that ended with `r`. */
  function AfterBody<C>(w: World<C>, c: Coordinates, r: Outcome): World<C>
    requires Open(w)
  {
    if Succeeds(c, r) then MarkFinished(w, c)
    else if r.Finished? || r.Late? then Lose(MarkFinished(w, c), c)
    else w
  }

  /** The callbacks close the branch of a step, and touch nothing else. */
  lemma FinishEffect<C>(w: World<C>, c: Coordinates, w1: World<C>, r: Outcome)
    requires Submitted(w, c) && Inside(w, c, w1)
    ensures var w2 := AfterBody(w1, c, r);
            Open(w2) &&
            var (w3, r3) := OnFinished(w2, c, Succeeds(c, r));
            && r3 == Finished && w3 == w2.(store := w3.store, access := RO)
            && w3.store.current == w1.store.current && Clean(w3.store)
            && w1.store.heads.Keys == w3.store.heads.Keys
            && forall b | b in w1.store.heads && (c.kind.Step? ==> b != Some(TextOf(c))) :: w3.store.heads[b] == w1.store.heads[b]
  {
    hide Increasing, AllBefore, WellFramed, SafeDisk, Immutable, TextOf, Earlier;
  }

  /** Finishing a task closes the branch of a step: commit or rollback, then read-only. */
  lemma FinishSafe<C>(w: World<C>, c: Coordinates, w1: World<C>, r: Outcome)
    requires Submitted(w, c) && Unrecorded(w.log, c) && Inside(w, c, w1)
    ensures var w2 := AfterBody(w1, c, r);
            Open(w2) &&
            var (w3, r3) := OnFinished(w2, c, Succeeds(c, r));
            && r3 == Finished && w3 == w2.(store := w3.store, access := RO)
            && w3.store.current == w1.store.current && Clean(w3.store)
            && w1.store.heads.Keys == w3.store.heads.Keys
            && SafeDisk(w3.log, w3.store.heads) && Later(Submit(w, c), w3)
            && Increasing(w3.log, w3.submitted)
            && AllBefore(w3.log, w3.submitted, Top(w1).order)
  {
    hide Increasing, AllBefore, WellFramed, AtMostOnce, OnFinished, Clean, TextOf, Earlier;
    FinishEffect(w, c, w1, r);
    MarkSafe(w, c, w1);
    MarkOrder(w, c, w1, r);
  }

  lemma MarkOrder<C>(w: World<C>, c: Coordinates, w1: World<C>, r: Outcome)
    requires Submitted(w, c) && Inside(w, c, w1)
    ensures var w2 := AfterBody(w1, c, r);
            Increasing(w2.log, w1.submitted) && AllBefore(w2.log, w1.submitted, Top(w1).order)
  {
    hide Increasing, AllBefore, SafeDisk, Immutable, WellFramed;
    var w2 := AfterBody(w1, c, r);
    IncreasingStays(w1.log, w1.submitted, w2.log);
    AllBeforeStays(w1.log, w1.submitted, Top(w1).order, w2.log);
  }

  lemma LaterSubmit<C>(w: World<C>, c: Coordinates)
    requires Safe(w)
    ensures Later(w, Submit(w, c))
  {
  }

  /** The outcome a task hands to its parent after a body that was not killed. */
  function OutcomeAfter(c: Coordinates, r: Outcome): Outcome {
    if r.Raised? && |c.path| <= 1 && r.exn.ToBeContinued? then Swallowed
    else if r.Finished? && CannotCommit(c) then Raised(Unreadable)
    else OfBlock(r)
  }

  lemma ConcludeByCases<C>(w: World<C>, c: Coordinates, w1: World<C>, r: Outcome)
    requires Submitted(w, c) && Unrecorded(w.log, c) && Inside(w, c, w1)
    requires !Killed(OfBlock(r)) && !r.Swallowed?
    ensures Conclude(w1, c, r) == (Leave(OnFinished(AfterBody(w1, c, r), c, Succeeds(c, r)).0), OutcomeAfter(c, r))
  {
    hide WellFramed, SafeDisk, Increasing, AllBefore, Immutable, TextOf, Earlier;
    FinishSafe(w, c, w1, r);
  }

  /** What a task that runs hands on, by the end of its body: only a top-level task that is to
      be continued is swallowed; any other exception goes on to the caller. */
  lemma RunTaskOutcome<C>(c: Coordinates, body: Program<C>, w: World<C>)
    requires Submitted(w, c) && Unrecorded(w.log, c)
    ensures var r := Run(body, Enter(Submit(w, c), c).0).1;
            var handed := RunTask(c, body, Submit(w, c)).1;
            match r
            case Raised(e) => handed == if e.ToBeContinued? && |w.stack| == 1 then Swallowed else r
            case Late(cause) => handed == Raised(cause)
            case _ => handed == if c.kind.Step? && Reload(TextOf(c)).None? then Raised(Unreadable) else Finished
  {
    hide WellFramed, SafeDisk, Increasing, AllBefore, Immutable, Clean, Later, Advanced, Run, Conclude, Earlier, Reload,
         TextOf;
    EnterSafe(w, c);
    var w1 := Enter(Submit(w, c), c).0;
    var (w2, r) := Run(body, w1);
    if c.kind.Step? {
      StepBodySafe(w, c, body, w1);
    } else {
      RunSafe(body, w1);
      StageBodySafe(w, c, w1, w2, r);
    }
    if Killed(OfBlock(r)) { ConcludeKilled(w2, c, r); } else { ConcludeByCases(w, c, w2, r); }
    FrameOfTask(w, c);
  }

  lemma FrameOfTask<C>(w: World<C>, c: Coordinates)
    requires Submitted(w, c)
    ensures |c.path| == |w.stack|
  {
    FrameDepths(w.stack, |w.stack| - 1);
  }

  /** Only top-level tasks have coordinates of length one. */
  lemma SwallowedAtTop<C>(w: World<C>, c: Coordinates)
    requires Submitted(w, c) && |c.path| <= 1
    ensures |w.stack| == 1
  {
  }

  lemma DiedSafe<C>(w: World<C>, c: Coordinates, w1: World<C>, r: Outcome)
    requires Submitted(w, c) && Open(w1) && Killed(OfBlock(r))
    requires r.Late? ==> Inside(w, c, w1)
    requires Later(w, w1) && SafeDisk(w1.log, w1.store.heads) && Increasing(w1.log, w1.submitted)
    ensures var (w2, r2) := Conclude(w1, c, r);
            Kept(w, w2, r2) && Killed(r2)
  {
    hide WellFramed, SafeDisk, Increasing, AllBefore, Clean, Earlier, TextOf;
    if r.Late? {
      MarkSafe(w, c, w1);
      IncreasingStays(w1.log, w1.submitted, MarkFinished(w1, c).log);
    }
  }

  lemma InsideIsDeeper<C>(w: World<C>, c: Coordinates, w2: World<C>, r: Outcome)
    requires Submitted(w, c) && (!Killed(r) ==> Inside(w, c, w2))
    ensures !Killed(r) ==> |w2.stack| >= 2
  {
  }

  lemma ConcludeKilled<C>(w: World<C>, c: Coordinates, r: Outcome)
    requires Open(w) && Killed(OfBlock(r))
    ensures Killed(Conclude(w, c, r).1)
  {
  }

  /** Everything that can follow the body of a task. */
  lemma ConcludeSafe<C>(w: World<C>, c: Coordinates, w1: World<C>, r: Outcome)
    requires Submitted(w, c) && Unrecorded(w.log, c) && Inside(w, c, w1)
    requires !Killed(OfBlock(r)) && !ProtocolError(r) && !r.Swallowed?
    ensures var (w2, r2) := Conclude(w1, c, r);
            && Kept(w, w2, r2) && !Killed(r2)
            && Top(w2).order == Bump(c.order) && w2.store.current == w1.store.current && w2.latest == w1.latest
  {
    hide WellFramed, SafeDisk, Increasing, AllBefore, Immutable, Conclude, Leave, OnFinished, Reload, TextOf, Clean,
         Earlier;
    ConcludeByCases(w, c, w1, r);
    FinishSafe(w, c, w1, r);
    var w3 := OnFinished(AfterBody(w1, c, r), c, Succeeds(c, r)).0;
    LaterSubmit(w, c);
    LaterTransitive(w, Submit(w, c), w3);
    LeaveSafe(w, c, w3);
    if |c.path| <= 1 { SwallowedAtTop(w, c); }
  }

  /** Counting a skipped task in its frame. */
  lemma BumpSafe<C>(w: World<C>, c: Coordinates)
    requires Submitted(w, c)
    ensures var w1 := BumpTop(Submit(w, c));
            Safe(w1) && Advanced(w.stack, w1.stack) && Top(w1).order == Bump(c.order)
  {
    BeforeBump(c.order);
    var w1 := BumpTop(Submit(w, c));
    assert Top(w1) == Top(w).(order := Bump(c.order));
    assert w1.stack[..|w.stack| - 1] == w.stack[..|w.stack| - 1];
    SubmittedEarlier(w.log, w.submitted, c, Bump(c.order));
    EarlierStill(NameOf(w.latest), c.order, Bump(c.order));
    EarlierStill(w.store.current, c.order, Bump(c.order));
  }

  /** Skipping counts the task and checks out the branch that the record leads to. It fails
      exactly if reading the record back has changed that branch's name to one that is not
      there. */
  lemma SkipSafe<C>(w: World<C>, c: Coordinates, row: Record)
    requires Submitted(w, c) && row in w.log && row.text == TextOf(c) && Load(row).Some?
    ensures var record := Load(row).value;
            var branch := SkippedTo(record);
            var (w1, r) := Skip(Submit(w, c), record);
            && Kept(w, w1, r) && Top(w1).order == Bump(c.order) && Earlier(branch, Bump(c.order))
            && (if branch in w.store.heads then
                  && r == Finished
                  && w1 == Submit(w, c).(stack := w1.stack, store := Store(w.store.heads, branch, w.store.heads[branch], false))
                else
                  && r == Raised(BranchMissing) && w1 == Submit(w, c).(stack := w1.stack))
  {
    hide Reload, TextOf;
    assert RecordSafe(row, w.store.heads);
    BumpSafe(w, c);
    BeforeBump(c.order);
  }

  lemma SetLatestSafe<C>(w: World<C>, w1: World<C>, r: Outcome, latest: Option<Coordinates>)
    requires Kept(w, w1, r) && !Killed(r)
    requires NameOf(latest) in w1.store.heads && Earlier(NameOf(latest), Top(w1).order)
    ensures Kept(w, w1.(latest := latest), r)
  {
  }

  /** The body of a step cannot do anything but write. */
  lemma StepBodySafe<C>(w: World<C>, c: Coordinates, body: Program<C>, w1: World<C>)
    requires Submitted(w, c) && Inside(w, c, w1) && c.kind.Step?
    ensures var (w2, r) := Run(body, w1);
            && !ProtocolError(r) && !r.Swallowed?
            && (!Killed(r) ==> Inside(w, c, w2))
            && Later(w, w2) && SafeDisk(w2.log, w2.store.heads) && Increasing(w2.log, w2.submitted)
  {
    hide WellFramed, SafeDisk, Increasing, AllBefore, Immutable, Clean;
    StepBody(body, w1);
    LaterSubmit(w, c);
    LaterTransitive(w, Submit(w, c), w1);
  }

  lemma StageBodySafe<C>(w: World<C>, c: Coordinates, w1: World<C>, w2: World<C>, r: Outcome)
    requires Submitted(w, c) && Inside(w, c, w1) && c.kind.Stage? && Kept(w1, w2, r)
    ensures !r.Swallowed?
    ensures !Killed(r) ==> Inside(w, c, w2)
    ensures Later(w, w2)
  {
    hide SafeDisk, Increasing, AllBefore, Immutable, Clean;
    LaterTransitive(Submit(w, c), w1, w2);
    LaterSubmit(w, c);
    LaterTransitive(w, Submit(w, c), w2);
  }

  lemma RunTaskSafe<C>(c: Coordinates, body: Program<C>, w: World<C>)
    requires Submitted(w, c) && Unrecorded(w.log, c)
    ensures var (w', r) := RunTask(c, body, Submit(w, c));
            && Kept(w, w', r) && !r.Late?
            && (!Killed(r) ==> Top(w').order == Bump(c.order) && (c.kind.Step? ==> w'.store.current == Some(TextOf(c))))
    decreases body, 3
  {
    hide WellFramed, SafeDisk, Increasing, AllBefore, Immutable, Clean, Later, Advanced, Run, Conclude, Earlier;
    EnterSafe(w, c);
    var w1 := Enter(Submit(w, c), c).0;
    var (w2, r) := Run(body, w1);
    if c.kind.Step? {
      StepBodySafe(w, c, body, w1);
    } else {
      RunSafe(body, w1);
      StageBodySafe(w, c, w1, w2, r);
    }
    if Killed(OfBlock(r)) { DiedSafe(w, c, w2, r); } else { ConcludeSafe(w, c, w2, r); }
  }

  lemma StepExecuted<C>(w: World<C>, c: Coordinates, out: (World<C>, Outcome))
    requires Submitted(w, c) && c.kind.Step? && Kept(w, out.0, out.1)
    requires !out.1.Raised? ==> Top(out.0).order == Bump(c.order) && Some(TextOf(c)) in out.0.store.heads
    ensures Kept(w, SetLatest(out, Some(c)).0, out.1)
  {
    if !out.1.Raised? {
      BeforeBump(c.order);
      SetLatestSafe(w, out.0, out.1, Some(c));
    }
  }

  lemma ExecuteByRecord<C>(key: Key, kind: Kind, body: Program<C>, w: World<C>)
    requires Open(w) && CanHaveSubtasks(Top(w).kind) && !(|w.stack| == 1 && key.Index?)
    requires FindLog(w.log, CoordinatesOf(w, key, kind)).Found? && (kind.Step? || w.skipStages)
    ensures var c := CoordinatesOf(w, key, kind);
            var record := FindLog(w.log, c).record;
            Execute(key, kind, body, w) == SetLatest(Skip(Submit(w, c), record), if kind.Step? then Some(c) else record.latest)
  {
    hide FindLog, Skip, SetLatest, RunTask;
  }

  lemma ExecuteSkips<C>(key: Key, kind: Kind, body: Program<C>, w: World<C>)
    requires Safe(w) && Submitted(w, CoordinatesOf(w, key, kind))
    requires FindLog(w.log, CoordinatesOf(w, key, kind)).Found? && (kind.Step? || w.skipStages)
    requires !(|w.stack| == 1 && key.Index?)
    ensures var (w', r) := Execute(key, kind, body, w);
            && Kept(w, w', r) && (r.Finished? || r == Raised(BranchMissing))
            && (r.Finished? <==> SkippedTo(FindLog(w.log, CoordinatesOf(w, key, kind)).record) in w.store.heads)
  {
    hide TextOf, Reload, WellFramed, Increasing, AllBefore, Load, FindLog, Clean, Skip, Immutable, Later, Advanced,
         AtMostOnce, Execute, Connected;
    var c := CoordinatesOf(w, key, kind);
    ExecuteByRecord(key, kind, body, w);
    var row := FoundIsInLog(w.log, c);
    SkipSafe(w, c, row);
    assert RecordSafe(row, w.store.heads);
    var record := FindLog(w.log, c).record;
    var out := Skip(Submit(w, c), record);
    if kind.Step? {
      StepExecuted(w, c, out);
    } else if out.1.Finished? {
      SetLatestSafe(w, out.0, out.1, record.latest);
    }
  }

  lemma ExecuteRuns<C>(key: Key, kind: Kind, body: Program<C>, w: World<C>)
    requires Safe(w) && Submitted(w, CoordinatesOf(w, key, kind)) && !(|w.stack| == 1 && key.Index?)
    requires FindLog(w.log, CoordinatesOf(w, key, kind)).Missing?
          || (FindLog(w.log, CoordinatesOf(w, key, kind)).Found? && kind.Stage? && !w.skipStages)
    ensures var (w', r) := Execute(key, kind, body, w); Kept(w, w', r)
    decreases body, 4
  {
    hide WellFramed, SafeDisk, Increasing, AllBefore, Immutable, Clean, Later, Advanced, RunTask;
    var c := CoordinatesOf(w, key, kind);
    NotFound(w.log, c);
    RunTaskSafe(c, body, w);
    var out := RunTask(c, body, Submit(w, c));
    if kind.Step? {
      if !out.1.Raised? { ConnectedToCurrent(out.0); }
      StepExecuted(w, c, out);
    }
  }

  lemma ConnectedToCurrent<C>(w: World<C>)
    requires Open(w)
    ensures w.store.current in w.store.heads
  {
  }

  /** A task whose row cannot be read has been submitted and not been counted. */
  lemma UnreadSafe<C>(w: World<C>, c: Coordinates)
    requires Submitted(w, c) && FindLog(w.log, c).Illegible?
    ensures Kept(w, Submit(w, c), Raised(Unreadable))
  {
    hide WellFramed, SafeDisk, FindLog, Load;
    NotFound(w.log, c);
    assert Unread(w.log, c);
    assert Behind(w.log, c, Top(w).order);
  }

  lemma ExecuteSafe<C>(key: Key, kind: Kind, body: Program<C>, w: World<C>)
    requires Safe(w)
    ensures var (w', r) := Execute(key, kind, body, w); Kept(w, w', r)
    decreases body, 5
  {
    hide WellFramed, RecordSafe, Increasing, AllBefore, Immutable, Clean, TextOf;
    var c := CoordinatesOf(w, key, kind);
    if !CanHaveSubtasks(Top(w).kind) || (|w.stack| == 1 && key.Index?) {
      KeptSelf(w, Raised(NotAllowed));
    } else if FindLog(w.log, c).Illegible? {
      UnreadSafe(w, c);
    } else if FindLog(w.log, c).Found? && (kind.Step? || w.skipStages) {
      ExecuteSkips(key, kind, body, w);
    } else {
      assert kind.Step? ==> |RecordsOf(w.log, TextOf(c))| <= 1;
      ExecuteRuns(key, kind, body, w);
    }
  }

  lemma ThenSafe<C>(w: World<C>, w1: World<C>, r: Outcome, next: Program<C>)
    requires Safe(w) && CanHaveSubtasks(Top(w).kind) && Kept(w, w1, r) && !Killed(r)
    ensures var (w2, r2) := Then(r, Run(next, w1)); Kept(w, w2, r2)
    decreases next, 2
  {
    hide WellFramed, SafeDisk, Increasing, AllBefore, Immutable, Later, Run;
    RunSafe(next, w1);
    var (w2, r2) := Run(next, w1);
    KeptTransitive(w, w1, r, w2, r2);
  }

  /** Leaving a block gives the flag back. */
  lemma BlockSafe<C>(w: World<C>, skip: bool, w1: World<C>, r: Outcome)
    requires Safe(w) && Kept(w.(skipStages := skip), w1, r)
    ensures Kept(w, if Killed(OfBlock(r)) then w1 else w1.(skipStages := w.skipStages), OfBlock(r))
  {
    hide WellFramed, SafeDisk, Increasing, AllBefore, Immutable, Advanced;
  }

  lemma ScopeSafe<C>(skip: bool, body: Program<C>, next: Program<C>, w: World<C>)
    requires Safe(w) && CanHaveSubtasks(Top(w).kind)
    ensures var (w', r) := Run(Scope(skip, body, next), w); Kept(w, w', r)
    decreases Scope(skip, body, next), 0
  {
    hide WellFramed, SafeDisk, Increasing, AllBefore, Immutable, Later, Advanced, ProtocolError;
    var inside := w.(skipStages := skip);
    RunSafe(body, inside);
    var (w1, r) := Run(body, inside);
    BlockSafe(w, skip, w1, r);
    if !OfBlock(r).Raised? { ThenSafe(w, w1.(skipStages := w.skipStages), OfBlock(r), next); }
  }

  lemma TrySafe<C>(body: Program<C>, next: Program<C>, w: World<C>)
    requires Safe(w) && CanHaveSubtasks(Top(w).kind)
    ensures var (w', r) := Run(Try(body, next), w); Kept(w, w', r)
    decreases Try(body, next), 0
  {
    hide WellFramed, SafeDisk, Increasing, AllBefore, Immutable, Later, Advanced, ProtocolError;
    RunSafe(body, w);
    var (w1, r) := Run(body, w);
    BlockSafe(w, w.skipStages, w1, r);
    if !Killed(OfBlock(r)) { ThenSafe(w, w1, OfBlock(r), next); }
  }

  /** The main result: every run of every program keeps the world safe. */
  lemma {:induction false} RunSafe<C>(p: Program<C>, w: World<C>)
    requires Safe(w) && CanHaveSubtasks(Top(w).kind)
    ensures var (w', r) := Run(p, w); Kept(w, w', r)
    decreases p, 1
  {
    hide WellFramed, SafeDisk, Immutable, Increasing, AllBefore, Execute;
    match p
    case End => KeptSelf(w, Finished);
    case Struck(cause) => KeptSelf(w, Late(cause));
    case Raise(cause, _) => KeptSelf(w, Raised(cause));
    case Write(f, next) => KeptSelf(w, Raised(WritingDisabled));
    case Scope(skip, body, next) => ScopeSafe(skip, body, next, w);
    case Try(body, next) => TrySafe(body, next, w);
    case Call(key, kind, body, next) =>
      ExecuteSafe(key, kind, body, w);
      var (w1, r) := Execute(key, kind, body, w);
      if !r.Raised? { ThenSafe(w, w1, r, next); }
  }

  // --------------------------------------------------------------------------- sessions

  lemma FreshIsSafe<C>(disk: Disk<C>, env: Env)
    requires SafeDisk(disk.log, disk.heads)
    ensures Safe(Fresh(disk, env))
  {
  }

  lemma SessionIsSafe<C>(p: Program<C>, disk: Disk<C>, env: Env)
    requires SafeDisk(disk.log, disk.heads)
    ensures var (w, r) := Session(p, disk, env);
            && !ProtocolError(r)
            && SafeDisk(w.log, w.store.heads)
            && disk.log <= w.log && Stamped(|disk.log|, w.log, env.clock)
            && Immutable(disk.log, disk.heads, w.store.heads)
            && Increasing(w.log, w.submitted)
            && (!Killed(r) ==> w.access == RO && |w.stack| == 1 && Clean(w.store))
  {
    hide Run, AtMostOnce, RecordSafe, Immutable, Increasing, AllBefore;
    FreshIsSafe(disk, env);
    RunSafe(p, Fresh(disk, env));
    KeptSelf(Fresh(disk, env), Raised(Unreadable));
  }

  lemma {:induction false} HistoryIsSafe<C>(history: seq<Attempt<C>>, start: Disk<C>)
    requires SafeDisk(start.log, start.heads)
    ensures var disk := After(history, start);
            && SafeDisk(disk.log, disk.heads)
            && start.log <= disk.log && Immutable(start.log, start.heads, disk.heads)
    decreases |history|
  {
    if history != [] {
      var last := history[|history| - 1];
      HistoryIsSafe(history[..|history| - 1], start);
      SessionIsSafe(last.program, After(history[..|history| - 1], start), last.env);
    }
  }

  /** No session of any history of sessions - of whatever programs with whatever keys, ended
      however - meets a protocol error: no branch is deleted while it is checked out and no
      fresh branch is refused; no step has two log records; writing is never allowed twice;
      nothing is left unwritten at the end of a stage.

      Branches of recorded steps and `main` stay as they are, the log only grows, by rows that
      bear the time of their insertion, and a session submits its tasks in increasing order of
      their order vectors; two of them share one only if the row of the earlier could not be
      read. */
  lemma SessionsAreSafe<C>(history: seq<Attempt<C>>, p: Program<C>, env: Env, main: C)
    ensures var disk := After(history, FirstDisk(main));
            var (w, r) := Session(p, disk, env);
            && !ProtocolError(r)
            && SafeDisk(w.log, w.store.heads)
            && disk.log <= w.log && Stamped(|disk.log|, w.log, env.clock)
            && Immutable(disk.log, disk.heads, w.store.heads)
            && w.store.heads[None] == main
            && Increasing(w.log, w.submitted)
            && (!Killed(r) ==> w.access == RO && |w.stack| == 1 && Clean(w.store))
  {
    FirstDiskIsSafe(main);
    HistoryIsSafe(history, FirstDisk(main));
    SessionIsSafe(p, After(history, FirstDisk(main)), env);
  }

  /** A context opened for the first time: nothing logged, only `main`. */
  lemma FirstDiskIsSafe<C>(main: C)
    ensures SafeDisk(FirstDisk(main).log, FirstDisk(main).heads)
  {
  }

  // -------------------------------------------------------------------- the row that counts

  /** The clock never stands still, and goes on from the rows that are there. */
  ghost predicate GoesOn(log: seq<Record>, clock: nat -> int) {
    && (forall i: nat, j: nat | |log| <= i < j :: clock(i) < clock(j))
    && forall r <- log :: r.finish < clock(|log|)
  }

  /** So it is in every session of a history. */
  ghost predicate ClockGoesOn<C>(history: seq<Attempt<C>>, start: Disk<C>)
    requires None in start.heads
    decreases |history|
  {
    history != [] ==>
      var before, last := history[..|history| - 1], history[|history| - 1];
      ClockGoesOn(before, start) && GoesOn(After(before, start).log, last.env.clock)
  }

  ghost predicate Ticking(log: seq<Record>) {
    forall i, j | 0 <= i < j < |log| :: log[i].finish < log[j].finish
  }

  lemma StampedTicks(log: seq<Record>, log': seq<Record>, clock: nat -> int)
    requires Ticking(log) && log <= log' && Stamped(|log|, log', clock) && GoesOn(log, clock)
    ensures Ticking(log')
  {
    forall i, j | 0 <= i < j < |log'| ensures log'[i].finish < log'[j].finish {
      if i < |log| <= j { assert log'[i] in log && clock(|log|) <= clock(j); }
    }
  }

  lemma {:induction false} HistoryTicks<C>(history: seq<Attempt<C>>, start: Disk<C>)
    requires SafeDisk(start.log, start.heads) && Ticking(start.log) && ClockGoesOn(history, start)
    ensures Ticking(After(history, start).log)
    decreases |history|
  {
    hide AtMostOnce, RecordSafe, Ticking, GoesOn, Immutable, Increasing, Session;
    if history != [] {
      var last := history[|history| - 1];
      var disk := After(history[..|history| - 1], start);
      HistoryTicks(history[..|history| - 1], start);
      HistoryIsSafe(history[..|history| - 1], start);
      SessionIsSafe(last.program, disk, last.env);
      StampedTicks(disk.log, Session(last.program, disk, last.env).0.log, last.env.clock);
    }
  }

  /** With a clock that goes on, the row that is found for a task - a stage has one for each
      time it was run to its end - is the one inserted last, at any point of any session of
      any history. */
  lemma LastRowCounts<C>(history: seq<Attempt<C>>, main: C, c: Coordinates) returns (k: nat)
    requires ClockGoesOn(history, FirstDisk(main)) && FindLog(After(history, FirstDisk(main)).log, c).Found?
    ensures var log := After(history, FirstDisk(main)).log;
            && k < |log| && log[k].text == TextOf(c) && Load(log[k]) == Some(FindLog(log, c).record)
            && forall j | k < j < |log| :: log[j].text != TextOf(c)
  {
    hide TextOf, FindLog, Load, ClockGoesOn, After;
    FirstDiskIsSafe(main);
    HistoryTicks(history, FirstDisk(main));
    var log := After(history, FirstDisk(main)).log;
    var row := FoundIsInLog(log, c);
    k :| 0 <= k < |log| && log[k] == row;
  }

  // ------------------------------------------------------------------------- the frames

  lemma {:induction false} FrameDepths(stack: seq<Frame>, k: nat)
    requires WellFramed(stack) && k < |stack|
    ensures |stack[k].path| == k && |stack[k].order| == k + 1
    ensures k > 0 ==> ChildOf(stack[k], stack[k - 1])
    ensures stack[k].kind == Some(Step) ==> k == |stack| - 1
    decreases |stack|
  {
    if |stack| > 1 {
      if k < |stack| - 1 {
        FrameDepths(stack[..|stack| - 1], k);
        if k == |stack| - 2 { assert ChildOf(stack[k + 1], stack[k]); }
      } else {
        FrameDepths(stack[..|stack| - 1], k - 1);
      }
    }
  }

  /** Executor.current_coordinates, read from the two innermost frames. */
  function CurrentCoordinates<C>(w: World<C>): Coordinates
    requires |w.stack| >= 2 && Top(w).kind.Some?
  {
    Coordinates(Top(w).path, w.stack[|w.stack| - 2].order, Top(w).kind.value)
  }

  /** At any point of its body - after any calls `done` made so far - a task reads its own
      coordinates. */
  lemma OwnCoordinates<C>(w: World<C>, c: Coordinates, done: Program<C>)
    requires Submitted(w, c) && Unrecorded(w.log, c)
    ensures var (w1, r) := Run(done, Enter(Submit(w, c), c).0);
            !Killed(r) ==> |w1.stack| >= 2 && Top(w1).kind.Some? && CurrentCoordinates(w1) == c
  {
    EnterSafe(w, c);
    var w0 := Enter(Submit(w, c), c).0;
    var (w1, r) := Run(done, w0);
    if c.kind.Step? {
      StepBodySafe(w, c, done, w0);
    } else {
      RunSafe(done, w0);
      StageBodySafe(w, c, w0, w1, r);
    }
  }

  /** At any point of a task's body, writing is allowed exactly if the task is a step. */
  lemma WritableInSteps<C>(w: World<C>, c: Coordinates, done: Program<C>)
    requires Submitted(w, c) && Unrecorded(w.log, c)
    ensures var (w1, r) := Run(done, Enter(Submit(w, c), c).0);
            !Killed(r) ==> (w1.access == RW <==> c.kind.Step?)
  {
    hide Run, WellFramed, Increasing, AllBefore, SafeDisk, Immutable, Clean, Enter, Later;
    EnterSafe(w, c);
    var w0 := Enter(Submit(w, c), c).0;
    var (w1, r) := Run(done, w0);
    if c.kind.Step? {
      StepBodySafe(w, c, done, w0);
    } else {
      RunSafe(done, w0);
      StageBodySafe(w, c, w0, w1, r);
    }
  }
}
