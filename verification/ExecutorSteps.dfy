/** One step that is run: what its body writes, and what is kept of it. */
module ExecutorSteps {
  import opened Prelude
  import opened ExecutorModel
  import opened TaskNames
  import opened BranchStore
  import opened TaskSemantics
  import opened ExecutorSafety
  import opened ExecutorPlan

  /** The body came to its end, so that its task is logged. */
  predicate Completed(r: Outcome) {
    r.Finished? || r.Late?
  }

  lemma {:induction false} EffectAppend<C>(a: seq<C -> C>, b: seq<C -> C>, x: C)
    ensures Effect(a + b, x) == Effect(b, Effect(a, x))
    decreases |a|
  {
    if a == [] {
      assert a + b == b;
    } else {
      assert (a + b)[1..] == a[1..] + b;
      EffectAppend(a[1..], b, a[0](x));
    }
  }

  // ------------------------------------------------------------------------- step bodies

  /** `p` wrote what it writes until it ends or raises; if it came to its end, everything. */
  ghost predicate Wrote<C>(p: Program<C>, w: World<C>, w': World<C>, r: Outcome) {
    && (!Killed(r) ==>
          && w'.store.working == Effect(Done(p).0, w.store.working)
          && (r.Finished? <==> Done(p).1))
    && (Completed(r) ==> Done(p).0 == Writes(p))
  }

  lemma WroteScope<C>(skip: bool, body: Program<C>, next: Program<C>, w: World<C>, w1: World<C>, r1: Outcome,
                      w2: World<C>, r2: Outcome)
    requires Wrote(body, w.(skipStages := skip), w1, r1) && !OfBlock(r1).Raised? && r1.Finished?
    requires Wrote(next, w1.(skipStages := w.skipStages), w2, r2)
    ensures Wrote(Scope(skip, body, next), w, w2, r2)
  {
    EffectAppend(Done(body).0, Done(next).0, w.store.working);
  }

  lemma {:induction false} ScopeWrites<C>(skip: bool, body: Program<C>, next: Program<C>, w: World<C>)
    requires Open(w) && Top(w).kind == Some(Step) && w.access == RW
    ensures var (w', r) := Run(Scope(skip, body, next), w); Wrote(Scope(skip, body, next), w, w', r)
    decreases Scope(skip, body, next), 0
  {
    hide Run, Execute, WellFramed, Effect, Connected, Writes;
    var inside := w.(skipStages := skip);
    StepBody(body, inside);
    BodyWrites(body, inside);
    var (w1, r1) := Run(body, inside);
    RunScope(skip, body, next, w);
    if !OfBlock(r1).Raised? {
      var w2 := w1.(skipStages := w.skipStages);
      StepBody(next, w2);
      BodyWrites(next, w2);
      WroteScope(skip, body, next, w, w1, r1, Run(next, w2).0, Run(next, w2).1);
    }
  }

  lemma WroteTry<C>(body: Program<C>, next: Program<C>, w: World<C>, w1: World<C>, r1: Outcome, w2: World<C>,
                    r2: Outcome)
    requires Wrote(body, w, w1, r1) && !Killed(OfBlock(r1)) && Wrote(next, w1, w2, r2)
    ensures Wrote(Try(body, next), w, w2, r2)
  {
    EffectAppend(Done(body).0, Done(next).0, w.store.working);
  }

  lemma {:induction false} TryWrites<C>(body: Program<C>, next: Program<C>, w: World<C>)
    requires Open(w) && Top(w).kind == Some(Step) && w.access == RW
    ensures var (w', r) := Run(Try(body, next), w); Wrote(Try(body, next), w, w', r)
    decreases Try(body, next), 0
  {
    hide Run, Execute, WellFramed, Effect, Connected, Writes;
    StepBody(body, w);
    BodyWrites(body, w);
    var (w1, r1) := Run(body, w);
    RunTry(body, next, w);
    if !Killed(OfBlock(r1)) {
      StepBody(next, w1);
      BodyWrites(next, w1);
      WroteTry(body, next, w, w1, r1, Run(next, w1).0, Run(next, w1).1);
    }
  }

  /** The body of a step, with its handlers, whatever happens in it. */
  lemma {:induction false} BodyWrites<C>(p: Program<C>, w: World<C>)
    requires Open(w) && Top(w).kind == Some(Step) && w.access == RW
    ensures var (w', r) := Run(p, w); Wrote(p, w, w', r)
    decreases p, 1
  {
    hide Execute, WellFramed;
    match p
    case End =>
    case Struck(_) =>
    case Raise(_, _) =>
    case Write(f, next) =>
      BodyWrites(next, w.(store := BranchStore.Write(w.store, f)));
      assert Done(p).0[1..] == Done(next).0;
    case Scope(skip, body, next) => ScopeWrites(skip, body, next, w);
    case Try(body, next) => TryWrites(body, next, w);
    case Call(key, kind, body, _) => Refused(key, kind, body, w);
  }

  lemma {:induction false} UninterruptedEnds<C>(p: Program<C>)
    requires Uninterrupted(p, Some(Step))
    ensures Done(p).1
  {
    match p
    case End =>
    case Write(_, next) => UninterruptedEnds(next);
    case Scope(_, body, next) =>
      UninterruptedEnds(body);
      UninterruptedEnds(next);
    case Try(_, next) => UninterruptedEnds(next);
  }

  lemma {:induction false} UninterruptedLives<C>(p: Program<C>, w: World<C>)
    requires Open(w) && Top(w).kind == Some(Step) && w.access == RW && Uninterrupted(p, Some(Step))
    ensures !Killed(Run(p, w).1)
    decreases p
  {
    hide Execute, WellFramed;
    match p
    case End =>
    case Write(f, next) => UninterruptedLives(next, w.(store := BranchStore.Write(w.store, f)));
    case Scope(skip, body, next) =>
      var inside := w.(skipStages := skip);
      StepBody(body, inside);
      UninterruptedLives(body, inside);
      BodyWrites(body, inside);
      UninterruptedEnds(body);
      UninterruptedLives(next, Run(body, inside).0.(skipStages := w.skipStages));
    case Try(body, next) =>
      StepBody(body, w);
      UninterruptedLives(body, w);
      BodyWrites(body, w);
      UninterruptedEnds(body);
      UninterruptedLives(next, Run(body, w).0);
  }

  // ---------------------------------------------------------------------------- the step

  /** Logged and committed; logged, but struck before the commit; or neither. */
  datatype Fate = Committed | Uncommitted | Undone

  /** What a step run from `w` does: its branch starts at the head it was entered from, and
      gets the whole effect of the body or nothing of it. */
  ghost predicate StepEffects<C>(w: World<C>, c: Coordinates, writes: seq<C -> C>, w': World<C>, fate: Fate)
    requires Open(w)
  {
    var head := w.store.heads[w.store.current];
    && w'.store.heads == w.store.heads[Some(TextOf(c)) := if fate.Committed? then Effect(writes, head) else head]
    && w'.log == w.log + (if fate.Undone? then [] else [Record(TextOf(c), w.env.clock(|w.log|), NameOf(w.latest))])
    && w'.lost == w.lost + (if fate.Uncommitted? then [TextOf(c)] else [])
    && w'.invoked == w.invoked + [c] && w'.submitted == w.submitted + [c]
    && w'.store.current == Some(TextOf(c)) && w'.latest == w.latest && w'.env == w.env
  }

  lemma StepEntered<C>(w: World<C>, c: Coordinates)
    requires Submitted(w, c) && Unrecorded(w.log, c) && c.kind.Step?
    ensures var (w1, r) := Enter(Submit(w, c), c);
            var head := w.store.heads[w.store.current];
            && r == Finished && Inside(w, c, w1)
            && w1 == Submit(w, c).(store := Store(w.store.heads[Some(TextOf(c)) := head], Some(TextOf(c)), head, false),
                                   stack := w1.stack, access := RW, invoked := w.invoked + [c])
  {
    hide WellFramed, SafeDisk, Increasing, AllBefore, Immutable, Advanced, Later, Unrecorded, TextOf;
    EnterSafe(w, c);
    FreshBranch(w.store, TextOf(c));
  }

  /** `w2` is the world at the end of the body of the step `c`, entered from `w`. */
  ghost predicate AtBodyEnd<C>(w: World<C>, c: Coordinates, writes: seq<C -> C>, w2: World<C>, r: Outcome)
    requires Open(w)
  {
    var head := w.store.heads[w.store.current];
    && w2.log == w.log && w2.latest == w.latest && w2.env == w.env && w2.lost == w.lost
    && w2.invoked == w.invoked + [c] && w2.submitted == w.submitted + [c]
    && w2.store.heads == w.store.heads[Some(TextOf(c)) := head] && w2.store.current == Some(TextOf(c))
    && (Completed(r) ==> w2.store.working == Effect(writes, head))
  }

  lemma StepBodyEnds<C>(c: Coordinates, body: Program<C>, w: World<C>)
    requires Submitted(w, c) && Unrecorded(w.log, c) && c.kind.Step?
    ensures var w1 := Enter(Submit(w, c), c).0;
            var (w2, r) := Run(body, w1);
            && RunTask(c, body, Submit(w, c)) == Conclude(w2, c, r)
            && AtBodyEnd(w, c, Writes(body), w2, r) && !r.Swallowed?
            && (!Killed(r) ==> Inside(w, c, w2))
            && (Uninterrupted(body, Some(Step)) ==> r.Finished?)
  {
    hide WellFramed, SafeDisk, Increasing, AllBefore, Immutable, Advanced, Later, Unrecorded, Effect, Run, Writes,
         TextOf;
    StepEntered(w, c);
    var w1 := Enter(Submit(w, c), c).0;
    StepBody(body, w1);
    BodyWrites(body, w1);
    StepBodySafe(w, c, body, w1);
    if Uninterrupted(body, Some(Step)) {
      UninterruptedEnds(body);
      UninterruptedLives(body, w1);
    }
  }

  function FateAfter(c: Coordinates, r: Outcome): Fate {
    if Succeeds(c, r) then Committed else if Completed(r) then Uncommitted else Undone
  }

  lemma StepKilled<C>(w: World<C>, c: Coordinates, writes: seq<C -> C>, w2: World<C>, r: Outcome)
    requires Open(w) && Open(w2) && c.kind.Step? && AtBodyEnd(w, c, writes, w2, r) && Killed(OfBlock(r))
    ensures var (w', r') := Conclude(w2, c, r);
            r' == Raised(Kill) && StepEffects(w, c, writes, w', FateAfter(c, r))
  {
    hide TextOf, Effect, Connected;
    assert w.log + [] == w.log && w.lost + [] == w.lost;
  }

  lemma StepConcluded<C>(w: World<C>, c: Coordinates, writes: seq<C -> C>, w2: World<C>, r: Outcome)
    requires Open(w) && Open(w2) && |w2.stack| >= 2 && c.kind.Step? && AtBodyEnd(w, c, writes, w2, r) && !r.Swallowed?
    ensures var w3 := AfterBody(w2, c, r);
            Open(w3) &&
            var w' := Leave(OnFinished(w3, c, Succeeds(c, r)).0);
            StepEffects(w, c, writes, w', FateAfter(c, r)) && w'.access == RO && Clean(w'.store)
  {
    hide TextOf, Effect;
    assert w.log + [] == w.log && w.lost + [] == w.lost;
  }

  /** What comes of a step depends on how its body ended. */
  lemma StepFate<C>(c: Coordinates, body: Program<C>, w: World<C>)
    requires Submitted(w, c) && Unrecorded(w.log, c) && c.kind.Step?
    ensures var fate := FateAfter(c, Run(body, Enter(Submit(w, c), c).0).1);
            var (w', r) := RunTask(c, body, Submit(w, c));
            && StepEffects(w, c, Writes(body), w', fate)
            && (r.Finished? <==> fate.Committed?)
            && (fate.Uncommitted? ==> r == Raised(Kill) || r == Raised(Interrupt) || (r == Raised(Unreadable) && CannotCommit(c)))
            && (CannotCommit(c) ==> !fate.Committed?)
            && (!Killed(r) ==> w'.access == RO && Clean(w'.store))
            && (Uninterrupted(body, Some(Step)) ==>
                  if CannotCommit(c) then r == Raised(Unreadable) && fate.Uncommitted? else r.Finished?)
  {
    hide WellFramed, SafeDisk, Increasing, AllBefore, Immutable, Advanced, Later, Unrecorded, Effect, Run, Writes,
         RunTask,
         Inside, Uninterrupted, Earlier, TextOf;
    StepBodyEnds(c, body, w);
    var (w2, r) := Run(body, Enter(Submit(w, c), c).0);
    if Killed(OfBlock(r)) {
      StepKilled(w, c, Writes(body), w2, r);
    } else {
      InsideIsDeeper(w, c, w2, r);
      ConcludeByCases(w, c, w2, r);
      StepConcluded(w, c, Writes(body), w2, r);
    }
  }

  /** Commit on success, rollback otherwise, read-only afterwards in every case but the death
      of the process. What is logged and not committed was interrupted or killed, or has a name
      that cannot be read - and such a step is never committed. */
  lemma StepOutcome<C>(c: Coordinates, body: Program<C>, w: World<C>) returns (fate: Fate)
    requires Submitted(w, c) && Unrecorded(w.log, c) && c.kind.Step?
    ensures var (w', r) := RunTask(c, body, Submit(w, c));
            && StepEffects(w, c, Writes(body), w', fate)
            && (r.Finished? <==> fate.Committed?)
            && (fate.Uncommitted? ==> r == Raised(Kill) || r == Raised(Interrupt) || (r == Raised(Unreadable) && CannotCommit(c)))
            && (CannotCommit(c) ==> !fate.Committed?)
            && (!Killed(r) ==> w'.access == RO && Clean(w'.store))
            && (Uninterrupted(body, Some(Step)) ==>
                  if CannotCommit(c) then r == Raised(Unreadable) && fate.Uncommitted? else r.Finished?)
  {
    hide WellFramed, SafeDisk, Increasing, AllBefore, Clean, Effect, Run, Writes, RunTask, StepEffects, Enter,
         Earlier, Unrecorded, TextOf;
    StepFate(c, body, w);
    fate := FateAfter(c, Run(body, Enter(Submit(w, c), c).0).1);
  }
}
