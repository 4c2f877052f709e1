/** The steps a program plans, and how running it walks along that plan. */
module ExecutorPlan {
  import opened Prelude
  import opened ExecutorModel
  import opened TaskNames
  import opened BranchStore
  import opened TaskSemantics

  // ----------------------------------------------------------------- what a program plans

  datatype Planned<!C> = Planned(coordinates: Coordinates, writes: seq<C -> C>)

  /** Direct subtasks of a body. */
  function Width<C>(p: Program<C>): nat {
    match p
    case End => 0
    case Struck(_) => 0
    case Write(_, next) => Width(next)
    case Raise(_, next) => Width(next)
    case Scope(_, body, next) => Width(body) + Width(next)
    case Try(body, next) => Width(body) + Width(next)
    case Call(_, _, _, next) => 1 + Width(next)
  }

  /** What the body of a step writes until it ends or raises, and whether it ends. */
  function Done<C>(p: Program<C>): (seq<C -> C>, bool) {
    match p
    case End => ([], true)
    case Struck(_) => ([], false)
    case Write(f, next) => var (more, ends) := Done(next); ([f] + more, ends)
    case Raise(_, _) => ([], false)
    case Scope(_, body, next) =>
      var (first, ended) := Done(body);
      if ended then var (more, ends) := Done(next); (first + more, ends) else (first, false)
    case Try(body, next) => var (more, ends) := Done(next); (Done(body).0 + more, ends)
    case Call(_, _, _, _) => ([], false)
  }

  /** What the body of a step writes if nothing strikes it from outside of its handlers. */
  function Writes<C>(p: Program<C>): seq<C -> C> {
    match p
    case End => []
    case Struck(_) => []
    case Write(f, next) => [f] + Writes(next)
    case Raise(_, next) => Writes(next)
    case Scope(_, body, next) => Writes(body) + Writes(next)
    case Try(body, next) => Done(body).0 + Writes(next)
    case Call(_, _, _, next) => Writes(next)
  }

  function Advance(order: seq<int>, n: nat): (r: seq<int>)
    requires order != []
    ensures r != []
  {
    order[..|order| - 1] + [order[|order| - 1] + n]
  }

  /** The steps of a program, depth first, with their coordinates and writes. Skipping scopes
      and interruptions leave no trace here. */
  function Steps<C>(p: Program<C>, path: seq<Key>, order: seq<int>): seq<Planned<C>>
    requires order != []
    decreases p, 0
  {
    match p
    case End => []
    case Struck(_) => []
    case Write(_, next) => Steps(next, path, order)
    case Raise(_, next) => Steps(next, path, order)
    case Scope(_, body, next) => Steps(body, path, order) + Steps(next, path, Advance(order, Width(body)))
    case Try(body, next) => Steps(body, path, order) + Steps(next, path, Advance(order, Width(body)))
    case Call(key, kind, body, next) =>
      StepsOfTask(key, kind, body, path, order) + Steps(next, path, Bump(order))
  }

  /** The steps of one task. */
  function StepsOfTask<C>(key: Key, kind: Kind, body: Program<C>, path: seq<Key>, order: seq<int>): seq<Planned<C>>
    requires order != []
    decreases body, 1
  {
    if kind.Step? then [Planned(Coordinates(path + [key], order, Step), Writes(body))]
    else Steps(body, path + [key], order + [0])
  }

  function Plan<C>(p: Program<C>): seq<Planned<C>> {
    Steps(p, [], [0])
  }

  function Effect<C>(writes: seq<C -> C>, x: C): C {
    if writes == [] then x else Effect(writes[1..], writes[0](x))
  }

  /** The reference: all planned effects, once each, in order. */
  function Ideal<C>(plan: seq<Planned<C>>, main: C): C
  {
    if plan == [] then main
    else Effect(plan[|plan| - 1].writes, Ideal(plan[..|plan| - 1], main))
  }

  /** A program that nothing interrupts and that breaks no rule: steps only write, stages only
      call, top-level keys are strings. */
  predicate Uninterrupted<C>(p: Program<C>, kind: Option<Kind>) {
    match p
    case End => true
    case Struck(_) => false
    case Write(_, next) => kind == Some(Step) && Uninterrupted(next, kind)
    case Raise(_, next) => false
    case Scope(_, body, next) => Uninterrupted(body, kind) && Uninterrupted(next, kind)
    case Try(body, next) => Uninterrupted(body, kind) && Uninterrupted(next, kind)
    case Call(key, k, body, next) =>
      && CanHaveSubtasks(kind) && (kind.None? ==> key.Name?)
      && Uninterrupted(body, Some(k)) && Uninterrupted(next, kind)
  }

  predicate MentionsToBeContinued<C>(p: Program<C>) {
    match p
    case End => false
    case Struck(_) => false
    case Write(_, next) => MentionsToBeContinued(next)
    case Raise(e, next) => e.ToBeContinued? || MentionsToBeContinued(next)
    case Scope(_, body, next) => MentionsToBeContinued(body) || MentionsToBeContinued(next)
    case Try(body, next) => MentionsToBeContinued(body) || MentionsToBeContinued(next)
    case Call(_, _, body, next) => MentionsToBeContinued(body) || MentionsToBeContinued(next)
  }

  /** A session of this program ends at its first unfinished task: handlers surround only
      blocks that cannot fail, and at the top level nothing follows a task that may be to be
      continued. */
  predicate StopsAtFailure<C>(p: Program<C>, kind: Option<Kind>) {
    match p
    case End => true
    case Struck(_) => true
    case Write(_, next) => StopsAtFailure(next, kind)
    case Raise(_, next) => StopsAtFailure(next, kind)
    case Scope(_, body, next) =>
      && StopsAtFailure(body, kind) && StopsAtFailure(next, kind)
      && (kind.None? && MentionsToBeContinued(body) ==> Width(next) == 0)
    case Try(body, next) => Uninterrupted(body, kind) && StopsAtFailure(next, kind)
    case Call(_, k, body, next) =>
      && StopsAtFailure(body, Some(k)) && StopsAtFailure(next, kind)
      && (kind.None? && MentionsToBeContinued(body) ==> Width(next) == 0)
  }

  /** No stage is skipped. */
  predicate SkipsNoStage<C>(p: Program<C>) {
    match p
    case End => true
    case Struck(_) => true
    case Write(_, next) => SkipsNoStage(next)
    case Raise(_, next) => SkipsNoStage(next)
    case Scope(skip, body, next) => !skip && SkipsNoStage(body) && SkipsNoStage(next)
    case Try(body, next) => SkipsNoStage(body) && SkipsNoStage(next)
    case Call(_, _, body, next) => SkipsNoStage(body) && SkipsNoStage(next)
  }

  lemma {:induction false} UninterruptedStops<C>(p: Program<C>, kind: Option<Kind>)
    requires Uninterrupted(p, kind)
    ensures StopsAtFailure(p, kind) && !MentionsToBeContinued(p)
  {
    match p
    case End =>
    case Write(_, next) => UninterruptedStops(next, kind);
    case Scope(_, body, next) =>
      UninterruptedStops(body, kind);
      UninterruptedStops(next, kind);
    case Try(body, next) =>
      UninterruptedStops(body, kind);
      UninterruptedStops(next, kind);
    case Call(_, k, body, next) =>
      UninterruptedStops(body, Some(k));
      UninterruptedStops(next, kind);
  }

  // ------------------------------------------------------------- positions within the plan

  /** How many planned steps come before `order`. */
  function Cursor<C>(plan: seq<Planned<C>>, order: seq<int>): (n: nat)
    ensures n <= |plan|
  {
    if plan == [] then 0
    else Cursor(plan[..|plan| - 1], order) + (if Before(plan[|plan| - 1].coordinates.order, order) then 1 else 0)
  }

  /** The branch after the first `i` planned steps. */
  function At<C>(plan: seq<Planned<C>>, i: nat): Branch
    requires i <= |plan|
  {
    if i == 0 then None else Some(TextOf(plan[i - 1].coordinates))
  }

  ghost predicate WellPlanned<C>(plan: seq<Planned<C>>) {
    Sorted(plan) && forall i | 0 <= i < |plan| :: plan[i].coordinates.kind.Step?
  }

  ghost predicate Sorted<C>(plan: seq<Planned<C>>) {
    forall i, j | 0 <= i < j < |plan| :: Before(plan[i].coordinates.order, plan[j].coordinates.order)
  }

  /** `p`, run in a frame with this path and order, walks along `plan`. */
  ghost predicate Follows<C>(p: Program<C>, path: seq<Key>, order: seq<int>, plan: seq<Planned<C>>)
    requires order != []
  {
    match p
    case End => true
    case Struck(_) => true
    case Write(_, next) => Follows(next, path, order, plan)
    case Raise(_, next) => Follows(next, path, order, plan)
    case Scope(_, body, next) =>
      Follows(body, path, order, plan) && Follows(next, path, Advance(order, Width(body)), plan)
    case Try(body, next) =>
      Follows(body, path, order, plan) && Follows(next, path, Advance(order, Width(body)), plan)
    case Call(key, kind, body, next) =>
      var j := Cursor(plan, order);
      && (if kind.Step? then
            && j < |plan| && plan[j] == Planned(Coordinates(path + [key], order, Step), Writes(body))
            && Cursor(plan, Bump(order)) == j + 1
          else
            && Cursor(plan, order + [0]) == j
            && Follows(body, path + [key], order + [0], plan)
            && Cursor(plan, order + [Width(body)]) == Cursor(plan, Bump(order)))
      && Follows(next, path, Bump(order), plan)
  }

  // ------------------------------------------------- every program follows its own plan

  ghost predicate NotBefore(a: seq<int>, b: seq<int>) {
    a == b || Before(b, a)
  }

  lemma AdvanceAdds(order: seq<int>, n: nat, m: nat)
    requires order != []
    ensures Advance(Advance(order, n), m) == Advance(order, n + m)
    ensures Advance(order, 0) == order && Advance(order, 1) == Bump(order)
  {
    assert Advance(order, n)[..|order| - 1] == order[..|order| - 1];
  }

  lemma {:induction false} AdvanceOrder(order: seq<int>, n: nat)
    requires order != []
    ensures NotBefore(Advance(order, n), order)
    decreases n
  {
    AdvanceAdds(order, n, 0);
    if n > 0 {
      AdvanceAdds(order, n - 1, 1);
      AdvanceOrder(order, n - 1);
      var a := Advance(order, n - 1);
      AdvanceAdds(a, 0, 0);
      BeforeBump(a);
      NotBeforeTransitive(Bump(a), a, order);
    }
  }

  lemma NotBeforeTransitive(a: seq<int>, b: seq<int>, c: seq<int>)
    requires NotBefore(a, b) && NotBefore(b, c)
    ensures NotBefore(a, c)
  {
    if a != b && b != c { BeforeTransitive(c, b, a); }
  }

  lemma {:induction false} BeforeThenNotBefore(a: seq<int>, b: seq<int>, c: seq<int>)
    requires Before(a, b) && NotBefore(c, b)
    ensures Before(a, c) && !Before(c, a) && c != a
  {
    if c != b { BeforeTransitive(a, b, c); }
    if c == a { BeforeIrreflexive(a); }
    if Before(c, a) { BeforeTransitive(a, c, a); BeforeIrreflexive(a); }
  }

  /** A step of a body lies between the first order of the body and the one after it. */
  ghost predicate Within<C>(steps: seq<Planned<C>>, from: seq<int>, to: seq<int>) {
    forall s <- steps :: s.coordinates.kind.Step? && NotBefore(s.coordinates.order, from) && Before(s.coordinates.order, to)
  }

  lemma WithinAppend<C>(a: seq<Planned<C>>, b: seq<Planned<C>>, from: seq<int>, mid: seq<int>, to: seq<int>)
    requires Within(a, from, mid) && Within(b, mid, to) && NotBefore(mid, from) && NotBefore(to, mid)
    requires Sorted(a) && Sorted(b)
    ensures Within(a + b, from, to) && Sorted(a + b)
  {
    forall s | s in a ensures Before(s.coordinates.order, to) {
      BeforeThenNotBefore(s.coordinates.order, mid, to);
    }
    forall s | s in b ensures NotBefore(s.coordinates.order, from) {
      NotBeforeTransitive(s.coordinates.order, mid, from);
    }
    forall i, j | 0 <= i < |a| && 0 <= j < |b| ensures Before(a[i].coordinates.order, b[j].coordinates.order) {
      assert a[i] in a && b[j] in b;
      BeforeThenNotBefore(a[i].coordinates.order, mid, b[j].coordinates.order);
    }
  }

  /** Everything in a subtask at `order` lies before its next sibling. */
  lemma WithinSubtask<C>(steps: seq<Planned<C>>, order: seq<int>, n: nat)
    requires order != [] && Within(steps, order + [0], Advance(order + [0], n))
    ensures Within(steps, order, Bump(order))
  {
    assert Advance(order + [0], n) == order + [n as int];
    ExtensionBeforeBump(order, n as int);
    BeforeExtension(order, 0);
    forall s | s in steps ensures NotBefore(s.coordinates.order, order) && Before(s.coordinates.order, Bump(order)) {
      NotBeforeTransitive(s.coordinates.order, order + [0], order);
      BeforeTransitive(s.coordinates.order, order + [n as int], Bump(order));
    }
  }

  lemma BlockWithin<C>(body: Program<C>, next: Program<C>, path: seq<Key>, order: seq<int>)
    requires order != []
    requires var a := Steps(body, path, order);
             Within(a, order, Advance(order, Width(body))) && Sorted(a)
    requires var mid := Advance(order, Width(body));
             var b := Steps(next, path, mid);
             Within(b, mid, Advance(mid, Width(next))) && Sorted(b)
    ensures var steps := Steps(body, path, order) + Steps(next, path, Advance(order, Width(body)));
            Within(steps, order, Advance(order, Width(body) + Width(next))) && Sorted(steps)
  {
    hide Within, Sorted, Steps, Before, NotBefore, Advance, Width;
    var mid := Advance(order, Width(body));
    AdvanceAdds(order, Width(body), Width(next));
    AdvanceOrder(order, Width(body));
    AdvanceOrder(mid, Width(next));
    WithinAppend(Steps(body, path, order), Steps(next, path, mid), order, mid, Advance(mid, Width(next)));
  }

  lemma TaskWithin<C>(key: Key, kind: Kind, body: Program<C>, path: seq<Key>, order: seq<int>)
    requires order != []
    requires kind.Stage? ==>
               var steps := Steps(body, path + [key], order + [0]);
               Within(steps, order + [0], Advance(order + [0], Width(body))) && Sorted(steps)
    ensures var steps := StepsOfTask(key, kind, body, path, order);
            Within(steps, order, Bump(order)) && Sorted(steps)
  {
    BeforeBump(order);
    if kind.Stage? { WithinSubtask(Steps(body, path + [key], order + [0]), order, Width(body)); }
  }

  lemma CallWithin<C>(first: seq<Planned<C>>, next: Program<C>, path: seq<Key>, order: seq<int>)
    requires order != [] && Within(first, order, Bump(order)) && Sorted(first)
    requires var b := Steps(next, path, Bump(order));
             Within(b, Bump(order), Advance(Bump(order), Width(next))) && Sorted(b)
    ensures var steps := first + Steps(next, path, Bump(order));
            Within(steps, order, Advance(order, 1 + Width(next))) && Sorted(steps)
  {
    AdvanceAdds(order, 1, Width(next));
    AdvanceOrder(Bump(order), Width(next));
    BeforeBump(order);
    WithinAppend(first, Steps(next, path, Bump(order)), order, Bump(order), Advance(order, 1 + Width(next)));
  }

  lemma {:induction false} StepsWithin<C>(p: Program<C>, path: seq<Key>, order: seq<int>)
    requires order != []
    ensures Within(Steps(p, path, order), order, Advance(order, Width(p)))
    ensures Sorted(Steps(p, path, order))
  {
    hide Within, Sorted, Advance, Bump;
    match p
    case End => NoStepsWithin<C>(order, 0);
    case Struck(_) => NoStepsWithin<C>(order, 0);
    case Write(_, next) => StepsWithin(next, path, order);
    case Raise(_, next) => StepsWithin(next, path, order);
    case Scope(_, body, next) =>
      StepsWithin(body, path, order);
      StepsWithin(next, path, Advance(order, Width(body)));
      BlockWithin(body, next, path, order);
    case Try(body, next) =>
      StepsWithin(body, path, order);
      StepsWithin(next, path, Advance(order, Width(body)));
      BlockWithin(body, next, path, order);
    case Call(key, kind, body, next) =>
      if kind.Stage? { StepsWithin(body, path + [key], order + [0]); }
      AdvanceAdds(order, 1, 0);
      StepsWithin(next, path, Bump(order));
      TaskWithin(key, kind, body, path, order);
      CallWithin(StepsOfTask(key, kind, body, path, order), next, path, order);
  }

  lemma NoStepsWithin<C>(order: seq<int>, n: nat)
    requires order != []
    ensures Within<C>([], order, Advance(order, n)) && Sorted<C>([])
  {
  }

  lemma {:induction false} CursorSplit<C>(a: seq<Planned<C>>, b: seq<Planned<C>>, order: seq<int>)
    requires forall s <- a :: Before(s.coordinates.order, order)
    requires forall s <- b :: !Before(s.coordinates.order, order)
    ensures Cursor(a + b, order) == |a|
    decreases |a| + |b|
  {
    if b != [] {
      assert (a + b)[..|a| + |b| - 1] == a + b[..|b| - 1];
      CursorSplit(a, b[..|b| - 1], order);
    } else if a != [] {
      assert a + b == a && a[|a| - 1] in a;
      CursorSplit(a[..|a| - 1], [], order);
      assert a[..|a| - 1] + [] == a[..|a| - 1];
    }
  }

  /** `plan` is `before`, then the steps of some body between two orders, then `after`. */
  ghost predicate Surrounds<C>(plan: seq<Planned<C>>, before: seq<Planned<C>>, steps: seq<Planned<C>>,
                               after: seq<Planned<C>>,
                               from: seq<int>, to: seq<int>) {
    && plan == before + steps + after && NotBefore(to, from)
    && (forall s <- before :: Before(s.coordinates.order, from))
    && Within(steps, from, to)
    && (forall s <- after :: NotBefore(s.coordinates.order, to))
  }

  lemma SurroundsCursor<C>(plan: seq<Planned<C>>, before: seq<Planned<C>>, steps: seq<Planned<C>>,
                           after: seq<Planned<C>>,
                           from: seq<int>, to: seq<int>)
    requires Surrounds(plan, before, steps, after, from, to)
    ensures Cursor(plan, from) == |before| && Cursor(plan, to) == |before| + |steps|
  {
    forall s | s in steps + after ensures !Before(s.coordinates.order, from) {
      var o := s.coordinates.order;
      if s in after { NotBeforeTransitive(o, to, from); }
      assert NotBefore(o, from);
      NotBeforeIsNotBefore(o, from);
    }
    assert plan == before + (steps + after);
    CursorSplit(before, steps + after, from);
    forall s | s in before + steps ensures Before(s.coordinates.order, to) {
      if s in before { BeforeThenNotBefore(s.coordinates.order, from, to); }
    }
    forall s | s in after ensures !Before(s.coordinates.order, to) {
      NotBeforeIsNotBefore(s.coordinates.order, to);
    }
    CursorSplit(before + steps, after, to);
  }

  lemma NotBeforeIsNotBefore(a: seq<int>, b: seq<int>)
    requires NotBefore(a, b)
    ensures !Before(a, b)
  {
    BeforeIrreflexive(a);
    if a != b && Before(a, b) { BeforeTransitive(a, b, a); }
  }

  /** Two consecutive bodies. */
  lemma SurroundsSplit<C>(plan: seq<Planned<C>>, before: seq<Planned<C>>, a: seq<Planned<C>>, b: seq<Planned<C>>,
                          after: seq<Planned<C>>, from: seq<int>, mid: seq<int>, to: seq<int>)
    requires Surrounds(plan, before, a + b, after, from, to)
    requires Within(a, from, mid) && Within(b, mid, to) && NotBefore(mid, from) && NotBefore(to, mid)
    ensures Surrounds(plan, before, a, b + after, from, mid)
    ensures Surrounds(plan, before + a, b, after, mid, to)
  {
    assert before + a + (b + after) == before + (a + b) + after == (before + a) + b + after;
    forall s | s in b + after ensures NotBefore(s.coordinates.order, mid) {
      if s in after { NotBeforeTransitive(s.coordinates.order, to, mid); }
    }
    forall s | s in before + a ensures Before(s.coordinates.order, mid) {
      if s in before { BeforeThenNotBefore(s.coordinates.order, from, mid); }
    }
  }

  /** The body of a stage within the stage. */
  lemma SurroundsStage<C>(plan: seq<Planned<C>>, before: seq<Planned<C>>, steps: seq<Planned<C>>,
                          after: seq<Planned<C>>,
                          order: seq<int>, n: nat)
    requires order != [] && Surrounds(plan, before, steps, after, order, Bump(order))
    requires Within(steps, order + [0], Advance(order + [0], n))
    ensures Advance(order + [0], n) == order + [n as int]
    ensures Surrounds(plan, before, steps, after, order + [0], order + [n as int])
  {
    BeforeExtension(order, 0);
    AdvanceOrder(order + [0], n);
    ExtensionBeforeBump(order, n as int);
    forall s | s in before ensures Before(s.coordinates.order, order + [0]) {
      BeforeTransitive(s.coordinates.order, order, order + [0]);
    }
    forall s | s in after ensures NotBefore(s.coordinates.order, order + [n as int]) {
      NotBeforeTransitive(s.coordinates.order, Bump(order), order + [n as int]);
    }
  }

  lemma BlockSurrounds<C>(body: Program<C>, next: Program<C>, path: seq<Key>, order: seq<int>,
                          plan: seq<Planned<C>>, before: seq<Planned<C>>, after: seq<Planned<C>>)
    requires order != []
    requires var steps := Steps(body, path, order) + Steps(next, path, Advance(order, Width(body)));
             Surrounds(plan, before, steps, after, order, Advance(order, Width(body) + Width(next)))
    ensures var mid := Advance(order, Width(body));
            var (a, b) := (Steps(body, path, order), Steps(next, path, mid));
            && Surrounds(plan, before, a, b + after, order, mid)
            && Surrounds(plan, before + a, b, after, mid, Advance(mid, Width(next)))
  {
    hide Within, Surrounds, Advance, Bump, NotBefore;
    var mid := Advance(order, Width(body));
    var (a, b) := (Steps(body, path, order), Steps(next, path, mid));
    StepsWithin(body, path, order);
    StepsWithin(next, path, mid);
    AdvanceAdds(order, Width(body), Width(next));
    AdvanceOrder(order, Width(body));
    AdvanceOrder(mid, Width(next));
    SurroundsSplit(plan, before, a, b, after, order, mid, Advance(mid, Width(next)));
  }

  lemma CallSurrounds<C>(key: Key, kind: Kind, body: Program<C>, next: Program<C>, path: seq<Key>, order: seq<int>,
                         plan: seq<Planned<C>>, before: seq<Planned<C>>, after: seq<Planned<C>>)
    requires order != []
    requires var steps := StepsOfTask(key, kind, body, path, order) + Steps(next, path, Bump(order));
             Surrounds(plan, before, steps, after, order, Advance(order, 1 + Width(next)))
    ensures var (a, b) := (StepsOfTask(key, kind, body, path, order), Steps(next, path, Bump(order)));
            && Surrounds(plan, before, a, b + after, order, Bump(order))
            && Surrounds(plan, before + a, b, after, Bump(order), Advance(Bump(order), Width(next)))
  {
    hide Within, Surrounds, Advance, Bump, NotBefore;
    var (a, b) := (StepsOfTask(key, kind, body, path, order), Steps(next, path, Bump(order)));
    if kind.Stage? { StepsWithin(body, path + [key], order + [0]); }
    TaskWithin(key, kind, body, path, order);
    StepsWithin(next, path, Bump(order));
    AdvanceAdds(order, 1, Width(next));
    AdvanceOrder(order, 1);
    AdvanceOrder(Bump(order), Width(next));
    SurroundsSplit(plan, before, a, b, after, order, Bump(order), Advance(order, 1 + Width(next)));
  }

  lemma {:induction false} FollowsSurrounding<C>(p: Program<C>, path: seq<Key>, order: seq<int>,
                                                 plan: seq<Planned<C>>, before: seq<Planned<C>>, after: seq<Planned<C>>)
    requires order != []
    requires Surrounds(plan, before, Steps(p, path, order), after, order, Advance(order, Width(p)))
    ensures Follows(p, path, order, plan)
  {
    hide Within, Surrounds, Advance, Bump, Cursor, NotBefore;
    match p
    case End =>
    case Struck(_) =>
    case Write(_, next) => FollowsSurrounding(next, path, order, plan, before, after);
    case Raise(_, next) => FollowsSurrounding(next, path, order, plan, before, after);
    case Scope(_, body, next) =>
      BlockSurrounds(body, next, path, order, plan, before, after);
      var (a, mid) := (Steps(body, path, order), Advance(order, Width(body)));
      FollowsSurrounding(body, path, order, plan, before, Steps(next, path, mid) + after);
      FollowsSurrounding(next, path, mid, plan, before + a, after);
    case Try(body, next) =>
      BlockSurrounds(body, next, path, order, plan, before, after);
      var (a, mid) := (Steps(body, path, order), Advance(order, Width(body)));
      FollowsSurrounding(body, path, order, plan, before, Steps(next, path, mid) + after);
      FollowsSurrounding(next, path, mid, plan, before + a, after);
    case Call(key, kind, body, next) =>
      CallSurrounds(key, kind, body, next, path, order, plan, before, after);
      var (a, b) := (StepsOfTask(key, kind, body, path, order), Steps(next, path, Bump(order)));
      SurroundsCursor(plan, before, a, b + after, order, Bump(order));
      FollowsSurrounding(next, path, Bump(order), plan, before + a, after);
      if kind.Step? {
        PlannedAt(plan, before, a, b + after, order);
      } else {
        var n := Width(body);
        StepsWithin(body, path + [key], order + [0]);
        SurroundsStage(plan, before, a, b + after, order, n);
        SurroundsCursor(plan, before, a, b + after, order + [0], order + [n as int]);
        FollowsSurrounding(body, path + [key], order + [0], plan, before, b + after);
      }
  }

  lemma PlannedAt<C>(plan: seq<Planned<C>>, before: seq<Planned<C>>, a: seq<Planned<C>>, after: seq<Planned<C>>,
                     order: seq<int>)
    requires order != [] && |a| == 1 && Surrounds(plan, before, a, after, order, Bump(order))
    ensures |before| < |plan| && plan[|before|] == a[0]
  {
  }

  /** Every program follows its own plan, from the root frame on: no step before it, all of
      them behind it at the end. */
  lemma FollowsOwnPlan<C>(p: Program<C>)
    ensures Follows(p, [], [0], Plan(p)) && WellPlanned(Plan(p))
    ensures Cursor(Plan(p), [0]) == 0 && Cursor(Plan(p), Advance([0], Width(p))) == |Plan(p)|
  {
    var plan := Plan(p);
    StepsWithin(p, [], [0]);
    AdvanceOrder([0], Width(p));
    assert plan == [] + plan + [];
    SurroundsCursor(plan, [], plan, [], [0], Advance([0], Width(p)));
    FollowsSurrounding(p, [], [0], plan, [], []);
    forall i | 0 <= i < |plan| ensures plan[i].coordinates.kind.Step? {
      assert plan[i] in plan;
    }
  }

  // --------------------------------------------------------------------------- an example

  /** One top-level step that writes and then ends or is struck. */
  function OneStep<C>(key: string, f: C -> C, end: Program<C>): Program<C> {
    Call(Name(key), Step, Program.Write(f, end), End)
  }

  lemma OneStepPlan<C>(key: string, f: C -> C, end: Program<C>)
    requires end.End? || end.Struck?
    ensures Plan(OneStep(key, f, end)) == [Planned(Coordinates([Name(key)], [0], Step), [f])]
  {
    var body := Program.Write(f, end);
    assert Writes(body) == [f] + Writes(end) == [f];
    var task := Planned(Coordinates([Name(key)], [0], Step), [f]);
    assert [] + [Name(key)] == [Name(key)];
    assert StepsOfTask(Name(key), Step, body, [], [0]) == [task];
    assert Steps<C>(End, [], Bump([0])) == [];
  }

  lemma EffectOfOne<C>(f: C -> C, x: C)
    ensures Effect([f], x) == f(x)
  {
    assert Effect([f][1..], f(x)) == f(x);
  }
}
