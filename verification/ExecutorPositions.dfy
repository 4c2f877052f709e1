/** Order vectors are positions: the numbers of a task and of the tasks around it among their
    siblings, counted from zero. */
module ExecutorPositions {
  import opened Prelude
  import opened ExecutorModel
  import opened TaskSemantics
  import opened ExecutorPlan

  datatype Task<!C> = Task(key: Key, kind: Kind, body: Program<C>)

  /** The calls that a body makes itself, those in its blocks included, in order. */
  function Subtasks<C>(p: Program<C>): (ts: seq<Task<C>>)
    ensures |ts| == Width(p)
  {
    match p
    case End => []
    case Struck(_) => []
    case Write(_, next) => Subtasks(next)
    case Raise(_, next) => Subtasks(next)
    case Scope(_, body, next) => Subtasks(body) + Subtasks(next)
    case Try(body, next) => Subtasks(body) + Subtasks(next)
    case Call(key, kind, body, next) => [Task(key, kind, body)] + Subtasks(next)
  }

  lemma {:induction false} SubtasksInside<C>(p: Program<C>, i: nat)
    requires i < Width(p)
    ensures Subtasks(p)[i].body < p
  {
    match p
    case Write(_, next) => SubtasksInside(next, i);
    case Raise(_, next) => SubtasksInside(next, i);
    case Scope(_, body, next) => if i < Width(body) { SubtasksInside(body, i); } else { SubtasksInside(next, i - Width(body)); }
    case Try(body, next) => if i < Width(body) { SubtasksInside(body, i); } else { SubtasksInside(next, i - Width(body)); }
    case Call(_, _, _, next) => if i > 0 { SubtasksInside(next, i - 1); }
  }

  /** The step at a position: its path and its writes. */
  function StepAt<C>(p: Program<C>, path: seq<Key>, at: seq<int>): Option<(seq<Key>, seq<C -> C>)>
    decreases p, 0
  {
    if at == [] || !(0 <= at[0] < Width(p)) then None
    else
      SubtasksInside(p, at[0]);
      StepIn(Subtasks(p)[at[0]], path, at[1..])
  }

  /** The task itself, or a step inside of it. */
  function StepIn<C>(t: Task<C>, path: seq<Key>, at: seq<int>): Option<(seq<Key>, seq<C -> C>)>
    decreases t.body, 1
  {
    if t.kind.Stage? then StepAt(t.body, path + [t.key], at)
    else if at == [] then Some((path + [t.key], Writes(t.body)))
    else None
  }

  /** `o` is at `order` or at a sibling of it, or inside of one. */
  ghost predicate Beside(order: seq<int>, o: seq<int>)
    requires order != []
  {
    |o| >= |order| && o[..|order| - 1] == order[..|order| - 1]
  }

  /** The position of `o` in a body that starts at `order`. */
  function Relative(order: seq<int>, o: seq<int>): seq<int>
    requires order != []
  {
    if |o| < |order| then [] else [o[|order| - 1] - order[|order| - 1]] + o[|order|..]
  }

  /** The step at `o` in a body that starts at `order`. */
  ghost function StepBeside<C>(p: Program<C>, path: seq<Key>, order: seq<int>,
                               o: seq<int>): Option<(seq<Key>, seq<C -> C>)>
    requires order != []
  {
    if Beside(order, o) then StepAt(p, path, Relative(order, o)) else None
  }

  ghost predicate Positioned<C>(p: Program<C>, path: seq<Key>, order: seq<int>, s: Planned<C>)
    requires order != []
  {
    var c := s.coordinates;
    c.kind.Step? && StepBeside(p, path, order, c.order) == Some((c.path, s.writes))
  }

  lemma RelativeAdvance(order: seq<int>, n: nat, o: seq<int>)
    requires order != []
    ensures Beside(Advance(order, n), o) <==> Beside(order, o)
    ensures Beside(order, o) ==>
              Relative(order, o) != [] && Relative(Advance(order, n), o) == [Relative(order, o)[0] - n] + Relative(order, o)[1..]
  {
    assert Advance(order, n)[..|order| - 1] == order[..|order| - 1];
  }

  lemma StepAtAppend<C>(p: Program<C>, a: Program<C>, b: Program<C>, path: seq<Key>, at: seq<int>)
    requires at != [] && Subtasks(p) == Subtasks(a) + Subtasks(b)
    ensures StepAt(p, path, at) ==
              if at[0] < Width(a) then StepAt(a, path, at) else StepAt(b, path, [at[0] - Width(a)] + at[1..])
  {
    hide Subtasks, StepIn, Width;
    var moved := [at[0] - Width(a)] + at[1..];
    assert |Subtasks(p)| == |Subtasks(a)| + |Subtasks(b)|;
    assert moved[1..] == at[1..];
  }

  lemma StepBesideAppend<C>(p: Program<C>, body: Program<C>, next: Program<C>, path: seq<Key>, order: seq<int>,
                            o: seq<int>)
    requires order != [] && Subtasks(p) == Subtasks(body) + Subtasks(next)
    ensures var (inside, behind) := (StepBeside(body, path, order, o), StepBeside(next, path, Advance(order, Width(body)), o));
            && StepBeside(p, path, order, o) == (if inside.Some? then inside else behind)
            && (inside.None? || behind.None?)
  {
    RelativeAdvance(order, Width(body), o);
    var start := Advance(order, Width(body));
    hide *;
    StepBesideIs(p, path, order, o);
    StepBesideIs(body, path, order, o);
    StepBesideIs(next, path, start, o);
    if Beside(order, o) {
      var at := Relative(order, o);
      var moved := [at[0] - Width(body)] + at[1..];
      StepAtAppend(p, body, next, path, at);
      OutOfRange(body, path, at);
      OutOfRange(next, path, moved);
      assert moved[0] == at[0] - Width(body);
    }
  }

  lemma StepBesideIs<C>(p: Program<C>, path: seq<Key>, order: seq<int>, o: seq<int>)
    requires order != []
    ensures StepBeside(p, path, order, o) == if Beside(order, o) then StepAt(p, path, Relative(order, o)) else None
  {
    hide StepAt, Relative, Beside;
  }

  lemma BlockPositioned<C>(p: Program<C>, body: Program<C>, next: Program<C>, path: seq<Key>, order: seq<int>,
                           s: Planned<C>)
    requires order != [] && Subtasks(p) == Subtasks(body) + Subtasks(next)
    ensures Positioned(p, path, order, s) <==>
              Positioned(body, path, order, s) || Positioned(next, path, Advance(order, Width(body)), s)
  {
    hide StepBeside, Advance, Subtasks, Width;
    StepBesideAppend(p, body, next, path, order, s.coordinates.order);
  }

  lemma OutOfRange<C>(p: Program<C>, path: seq<Key>, at: seq<int>)
    ensures at == [] || at[0] < 0 || at[0] >= Width(p) ==> StepAt(p, path, at).None?
  {
  }

  /** The first call and what follows it, as two blocks. */
  lemma TaskPositioned<C>(key: Key, kind: Kind, body: Program<C>, next: Program<C>, path: seq<Key>, order: seq<int>,
                          s: Planned<C>)
    requires order != []
    requires kind.Stage? ==> (s in Steps(body, path + [key], order + [0]) <==> Positioned(body, path + [key], order + [0], s))
    ensures Positioned(Call(key, kind, body, next), path, order, s) <==>
              s in StepsOfTask(key, kind, body, path, order) || Positioned(next, path, Bump(order), s)
  {
    hide Positioned, Advance, Bump;
    var alone := Call(key, kind, body, End);
    assert Subtasks(Call(key, kind, body, next)) == Subtasks(alone) + Subtasks(next);
    BlockPositioned(Call(key, kind, body, next), alone, next, path, order, s);
    AdvanceAdds(order, 1, 0);
    AlonePositioned(key, kind, body, path, order, s);
  }

  lemma StepBesideAlone<C>(key: Key, kind: Kind, body: Program<C>, path: seq<Key>, order: seq<int>, o: seq<int>)
    requires order != []
    ensures StepBeside(Call(key, kind, body, End), path, order, o) ==
              if kind.Stage? then StepBeside(body, path + [key], order + [0], o)
              else if o == order then Some((path + [key], Writes(body)))
              else None
  {
    hide Beside, Relative, StepIn;
    var p, at := Call(key, kind, body, End), Relative(order, o);
    OnlyTask(key, kind, body, path, at);
    hide StepAt;
    AtItself(order, o);
    if kind.Stage? { InsideTask(order, o); }
    OutOfRange(body, path + [key], []);
  }

  lemma OnlyTask<C>(key: Key, kind: Kind, body: Program<C>, path: seq<Key>, at: seq<int>)
    ensures StepAt(Call(key, kind, body, End), path, at) ==
              if at == [] || at[0] != 0 then None
              else if kind.Stage? then StepAt(body, path + [key], at[1..])
              else if |at| == 1 then Some((path + [key], Writes(body)))
              else None
  {
    hide Writes;
    assert Subtasks(Call(key, kind, body, End)) == [Task(key, kind, body)];
  }

  lemma AtItself(order: seq<int>, o: seq<int>)
    requires order != []
    ensures o == order <==> Beside(order, o) && |Relative(order, o)| == 1 && Relative(order, o)[0] == 0
  {
    if Beside(order, o) && |Relative(order, o)| == 1 && Relative(order, o)[0] == 0 {
      assert order == order[..|order| - 1] + [order[|order| - 1]];
      assert o == o[..|order| - 1] + [o[|order| - 1]];
    }
  }

  lemma AlonePositioned<C>(key: Key, kind: Kind, body: Program<C>, path: seq<Key>, order: seq<int>, s: Planned<C>)
    requires order != []
    requires kind.Stage? ==> (s in Steps(body, path + [key], order + [0]) <==> Positioned(body, path + [key], order + [0], s))
    ensures Positioned(Call(key, kind, body, End), path, order, s) <==> s in StepsOfTask(key, kind, body, path, order)
  {
    hide Steps, Writes, StepBeside;
    StepBesideAlone(key, kind, body, path, order, s.coordinates.order);
  }

  lemma InsideTask(order: seq<int>, o: seq<int>)
    requires order != []
    ensures Beside(order + [0], o) <==> Beside(order, o) && |Relative(order, o)| > 1 && Relative(order, o)[0] == 0
    ensures Beside(order + [0], o) ==> Relative(order + [0], o) == Relative(order, o)[1..]
  {
    assert (order + [0])[..|order|] == order;
    assert order == order[..|order| - 1] + [order[|order| - 1]];
    if |o| > |order| { assert o[..|order|] == o[..|order| - 1] + [o[|order| - 1]]; }
  }

  lemma {:induction false} StepsByPosition<C>(p: Program<C>, path: seq<Key>, order: seq<int>, s: Planned<C>)
    requires order != []
    ensures s in Steps(p, path, order) <==> Positioned(p, path, order, s)
  {
    hide Positioned, Advance, Bump;
    match p
    case End => Nothing(p, path, order, s);
    case Struck(_) => Nothing(p, path, order, s);
    case Write(_, next) =>
      StepsByPosition(next, path, order, s);
      SameSubtasks(p, next, path, order, s);
    case Raise(_, next) =>
      StepsByPosition(next, path, order, s);
      SameSubtasks(p, next, path, order, s);
    case Scope(_, body, next) =>
      StepsByPosition(body, path, order, s);
      StepsByPosition(next, path, Advance(order, Width(body)), s);
      BlockPositioned(p, body, next, path, order, s);
    case Try(body, next) =>
      StepsByPosition(body, path, order, s);
      StepsByPosition(next, path, Advance(order, Width(body)), s);
      BlockPositioned(p, body, next, path, order, s);
    case Call(key, kind, body, next) =>
      if kind.Stage? { StepsByPosition(body, path + [key], order + [0], s); }
      StepsByPosition(next, path, Bump(order), s);
      TaskPositioned(key, kind, body, next, path, order, s);
  }

  lemma Nothing<C>(p: Program<C>, path: seq<Key>, order: seq<int>, s: Planned<C>)
    requires order != [] && Width(p) == 0
    ensures !Positioned(p, path, order, s)
  {
  }

  lemma SameSubtasks<C>(p: Program<C>, q: Program<C>, path: seq<Key>, order: seq<int>, s: Planned<C>)
    requires order != [] && Subtasks(p) == Subtasks(q)
    ensures Positioned(p, path, order, s) <==> Positioned(q, path, order, s)
  {
  }

  /** A plan has exactly the steps of the program, and the coordinates of each are the keys on
      the way to it and its position. */
  lemma PlanByPosition<C>(p: Program<C>, s: Planned<C>)
    ensures s in Plan(p) <==>
              && s.coordinates.kind.Step?
              && StepAt(p, [], s.coordinates.order) == Some((s.coordinates.path, s.writes))
  {
    var o := s.coordinates.order;
    StepsByPosition(p, [], [0], s);
    if o != [] { assert Relative([0], o) == o; }
  }
}
