/** Starting and stopping components as nested resources
    (thinking_injection/lifecycle.py, thinking_injection/context/simple.py). */
module Lifecycle {
  import opened Prelude
  import opened Registry
  import opened TypeOrder

  /** `except Exception` catches the first kind only; KeyboardInterrupt is of the second. */
  datatype Raisable = Regular(id: int) | Base(id: int)

  type Raised = Option<Raisable>

  datatype Kind = Injectable | Managed | Value

  /** What the calls on a component raise. */
  datatype Component = Component(
    target: Type,
    kind: Kind,
    resettable: bool,
    inject: Raised,
    initialize: Raised,
    deinitialize: Raised,
    reset: Raised)

  /** A call and what it raised. */
  datatype Event =
    | Injected(target: Type, received: set<Type>, raised: Raised)
    | Initialized(target: Type, raised: Raised)
    | Body(raised: Raised)
    | Deinitialized(target: Type, given: Raised, raised: Raised)
    | Reset(target: Type, raised: Raised)

  function Or(a: Raised, b: Raised): Raised {
    if a.Some? then a else b
  }

  /** A `finally` block that resets the component: its exception replaces the one under way. */
  function Finally(c: Component, events: seq<Event>, raised: Raised): (seq<Event>, Raised) {
    if c.kind.Injectable? && c.resettable then (events + [Reset(c.target, c.reset)], Or(c.reset, raised)) else (events, raised)
  }

  /** What a component is injected with. */
  ghost function Received(i: Index, t: Type): set<Type> {
    set p | p in i.data && Requires(i, t, p)
  }

  /** In the index of a valid registry that is what reflection says: all known implementations
      for a dependency on a collection, the one primary implementation for any other. */
  lemma ReceivedByReflection(r: Reflection, data: Data, t: Type)
    requires Indexed(r, data) && Closed(data) && AllMet(r, data) && t in data && r.concrete(t)
    ensures forall p :: p in Received(IndexOf(r, data), t) <==> exists d <- data[t].dependencies :: Injects(r, data, d, p)
  {
    hide Requires, Injects;
    var i := IndexOf(r, data);
    RegistryIsWellLinked(r, data);
    assert Resolvable(i, t);
    forall p ensures p in Received(i, t) <==> exists d <- data[t].dependencies :: Injects(r, data, d, p) {
      RequiredByReflection(r, data, t, p);
    }
  }

  /** Entering the context manager of a component. */
  ghost function Enter(i: Index, c: Component): (seq<Event>, Raised) {
    match c.kind
    case Value => ([], None)
    case Managed => ([Initialized(c.target, c.initialize)], c.initialize)
    case Injectable =>
      var injected := [Injected(c.target, Received(i, c.target), c.inject)];
      var initialized := injected + [Initialized(c.target, c.initialize)];
      if c.inject.Some? then Finally(c, injected, c.inject)
      else if c.initialize.Some? then Finally(c, initialized, c.initialize)
      else (initialized, None)
  }

  /** The exception `deinitialize` is told about. */
  function Given(raised: Raised): Raised {
    if raised.Some? && raised.value.Regular? then raised else None
  }

  /** Leaving it, with an exception under way or not. */
  function Exit(c: Component, raised: Raised): (seq<Event>, Raised) {
    if c.kind.Value? then ([], raised)
    else Finally(c, [Deinitialized(c.target, Given(raised), c.deinitialize)], Or(c.deinitialize, raised))
  }

  /** The reference: one `with` statement inside the other. */
  ghost function Nested(i: Index, cs: seq<Component>, body: Raised): (seq<Event>, Raised) {
    if cs == [] then ([Body(body)], body)
    else
      var (entered, failed) := Enter(i, cs[0]);
      if failed.Some? then (entered, failed)
      else
        var (inner, raised) := Nested(i, cs[1..], body);
        var (exited, out) := Exit(cs[0], raised);
        (entered + inner + exited, out)
  }

  // -------------------------------------------------------------------- an explicit stack

  ghost function Entered(i: Index, cs: seq<Component>): seq<Event> {
    if cs == [] then [] else Entered(i, cs[..|cs| - 1]) + Enter(i, cs[|cs| - 1]).0
  }

  /** Leaving components, the last one first; each sees the exception the later ones left. */
  function Unwind(cs: seq<Component>, raised: Raised): (seq<Event>, Raised) {
    if cs == [] then ([], raised)
    else
      var (events, out) := Exit(cs[|cs| - 1], raised);
      var (more, last) := Unwind(cs[..|cs| - 1], out);
      (events + more, last)
  }

  ghost function Wrapped(i: Index, cs: seq<Component>, inner: (seq<Event>, Raised)): (seq<Event>, Raised) {
    var (events, out) := Unwind(cs, inner.1);
    (Entered(i, cs) + inner.0 + events, out)
  }

  lemma WrapNone(i: Index, inner: (seq<Event>, Raised))
    ensures Wrapped(i, [], inner) == inner
  {
    assert [] + inner.0 + [] == inner.0;
  }

  lemma WrapOne(i: Index, cs: seq<Component>, c: Component, inner: (seq<Event>, Raised))
    requires Enter(i, c).1.None?
    ensures Wrapped(i, cs, (Enter(i, c).0 + inner.0 + Exit(c, inner.1).0, Exit(c, inner.1).1)) == Wrapped(i, cs + [c], inner)
  {
    assert (cs + [c])[..|cs|] == cs;
    var (events, out) := Exit(c, inner.1);
    var more := Unwind(cs, out).0;
    assert Entered(i, cs) + (Enter(i, c).0 + inner.0 + events) + more
        == (Entered(i, cs) + Enter(i, c).0) + inner.0 + (events + more);
  }

  lemma NestedStep(i: Index, cs: seq<Component>, k: nat, body: Raised)
    requires k < |cs|
    ensures Enter(i, cs[k]).1.None? ==>
              Wrapped(i, cs[..k], Nested(i, cs[k..], body)) == Wrapped(i, cs[..k + 1], Nested(i, cs[k + 1..], body))
    ensures Enter(i, cs[k]).1.Some? ==> Nested(i, cs[k..], body) == Enter(i, cs[k])
  {
    assert cs[k..][0] == cs[k] && cs[k..][1..] == cs[k + 1..] && cs[..k + 1] == cs[..k] + [cs[k]];
    if Enter(i, cs[k]).1.None? { WrapOne(i, cs[..k], cs[k], Nested(i, cs[k + 1..], body)); }
  }

  lemma EnteredOneMore(i: Index, cs: seq<Component>, c: Component)
    ensures Entered(i, cs + [c]) == Entered(i, cs) + Enter(i, c).0
  {
    assert (cs + [c])[..|cs|] == cs;
  }

  lemma {:induction false} AllEntered(i: Index, cs: seq<Component>, body: Raised)
    requires forall c <- cs :: Enter(i, c).1.None?
    ensures Nested(i, cs, body) == Wrapped(i, cs, ([Body(body)], body))
  {
    AllEnteredFrom(i, cs, 0, body);
    assert cs[0..] == cs && cs[..0] == [];
    WrapNone(i, Nested(i, cs, body));
  }

  lemma {:induction false} AllEnteredFrom(i: Index, cs: seq<Component>, k: nat, body: Raised)
    requires k <= |cs| && forall c <- cs :: Enter(i, c).1.None?
    ensures Wrapped(i, cs[..k], Nested(i, cs[k..], body)) == Wrapped(i, cs, ([Body(body)], body))
    decreases |cs| - k
  {
    if k == |cs| {
      assert cs[k..] == [] && cs[..k] == cs;
    } else {
      assert cs[k] in cs;
      NestedStep(i, cs, k, body);
      AllEnteredFrom(i, cs, k + 1, body);
    }
  }

  class SimpleInstanceIndex {
    const index: Index
    const construct: Type -> Result<Component, Raisable>
    var lifecycles: map<Type, Component>
    var trace: seq<Event>

    constructor (i: Index, make: Type -> Result<Component, Raisable>)
      ensures index == i && construct == make && lifecycles == map[] && trace == []
    {
      index, construct, lifecycles, trace := i, make, map[], [];
    }

    /** The instances to inject for one dependency. */
    method ResolveDependency(d: Dependency) returns (r: Result<set<Type>, string>)
      ensures r.Ok? <==> Chosen(index, d).Some? && Chosen(index, d).value <= lifecycles.Keys
      ensures r.Ok? ==> r.value == Chosen(index, d).value
    {
      var chosen := Chosen(index, d);
      if chosen.None? { return Err("nothing to inject"); }
      if !(chosen.value <= lifecycles.Keys) { return Err("no instance"); }
      return Ok(chosen.value);
    }

    /** Every dependency is resolved before `inject_requirements` is called. */
    method GatherRequirements(t: Type) returns (received: set<Type>)
      requires WellLinked(index) && t in index.data && index.concrete(t)
      requires forall p | Requires(index, t, p) :: p in lifecycles
      ensures received == Received(index, t)
    {
      received := {};
      var todo := index.data[t].dependencies;
      while todo != {}
        invariant todo <= index.data[t].dependencies
        invariant forall p <- received :: Requires(index, t, p)
        invariant forall d <- index.data[t].dependencies - todo :: Chosen(index, d).Some? && Chosen(index, d).value <= received
        decreases todo
      {
        var d :| d in todo;
        todo := todo - {d};
        assert Resolvable(index, t);
        forall p | p in Chosen(index, d).value ensures Requires(index, t, p) { }
        var r := ResolveDependency(d);
        received := received + r.value;
      }
    }

    method Note(e: Event)
      modifies this`trace
      ensures trace == old(trace) + [e]
    {
      trace := trace + [e];
    }

    method ResetFinally(c: Component, raised: Raised, ghost before: seq<Event>, ghost events: seq<Event>) returns (out: Raised)
      requires trace == before + events
      modifies this`trace
      ensures (trace, out) == (before + Finally(c, events, raised).0, Finally(c, events, raised).1)
    {
      out := raised;
      if c.kind.Injectable? && c.resettable {
        Note(Reset(c.target, c.reset));
        assert before + (events + [Reset(c.target, c.reset)]) == before + events + [Reset(c.target, c.reset)];
        out := Or(c.reset, raised);
      }
    }

    ghost predicate Ready(c: Component)
      reads this`lifecycles
    {
      && WellLinked(index) && c.target in index.data && index.concrete(c.target)
      && forall p | Requires(index, c.target, p) :: p in lifecycles
    }

    method EnterComponent(c: Component) returns (raised: Raised)
      requires Ready(c)
      modifies this`trace
      ensures trace == old(trace) + Enter(index, c).0 && raised == Enter(index, c).1
    {
      hide WellLinked, Requires;
      raised := None;
      if c.kind.Value? { return; }
      ghost var events: seq<Event> := [];
      if c.kind.Injectable? {
        var received := GatherRequirements(c.target);
        Note(Injected(c.target, received, c.inject));
        events := [Injected(c.target, received, c.inject)];
        raised := c.inject;
      }
      if raised.None? {
        Note(Initialized(c.target, c.initialize));
        assert old(trace) + (events + [Initialized(c.target, c.initialize)]) == trace;
        events := events + [Initialized(c.target, c.initialize)];
        raised := c.initialize;
      }
      if raised.Some? { raised := ResetFinally(c, raised, old(trace), events); }
    }

    method ExitComponent(c: Component, raised: Raised) returns (out: Raised)
      modifies this`trace
      ensures trace == old(trace) + Exit(c, raised).0 && out == Exit(c, raised).1
    {
      if c.kind.Value? { return raised; }
      var told := Deinitialized(c.target, Given(raised), c.deinitialize);
      Note(told);
      out := ResetFinally(c, Or(c.deinitialize, raised), old(trace), [told]);
    }

    /** Enters the components in order onto a stack, until one of them raises. */
    method EnterAll(cs: seq<Component>, ghost body: Raised) returns (stack: seq<Component>, raised: Raised, ghost failed: seq<Event>)
      requires forall c <- cs :: Ready(c)
      modifies this`trace
      ensures trace == old(trace) + Entered(index, stack) + failed
      ensures raised.None? ==> stack == cs && failed == [] && forall c <- cs :: Enter(index, c).1.None?
      ensures raised.Some? ==> Nested(index, cs, body) == Wrapped(index, stack, (failed, raised))
    {
      hide Ready, Enter, Exit, Wrapped, Nested;
      stack, raised, failed := [], None, [];
      assert cs[..0] == [] && cs[0..] == cs;
      WrapNone(index, Nested(index, cs, body));
      for k := 0 to |cs|
        invariant raised.None? && failed == [] && stack == cs[..k] && trace == old(trace) + Entered(index, stack)
        invariant (forall c <- cs :: Ready(c)) && (forall c <- cs[..k] :: Enter(index, c).1.None?)
        invariant Nested(index, cs, body) == Wrapped(index, stack, Nested(index, cs[k..], body))
      {
        NestedStep(index, cs, k, body);
        raised := EnterComponent(cs[k]);
        if raised.Some? {
          failed := Enter(index, cs[k]).0;
          return;
        }
        assert cs[..k + 1] == stack + [cs[k]];
        stack := stack + [cs[k]];
        EnteredOneMore(index, cs[..k], cs[k]);
      }
    }

    /** Enters the components, runs the body, and unwinds the stack from the top, whatever any
        of them raises. */
    method CompositeLifecycle(cs: seq<Component>, body: Raised) returns (raised: Raised)
      requires forall c <- cs :: Ready(c)
      modifies this`trace
      ensures trace == old(trace) + Nested(index, cs, body).0 && raised == Nested(index, cs, body).1
    {
      hide Enter, Exit, Ready, Entered, Nested, Unwind;
      var stack: seq<Component>;
      ghost var inner: seq<Event>;
      stack, raised, inner := EnterAll(cs, body);
      if raised.None? {
        AllEntered(index, cs, body);
        Note(Body(body));
        inner := [Body(body)];
        raised := body;
      }
      raised := UnwindStack(stack, raised);
    }

    method UnwindStack(cs: seq<Component>, pending: Raised) returns (raised: Raised)
      modifies this`trace
      ensures trace == old(trace) + Unwind(cs, pending).0 && raised == Unwind(cs, pending).1
    {
      var stack := cs;
      raised := pending;
      while stack != []
        invariant old(trace) + Unwind(cs, pending).0 == trace + Unwind(stack, raised).0
        invariant Unwind(cs, pending).1 == Unwind(stack, raised).1
        decreases |stack|
      {
        raised := ExitComponent(stack[|stack| - 1], raised);
        stack := stack[..|stack| - 1];
      }
    }

    /** Every instance can be made. */
    ghost predicate AllMade() {
      forall t | t in index.data && index.concrete(t) :: construct(t).Ok?
    }

    /** One life of the index: order the types, make an instance of each, run the composite
        lifecycle over them, forget the instances. `cs` are the components that were made. */
    method Live(body: Raised) returns (r: Result<Raised, string>, ghost cs: seq<Component>)
      requires forall t :: construct(t).Ok? ==> construct(t).value.target == t
      modifies this`lifecycles, this`trace
      ensures lifecycles == map[]
      ensures r.Ok? <==> WellLinked(index) && Acyclic(index)
      ensures r.Err? ==> trace == old(trace)
      ensures r.Ok? ==> InOrder(index, Targets(cs)) && NoDuplicates(Targets(cs))
      ensures r.Ok? ==> forall t :: t in Targets(cs) ==> t in index.data && index.concrete(t)
      ensures r.Ok? ==> forall c <- cs :: construct(c.target) == Ok(c)
      ensures r.Ok? && AllMade() ==>
                && (forall t :: t in index.data && index.concrete(t) ==> t in Targets(cs))
                && trace == old(trace) + Nested(index, cs, body).0 && r.value == Nested(index, cs, body).1
      ensures r.Ok? && !AllMade() ==>
                && trace == old(trace)
                && exists t | t in index.data && index.concrete(t) ::
                     construct(t).Err? && r.value == Some(construct(t).error) && InOrder(index, Targets(cs) + [t])
    {
      hide InOrder, Acyclic, WellLinked, NoDuplicates, Requires, Nested, LeastFirst;
      lifecycles, cs := map[], [];
      var order := Order(index);
      if order.Err? { return Err(order.error), []; }
      var made: seq<Component> := [];
      for k := 0 to |order.value|
        invariant |made| == k && Targets(made) == order.value[..k] && cs == made && trace == old(trace)
        invariant forall t :: t in order.value[..k] ==> t in lifecycles
        invariant forall j | 0 <= j < k :: construct(order.value[j]) == Ok(made[j])
      {
        var t := order.value[k];
        var c := construct(t);
        if c.Err? {
          PrefixInOrder(index, order.value, k);
          PrefixInOrder(index, order.value, k + 1);
          assert order.value[..k + 1] == Targets(made) + [t];
          lifecycles := map[];
          return Ok(Some(c.error)), made;
        }
        assert order.value[..k + 1] == order.value[..k] + [t];
        made := made + [c.value];
        cs := made;
        lifecycles := lifecycles[t := c.value];
      }
      assert order.value[..|order.value|] == order.value;
      forall c | c in made ensures Ready(c) {
        TargetIn(made, c);
        LinkedPrerequisites(index, c.target);
      }
      var raised := CompositeLifecycle(made, body);
      lifecycles := map[];
      return Ok(raised), made;
    }
  }

  function Targets(cs: seq<Component>): (ts: seq<Type>)
    ensures |ts| == |cs| && forall k | 0 <= k < |cs| :: ts[k] == cs[k].target
  {
    seq(|cs|, k requires 0 <= k < |cs| => cs[k].target)
  }

  lemma TargetIn(cs: seq<Component>, c: Component)
    requires c in cs
    ensures c.target in Targets(cs)
  {
    var k :| 0 <= k < |cs| && cs[k] == c;
    assert Targets(cs)[k] == c.target;
  }

  lemma LinkedPrerequisites(i: Index, t: Type)
    requires WellLinked(i) && t in i.data
    ensures forall p | Requires(i, t, p) :: p in i.data && i.concrete(p)
  {
    assert Resolvable(i, t);
    forall p | Requires(i, t, p) ensures i.concrete(p) { }
  }

  lemma PrefixInOrder(i: Index, ts: seq<Type>, k: nat)
    requires InOrder(i, ts) && NoDuplicates(ts) && k <= |ts|
    ensures InOrder(i, ts[..k]) && NoDuplicates(ts[..k])
  {
    hide Requires;
  }

  // --------------------------------------------------------------------- what is promised

  predicate Initialises(e: Event) {
    e.Initialized? && e.raised.None?
  }

  /** The components that were initialised. */
  function Initialisations(events: seq<Event>): seq<Type> {
    if events == [] then []
    else (if Initialises(events[0]) then [events[0].target] else []) + Initialisations(events[1..])
  }

  function Deinitialisations(events: seq<Event>): seq<Type> {
    if events == [] then []
    else (if events[0].Deinitialized? then [events[0].target] else []) + Deinitialisations(events[1..])
  }

  function Reversed(ts: seq<Type>): seq<Type> {
    if ts == [] then [] else Reversed(ts[1..]) + [ts[0]]
  }

  lemma FiltersAppend(a: seq<Event>, b: seq<Event>)
    ensures Initialisations(a + b) == Initialisations(a) + Initialisations(b)
    ensures Deinitialisations(a + b) == Deinitialisations(a) + Deinitialisations(b)
  {
    InitialisationsAppend(a, b);
    DeinitialisationsAppend(a, b);
  }

  lemma Associates(a: seq<Type>, b: seq<Type>, c: seq<Type>)
    ensures a + (b + c) == (a + b) + c
  {
  }

  lemma {:induction false} InitialisationsAppend(a: seq<Event>, b: seq<Event>)
    ensures Initialisations(a + b) == Initialisations(a) + Initialisations(b)
  {
    if a == [] {
      assert a + b == b;
    } else {
      InitialisationsAppend(a[1..], b);
      assert (a + b)[1..] == a[1..] + b;
      Associates(if Initialises(a[0]) then [a[0].target] else [], Initialisations(a[1..]), Initialisations(b));
    }
  }

  lemma {:induction false} DeinitialisationsAppend(a: seq<Event>, b: seq<Event>)
    ensures Deinitialisations(a + b) == Deinitialisations(a) + Deinitialisations(b)
  {
    if a == [] {
      assert a + b == b;
    } else {
      DeinitialisationsAppend(a[1..], b);
      assert (a + b)[1..] == a[1..] + b;
      Associates(if a[0].Deinitialized? then [a[0].target] else [], Deinitialisations(a[1..]), Deinitialisations(b));
    }
  }

  lemma {:induction false} ReversedAppend(a: seq<Type>, b: seq<Type>)
    ensures Reversed(a + b) == Reversed(b) + Reversed(a)
  {
    if a == [] {
      assert a + b == b;
    } else {
      assert (a + b)[1..] == a[1..] + b;
      ReversedAppend(a[1..], b);
    }
  }

  lemma FilterOne(e: Event)
    ensures Initialisations([e]) == if Initialises(e) then [e.target] else []
    ensures Deinitialisations([e]) == if e.Deinitialized? then [e.target] else []
  {
    assert [e][1..] == [];
  }

  lemma FinallyFilters(c: Component, events: seq<Event>, raised: Raised)
    ensures var more := Finally(c, events, raised).0;
            Initialisations(more) == Initialisations(events) && Deinitialisations(more) == Deinitialisations(events)
  {
    FilterOne(Reset(c.target, c.reset));
    FiltersAppend(events, [Reset(c.target, c.reset)]);
  }

  lemma EnterFilters(i: Index, c: Component)
    ensures Deinitialisations(Enter(i, c).0) == []
    ensures Initialisations(Enter(i, c).0) == if Enter(i, c).1.None? && !c.kind.Value? then [c.target] else []
  {
    hide Initialisations, Deinitialisations;
    var injected, initialized := Injected(c.target, Received(i, c.target), c.inject), Initialized(c.target, c.initialize);
    assert Initialisations([]) == [] == Deinitialisations([]) by { FiltersOfNothing(); }
    FilterOne(injected);
    FilterOne(initialized);
    FiltersAppend([injected], [initialized]);
    FinallyFilters(c, [injected], c.inject);
    FinallyFilters(c, [injected] + [initialized], c.initialize);
  }

  lemma FiltersOfNothing()
    ensures Initialisations([]) == [] == Deinitialisations([])
  {
  }

  lemma ExitFilters(c: Component, raised: Raised)
    ensures Initialisations(Exit(c, raised).0) == []
    ensures Deinitialisations(Exit(c, raised).0) == if c.kind.Value? then [] else [c.target]
  {
    FiltersOfNothing();
    var told := Deinitialized(c.target, Given(raised), c.deinitialize);
    FilterOne(told);
    FinallyFilters(c, [told], Or(c.deinitialize, raised));
  }

  lemma ReversedOne(a: seq<Type>, b: seq<Type>)
    requires |a| <= 1
    ensures Reversed(a + b) == Reversed(b) + a
  {
    if a == [] {
      assert a + b == b && Reversed(b) + a == Reversed(b);
    } else {
      assert (a + b)[1..] == b && [a[0]] == a;
    }
  }

  /** Whatever raises - initialisers, injections, the body, deinitialisers, resets - the
      components that were initialised are deinitialised exactly once each, in reverse. */
  lemma {:induction false} StoppedInReverse(i: Index, cs: seq<Component>, body: Raised)
    ensures var events := Nested(i, cs, body).0;
            Deinitialisations(events) == Reversed(Initialisations(events))
  {
    if cs == [] {
      FilterOne(Body(body));
    } else {
      var (entered, failed) := Enter(i, cs[0]);
      EnterFilters(i, cs[0]);
      if failed.None? {
        var (inner, raised) := Nested(i, cs[1..], body);
        StoppedInReverse(i, cs[1..], body);
        ExitFilters(cs[0], raised);
        SurroundedFilters(entered, inner, Exit(cs[0], raised).0);
      }
    }
  }

  /** What is started before and stopped after something stopped in reverse. */
  lemma SurroundedFilters(before: seq<Event>, inner: seq<Event>, after: seq<Event>)
    requires Deinitialisations(inner) == Reversed(Initialisations(inner))
    requires Deinitialisations(before) == [] == Initialisations(after)
    requires Initialisations(before) == Deinitialisations(after) && |Deinitialisations(after)| <= 1
    ensures Deinitialisations(before + inner + after) == Reversed(Initialisations(before + inner + after))
  {
    hide Initialisations, Deinitialisations;
    FiltersAppend(before + inner, after);
    FiltersAppend(before, inner);
    ReversedOne(Initialisations(before), Initialisations(inner));
    assert [] + Deinitialisations(inner) == Deinitialisations(inner);
    assert Initialisations(before) + Initialisations(inner) + [] == Initialisations(before) + Initialisations(inner);
  }

  predicate Concerns(e: Event, t: Type) {
    !e.Body? && e.target == t
  }

  /** `p` is up, initialised, whenever anything happens to `k`. */
  ghost predicate Outlives(events: seq<Event>, p: Type, k: Type) {
    forall x | 0 <= x < |events| && Concerns(events[x], k) ::
      && (exists a | 0 <= a < x :: events[a] == Initialized(p, None))
      && (exists b | x < b < |events| :: events[b].Deinitialized? && events[b].target == p)
  }

  lemma EnterConcerns(i: Index, c: Component)
    ensures forall e <- Enter(i, c).0 :: Concerns(e, c.target)
  {
  }

  lemma ExitConcerns(c: Component, raised: Raised)
    ensures forall e <- Exit(c, raised).0 :: Concerns(e, c.target)
  {
  }

  /** Events of `k` inside something that surrounds them. */
  lemma OutlivesWider(a: seq<Event>, inner: seq<Event>, b: seq<Event>, p: Type, k: Type)
    requires forall e <- a + b :: !Concerns(e, k)
    requires Outlives(inner, p, k) || (Initialized(p, None) in a && exists e <- b :: e.Deinitialized? && e.target == p)
    ensures Outlives(a + inner + b, p, k)
  {
    hide Concerns;
    var events := a + inner + b;
    forall x | 0 <= x < |a| ensures !Concerns(events[x], k) { assert events[x] == a[x] && a[x] in a + b; }
    forall x | |a| + |inner| <= x < |events| ensures !Concerns(events[x], k) {
      assert events[x] == b[x - |a| - |inner|] && b[x - |a| - |inner|] in a + b;
    }
    if Outlives(inner, p, k) {
      forall x | |a| <= x < |a| + |inner| && Concerns(events[x], k)
        ensures (exists y | 0 <= y < x :: events[y] == Initialized(p, None))
        ensures (exists y | x < y < |events| :: events[y].Deinitialized? && events[y].target == p)
      {
        assert Concerns(inner[x - |a|], k);
        var y :| 0 <= y < x - |a| && inner[y] == Initialized(p, None);
        assert events[|a| + y] == Initialized(p, None);
        var z :| x - |a| < z < |inner| && inner[z].Deinitialized? && inner[z].target == p;
        assert events[|a| + z] == inner[z];
      }
    } else {
      var y :| 0 <= y < |a| && a[y] == Initialized(p, None);
      assert events[y] == Initialized(p, None);
      var z :| 0 <= z < |b| && b[z].Deinitialized? && b[z].target == p;
      assert events[|a| + |inner| + z] == b[z];
    }
  }

  lemma TargetsTail(cs: seq<Component>)
    requires cs != []
    ensures Targets(cs)[0] == cs[0].target && Targets(cs)[1..] == Targets(cs[1..])
  {
    assert |Targets(cs)[1..]| == |Targets(cs[1..])|;
  }

  lemma SurroundingConcerns(i: Index, c: Component, raised: Raised, t: Type)
    requires t != c.target
    ensures forall e <- Enter(i, c).0 + Exit(c, raised).0 :: !Concerns(e, t)
  {
    EnterConcerns(i, c);
    ExitConcerns(c, raised);
  }

  lemma SurroundsItself(i: Index, c: Component, raised: Raised)
    requires !c.kind.Value? && Enter(i, c).1.None?
    ensures Initialized(c.target, None) in Enter(i, c).0
    ensures exists e <- Exit(c, raised).0 :: e.Deinitialized? && e.target == c.target
  {
    assert Exit(c, raised).0[0].Deinitialized?;
  }

  /** A component is up around everything that happens to the components behind it. */
  lemma {:induction false} EarlierOutlivesLater(i: Index, cs: seq<Component>, body: Raised, a: nat, b: nat)
    requires a < b < |cs| && !cs[a].kind.Value? && NoDuplicates(Targets(cs))
    ensures Outlives(Nested(i, cs, body).0, cs[a].target, cs[b].target)
  {
    hide Enter, Exit, Outlives, Concerns;
    var p, k := cs[a].target, cs[b].target;
    assert cs[0].target != k by { assert Targets(cs)[0] != Targets(cs)[b]; }
    var (entered, failed) := Enter(i, cs[0]);
    if failed.Some? {
      EnterConcerns(i, cs[0]);
      OtherOutlives(entered, cs[0].target, p, k);
    } else {
      var (inner, raised) := Nested(i, cs[1..], body);
      var exited := Exit(cs[0], raised).0;
      SurroundingConcerns(i, cs[0], raised, k);
      if a == 0 {
        SurroundsItself(i, cs[0], raised);
      } else {
        TargetsTail(cs);
        EarlierOutlivesLater(i, cs[1..], body, a - 1, b - 1);
      }
      OutlivesWider(entered, inner, exited, p, k);
    }
  }

  lemma OtherOutlives(events: seq<Event>, t: Type, p: Type, k: Type)
    requires t != k && forall e <- events :: Concerns(e, t)
    ensures Outlives(events, p, k)
  {
    forall x | 0 <= x < |events| ensures !Concerns(events[x], k) { assert events[x] in events; }
  }

  /** Dependencies outlive dependents: in an order that puts what is required first, whatever
      a component is injected with - apart from plain values, which have no lifecycle - is
      initialised before the component is injected or initialised, and is deinitialised only
      after the component has been deinitialised and reset. This holds whatever raises. */
  lemma DependenciesOutlive(i: Index, cs: seq<Component>, body: Raised, p: Component, k: Component)
    requires InOrder(i, Targets(cs)) && NoDuplicates(Targets(cs)) && (forall t <- Targets(cs) :: t in i.data)
    requires p in cs && k in cs && p.target in Received(i, k.target) && !p.kind.Value?
    ensures Outlives(Nested(i, cs, body).0, p.target, k.target)
  {
    hide Requires, Outlives, Nested;
    var b :| 0 <= b < |cs| && cs[b] == k;
    var a :| 0 <= a < |cs| && cs[a] == p;
    var ts := Targets(cs);
    assert ts[b] == k.target && ts[a] == p.target;
    assert a < b;
    EarlierOutlivesLater(i, cs, body, a, b);
  }

  lemma {:induction false} InitialisedAreTargets(i: Index, cs: seq<Component>, body: Raised)
    ensures forall t <- Initialisations(Nested(i, cs, body).0) :: t in Targets(cs)
  {
    if cs == [] {
      FilterOne(Body(body));
    } else {
      TargetsTail(cs);
      var (entered, failed) := Enter(i, cs[0]);
      EnterFilters(i, cs[0]);
      if failed.None? {
        InitialisedAreTargets(i, cs[1..], body);
        InitialisationsOf(i, cs, body);
      }
    }
  }

  lemma InitialisationsOf(i: Index, cs: seq<Component>, body: Raised)
    requires cs != [] && Enter(i, cs[0]).1.None?
    ensures Initialisations(Nested(i, cs, body).0) == (if cs[0].kind.Value? then [] else [cs[0].target]) + Initialisations(Nested(i, cs[1..], body).0)
  {
    var entered := Enter(i, cs[0]).0;
    var (inner, raised) := Nested(i, cs[1..], body);
    var exited := Exit(cs[0], raised).0;
    EnterFilters(i, cs[0]);
    ExitFilters(cs[0], raised);
    FiltersAppend(entered + inner, exited);
    FiltersAppend(entered, inner);
    hide Initialisations;
    assert Initialisations(entered) + Initialisations(inner) + [] == Initialisations(entered) + Initialisations(inner);
  }

  /** No component is initialised twice, so none is deinitialised twice either. */
  lemma {:induction false} StartedOnce(i: Index, cs: seq<Component>, body: Raised)
    requires NoDuplicates(Targets(cs))
    ensures NoDuplicates(Initialisations(Nested(i, cs, body).0))
  {
    if cs == [] {
      FilterOne(Body(body));
    } else {
      TargetsTail(cs);
      EnterFilters(i, cs[0]);
      if Enter(i, cs[0]).1.None? {
        var later := Initialisations(Nested(i, cs[1..], body).0);
        StartedOnce(i, cs[1..], body);
        InitialisationsOf(i, cs, body);
        InitialisedAreTargets(i, cs[1..], body);
        assert cs[0].target !in Targets(cs)[1..];
        assert forall x | 0 <= x < |later| :: later[x] in later;
      }
    }
  }

  /** The component cannot be started: a call on the way raises. */
  predicate Fails(c: Component) {
    !c.kind.Value? && (c.initialize.Some? || (c.kind.Injectable? && c.inject.Some?))
  }

  lemma EnterFails(i: Index, c: Component)
    ensures Enter(i, c).1.Some? <==> Fails(c)
  {
  }

  function WithLifecycle(cs: seq<Component>): seq<Type> {
    if cs == [] then [] else (if cs[0].kind.Value? then [] else [cs[0].target]) + WithLifecycle(cs[1..])
  }

  /** Components start in the given order, up to the first that fails; all of them when there
      is none. */
  lemma {:induction false} StartedInOrder(i: Index, cs: seq<Component>, body: Raised, n: nat)
    requires n <= |cs|
    requires forall k | 0 <= k < n :: !Fails(cs[k])
    requires n < |cs| ==> Fails(cs[n])
    ensures Initialisations(Nested(i, cs, body).0) == WithLifecycle(cs[..n])
  {
    hide Enter, Fails;
    if cs == [] {
      FilterOne(Body(body));
    } else {
      EnterFilters(i, cs[0]);
      EnterFails(i, cs[0]);
      if n > 0 {
        assert cs[..n][1..] == cs[1..][..n - 1];
        StartedInOrder(i, cs[1..], body, n - 1);
        InitialisationsOf(i, cs, body);
      }
    }
  }

  // ------------------------------------------------------------------------ what is raised

  /** The last exception that was raised, by whatever call. */
  function LastRaised(events: seq<Event>): Raised {
    if events == [] then None
    else if events[|events| - 1].raised.Some? then events[|events| - 1].raised
    else LastRaised(events[..|events| - 1])
  }

  /** It is that of the last call that raised at all. */
  lemma {:induction false} LastRaisedIsLast(events: seq<Event>)
    ensures LastRaised(events).None? <==> forall e <- events :: e.raised.None?
    ensures LastRaised(events).Some? ==> exists k | 0 <= k < |events| ::
              events[k].raised == LastRaised(events) && forall j | k < j < |events| :: events[j].raised.None?
  {
    if events != [] {
      var front, last := events[..|events| - 1], events[|events| - 1];
      LastRaisedIsLast(front);
      assert events == front + [last];
      if last.raised.None? && LastRaised(front).Some? {
        var k :| 0 <= k < |front| && front[k].raised == LastRaised(front) && forall j | k < j < |front| :: front[j].raised.None?;
        assert events[k] == front[k];
      }
    }
  }

  lemma {:induction false} LastRaisedAppend(a: seq<Event>, b: seq<Event>)
    ensures LastRaised(a + b) == if LastRaised(b).Some? then LastRaised(b) else LastRaised(a)
  {
    if b == [] {
      assert a + b == a;
    } else {
      LastRaisedAppend(a, b[..|b| - 1]);
      assert (a + b)[..|a + b| - 1] == a + b[..|b| - 1];
    }
  }

  lemma LastRaisedOne(e: Event)
    ensures LastRaised([e]) == e.raised
  {
    assert [e][..0] == [];
  }

  lemma FinallyRaises(c: Component, events: seq<Event>, raised: Raised)
    requires LastRaised(events) == raised || LastRaised(events).None?
    ensures var (more, out) := Finally(c, events, raised);
            && out == (if LastRaised(more).Some? then LastRaised(more) else raised)
            && (LastRaised(more).None? ==> LastRaised(events).None?)
  {
    LastRaisedOne(Reset(c.target, c.reset));
    LastRaisedAppend(events, [Reset(c.target, c.reset)]);
  }

  lemma EnterRaises(i: Index, c: Component)
    ensures Enter(i, c).1 == LastRaised(Enter(i, c).0)
    ensures forall e <- Enter(i, c).0 :: !e.Deinitialized?
  {
    hide Finally;
    var injected, initialized := Injected(c.target, Received(i, c.target), c.inject), Initialized(c.target, c.initialize);
    LastRaisedOne(injected);
    LastRaisedOne(initialized);
    LastRaisedAppend([injected], [initialized]);
    FinallyRaises(c, [injected], c.inject);
    if c.inject.None? { FinallyRaises(c, [injected] + [initialized], c.initialize); }
    FinallyAdds(c, [injected], c.inject);
    FinallyAdds(c, [injected] + [initialized], c.initialize);
  }

  lemma FinallyAdds(c: Component, events: seq<Event>, raised: Raised)
    ensures forall e <- Finally(c, events, raised).0 :: e in events || e.Reset?
  {
  }

  lemma ExitRaises(c: Component, raised: Raised)
    ensures var (events, out) := Exit(c, raised);
            out == if LastRaised(events).Some? then LastRaised(events) else raised
  {
    hide Finally;
    var told := Deinitialized(c.target, Given(raised), c.deinitialize);
    LastRaisedOne(told);
    FinallyRaises(c, [told], Or(c.deinitialize, raised));
  }

  /** The exception that comes out of a life is the last one that anything raised in it - the
      body, an injection, an initialisation, a deinitialisation or a reset -, and there is none
      exactly if nothing raised. */
  lemma {:induction false} LastExceptionLeaves(i: Index, cs: seq<Component>, body: Raised)
    ensures var (events, raised) := Nested(i, cs, body); raised == LastRaised(events)
  {
    hide Enter, Exit, LastRaised;
    if cs == [] {
      LastRaisedOne(Body(body));
    } else {
      var (entered, failed) := Enter(i, cs[0]);
      EnterRaises(i, cs[0]);
      if failed.None? {
        var (inner, raised) := Nested(i, cs[1..], body);
        var exited := Exit(cs[0], raised).0;
        LastExceptionLeaves(i, cs[1..], body);
        ExitRaises(cs[0], raised);
        LastRaisedAppend(entered, inner);
        LastRaisedAppend(entered + inner, exited);
      }
    }
  }

  /** What a component should be told at a point of a life: the last exception raised before
      it, if that is a regular one. */
  predicate ToldRight(events: seq<Event>, k: nat)
    requires k < |events|
  {
    events[k].Deinitialized? ==>
      var last := LastRaised(events[..k]);
      events[k].given == if last.Some? && last.value.Regular? then last else None
  }

  lemma ExitTells(c: Component, raised: Raised, before: seq<Event>, k: nat)
    requires LastRaised(before) == raised
    requires k < |Exit(c, raised).0|
    ensures ToldRight(before + Exit(c, raised).0, |before| + k)
  {
    var exited := Exit(c, raised).0;
    if k == 0 { assert (before + exited)[..|before|] == before; }
  }

  /** Every component that is deinitialised is told the last exception raised before, whatever
      raised it, if that is a regular one, and nothing otherwise. */
  lemma {:induction false} ToldTheLast(i: Index, cs: seq<Component>, body: Raised, k: nat)
    requires k < |Nested(i, cs, body).0|
    ensures ToldRight(Nested(i, cs, body).0, k)
  {
    hide Enter, Exit, LastRaised;
    if cs != [] {
      var (entered, failed) := Enter(i, cs[0]);
      EnterRaises(i, cs[0]);
      var events := Nested(i, cs, body).0;
      if k < |entered| {
        assert events[k] == entered[k] && entered[k] in entered;
      } else {
        var (inner, raised) := Nested(i, cs[1..], body);
        LastExceptionLeaves(i, cs[1..], body);
        LastRaisedAppend(entered, inner);
        if k < |entered| + |inner| {
          var j := k - |entered|;
          ToldTheLast(i, cs[1..], body, j);
          assert events[..k] == entered + inner[..j];
          LastRaisedAppend(entered, inner[..j]);
        } else {
          ExitTells(cs[0], raised, entered + inner, k - |entered| - |inner|);
        }
      }
    }
  }

  // ------------------------------------------------------------------- one component's life

  /** What happens to one component. */
  function Own(events: seq<Event>, t: Type): seq<Event> {
    if events == [] then []
    else (if Concerns(events[0], t) then [events[0]] else []) + Own(events[1..], t)
  }

  lemma AssociatesEvents(a: seq<Event>, b: seq<Event>, c: seq<Event>)
    ensures a + (b + c) == (a + b) + c
  {
  }

  lemma {:induction false} OwnAppend(a: seq<Event>, b: seq<Event>, t: Type)
    ensures Own(a + b, t) == Own(a, t) + Own(b, t)
  {
    if a == [] {
      assert a + b == b;
    } else {
      OwnAppend(a[1..], b, t);
      assert (a + b)[1..] == a[1..] + b;
      AssociatesEvents(if Concerns(a[0], t) then [a[0]] else [], Own(a[1..], t), Own(b, t));
    }
  }

  lemma {:induction false} OwnAll(events: seq<Event>, t: Type)
    ensures (forall e <- events :: Concerns(e, t)) ==> Own(events, t) == events
    ensures (forall e <- events :: !Concerns(e, t)) ==> Own(events, t) == []
  {
    if events != [] {
      OwnAll(events[1..], t);
      assert forall e <- events[1..] :: e in events;
      assert [events[0]] + events[1..] == events && events[0] in events;
    }
  }

  ghost function InjectedFirst(i: Index, c: Component): seq<Event> {
    if c.kind.Injectable? then [Injected(c.target, Received(i, c.target), c.inject)] else []
  }

  function ResetLast(c: Component): seq<Event> {
    if c.kind.Injectable? && c.resettable then [Reset(c.target, c.reset)] else []
  }

  /** A full life: injected, initialised, deinitialised, reset. */
  ghost function FullLife(i: Index, c: Component, given: Raised): seq<Event> {
    if c.kind.Value? then []
    else InjectedFirst(i, c) + [Initialized(c.target, None)] + [Deinitialized(c.target, given, c.deinitialize)] + ResetLast(c)
  }

  /** A life that ends while it starts: initialised in vain unless the injection failed, and
      reset. */
  ghost function CutShort(i: Index, c: Component): seq<Event> {
    if c.kind.Value? then []
    else
      InjectedFirst(i, c) +
      (if c.kind.Injectable? && c.inject.Some? then [] else [Initialized(c.target, c.initialize)]) +
      ResetLast(c)
  }

  lemma OwnSurrounded(before: seq<Event>, inner: seq<Event>, after: seq<Event>, t: Type)
    ensures Own(before + inner + after, t) == Own(before, t) + Own(inner, t) + Own(after, t)
  {
    OwnAppend(before + inner, after, t);
    OwnAppend(before, inner, t);
  }

  /** Events of other components only. */
  lemma {:induction false} NotAmong(i: Index, cs: seq<Component>, body: Raised, t: Type)
    requires t !in Targets(cs)
    ensures Own(Nested(i, cs, body).0, t) == []
  {
    hide Enter, Exit;
    if cs == [] {
      assert [Body(body)][1..] == [];
    } else {
      TargetsTail(cs);
      var c := cs[0];
      var (entered, failed) := Enter(i, c);
      EnterConcerns(i, c);
      OwnAll(entered, t);
      if failed.None? {
        var (inner, raised) := Nested(i, cs[1..], body);
        var exited := Exit(c, raised).0;
        ExitConcerns(c, raised);
        NotAmong(i, cs[1..], body, t);
        OwnAll(exited, t);
        OwnSurrounded(entered, inner, exited, t);
      }
    }
  }

  lemma LifeOfFirst(i: Index, c: Component, raised: Raised)
    ensures Enter(i, c).1.None? ==> Enter(i, c).0 + [] + Exit(c, raised).0 == FullLife(i, c, Given(raised))
    ensures Enter(i, c).1.Some? ==> Enter(i, c).0 == CutShort(i, c)
  {
  }

  /** If no component before it fails, a component lives a full life in this order, or one cut
      short when it fails itself; otherwise it is never touched - whatever else raises. */
  lemma {:induction false} LivesInOrder(i: Index, cs: seq<Component>, body: Raised, k: nat)
    requires k < |cs| && NoDuplicates(Targets(cs))
    ensures var own := Own(Nested(i, cs, body).0, cs[k].target);
            if exists j | 0 <= j < k :: Fails(cs[j]) then own == []
            else if Fails(cs[k]) then own == CutShort(i, cs[k])
            else exists given :: own == FullLife(i, cs[k], given)
  {
    hide Enter, Exit, FullLife, CutShort, Fails;
    var c, t := cs[0], cs[k].target;
    TargetsTail(cs);
    var (entered, failed) := Enter(i, c);
    EnterConcerns(i, c);
    EnterFails(i, c);
    OwnAll(entered, t);
    assert k > 0 ==> c.target != t by { assert Targets(cs)[0] == c.target && Targets(cs)[k] == t; }
    if failed.Some? {
      LifeOfFirst(i, c, None);
    } else {
      var (inner, raised) := Nested(i, cs[1..], body);
      var exited := Exit(c, raised).0;
      ExitConcerns(c, raised);
      OwnAll(exited, t);
      OwnSurrounded(entered, inner, exited, t);
      if k == 0 {
        assert t !in Targets(cs[1..]) by { assert Targets(cs)[0] == t && Targets(cs)[1..] == Targets(cs[1..]); }
        NotAmong(i, cs[1..], body, t);
        LifeOfFirst(i, c, raised);
      } else {
        LivesInOrder(i, cs[1..], body, k - 1);
        FailsBehind(cs, k);
      }
    }
  }

  lemma FailsBehind(cs: seq<Component>, k: nat)
    requires 0 < k < |cs| && !Fails(cs[0])
    ensures (exists j | 0 <= j < k :: Fails(cs[j])) <==> exists j | 0 <= j < k - 1 :: Fails(cs[1..][j])
  {
    hide Fails;
    if j :| 0 <= j < k && Fails(cs[j]) { assert cs[1..][j - 1] == cs[j]; }
  }

  /** The body is run, once, exactly if no component fails. */
  lemma {:induction false} BodyRunsOnce(i: Index, cs: seq<Component>, body: Raised)
    ensures Bodies(Nested(i, cs, body).0) == if exists c <- cs :: Fails(c) then [] else [Body(body)]
  {
    hide Enter, Exit, Fails;
    if cs == [] {
      assert [Body(body)][1..] == [];
    } else {
      var (entered, failed) := Enter(i, cs[0]);
      EnterFails(i, cs[0]);
      EnterConcerns(i, cs[0]);
      NoBodies(entered);
      assert cs == [cs[0]] + cs[1..];
      if failed.None? {
        var (inner, raised) := Nested(i, cs[1..], body);
        var exited := Exit(cs[0], raised).0;
        BodyRunsOnce(i, cs[1..], body);
        ExitConcerns(cs[0], raised);
        NoBodies(exited);
        BodiesAppend(entered + inner, exited);
        BodiesAppend(entered, inner);
      }
    }
  }

  function Bodies(events: seq<Event>): seq<Event> {
    if events == [] then []
    else (if events[0].Body? then [events[0]] else []) + Bodies(events[1..])
  }

  lemma {:induction false} BodiesAppend(a: seq<Event>, b: seq<Event>)
    ensures Bodies(a + b) == Bodies(a) + Bodies(b)
  {
    if a == [] {
      assert a + b == b;
    } else {
      BodiesAppend(a[1..], b);
      assert (a + b)[1..] == a[1..] + b;
      AssociatesEvents(if a[0].Body? then [a[0]] else [], Bodies(a[1..]), Bodies(b));
    }
  }

  lemma {:induction false} NoBodies(events: seq<Event>)
    requires forall e <- events :: !e.Body?
    ensures Bodies(events) == []
  {
    if events != [] { NoBodies(events[1..]); }
  }
}
