/** The type registry: a dependency-closed set of types with an implementations table kept
    up to date by every registration and removal (thinking_injection/registry/simple.py). */
module Registry {
  import opened Prelude

  datatype Type = Type(id: nat)

  datatype DependencyKind = SIMPLE | OPTIONAL | COLLECTIVE

  datatype Dependency = Dependency(name: string, target: Type, kind: DependencyKind)

  /** What reflection says about the types of a program. */
  datatype Reflection = Reflection(
    universe: set<Type>,
    concrete: Type -> bool,
    subclass: (Type, Type) -> bool,
    dependencies: Type -> set<Dependency>,
    hint: Type -> Option<Type>,
    name: Type -> string)

  /** The universe holds whatever its types depend on. */
  ghost predicate Sound(r: Reflection) {
    forall t <- r.universe, d <- r.dependencies(t) :: d.target in r.universe
  }

  datatype Descriptor = Descriptor(dependencies: set<Dependency>, implementations: set<Type>, forcedPrimary: Option<Type>)

  type Data = map<Type, Descriptor>

  function SetOf(ts: seq<Type>): set<Type> {
    set t | t in ts
  }

  // ---------------------------------------------------------------- what the index should be

  predicate Implements(r: Reflection, x: Type, t: Type) {
    r.concrete(x) && (x == t || r.subclass(x, t))
  }

  /** Computed from scratch: the known concrete subclasses of `t`. */
  function Implementations(r: Reflection, known: set<Type>, t: Type): set<Type> {
    set x | x in known && Implements(r, x, t)
  }

  ghost predicate Indexed(r: Reflection, data: Data) {
    forall t <- data :: data[t].implementations == Implementations(r, data.Keys, t)
  }

  /** Every stored dependency that must be met has a known target. */
  ghost predicate Closed(data: Data) {
    forall t <- data, d <- data[t].dependencies :: d.kind != OPTIONAL ==> d.target in data
  }

  /** No dependency was taken away by a removal. */
  ghost predicate Complete(r: Reflection, data: Data) {
    forall t <- data :: data[t].dependencies == r.dependencies(t)
  }

  /** `s` holds, with each of its types outside `known`, what that type cannot do without. */
  ghost predicate ClosedOutside(r: Reflection, known: set<Type>, s: set<Type>) {
    forall t <- s, d <- r.dependencies(t) :: t !in known && d.kind != OPTIONAL ==> d.target in s
  }

  /** `s` is the least set with the types of `known`, those of `ts`, and whatever the new
      ones among them cannot do without. */
  ghost predicate LeastExtension(r: Reflection, known: set<Type>, ts: set<Type>, s: set<Type>) {
    && known + ts <= s && ClosedOutside(r, known, s)
    && forall s': set<Type> | known + ts <= s' && ClosedOutside(r, known, s') :: s <= s'
  }

  // ------------------------------------------------------------------------------ registry

  class SimpleRegistry {
    const reflection: Reflection
    var data: Data

    ghost predicate Valid()
      reads this
    {
      Sound(reflection) && data.Keys <= reflection.universe && Indexed(reflection, data) && Closed(data)
    }

    constructor (r: Reflection)
      requires Sound(r)
      ensures Valid() && data == map[] && reflection == r
    {
      reflection, data := r, map[];
    }

    /** Depth-first over dependencies that must be met; known types cut the search. */
    method Scan(x: Type, ghost known: set<Type>, ghost open: set<Type>, out: set<Type>) returns (out': set<Type>)
      requires Sound(reflection) && x in reflection.universe && data.Keys <= reflection.universe
      requires data.Keys == known + out && known !! out
      requires ScannedSoFar(known, out, open)
      modifies this`data
      ensures data.Keys == known + out' && known !! out' && data.Keys <= reflection.universe
      ensures x in data && out <= out'
      ensures ScannedSoFar(known, out', open)
      ensures forall t <- old(data) :: data[t] == old(data[t])
      ensures forall t <- out' - out :: data[t] == NewDescriptor(t)
      ensures forall s: set<Type> | known + out + {x} <= s && ClosedOutside(reflection, known, s) :: out' <= s
      decreases reflection.universe - data.Keys, 1
    {
      if x in data { return out; }
      out' := out + {x};
      data := data[x := NewDescriptor(x)];
      var todo := reflection.dependencies(x);
      while todo != {}
        invariant todo <= reflection.dependencies(x)
        invariant data.Keys == known + out' && known !! out' && data.Keys <= reflection.universe
        invariant x in out' && out <= out'
        invariant ScannedSoFar(known, out', open + {x})
        invariant forall d <- reflection.dependencies(x) - todo :: d.kind != OPTIONAL ==> d.target in data
        invariant forall t <- old(data) :: data[t] == old(data[t])
        invariant forall t <- out' - out :: data[t] == NewDescriptor(t)
        invariant forall s: set<Type> | known + out + {x} <= s && ClosedOutside(reflection, known, s) :: out' <= s
        decreases todo
      {
        var d :| d in todo;
        todo := todo - {d};
        if d.kind != OPTIONAL {
          assert reflection.universe - data.Keys < reflection.universe - old(data.Keys) by {
            assert x in reflection.universe - old(data.Keys) && x !in reflection.universe - data.Keys;
          }
          out' := Scan(d.target, known, open + {x}, out');
        }
      }
    }

    /** A type on first sight. */
    function NewDescriptor(x: Type): Descriptor {
      Descriptor(reflection.dependencies(x), if reflection.concrete(x) then {x} else {}, None)
    }

    /** What the new types need is known, except for those still being scanned. */
    ghost predicate ScannedSoFar(known: set<Type>, out: set<Type>, open: set<Type>) {
      forall t <- out - open, d <- reflection.dependencies(t) :: d.kind != OPTIONAL ==> d.target in known + out
    }

    method Register(ts: seq<Type>) returns (out: set<Type>)
      requires Valid() && forall t <- ts :: t in reflection.universe
      modifies this`data
      ensures Valid()
      ensures out == data.Keys - old(data.Keys)
      ensures LeastExtension(reflection, old(data.Keys), SetOf(ts), data.Keys)
      ensures data == Registered(reflection, old(data), data.Keys)
      ensures forall t <- old(data) :: data[t] == old(data[t]).(implementations := data[t].implementations)
    {
      ghost var known := data.Keys;
      ghost var given := SetOf(ts);
      out := {};
      for i := 0 to |ts|
        invariant data.Keys == known + out && known !! out && data.Keys <= reflection.universe
        invariant forall j | 0 <= j < i :: ts[j] in data
        invariant ScannedSoFar(known, out, {})
        invariant forall t <- old(data) :: data[t] == old(data[t])
        invariant forall t <- out :: data[t] == NewDescriptor(t)
        invariant forall s: set<Type> | known + given <= s && ClosedOutside(reflection, known, s) :: out <= s
      {
        ghost var before := out;
        out := Scan(ts[i], known, {}, out);
        forall s: set<Type> | known + given <= s && ClosedOutside(reflection, known, s) ensures out <= s {
          assert known + before + {ts[i]} <= s;
        }
      }
      CrossList(known, out);
    }

    /** The table holds exactly the implementations among the pairs looked at so far. */
    ghost predicate Listed(pairs: set<(Type, Type)>)
      reads this
    {
      forall t <- data :: data[t].implementations == ImplementationsIn(reflection, data.Keys, pairs, t)
    }

    /** Only implementations differ from `before`. */
    ghost predicate SameOtherwise(before: Data)
      reads this
    {
      data.Keys == before.Keys && forall t <- data :: data[t] == before[t].(implementations := data[t].implementations)
    }

    method AddImplementation(t: Type, x: Type, ghost pairs: set<(Type, Type)>)
      requires t in data && x in data && Implements(reflection, x, t) && Listed(pairs)
      modifies this`data
      ensures SameOtherwise(old(data)) && Listed(pairs + {(x, t)})
    {
      var desc := data[t];
      data := data[t := desc.(implementations := desc.implementations + {x})];
    }

    /** Looks at one pair of types both ways. */
    method ListPair(n: Type, a: Type, ghost pairs: set<(Type, Type)>)
      requires n in data && a in data && n != a && Listed(pairs)
      modifies this`data
      ensures SameOtherwise(old(data)) && Listed(pairs + {(n, a), (a, n)})
    {
      ghost var before := data;
      ghost var seen := pairs;
      if reflection.concrete(n) && reflection.subclass(n, a) {
        AddImplementation(a, n, seen);
        seen := seen + {(n, a)};
      }
      if reflection.concrete(a) && reflection.subclass(a, n) {
        AddImplementation(n, a, seen);
        seen := seen + {(a, n)};
      }
      forall t | t in data
        ensures ImplementationsIn(reflection, data.Keys, seen, t) == ImplementationsIn(reflection, data.Keys, pairs + {(n, a), (a, n)}, t)
      {
      }
    }

    /** Looks at a new type together with every known one. */
    method ListAgainstAll(n: Type, ghost pairs: set<(Type, Type)>) returns (ghost seen: set<(Type, Type)>)
      requires n in data && (n, n) in pairs && Listed(pairs)
      modifies this`data
      ensures SameOtherwise(old(data)) && Listed(seen) && pairs <= seen
      ensures forall a <- data :: (n, a) in seen && (a, n) in seen
    {
      var others := data.Keys;
      seen := pairs;
      while others != {}
        invariant others <= data.Keys && SameOtherwise(old(data)) && Listed(seen) && pairs <= seen
        invariant forall a <- data.Keys - others :: (n, a) in seen && (a, n) in seen
        decreases others
      {
        var a :| a in others;
        others := others - {a};
        if a != n {
          ListPair(n, a, seen);
          seen := seen + {(n, a), (a, n)};
        }
      }
    }

    /** Enters every new type with its supertypes, and every type with a new supertype. */
    method CrossList(ghost known: set<Type>, out: set<Type>)
      requires data.Keys == known + out && known !! out
      requires forall t <- known :: data[t].implementations == Implementations(reflection, known, t)
      requires forall t <- out :: data[t] == NewDescriptor(t)
      modifies this`data
      ensures SameOtherwise(old(data))
      ensures forall t <- data :: data[t].implementations == Implementations(reflection, data.Keys, t)
    {
      ghost var keys := data.Keys;
      ghost var pairs := (set x, t | x in known && t in known :: (x, t)) + (set t | t in keys :: (t, t));
      ghost var first := pairs;
      assert Listed(pairs);
      var news := out;
      while news != {}
        invariant news <= out && SameOtherwise(old(data)) && Listed(pairs) && first <= pairs
        invariant forall n, a | n in out - news && a in keys :: (n, a) in pairs && (a, n) in pairs
        decreases news
      {
        var n :| n in news;
        assert (n, n) in first;
        pairs := ListAgainstAll(n, pairs);
        news := news - {n};
      }
      forall x, t | x in keys && t in keys ensures (x, t) in pairs {
        if x in known && t in known { assert (x, t) in first; }
      }
      forall t | t in data ensures ImplementationsIn(reflection, keys, pairs, t) == Implementations(reflection, keys, t) {
      }
    }

    method RemoveOne(x: Type)
      modifies this`data
      ensures data == Without(old(data), {x})
    {
      if x in data { data := data - {x}; }
      var todo := data.Keys;
      ghost var before := data;
      while todo != {}
        invariant todo <= data.Keys == before.Keys
        invariant forall t <- data :: data[t] == if t in todo then before[t] else Stripped(before[t], {x})
        decreases todo
      {
        var t :| t in todo;
        data := data[t := Stripped(data[t], {x})];
        todo := todo - {t};
      }
    }

    /** Deletes types, and every mention of them elsewhere. */
    method Remove(ts: seq<Type>)
      requires Valid()
      modifies this`data
      ensures Valid()
      ensures data == Without(old(data), SetOf(ts))
    {
      WithoutNone(data);
      assert SetOf(ts[..0]) == {};
      for i := 0 to |ts|
        invariant data == Without(old(data), SetOf(ts[..i]))
      {
        RemoveOne(ts[i]);
        WithoutMore(old(data), SetOf(ts[..i]), ts[i]);
        assert ts[..i + 1] == ts[..i] + [ts[i]];
        assert SetOf(ts[..i + 1]) == SetOf(ts[..i]) + {ts[i]};
      }
      assert ts[..|ts|] == ts;
      WithoutIsValid(reflection, old(data), SetOf(ts));
    }

    /** The primary implementation that is not forced. The result is an error where the
        source's assertion fails. */
    method FigureOutPrimary(t: Type) returns (p: Result<Option<Type>, string>)
      requires Valid() && t in data
      ensures p == Ok(UnforcedPrimary(reflection, data[t].implementations, t))
      ensures p.value.Some? ==> IsPrimary(reflection, data.Keys, t, p.value.value)
      ensures p.value.None? ==> forall x :: !IsPrimary(reflection, data.Keys, t, x)
    {
      PrimaryByReflection(reflection, data, t);
      var impls := data[t].implementations;
      var hint := reflection.hint(t);
      if hint.Some? && hint.value in impls { return Ok(hint); }
      if |impls| == 1 {
        var sole :| sole in impls;
        assert impls == {sole} by { SingletonIs(impls, sole); }
        return Ok(Some(sole));
      }
      if reflection.concrete(t) {
        if t !in impls { return Err("not its own implementation"); }
        return Ok(Some(t));
      }
      return Ok(None);
    }
  }

  lemma SingletonIs(s: set<Type>, x: Type)
    requires |s| == 1 && x in s
    ensures s == {x}
  {
    assert |s - {x}| == 0;
    assert s == {x} + (s - {x});
  }

  ghost function UnforcedPrimary(r: Reflection, impls: set<Type>, t: Type): Option<Type> {
    if r.hint(t).Some? && r.hint(t).value in impls then r.hint(t)
    else if exists x :: impls == {x} then (var x :| impls == {x}; Some(x))
    else if r.concrete(t) then Some(t)
    else None
  }

  ghost predicate KnownImplementation(r: Reflection, known: set<Type>, t: Type, x: Type) {
    x in known && Implements(r, x, t)
  }

  /** The primary hint names a known implementation. */
  ghost predicate WellHinted(r: Reflection, known: set<Type>, t: Type) {
    r.hint(t).Some? && KnownImplementation(r, known, t, r.hint(t).value)
  }

  ghost predicate SoleImplementation(r: Reflection, known: set<Type>, t: Type, x: Type) {
    KnownImplementation(r, known, t, x) && forall y | KnownImplementation(r, known, t, y) :: y == x
  }

  /** What the primary implementation of a type should be, by what is known: the hinted
      implementation; without one the sole implementation; with none or several of them, a
      concrete type itself. */
  ghost predicate IsPrimary(r: Reflection, known: set<Type>, t: Type, x: Type) {
    || (WellHinted(r, known, t) && r.hint(t) == Some(x))
    || (!WellHinted(r, known, t) && SoleImplementation(r, known, t, x))
    || (!WellHinted(r, known, t) && (forall y :: !SoleImplementation(r, known, t, y)) && r.concrete(t) && x == t)
  }

  /** The primary is the one type that should be; there is none exactly for an interface
      without a known hinted implementation and without exactly one known implementation. */
  lemma PrimaryByReflection(r: Reflection, data: Data, t: Type)
    requires Indexed(r, data) && t in data
    ensures var p := UnforcedPrimary(r, data[t].implementations, t);
            && (forall x :: p == Some(x) <==> IsPrimary(r, data.Keys, t, x))
            && (p.None? <==> !r.concrete(t) && !WellHinted(r, data.Keys, t) && forall x :: !SoleImplementation(r, data.Keys, t, x))
  {
    var impls := data[t].implementations;
    forall x ensures x in impls <==> KnownImplementation(r, data.Keys, t, x) { }
    forall x ensures impls == {x} <==> SoleImplementation(r, data.Keys, t, x) {
      if SoleImplementation(r, data.Keys, t, x) { assert forall y :: y in impls <==> y == x; }
    }
  }

  function Stripped(d: Descriptor, gone: set<Type>): Descriptor {
    Descriptor((set x | x in d.dependencies && x.target !in gone),
               d.implementations - gone,
               if d.forcedPrimary.Some? && d.forcedPrimary.value in gone then None else d.forcedPrimary)
  }

  /** The registry without some types. */
  function Without(data: Data, gone: set<Type>): Data {
    map t | t in data && t !in gone :: Stripped(data[t], gone)
  }

  lemma StrippedTwice(d: Descriptor, a: set<Type>, x: Type)
    ensures Stripped(Stripped(d, a), {x}) == Stripped(d, a + {x})
    ensures Stripped(d, {}) == d
  {
    assert Stripped(Stripped(d, a), {x}).dependencies == Stripped(d, a + {x}).dependencies;
    assert Stripped(Stripped(d, a), {x}).implementations == Stripped(d, a + {x}).implementations;
    assert Stripped(d, {}).dependencies == d.dependencies;
  }

  lemma WithoutNone(data: Data)
    ensures Without(data, {}) == data
  {
    forall t | t in data ensures Stripped(data[t], {}) == data[t] { StrippedTwice(data[t], {}, t); }
  }

  lemma WithoutMore(data: Data, a: set<Type>, x: Type)
    ensures Without(Without(data, a), {x}) == Without(data, a + {x})
  {
    forall t | t in data ensures Stripped(Stripped(data[t], a), {x}) == Stripped(data[t], a + {x}) { StrippedTwice(data[t], a, x); }
  }

  /** Removal keeps the table equal to a recomputation, and every dependency met. */
  lemma WithoutIsValid(r: Reflection, data: Data, gone: set<Type>)
    requires Indexed(r, data) && Closed(data)
    ensures Indexed(r, Without(data, gone)) && Closed(Without(data, gone))
  {
    var rest := Without(data, gone);
    forall t | t in rest ensures rest[t].implementations == Implementations(r, rest.Keys, t) {
    }
  }

  /** A registry with part of what another has. */
  ghost predicate PartOf(a: Data, b: Data) {
    forall t <- a :: t in b
      && a[t].dependencies <= b[t].dependencies && a[t].implementations <= b[t].implementations
      && (a[t].forcedPrimary.None? || a[t].forcedPrimary == b[t].forcedPrimary)
  }

  ghost predicate Mentions(data: Data, x: Type) {
    || x in data
    || (exists t <- data :: x in data[t].implementations || data[t].forcedPrimary == Some(x))
    || (exists t <- data, d <- data[t].dependencies :: d.target == x)
  }

  /** Removal takes away every mention of the types, and nothing else. */
  lemma WithoutIsLargest(data: Data, gone: set<Type>)
    ensures PartOf(Without(data, gone), data)
    ensures forall x <- gone :: !Mentions(Without(data, gone), x)
    ensures forall part: Data | PartOf(part, data) && (forall x <- gone :: !Mentions(part, x)) :: PartOf(part, Without(data, gone))
  {
    var rest := Without(data, gone);
    forall part: Data | PartOf(part, data) && (forall x <- gone :: !Mentions(part, x)) ensures PartOf(part, rest) {
      forall t | t in part
        ensures t in rest && part[t].dependencies <= rest[t].dependencies && part[t].implementations <= rest[t].implementations
        ensures part[t].forcedPrimary.None? || part[t].forcedPrimary == rest[t].forcedPrimary
      {
        assert t !in gone by { if t in gone { assert Mentions(part, t); } }
        forall d | d in part[t].dependencies ensures d in rest[t].dependencies {
          if d.target in gone { assert Mentions(part, d.target); }
        }
        forall x | x in part[t].implementations ensures x in rest[t].implementations {
          if x in gone { assert Mentions(part, x); }
        }
        if part[t].forcedPrimary.Some? && part[t].forcedPrimary.value in gone { assert Mentions(part, part[t].forcedPrimary.value); }
      }
    }
  }

  /** Implementations among some pairs of types. */
  ghost function ImplementationsIn(r: Reflection, known: set<Type>, pairs: set<(Type, Type)>, t: Type): set<Type> {
    set x | x in known && (x, t) in pairs && Implements(r, x, t)
  }

  /** The registry over the types `s`, when those of `data` were there before. */
  ghost function Registered(r: Reflection, data: Data, s: set<Type>): Data {
    map t | t in s :: Descriptor(if t in data then data[t].dependencies else r.dependencies(t),
                                 Implementations(r, s, t),
                                 if t in data then data[t].forcedPrimary else None)
  }

  // ------------------------------------------------------------------------- what follows

  /** Registering in two batches, in either order or at once, gives the same registry. */
  lemma BatchesAgree(r: Reflection, data: Data, a: set<Type>, b: set<Type>, sa: set<Type>, sab: set<Type>, s: set<Type>)
    requires LeastExtension(r, data.Keys, a, sa) && LeastExtension(r, sa, b, sab)
    requires LeastExtension(r, data.Keys, a + b, s)
    ensures s == sab
    ensures Registered(r, Registered(r, data, sa), sab) == Registered(r, data, s)
  {
    assert ClosedOutside(r, data.Keys, sab);
    assert s <= sab;
    assert ClosedOutside(r, sa, s) && sa <= s;
  }

  /** On a registry without removals, the known types are the least set that holds them, the
      given ones, and whatever its members cannot do without. */
  lemma RegisteredIsLeastClosed(r: Reflection, data: Data, ts: set<Type>, s: set<Type>)
    requires Complete(r, data) && Closed(data) && LeastExtension(r, data.Keys, ts, s)
    ensures data.Keys + ts <= s && ClosedOutside(r, {}, s)
    ensures forall s': set<Type> | data.Keys + ts <= s' && ClosedOutside(r, {}, s') :: s <= s'
    ensures Complete(r, Registered(r, data, s))
  {
    forall t, d | t in s && d in r.dependencies(t) && d.kind != OPTIONAL ensures d.target in s {
      if t in data { assert d in data[t].dependencies; }
    }
    forall s': set<Type> | data.Keys + ts <= s' && ClosedOutside(r, {}, s') ensures s <= s' {
      assert ClosedOutside(r, data.Keys, s');
    }
  }

  /** Every known concrete type is an implementation of itself and has a primary one, which
      is a known concrete type; so the assertion on the way to it cannot fail. */
  lemma ConcreteHasPrimary(r: Reflection, data: Data, t: Type)
    requires Indexed(r, data) && t in data && r.concrete(t)
    ensures t in data[t].implementations
    ensures UnforcedPrimary(r, data[t].implementations, t).Some?
    ensures var p := UnforcedPrimary(r, data[t].implementations, t).value;
            p in data && r.concrete(p) && p in data[t].implementations
  {
  }
}
