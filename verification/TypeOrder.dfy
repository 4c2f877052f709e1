/** Prerequisites of types and the order in which components are started
    (thinking_injection/registry/simple.py, thinking_injection/common/dependencies.py). */
module TypeOrder {
  import opened Prelude
  import opened Registry

  datatype Entry = Entry(dependencies: set<Dependency>, implementations: set<Type>, primary: Option<Type>)

  /** A frozen registry. */
  datatype Index = Index(data: map<Type, Entry>, concrete: Type -> bool, name: Type -> string)

  function ImplementationsOf(i: Index, t: Type): set<Type> {
    if t in i.data then i.data[t].implementations else {}
  }

  function PrimaryOf(i: Index, t: Type): Option<Type> {
    if t in i.data then i.data[t].primary else None
  }

  /** The types to inject for a dependency; None when the kind's validation raises. */
  function Chosen(i: Index, d: Dependency): Option<set<Type>> {
    var primary := PrimaryOf(i, d.target);
    match d.kind
    case SIMPLE => if primary.Some? then Some({primary.value}) else None
    case OPTIONAL => Some(if primary.Some? then {primary.value} else {})
    case COLLECTIVE => Some(ImplementationsOf(i, d.target))
  }

  /** `p` is injected into `t` through one of its dependencies. */
  predicate Requires(i: Index, t: Type, p: Type) {
    && t in i.data && i.concrete(t)
    && exists d <- i.data[t].dependencies :: Chosen(i, d).Some? && p in Chosen(i, d).value
  }

  /** Prerequisites of a known type; an error where a dependency has nothing to inject or an
      interface would be injected. */
  ghost predicate Resolvable(i: Index, t: Type) {
    t in i.data && i.concrete(t) ==>
      && (forall d <- i.data[t].dependencies :: Chosen(i, d).Some?)
      && (forall p | Requires(i, t, p) :: i.concrete(p))
  }

  /** Every prerequisite of a known type can be determined and is known. */
  ghost predicate WellLinked(i: Index) {
    forall t <- i.data :: Resolvable(i, t) && forall p | Requires(i, t, p) :: p in i.data
  }

  /** The index of a registry: forced or unforced primary implementations. */
  ghost function IndexOf(r: Reflection, data: Data): Index {
    Index(map t | t in data ::
            Entry(data[t].dependencies, data[t].implementations,
                  if data[t].forcedPrimary.Some? then data[t].forcedPrimary
                  else UnforcedPrimary(r, data[t].implementations, t)),
          r.concrete, r.name)
  }

  /** The primary implementation by what is known: the forced one, or the one that should be. */
  ghost predicate Leads(r: Reflection, data: Data, t: Type, p: Type) {
    t in data && if data[t].forcedPrimary.Some? then p == data[t].forcedPrimary.value else IsPrimary(r, data.Keys, t, p)
  }

  /** What is injected for a dependency, by what is known. */
  ghost predicate Injects(r: Reflection, data: Data, d: Dependency, p: Type) {
    match d.kind
    case SIMPLE => Leads(r, data, d.target, p)
    case OPTIONAL => Leads(r, data, d.target, p)
    case COLLECTIVE => KnownImplementation(r, data.Keys, d.target, p)
  }

  lemma PrimaryLeads(r: Reflection, data: Data, t: Type)
    requires Indexed(r, data)
    ensures forall p :: PrimaryOf(IndexOf(r, data), t) == Some(p) <==> Leads(r, data, t, p)
  {
    hide IsPrimary;
    if t in data { PrimaryByReflection(r, data, t); }
  }

  /** For a dependency on a collection of a known type these are all known implementations, no
      more and no less; otherwise the one primary implementation. Only a dependency that is
      simple fails, and only without a primary. */
  lemma ChosenByReflection(r: Reflection, data: Data, d: Dependency)
    requires Indexed(r, data) && (d.kind == COLLECTIVE ==> d.target in data)
    ensures var chosen := Chosen(IndexOf(r, data), d);
            && (chosen.None? <==> d.kind == SIMPLE && forall p :: !Leads(r, data, d.target, p))
            && (forall p :: Injects(r, data, d, p) <==> chosen.Some? && p in chosen.value)
  {
    hide Leads, UnforcedPrimary, IsPrimary;
    PrimaryLeads(r, data, d.target);
    var primary := PrimaryOf(IndexOf(r, data), d.target);
    assert primary.Some? ==> Leads(r, data, d.target, primary.value);
  }

  /** A type requires exactly what is injected for one of its dependencies, by reflection. */
  lemma RequiredByReflection(r: Reflection, data: Data, t: Type, p: Type)
    requires Indexed(r, data) && Closed(data)
    ensures Requires(IndexOf(r, data), t, p) <==>
              t in data && r.concrete(t) && exists d <- data[t].dependencies :: Injects(r, data, d, p)
  {
    hide Chosen, Injects;
    if t in data && r.concrete(t) {
      forall d | d in data[t].dependencies
        ensures Injects(r, data, d, p) <==> Chosen(IndexOf(r, data), d).Some? && p in Chosen(IndexOf(r, data), d).value
      {
        ChosenByReflection(r, data, d);
      }
    }
  }

  /** A simple dependency has a primary implementation, and a forced one is a known concrete
      type. */
  ghost predicate Met(r: Reflection, data: Data, d: Dependency) {
    && (d.kind == SIMPLE ==> exists p :: Leads(r, data, d.target, p))
    && (d.kind != COLLECTIVE && d.target in data && data[d.target].forcedPrimary.Some? ==>
          var p := data[d.target].forcedPrimary.value; p in data && r.concrete(p))
  }

  lemma InjectsByMet(r: Reflection, data: Data, d: Dependency)
    ensures Met(r, data, d) <==>
              && (d.kind == SIMPLE ==> exists p :: Leads(r, data, d.target, p))
              && (forall p | Injects(r, data, d, p) :: p in data && r.concrete(p))
  {
    hide SoleImplementation, WellHinted;
    if d.kind != COLLECTIVE && d.target in data {
      if data[d.target].forcedPrimary.Some? {
        assert Injects(r, data, d, data[d.target].forcedPrimary.value);
      } else {
        forall p | IsPrimary(r, data.Keys, d.target, p) ensures p in data && r.concrete(p) { PrimaryKnown(r, data.Keys, d.target, p); }
      }
    }
  }

  lemma PrimaryKnown(r: Reflection, known: set<Type>, t: Type, p: Type)
    requires IsPrimary(r, known, t, p) && t in known
    ensures p in known && r.concrete(p)
  {
  }

  /** What is required can be determined, and is known and concrete, exactly if the
      dependencies of the type are met. */
  lemma TypeIsWellLinked(r: Reflection, data: Data, t: Type)
    requires Indexed(r, data) && Closed(data) && t in data
    ensures var i := IndexOf(r, data);
            (Resolvable(i, t) && forall p | Requires(i, t, p) :: p in i.data) <==>
              (r.concrete(t) ==> forall d <- data[t].dependencies :: Met(r, data, d))
  {
    hide Met, Injects, Leads, Chosen;
    var i := IndexOf(r, data);
    forall d | d in data[t].dependencies ensures Met(r, data, d) <==> WellChosen(i, d) {
      ChosenByReflection(r, data, d);
      InjectsByMet(r, data, d);
    }
    if r.concrete(t) { LinkedByDependency(i, t); }
  }

  ghost predicate WellChosen(i: Index, d: Dependency) {
    Chosen(i, d).Some? && forall p | p in Chosen(i, d).value :: p in i.data && i.concrete(p)
  }

  lemma LinkedByDependency(i: Index, t: Type)
    requires t in i.data && i.concrete(t)
    ensures (Resolvable(i, t) && forall p | Requires(i, t, p) :: p in i.data) <==> forall d <- i.data[t].dependencies :: WellChosen(i, d)
  {
    hide Chosen;
    if forall d <- i.data[t].dependencies :: WellChosen(i, d) {
      forall p | Requires(i, t, p) ensures p in i.data && i.concrete(p) {
        var d :| d in i.data[t].dependencies && Chosen(i, d).Some? && p in Chosen(i, d).value;
        assert WellChosen(i, d);
      }
    }
    forall d, p | d in i.data[t].dependencies && Chosen(i, d).Some? && p in Chosen(i, d).value ensures Requires(i, t, p) { }
  }

  /** The index of a valid registry is well linked exactly if the dependencies of all known
      concrete types are met. */
  lemma RegistryIsWellLinked(r: Reflection, data: Data)
    requires Indexed(r, data) && Closed(data)
    ensures WellLinked(IndexOf(r, data)) <==> AllMet(r, data)
  {
    hide Met, Requires, Resolvable;
    forall t | t in data
      ensures (Resolvable(IndexOf(r, data), t) && forall p | Requires(IndexOf(r, data), t, p) :: p in data) <==>
                (r.concrete(t) ==> forall d <- data[t].dependencies :: Met(r, data, d))
    {
      TypeIsWellLinked(r, data, t);
    }
  }

  ghost predicate AllMet(r: Reflection, data: Data) {
    forall t <- data | r.concrete(t) :: forall d <- data[t].dependencies :: Met(r, data, d)
  }

  /** Whatever is injected into a type - every known implementation, for a collection - comes
      before the type, wherever the known concrete types are in order. */
  lemma InjectedComesFirst(r: Reflection, data: Data, order: seq<Type>, t: Type, d: Dependency, p: Type)
    requires Indexed(r, data) && Closed(data) && AllMet(r, data)
    requires InOrder(IndexOf(r, data), order) && forall x :: x in order <==> x in data && r.concrete(x)
    requires t in order && d in data[t].dependencies && Injects(r, data, d, p)
    ensures p in order
    ensures forall a, b | 0 <= a < |order| && 0 <= b < |order| && order[a] == p && order[b] == t :: a < b
  {
    hide Injects, Requires;
    RequiredByReflection(r, data, t, p);
    RegistryIsWellLinked(r, data);
    assert Resolvable(IndexOf(r, data), t);
  }

  /** A frozen registry without some types; primaries are not chosen again. */
  function IndexWithout(i: Index, gone: set<Type>): Index {
    Index(map t | t in i.data && t !in gone ::
            Entry((set d | d in i.data[t].dependencies && d.target !in gone),
                  i.data[t].implementations - gone,
                  if i.data[t].primary.Some? && i.data[t].primary.value in gone then None else i.data[t].primary),
          i.concrete, i.name)
  }

  /** Taking types out of the index agrees with taking them out of the registry in types,
      dependencies and implementations. It agrees in the primary of a type exactly if that
      primary stays, or nothing that stays could take its place. */
  lemma WithoutAgrees(r: Reflection, data: Data, gone: set<Type>, t: Type)
    requires Indexed(r, data) && t in data && t !in gone
    ensures var (a, b) := (IndexWithout(IndexOf(r, data), gone), IndexOf(r, Without(data, gone)));
            && a.data.Keys == b.data.Keys
            && a.data[t].dependencies == b.data[t].dependencies
            && a.data[t].implementations == b.data[t].implementations
            && (a.data[t].primary == b.data[t].primary <==>
                  || (PrimaryOf(IndexOf(r, data), t).Some? && PrimaryOf(IndexOf(r, data), t).value !in gone)
                  || UnforcedPrimary(r, data[t].implementations - gone, t).None?)
  {
    var impls := data[t].implementations;
    var (a, b) := (IndexWithout(IndexOf(r, data), gone), IndexOf(r, Without(data, gone)));
    assert a.data.Keys == data.Keys - gone == b.data.Keys;
    if UnforcedPrimary(r, impls, t).Some? && UnforcedPrimary(r, impls, t).value !in gone {
      PrimaryStays(r, impls, gone, t);
    }
  }

  lemma PrimaryStays(r: Reflection, impls: set<Type>, gone: set<Type>, t: Type)
    requires UnforcedPrimary(r, impls, t).Some? && UnforcedPrimary(r, impls, t).value !in gone
    requires r.concrete(t) ==> t in impls
    ensures UnforcedPrimary(r, impls - gone, t) == UnforcedPrimary(r, impls, t)
  {
    var p := UnforcedPrimary(r, impls, t).value;
    assert p in impls - gone;
    if |impls| == 1 {
      SingletonIs(impls, p);
      assert impls - gone == impls;
    } else if |impls - gone| == 1 {
      SingletonIs(impls - gone, p);
    }
  }

  /** The loop over the dependencies of a type. */
  method Prerequisites(i: Index, t: Type) returns (r: Result<set<Type>, string>)
    ensures t in i.data ==> (r.Ok? <==> Resolvable(i, t))
    ensures t in i.data && r.Ok? ==> r.value == set p | p in r.value && Requires(i, t, p)
    ensures t in i.data && r.Ok? ==> forall p | Requires(i, t, p) :: p in r.value
    ensures t !in i.data ==> r == Ok({})
  {
    var requirements: set<Type> := {};
    if i.concrete(t) && t in i.data {
      var todo := i.data[t].dependencies;
      while todo != {}
        invariant todo <= i.data[t].dependencies
        invariant forall d <- i.data[t].dependencies - todo :: Chosen(i, d).Some? && Chosen(i, d).value <= requirements
        invariant forall p <- requirements :: Requires(i, t, p)
        decreases todo
      {
        var d :| d in todo;
        var chosen := Chosen(i, d);
        if chosen.None? { return Err("nothing to inject"); }
        requirements := requirements + chosen.value;
        todo := todo - {d};
      }
      if p :| p in requirements && !i.concrete(p) { return Err("concrete type expected"); }
    }
    return Ok(requirements);
  }

  // --------------------------------------------------------------------------- the order

  /** Python's `<` on strings. */
  predicate StringLess(a: string, b: string) {
    b != "" && (a == "" || a[0] < b[0] || (a[0] == b[0] && StringLess(a[1..], b[1..])))
  }

  /** A string is less than those it begins, and than those with a greater character where the
      two first differ. */
  lemma {:induction false} StringLessMeans(a: string, b: string)
    ensures StringLess(a, b) <==>
              || a < b
              || exists k: nat | k < |a| && k < |b| :: a[..k] == b[..k] && a[k] < b[k]
  {
    if a != "" && b != "" {
      StringLessMeans(a[1..], b[1..]);
      if a[0] == b[0] {
        assert a == [a[0]] + a[1..] && b == [b[0]] + b[1..];
        forall k: nat | k < |a| - 1 && k < |b| - 1
          ensures a[1..][..k] == b[1..][..k] <==> a[..k + 1] == b[..k + 1]
        {
          assert a[..k + 1] == [a[0]] + a[1..][..k] && b[..k + 1] == [b[0]] + b[1..][..k];
          assert a[..k + 1][1..] == a[1..][..k] && b[..k + 1][1..] == b[1..][..k];
        }
        if k: nat :| k < |a| && k < |b| && a[..k] == b[..k] && a[k] < b[k] {
          assert k > 0 && a[1..][k - 1] == a[k] && b[1..][k - 1] == b[k];
          assert a[1..][..k - 1] == b[1..][..k - 1];
        }
      } else {
        forall k: nat | 0 < k < |a| && k < |b| ensures a[..k] != b[..k] { assert a[..k][0] != b[..k][0]; }
        assert a[..0] == b[..0];
      }
    }
  }

  lemma {:induction false} StringLessTotal(a: string, b: string)
    ensures a == b || StringLess(a, b) || StringLess(b, a)
    ensures !(StringLess(a, b) && StringLess(b, a))
  {
    if a != "" && b != "" && a[0] == b[0] {
      StringLessTotal(a[1..], b[1..]);
      assert a == [a[0]] + a[1..] && b == [b[0]] + b[1..];
    }
  }

  lemma {:induction false} StringLessTransitive(a: string, b: string, c: string)
    requires !StringLess(b, a) && !StringLess(c, b)
    ensures !StringLess(c, a)
  {
    if a != "" && b != "" && c != "" && a[0] == b[0] == c[0] { StringLessTransitive(a[1..], b[1..], c[1..]); }
  }

  /** None of the types `t` requires is still to come. */
  predicate Ready(i: Index, rest: set<Type>, t: Type) {
    t in rest && forall p <- rest :: !Requires(i, t, p)
  }

  ghost predicate LeastReady(i: Index, rest: set<Type>, t: Type) {
    Ready(i, rest, t) && forall x <- rest | Ready(i, rest, x) :: !StringLess(i.name(x), i.name(t))
  }

  ghost predicate DistinctNames(i: Index, types: set<Type>) {
    forall a, b | a in types && b in types && i.name(a) == i.name(b) :: a == b
  }

  /** Emit the least-named ready type, again and again. */
  ghost function Emitted(i: Index, rest: set<Type>): seq<Type>
    decreases rest
  {
    if exists t :: LeastReady(i, rest, t) then
      var t :| LeastReady(i, rest, t);
      [t] + Emitted(i, rest - {t})
    else []
  }

  function Concrete(i: Index, ts: seq<Type>): seq<Type> {
    if ts == [] then [] else (if i.concrete(ts[0]) then [ts[0]] else []) + Concrete(i, ts[1..])
  }

  ghost predicate NoDuplicates<A(!new)>(s: seq<A>) {
    forall a, b | 0 <= a < b < |s| :: s[a] != s[b]
  }

  /** No type comes before one it requires. */
  ghost predicate InOrder(i: Index, ts: seq<Type>) {
    forall a, b | 0 <= a <= b < |ts| :: !Requires(i, ts[a], ts[b])
  }

  /** A way from a type back to itself along requirements. */
  ghost predicate Cycle(i: Index, p: seq<Type>) {
    && p != []
    && (forall k | 0 <= k < |p| - 1 :: Requires(i, p[k], p[k + 1]))
    && Requires(i, p[|p| - 1], p[0])
  }

  ghost predicate Acyclic(i: Index) {
    forall p: seq<Type> :: !Cycle(i, p)
  }

  method FindLeastReady(i: Index, rest: set<Type>) returns (t: Option<Type>)
    ensures t.Some? ==> LeastReady(i, rest, t.value)
    ensures t.None? ==> forall x <- rest :: !Ready(i, rest, x)
  {
    t := None;
    var todo := rest;
    while todo != {}
      invariant todo <= rest
      invariant t.None? ==> forall x <- rest - todo :: !Ready(i, rest, x)
      invariant t.Some? ==> Ready(i, rest, t.value)
      invariant t.Some? ==> forall x <- rest - todo | Ready(i, rest, x) :: !StringLess(i.name(x), i.name(t.value))
      decreases todo
    {
      var x :| x in todo;
      todo := todo - {x};
      if Ready(i, rest, x) {
        StringLessTotal(i.name(x), i.name(x));
        if t.None? {
          t := Some(x);
        } else if StringLess(i.name(x), i.name(t.value)) {
          StringLessTotal(i.name(x), i.name(t.value));
          forall y | y in rest - todo && Ready(i, rest, y) ensures !StringLess(i.name(y), i.name(x)) {
            if y != x { StringLessTransitive(i.name(x), i.name(t.value), i.name(y)); }
          }
          t := Some(x);
        }
      }
    }
  }

  /** `all` are the types emitted so far, `rest` those still to come. */
  ghost predicate Progress(i: Index, all: seq<Type>, rest: set<Type>) {
    && rest <= i.data.Keys
    && (forall t :: t in all <==> t in i.data && t !in rest)
    && NoDuplicates(all) && InOrder(i, all)
    && (forall t <- all, p <- rest :: !Requires(i, t, p))
  }

  lemma EmitReady(i: Index, all: seq<Type>, rest: set<Type>, t: Type)
    requires Progress(i, all, rest) && Ready(i, rest, t)
    ensures Progress(i, all + [t], rest - {t})
  {
    hide Requires;
    var all' := all + [t];
    forall a, b | 0 <= a <= b < |all'| ensures !Requires(i, all'[a], all'[b]) {
      if b == |all| && a < b { assert all[a] in all; }
    }
    forall a | 0 <= a < |all| ensures all[a] != t { assert all[a] in all; }
  }

  /** All prerequisites can be determined, and are known. */
  method CheckLinks(i: Index) returns (ok: bool)
    ensures ok <==> WellLinked(i)
  {
    var todo := i.data.Keys;
    while todo != {}
      invariant todo <= i.data.Keys
      invariant forall t <- i.data.Keys - todo :: Resolvable(i, t) && forall p | Requires(i, t, p) :: p in i.data
      decreases todo
    {
      var t :| t in todo;
      todo := todo - {t};
      var needed := Prerequisites(i, t);
      if needed.Err? || exists p <- needed.value :: p !in i.data { return false; }
    }
    return true;
  }

  /** Emits every known concrete type once, after all it requires. It fails exactly when
      prerequisites are missing or cyclic. With distinct names the order is determined. */
  method Order(i: Index) returns (r: Result<seq<Type>, string>)
    ensures r.Ok? <==> WellLinked(i) && Acyclic(i)
    ensures r.Ok? ==> NoDuplicates(r.value) && InOrder(i, r.value)
    ensures r.Ok? ==> forall t :: t in r.value <==> t in i.data && i.concrete(t)
    ensures r.Ok? ==> LeastFirst(i, {}, r.value)
    ensures r.Ok? && DistinctNames(i, i.data.Keys) ==> r.value == Concrete(i, Emitted(i, i.data.Keys))
  {
    hide Requires, NoDuplicates, InOrder, Acyclic, DistinctNames, WellLinked, Progress, Emitted, Concrete, LeastReady, Ready,
         LeastFirst, LeastSoFar;
    var linked := CheckLinks(i);
    if !linked { return Err("missing prerequisites"); }
    var rest := i.data.Keys;
    var all: seq<Type> := [];
    NothingEmitted(i);
    var next := FindLeastReady(i, rest);
    while next.Some?
      invariant Progress(i, all, rest) && LeastSoFar(i, all, rest)
      invariant next.Some? ==> LeastReady(i, rest, next.value)
      invariant next.None? ==> forall x <- rest :: !Ready(i, rest, x)
      invariant DistinctNames(i, i.data.Keys) ==> Emitted(i, i.data.Keys) == all + Emitted(i, rest)
      decreases rest
    {
      var t := next.value;
      EmitLeast(i, all, rest, t);
      StillLeast(i, all, rest, t);
      assert all + ([t] + Emitted(i, rest - {t})) == (all + [t]) + Emitted(i, rest - {t});
      rest := rest - {t};
      all := all + [t];
      next := FindLeastReady(i, rest);
    }
    if rest != {} {
      StuckMeansCycle(i, rest);
      return Err("cyclic dependency graph");
    }
    AllEmitted(i, all);
    return Ok(Concrete(i, all));
  }

  lemma EmitLeast(i: Index, all: seq<Type>, rest: set<Type>, t: Type)
    requires Progress(i, all, rest) && LeastReady(i, rest, t)
    ensures t in rest && Progress(i, all + [t], rest - {t})
    ensures DistinctNames(i, i.data.Keys) ==> Emitted(i, rest) == [t] + Emitted(i, rest - {t})
  {
    EmitReady(i, all, rest, t);
    if DistinctNames(i, i.data.Keys) { EmittedStep(i, i.data.Keys, rest, t); }
  }

  lemma AllEmitted(i: Index, all: seq<Type>)
    requires WellLinked(i) && Progress(i, all, {}) && LeastSoFar(i, all, {})
    ensures Acyclic(i) && LeastFirst(i, {}, Concrete(i, all))
    ensures NoDuplicates(Concrete(i, all)) && InOrder(i, Concrete(i, all))
    ensures forall t :: t in Concrete(i, all) <==> t in i.data && i.concrete(t)
    ensures all + Emitted(i, {}) == all
  {
    hide Requires, LeastFirst;
    OrderedMeansAcyclic(i, all);
    ConcreteKeeps(i, all);
    ConcreteLeast(i, {}, {}, all);
  }

  lemma NothingEmitted(i: Index)
    ensures Progress(i, [], i.data.Keys) && LeastSoFar(i, [], i.data.Keys)
  {
  }

  /** All that `t` requires is in `before` or among the first `k` of `ts`. */
  ghost predicate ReadyAt(i: Index, before: set<Type>, ts: seq<Type>, k: nat, t: Type)
    requires k <= |ts|
  {
    forall p | Requires(i, t, p) :: p in before || p in ts[..k]
  }

  /** Wherever a type stands, none that stands behind it could stand there and has a lesser
      name. */
  ghost predicate LeastFirst(i: Index, before: set<Type>, ts: seq<Type>) {
    forall a, b | 0 <= a < b < |ts| :: StandsRightly(i, before, ts, a, b)
  }

  ghost predicate StandsRightly(i: Index, before: set<Type>, ts: seq<Type>, a: nat, b: nat)
    requires a < |ts| && b < |ts|
  {
    ReadyAt(i, before, ts, a, ts[b]) ==> !StringLess(i.name(ts[b]), i.name(ts[a]))
  }

  /** The same of the types emitted so far, and of those still to come behind them. */
  ghost predicate LeastSoFar(i: Index, all: seq<Type>, rest: set<Type>) {
    && LeastFirst(i, {}, all)
    && forall a, t | 0 <= a < |all| && t in rest && ReadyAt(i, {}, all, a, t) :: !StringLess(i.name(t), i.name(all[a]))
  }

  lemma StillLeast(i: Index, all: seq<Type>, rest: set<Type>, t: Type)
    requires Progress(i, all, rest) && LeastSoFar(i, all, rest) && LeastReady(i, rest, t)
    ensures LeastSoFar(i, all + [t], rest - {t})
  {
    hide Requires, StringLess, NoDuplicates, InOrder;
    var all' := all + [t];
    assert all'[..|all|] == all;
    forall x | x in rest && ReadyAt(i, {}, all', |all|, x) ensures !StringLess(i.name(x), i.name(t)) {
      assert Ready(i, rest, x);
    }
    forall a, x | 0 <= a < |all| && x in rest && ReadyAt(i, {}, all', a, x) ensures !StringLess(i.name(x), i.name(all[a])) {
      assert all'[..a] == all[..a];
      assert ReadyAt(i, {}, all, a, x);
    }
    forall a, b | 0 <= a < b < |all| ensures StandsRightly(i, {}, all', a, b) {
      assert StandsRightly(i, {}, all, a, b) && all'[..a] == all[..a];
    }
  }

  /** It holds of the concrete types alone, too. */
  lemma {:induction false} ConcreteLeast(i: Index, before: set<Type>, before': set<Type>, ts: seq<Type>)
    requires LeastFirst(i, before, ts) && before' <= before
    ensures LeastFirst(i, before', Concrete(i, ts))
    decreases |ts|
  {
    hide Requires, StringLess;
    if ts != [] {
      var x, rest := ts[0], ts[1..];
      LeastTail(i, before, ts);
      var more := if i.concrete(x) then before' + {x} else before';
      ConcreteLeast(i, before + {x}, more, rest);
      var cs := Concrete(i, rest);
      if i.concrete(x) {
        forall b | 1 <= b <= |cs| ensures StandsRightly(i, before', [x] + cs, 0, b) {
          ConcreteMembers(i, rest);
          assert cs[b - 1] in rest;
          var j :| 0 <= j < |rest| && rest[j] == cs[b - 1];
          assert ([x] + cs)[b] == ts[j + 1];
          assert StandsRightly(i, before, ts, 0, j + 1);
        }
        ConsLeast(i, before', x, cs);
        assert Concrete(i, ts) == [x] + cs;
      } else {
        assert Concrete(i, ts) == cs;
      }
    }
  }

  lemma LeastTail(i: Index, before: set<Type>, ts: seq<Type>)
    requires ts != [] && LeastFirst(i, before, ts)
    ensures LeastFirst(i, before + {ts[0]}, ts[1..])
  {
    hide StandsRightly;
    var rest := ts[1..];
    assert ts == [ts[0]] + rest;
    forall a, b | 0 <= a < b < |rest| ensures StandsRightly(i, before + {ts[0]}, rest, a, b) {
      assert StandsRightly(i, before, ts, a + 1, b + 1);
      RightlyBehind(i, before, ts[0], rest, a, b);
    }
  }

  lemma ConsLeast(i: Index, before: set<Type>, x: Type, cs: seq<Type>)
    requires LeastFirst(i, before + {x}, cs)
    requires forall b | 1 <= b <= |cs| :: StandsRightly(i, before, [x] + cs, 0, b)
    ensures LeastFirst(i, before, [x] + cs)
  {
    hide StandsRightly;
    var ts := [x] + cs;
    forall a, b | 0 <= a < b < |ts| ensures StandsRightly(i, before, ts, a, b) {
      var c := b - 1;
      if a == 0 {
        assert StandsRightly(i, before, ts, 0, b);
      } else {
        RightlyBehind(i, before, x, cs, a - 1, c);
      }
    }
  }

  lemma RightlyBehind(i: Index, before: set<Type>, x: Type, cs: seq<Type>, a: nat, b: nat)
    requires a < b < |cs|
    ensures StandsRightly(i, before, [x] + cs, a + 1, b + 1) <==> StandsRightly(i, before + {x}, cs, a, b)
  {
    hide ReadyAt, StringLess;
    ReadyBehind(i, before, x, cs, a, cs[b]);
  }

  lemma ReadyBehind(i: Index, before: set<Type>, x: Type, cs: seq<Type>, k: nat, t: Type)
    requires k <= |cs|
    ensures ReadyAt(i, before, [x] + cs, k + 1, t) <==> ReadyAt(i, before + {x}, cs, k, t)
  {
    hide Requires;
    assert ([x] + cs)[..k + 1] == [x] + cs[..k];
  }

  lemma EmittedStep(i: Index, types: set<Type>, rest: set<Type>, t: Type)
    requires LeastReady(i, rest, t) && DistinctNames(i, types) && rest <= types
    ensures Emitted(i, rest) == [t] + Emitted(i, rest - {t})
  {
    forall x | LeastReady(i, rest, x) ensures x == t { StringLessTotal(i.name(x), i.name(t)); }
  }

  lemma {:induction false} ConcreteMembers(i: Index, ts: seq<Type>)
    ensures forall t :: t in Concrete(i, ts) <==> t in ts && i.concrete(t)
  {
    if ts != [] {
      ConcreteMembers(i, ts[1..]);
      assert ts == [ts[0]] + ts[1..];
    }
  }

  lemma {:induction false} ConcreteKeeps(i: Index, ts: seq<Type>)
    requires NoDuplicates(ts) && InOrder(i, ts)
    ensures NoDuplicates(Concrete(i, ts)) && InOrder(i, Concrete(i, ts))
    ensures forall t :: t in Concrete(i, ts) <==> t in ts && i.concrete(t)
  {
    hide Requires;
    ConcreteMembers(i, ts);
    if ts != [] {
      ConcreteKeeps(i, ts[1..]);
      ConcreteMembers(i, ts[1..]);
      var rest := Concrete(i, ts[1..]);
      forall x | x in rest ensures x != ts[0] && !Requires(i, ts[0], x) {
        var k :| 0 <= k < |ts[1..]| && ts[1..][k] == x;
        assert ts[k + 1] == x;
      }
      assert !Requires(i, ts[0], ts[0]);
    }
  }

  /** Types that are none of them ready require each other in a circle. */
  lemma StuckMeansCycle(i: Index, rest: set<Type>)
    requires rest != {} && forall x <- rest :: !Ready(i, rest, x)
    ensures !Acyclic(i)
  {
    hide Requires;
    var t :| t in rest;
    var walk := Walk(i, rest, t, |rest|);
    var a, b := Repetition(walk, rest);
    var p := walk[a..b];
    assert Requires(i, walk[b - 1], walk[b]);
    assert Cycle(i, p);
  }

  /** A walk of `n` steps along requirements within `rest`. */
  lemma {:induction false} Walk(i: Index, rest: set<Type>, t: Type, n: nat) returns (walk: seq<Type>)
    requires t in rest && forall x <- rest :: !Ready(i, rest, x)
    ensures |walk| == n + 1 && walk[0] == t && forall x <- walk :: x in rest
    ensures forall k | 0 <= k < n :: Requires(i, walk[k], walk[k + 1])
    decreases n
  {
    hide Requires;
    if n == 0 {
      walk := [t];
    } else {
      assert !Ready(i, rest, t);
      var p :| p in rest && Requires(i, t, p);
      var onward := Walk(i, rest, p, n - 1);
      walk := [t] + onward;
      forall k | 0 <= k < n ensures Requires(i, walk[k], walk[k + 1]) {
        if k > 0 { assert walk[k] == onward[k - 1] && walk[k + 1] == onward[k]; }
      }
    }
  }

  /** More entries than types: one occurs twice. */
  lemma Repetition(walk: seq<Type>, rest: set<Type>) returns (a: nat, b: nat)
    requires |walk| > |rest| && forall x <- walk :: x in rest
    ensures a < b < |walk| && walk[a] == walk[b]
  {
    if NoDuplicates(walk) {
      DistinctFit(walk, rest);
    }
    a, b :| 0 <= a < b < |walk| && walk[a] == walk[b];
  }

  lemma {:induction false} DistinctFit(walk: seq<Type>, rest: set<Type>)
    requires NoDuplicates(walk) && forall x <- walk :: x in rest
    ensures |walk| <= |rest|
    decreases |walk|
  {
    if walk != [] {
      var last := walk[|walk| - 1];
      var front := walk[..|walk| - 1];
      forall x | x in front ensures x in rest - {last} {
        var k :| 0 <= k < |front| && front[k] == x;
        assert walk[k] == x;
      }
      DistinctFit(front, rest - {last});
    }
  }

  /** Going round a cycle would go down in the order for ever. */
  lemma OrderedMeansAcyclic(i: Index, all: seq<Type>)
    requires InOrder(i, all) && WellLinked(i) && forall t <- i.data :: t in all
    ensures Acyclic(i)
  {
    forall p: seq<Type> ensures !Cycle(i, p) {
      if Cycle(i, p) {
        forall k | 0 <= k < |p| ensures p[k] in all {
          assert Requires(i, p[k], p[if k == |p| - 1 then 0 else k + 1]);
        }
        var last := Descend(i, all, p, |p| - 1);
      }
    }
  }

  /** Positions along requirements go down. */
  lemma {:induction false} Descend(i: Index, all: seq<Type>, p: seq<Type>, k: nat) returns (at: nat)
    requires InOrder(i, all) && k < |p| && (forall j | 0 <= j < |p| - 1 :: Requires(i, p[j], p[j + 1]))
    requires forall t <- p :: t in all
    ensures at < |all| && all[at] == p[k]
    ensures k > 0 ==> exists first :: at < first < |all| && all[first] == p[0]
  {
    hide Requires;
    assert p[k] in p;
    at :| 0 <= at < |all| && all[at] == p[k];
    if k > 0 {
      var before := Descend(i, all, p, k - 1);
      assert Requires(i, all[before], all[at]);
    }
  }

  // ------------------------------------------------------- interfaces do not get in the way

  function ConcreteOf(i: Index, types: set<Type>): set<Type> {
    set t | t in types && i.concrete(t)
  }

  lemma SameReady(i: Index, rest: set<Type>, t: Type)
    requires rest <= i.data.Keys && WellLinked(i) && i.concrete(t)
    ensures Ready(i, rest, t) <==> Ready(i, ConcreteOf(i, rest), t)
  {
    if t in rest {
      forall p | Requires(i, t, p) ensures i.concrete(p) { assert Resolvable(i, t); }
    }
  }

  lemma SameLeastReady(i: Index, rest: set<Type>, t: Type)
    requires rest <= i.data.Keys && WellLinked(i) && i.concrete(t) && LeastReady(i, rest, t)
    ensures LeastReady(i, ConcreteOf(i, rest), t)
  {
    hide Requires, WellLinked, Ready;
    SameReady(i, rest, t);
    forall x | x in ConcreteOf(i, rest) && Ready(i, ConcreteOf(i, rest), x) ensures !StringLess(i.name(x), i.name(t)) {
      SameReady(i, rest, x);
    }
  }

  lemma NoLeastReady(i: Index, rest: set<Type>)
    requires rest <= i.data.Keys && WellLinked(i) && forall t :: !LeastReady(i, rest, t)
    ensures Emitted(i, rest) == [] && Emitted(i, ConcreteOf(i, rest)) == []
  {
    NoneReady(i, rest);
    forall t ensures !LeastReady(i, ConcreteOf(i, rest), t) {
      if i.concrete(t) { SameReady(i, rest, t); }
    }
  }

  /** With distinct names, the order of the concrete types is the same whether the interfaces,
      which nothing requires and which require nothing, take part or not. */
  lemma {:induction false} InterfacesDoNotMatter(i: Index, rest: set<Type>)
    requires rest <= i.data.Keys && DistinctNames(i, i.data.Keys) && WellLinked(i)
    ensures Concrete(i, Emitted(i, rest)) == Emitted(i, ConcreteOf(i, rest))
    decreases rest
  {
    hide Requires, DistinctNames, WellLinked, Emitted, Ready;
    if t :| LeastReady(i, rest, t) {
      LeastIsReady(i, rest, t);
      var rest' := rest - {t};
      EmittedStep(i, i.data.Keys, rest, t);
      InterfacesDoNotMatter(i, rest');
      if i.concrete(t) {
        SameLeastReady(i, rest, t);
        EmittedStep(i, i.data.Keys, ConcreteOf(i, rest), t);
        assert ConcreteOf(i, rest) - {t} == ConcreteOf(i, rest');
      } else {
        assert ConcreteOf(i, rest) == ConcreteOf(i, rest');
      }
      assert ([t] + Emitted(i, rest'))[1..] == Emitted(i, rest');
    } else {
      NoLeastReady(i, rest);
    }
  }

  lemma LeastIsReady(i: Index, rest: set<Type>, t: Type)
    requires LeastReady(i, rest, t)
    ensures Ready(i, rest, t) && t in rest
  {
  }

  /** If nothing is the least ready type, nothing is ready. */
  lemma NoneReady(i: Index, rest: set<Type>)
    requires forall t :: !LeastReady(i, rest, t)
    ensures forall t <- rest :: !Ready(i, rest, t)
  {
    var ready := set t | t in rest && Ready(i, rest, t);
    if ready != {} {
      var t := LeastNamed(i, ready);
      assert LeastReady(i, rest, t);
    }
    assert forall t <- rest :: t !in ready;
  }

  lemma {:induction false} LeastNamed(i: Index, types: set<Type>) returns (t: Type)
    requires types != {}
    ensures t in types && forall x <- types :: !StringLess(i.name(x), i.name(t))
    decreases types
  {
    t :| t in types;
    StringLessTotal(i.name(t), i.name(t));
    if types != {t} {
      var u := LeastNamed(i, types - {t});
      StringLessTotal(i.name(u), i.name(t));
      if StringLess(i.name(u), i.name(t)) {
        t := u;
      } else {
        forall x | x in types ensures !StringLess(i.name(x), i.name(t)) {
          if x != t { StringLessTransitive(i.name(t), i.name(u), i.name(x)); }
        }
      }
    }
  }
}
