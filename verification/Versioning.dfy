/** The objects that carry out the branch protocol
    (thinking_executor_data/common/writability.py, thinking_executor_data/common/versioning.py,
    thinking_executor_data/dolt/sqlalchemy/versioning.py). */
module Versioning {
  import opened Prelude
  import opened TaskNames
  import opened BranchStore
  import opened TaskSemantics

  class WritabilityManager {
    var access: Access

    constructor ()
      ensures access == RO
    {
      access := RO;
    }

    /** `ok` is false where the source's assertion fails. */
    method AllowWriting() returns (ok: bool)
      modifies this
      ensures ok <==> old(access) == RO
      ensures access == RW
    {
      ok := access == RO;
      if ok { access := RW; }
    }

    method DisallowWriting()
      modifies this
      ensures access == RO
    {
      access := RO;
    }

    method RequireWriting() returns (r: Outcome)
      ensures r == if access == RW then Finished else Raised(WritingDisabled)
    {
      if access != RW { return Raised(WritingDisabled); }
      return Finished;
    }
  }

  /** One versioned back end. Each method is one procedure call; `ok` is false when the
      procedure fails, and then nothing has changed. */
  class DoltVersioning<D> {
    var store: Store<D>

    constructor (s: Store<D>)
      ensures store == s
    {
      store := s;
    }

    method HasBranch(t: Text) returns (found: bool)
      ensures found <==> Some(t) in store.heads
    {
      found := Some(t) in store.heads;
    }

    method CreateBranch(t: Text) returns (ok: bool)
      requires Connected(store)
      modifies this
      ensures var r := NewBranch(old(store), t);
              ok == r.Some? && store == if ok then r.value else old(store)
    {
      ok := Some(t) !in store.heads;
      if ok { store := store.(heads := store.heads[Some(t) := store.heads[store.current]]); }
    }

    method RemoveBranch(t: Text) returns (ok: bool)
      requires Connected(store)
      modifies this
      ensures var r := DeleteBranch(old(store), t);
              ok == r.Some? && store == if ok then r.value else old(store)
    {
      ok := Some(t) in store.heads && store.current != Some(t);
      if ok { store := store.(heads := map b | b in store.heads && b != Some(t) :: store.heads[b]); }
    }

    /** The body of the manager's loop: an old branch goes, a new one is made. */
    method RenewBranch(t: Text) returns (ok: bool)
      requires Connected(store)
      modifies this
      ensures var r := EnsureEmptyBranch(old(store), t);
              ok == r.Some? && store == if ok then r.value else old(store)
    {
      var found := HasBranch(t);
      if found {
        ok := RemoveBranch(t);
        if !ok { return; }
      }
      ok := CreateBranch(t);
    }

    method CheckOut(b: Branch) returns (ok: bool)
      requires Connected(store)
      modifies this
      ensures var r := Checkout(old(store), b);
              ok == r.Some? && store == if ok then r.value else old(store)
    {
      ok := b in store.heads;
      if ok { store := Store(store.heads, b, store.heads[b], false); }
    }

    method CommitAll() returns (ok: bool)
      requires Connected(store)
      modifies this
      ensures var r := Commit(old(store));
              ok == r.Some? && store == if ok then r.value else old(store)
    {
      ok := store.current.None?;
      if !ok {
        var coordinates := Reload(store.current.value);
        ok := coordinates.Some?;
      }
      if ok { store := Store(store.heads[store.current := store.working], store.current, store.working, false); }
    }

    method Reset()
      requires Connected(store)
      modifies this
      ensures store == Rollback(old(store))
    {
      store := Store(store.heads, store.current, store.heads[store.current], false);
    }

    method Save(content: D)
      modifies this
      ensures store == old(store).(working := content, dirty := true)
    {
      store := store.(working := content, dirty := true);
    }
  }

  // ------------------------------------------------------------- several back ends as one

  /** The back ends have the same branches and the same one checked out. */
  ghost predicate Lockstep<D>(stores: seq<Store<D>>) {
    && stores != []
    && (forall s <- stores :: Connected(s))
    && (forall s <- stores :: s.heads.Keys == stores[0].heads.Keys && s.current == stores[0].current)
  }

  /** The heads of `b` on all back ends. */
  ghost function Row<D>(stores: seq<Store<D>>, b: Branch): (row: seq<D>)
    requires forall s <- stores :: b in s.heads
    ensures |row| == |stores| && forall i | 0 <= i < |stores| :: row[i] == stores[i].heads[b]
  {
    seq(|stores|, i requires 0 <= i < |stores| => stores[i].heads[b])
  }

  ghost function Workings<D>(stores: seq<Store<D>>): (row: seq<D>)
    ensures |row| == |stores| && forall i | 0 <= i < |stores| :: row[i] == stores[i].working
  {
    seq(|stores|, i requires 0 <= i < |stores| => stores[i].working)
  }

  /** The one store, holding tuples, that the manager makes of its back ends. */
  ghost function Joint<D>(stores: seq<Store<D>>): (j: Store<seq<D>>)
    requires Lockstep(stores)
    ensures Connected(j)
  {
    Store(map b | b in stores[0].heads :: Row(stores, b), stores[0].current, Workings(stores), exists s <- stores :: s.dirty)
  }

  lemma LockstepAt<D>(stores: seq<Store<D>>, i: nat)
    requires Lockstep(stores) && i < |stores|
    ensures Connected(stores[i]) && stores[i].heads.Keys == stores[0].heads.Keys && stores[i].current == stores[0].current
  {
    assert stores[i] in stores;
  }

  /** The back ends have the branches of `j` and the same one checked out. */
  ghost predicate SameBranches<D>(stores: seq<Store<D>>, j: Store<seq<D>>) {
    forall i | 0 <= i < |stores| ::
      stores[i].heads.Keys == j.heads.Keys && stores[i].current == j.current && stores[i].current in stores[i].heads
  }

  /** The heads of the back ends are together those of `j`. */
  ghost predicate SameHeads<D>(stores: seq<Store<D>>, j: Store<seq<D>>)
    requires SameBranches(stores, j)
  {
    && (forall b | b in j.heads :: |j.heads[b]| == |stores|)
    && (forall b, i | b in j.heads && 0 <= i < |stores| :: j.heads[b][i] == stores[i].heads[b])
  }

  /** The back ends have the branches of `j`, the same one checked out, and together the
      contents of `j`. */
  ghost predicate Joins<D>(stores: seq<Store<D>>, j: Store<seq<D>>) {
    && stores != [] && Connected(j) && SameBranches(stores, j) && SameHeads(stores, j)
    && |j.working| == |stores| && (forall i | 0 <= i < |stores| :: j.working[i] == stores[i].working)
    && (j.dirty <==> exists s <- stores :: s.dirty)
  }

  lemma IsJoint<D>(stores: seq<Store<D>>, j: Store<seq<D>>)
    requires Joins(stores, j)
    ensures Lockstep(stores) && Joint(stores) == j
  {
    forall b | b in j.heads ensures (forall s <- stores :: b in s.heads) && Row(stores, b) == j.heads[b] {
    }
    assert Workings(stores) == j.working;
    assert Joint(stores).heads == j.heads;
  }

  lemma JointEntries<D>(stores: seq<Store<D>>)
    requires Lockstep(stores)
    ensures Joins(stores, Joint(stores))
  {
    forall i | 0 <= i < |stores|
      ensures Connected(stores[i]) && stores[i].heads.Keys == stores[0].heads.Keys && stores[i].current == stores[0].current
    {
      LockstepAt(stores, i);
    }
  }

  /** `s` with a branch `t` at the head of the checked-out one. */
  function Branched<C>(s: Store<C>, t: Text): (r: Store<C>)
    requires s.current in s.heads
    ensures r.heads.Keys == s.heads.Keys + {Some(t)} && r.current == s.current && r.working == s.working && r.dirty == s.dirty
    ensures forall b | b in r.heads :: r.heads[b] == s.heads[if b == Some(t) then s.current else b]
  {
    s.(heads := s.heads[Some(t) := s.heads[s.current]])
  }

  lemma BranchedHeads<D>(stores: seq<Store<D>>, stores': seq<Store<D>>, j: Store<seq<D>>, t: Text)
    requires SameBranches(stores, j) && SameHeads(stores, j) && |stores'| == |stores| && j.current in j.heads
    requires forall i | 0 <= i < |stores| :: stores'[i] == Branched(stores[i], t)
    ensures SameBranches(stores', Branched(j, t)) && SameHeads(stores', Branched(j, t))
  {
    hide Branched;
    var j' := Branched(j, t);
    forall b, i | b in j'.heads && 0 <= i < |stores| ensures b in stores'[i].heads && j'.heads[b][i] == stores'[i].heads[b] {
      var from := if b == Some(t) then j.current else b;
      assert j'.heads[b] == j.heads[from] && stores'[i].heads[b] == stores[i].heads[from];
    }
  }

  /** A branch added to every back end is a branch added to the joint store. */
  lemma JointBranch<D>(stores: seq<Store<D>>, stores': seq<Store<D>>, j: Store<seq<D>>, t: Text)
    requires Joins(stores, j) && |stores'| == |stores|
    requires forall i | 0 <= i < |stores| :: stores[i].current in stores[i].heads && stores'[i] == Branched(stores[i], t)
    ensures Joins(stores', Branched(j, t))
  {
    hide Branched, SameBranches, SameHeads;
    BranchedHeads(stores, stores', j, t);
    SameDirt(stores, stores');
  }

  ghost predicate Renewed<D>(s: Store<D>, t: Text, s': Store<D>) {
    Connected(s) && s.current != Some(t) && EnsureEmptyBranch(s, t) == Some(s')
  }

  lemma RenewedUnlessCurrent<D>(s: Store<D>, t: Text)
    requires Connected(s)
    ensures EnsureEmptyBranch(s, t).Some? <==> s.current != Some(t)
    ensures s.current != Some(t) ==> Renewed(s, t, EnsureEmptyBranch(s, t).value)
  {
    EmptyBranchHeads(s, t);
  }

  /** The manager's fresh branch on every back end is the fresh branch of the joint store. */
  lemma JointEnsureEmpty<D>(stores: seq<Store<D>>, stores': seq<Store<D>>, t: Text)
    requires Lockstep(stores) && |stores'| == |stores|
    requires forall i | 0 <= i < |stores| :: Renewed(stores[i], t, stores'[i])
    ensures Lockstep(stores') && EnsureEmptyBranch(Joint(stores), t) == Some(Joint(stores'))
  {
    hide Joint, Lockstep, EnsureEmptyBranch, Joins;
    forall i | 0 <= i < |stores| ensures stores[i].current in stores[i].heads && stores'[i] == Branched(stores[i], t) {
      EmptyBranchHeads(stores[i], t);
    }
    var j := Joint(stores);
    JointEntries(stores);
    JoinsFirst(stores, j);
    assert Renewed(stores[0], t, stores'[0]);
    EmptyBranchHeads(j, t);
    JointBranch(stores, stores', j, t);
    IsJoint(stores', Branched(j, t));
  }

  lemma JoinsFirst<D>(stores: seq<Store<D>>, j: Store<seq<D>>)
    requires Joins(stores, j)
    ensures stores != [] && Connected(j) && j.current == stores[0].current
  {
  }

  lemma SameDirt<D>(stores: seq<Store<D>>, stores': seq<Store<D>>)
    requires |stores'| == |stores| && forall i | 0 <= i < |stores| :: stores'[i].dirty == stores[i].dirty
    ensures (exists s <- stores :: s.dirty) == (exists s <- stores' :: s.dirty)
  {
    if s :| s in stores && s.dirty {
      var i :| 0 <= i < |stores| && stores[i] == s;
      assert stores'[i] in stores';
    }
    if s :| s in stores' && s.dirty {
      var i :| 0 <= i < |stores| && stores'[i] == s;
      assert stores[i] in stores;
    }
  }

  /** EnsureEmptyBranch fails exactly for the checked-out branch. */
  lemma EmptyBranchHeads<D>(s: Store<D>, t: Text)
    requires Connected(s)
    ensures EnsureEmptyBranch(s, t).Some? <==> s.current != Some(t)
    ensures s.current != Some(t) ==> EnsureEmptyBranch(s, t) == Some(Branched(s, t))
  {
    if Some(t) in s.heads {
      assert (s.heads - {Some(t)})[Some(t) := s.heads[s.current]] == s.heads[Some(t) := s.heads[s.current]];
    }
  }

  lemma JointCheckout<D>(stores: seq<Store<D>>, stores': seq<Store<D>>, b: Branch)
    requires Lockstep(stores) && |stores'| == |stores| && b in stores[0].heads
    requires forall i | 0 <= i < |stores| :: Connected(stores[i]) && Checkout(stores[i], b) == Some(stores'[i])
    ensures Lockstep(stores') && Checkout(Joint(stores), b) == Some(Joint(stores'))
  {
    hide Joint, Lockstep;
    JointEntries(stores);
    var j := Joint(stores);
    IsJoint(stores', j.(current := b, working := j.heads[b], dirty := false));
  }

  lemma JointCommit<D>(stores: seq<Store<D>>, stores': seq<Store<D>>)
    requires Lockstep(stores) && |stores'| == |stores|
    requires forall i | 0 <= i < |stores| :: Connected(stores[i]) && Commit(stores[i]) == Some(stores'[i])
    ensures Lockstep(stores') && Commit(Joint(stores)) == Some(Joint(stores'))
  {
    hide Joint, Lockstep, Reload;
    JointEntries(stores);
    var j := Joint(stores);
    assert Commit(stores[0]).Some? && stores[0].current == j.current;
    IsJoint(stores', Commit(j).value);
  }

  /** All back ends have the same branch checked out, so that they all can commit or none. */
  lemma CommitTogether<D>(stores: seq<Store<D>>, i: nat)
    requires Lockstep(stores) && i < |stores|
    ensures Connected(stores[0]) && Connected(stores[i])
    ensures (Commit(stores[i]).Some? <==> Commit(Joint(stores)).Some?) && (Commit(stores[i]).Some? <==> Commit(stores[0]).Some?)
  {
    hide Joint, Reload;
    JointEntries(stores);
    LockstepAt(stores, i);
    LockstepAt(stores, 0);
  }

  lemma JointRollback<D>(stores: seq<Store<D>>, stores': seq<Store<D>>)
    requires Lockstep(stores) && |stores'| == |stores|
    requires forall i | 0 <= i < |stores| :: Connected(stores[i]) && stores'[i] == Rollback(stores[i])
    ensures Lockstep(stores') && Joint(stores') == Rollback(Joint(stores))
  {
    hide Joint, Lockstep;
    JointEntries(stores);
    IsJoint(stores', Rollback(Joint(stores)));
  }

  lemma JointSave<D>(stores: seq<Store<D>>, stores': seq<Store<D>>, contents: seq<D>)
    requires Lockstep(stores) && |stores'| == |stores| == |contents|
    requires forall i | 0 <= i < |stores| :: stores'[i] == stores[i].(working := contents[i], dirty := true)
    ensures Lockstep(stores') && Joint(stores') == Joint(stores).(working := contents, dirty := true)
  {
    hide Joint, Lockstep;
    JointEntries(stores);
    assert stores'[0] in stores' && stores'[0].dirty;
    IsJoint(stores', Joint(stores).(working := contents, dirty := true));
  }

  class VersioningManager<D> {
    const versionings: seq<DoltVersioning<D>>

    ghost function Objects(): set<object> {
      set v: DoltVersioning<D> | v in versionings
    }

    ghost function Stores(): seq<Store<D>>
      reads Objects()
    {
      seq(|versionings|, i requires 0 <= i < |versionings| reads Objects() => versionings[i].store)
    }

    ghost predicate Valid()
      reads Objects()
    {
      && (forall i, j | 0 <= i < j < |versionings| :: versionings[i] != versionings[j])
      && Lockstep(Stores())
    }

    /** What the manager's back ends hold, as one store. */
    ghost function Content(): Store<seq<D>>
      reads Objects()
      requires Valid()
    {
      Joint(Stores())
    }

    constructor (vs: seq<DoltVersioning<D>>)
      ensures versionings == vs
    {
      versionings := vs;
    }

    method IsDirty() returns (dirty: bool)
      requires Valid()
      ensures Valid()
      ensures dirty == Content().dirty
    {
      dirty := false;
      for i := 0 to |versionings|
        invariant dirty <==> exists j | 0 <= j < i :: Stores()[j].dirty
      {
        assert Stores()[i].dirty == versionings[i].store.dirty;
        dirty := dirty || versionings[i].store.dirty;
      }
      assert forall j | 0 <= j < |versionings| :: Stores()[j] in Stores();
    }

    /** Back end by back end; it stops at the first that refuses, which is the first of all. */
    method RenewAll(t: Text, ghost before: seq<Store<D>>) returns (ok: bool)
      requires Valid() && before == Stores()
      modifies Objects()
      ensures before != [] && (ok <==> before[0].current != Some(t))
      ensures ok ==> forall i | 0 <= i < |versionings| :: Renewed(before[i], t, Stores()[i])
      ensures !ok ==> Stores() == before
    {
      hide EnsureEmptyBranch, Lockstep, Joins, Joint, Renewed, Connected;
      JointEntries(before);
      JoinsFirst(before, Joint(before));
      for i := 0 to |versionings|
        invariant forall j | i <= j < |versionings| :: versionings[j].store == before[j]
        invariant i > 0 ==> before[0].current != Some(t)
        invariant forall j | 0 <= j < i :: Renewed(before[j], t, versionings[j].store)
      {
        LockstepAt(before, i);
        RenewedUnlessCurrent(before[i], t);
        ok := versionings[i].RenewBranch(t);
        if !ok {
          assert Stores() == before;
          return;
        }
      }
      ok := true;
    }

    method EnsureEmpty(t: Text) returns (ok: bool)
      requires Valid()
      modifies Objects()
      ensures Valid()
      ensures var r := EnsureEmptyBranch(old(Content()), t);
              ok == r.Some? && Content() == if ok then r.value else old(Content())
    {
      hide EnsureEmptyBranch, Lockstep, Joins, Joint, Renewed, Connected;
      ghost var before := Stores();
      JointEntries(before);
      JoinsFirst(before, Joint(before));
      EmptyBranchHeads(Joint(before), t);
      ok := RenewAll(t, before);
      if ok { JointEnsureEmpty(before, Stores(), t); }
    }

    method CheckOut(b: Branch) returns (ok: bool)
      requires Valid()
      modifies Objects()
      ensures Valid()
      ensures var r := Checkout(old(Content()), b);
              ok == r.Some? && Content() == if ok then r.value else old(Content())
    {
      ghost var before := Stores();
      for i := 0 to |versionings|
        invariant forall j | i <= j < |versionings| :: versionings[j].store == before[j]
        invariant forall j | 0 <= j < i :: Connected(before[j]) && b in before[j].heads && Checkout(before[j], b) == Some(versionings[j].store)
      {
        LockstepAt(before, i);
        ok := versionings[i].CheckOut(b);
        if !ok {
          assert Stores() == before;
          return;
        }
      }
      ok := true;
      JointCheckout(before, Stores(), b);
    }

    /** It stops at the first back end whose commit fails, which is the first of all. */
    method CommitAll() returns (ok: bool)
      requires Valid()
      modifies Objects()
      ensures Valid()
      ensures var r := Commit(old(Content()));
              ok == r.Some? && Content() == if ok then r.value else old(Content())
    {
      hide Joint, Joins;
      ghost var before := Stores();
      for i := 0 to |versionings|
        invariant forall j | i <= j < |versionings| :: versionings[j].store == before[j]
        invariant forall j | 0 <= j < i :: Connected(before[j]) && Commit(before[j]) == Some(versionings[j].store)
      {
        LockstepAt(before, i);
        CommitTogether(before, i);
        ok := versionings[i].CommitAll();
        if !ok {
          assert Stores() == before;
          return;
        }
      }
      ok := true;
      JointCommit(before, Stores());
    }

    method Reset()
      requires Valid()
      modifies Objects()
      ensures Valid() && Content() == Rollback(old(Content()))
    {
      ghost var before := Stores();
      for i := 0 to |versionings|
        invariant forall j | i <= j < |versionings| :: versionings[j].store == before[j]
        invariant forall j | 0 <= j < i :: Connected(before[j]) && versionings[j].store == Rollback(before[j])
      {
        LockstepAt(before, i);
        versionings[i].Reset();
      }
      JointRollback(before, Stores());
    }

    /** A body writes to the back ends, from what it read in all of them. */
    method Save(f: seq<D> -> seq<D>)
      requires Valid() && |f(Content().working)| == |versionings|
      modifies Objects()
      ensures Valid() && Content() == BranchStore.Write(old(Content()), f)
    {
      hide Joins, Lockstep;
      ghost var before := Stores();
      var read := seq(|versionings|, i requires 0 <= i < |versionings| reads Objects() => versionings[i].store.working);
      assert read == Content().working;
      var contents := f(read);
      for i := 0 to |versionings|
        invariant forall j | i <= j < |versionings| :: versionings[j].store == before[j]
        invariant forall j | 0 <= j < i :: versionings[j].store == before[j].(working := contents[j], dirty := true)
      {
        versionings[i].Save(contents[i]);
      }
      JointSave(before, Stores(), contents);
    }
  }
}
