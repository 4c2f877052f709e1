/** The meaning of the branch operations of a versioned data store
    (thinking_executor_data/dolt/sqlalchemy/versioning.py and
    thinking_executor_data/common/versioning.py).

    A branch is named after the text of the coordinates of a step; no text names `main`.
    `heads` is what the back end keeps; `current`, `working` and `dirty` belong to
    one open connection. */
module BranchStore {
  import opened Prelude
  import opened TaskNames

  type Branch = Option<Text>

  datatype Store<C> = Store(heads: map<Branch, C>, current: Branch, working: C, dirty: bool)

  /** `main` is there, and a connection always has an existing branch checked out. */
  predicate Connected<C>(s: Store<C>) {
    None in s.heads && s.current in s.heads
  }

  /** Runs `DOLT_BRANCH name active_branch()`: the new branch starts at the committed head
      of the current one. The procedure fails when the branch is there already. */
  function NewBranch<C>(s: Store<C>, t: Text): (r: Option<Store<C>>)
    requires Connected(s)
  {
    if Some(t) in s.heads then None
    else Some(s.(heads := s.heads[Some(t) := s.heads[s.current]]))
  }

  /** Runs `DOLT_BRANCH -D name`. The procedure fails for a missing branch and for the
      checked-out one. */
  function DeleteBranch<C>(s: Store<C>, t: Text): (r: Option<Store<C>>)
    requires Connected(s)
  {
    if Some(t) !in s.heads || s.current == Some(t) then None
    else Some(s.(heads := s.heads - {Some(t)}))
  }

  /** Runs `DOLT_CHECKOUT name`. */
  function Checkout<C>(s: Store<C>, b: Branch): (r: Option<Store<C>>)
    requires Connected(s)
  {
    if b !in s.heads then None
    else Some(s.(current := b, working := s.heads[b], dirty := false))
  }

  /** Runs `DOLT_COMMIT -A --allow-empty -m message`. The message says which coordinates are
      checked out: they are read back from the text that names the branch, before the
      procedure is called; None when reading raises. */
  function Commit<C>(s: Store<C>): (r: Option<Store<C>>)
    requires Connected(s)
  {
    if s.current.Some? && Reload(s.current.value).None? then None
    else Some(s.(heads := s.heads[s.current := s.working], dirty := false))
  }

  /** Runs `DOLT_RESET --hard`. */
  function Rollback<C>(s: Store<C>): Store<C>
    requires Connected(s)
  {
    s.(working := s.heads[s.current], dirty := false)
  }

  /** The manager's combination: delete a left-over branch, then create it afresh. */
  function EnsureEmptyBranch<C>(s: Store<C>, t: Text): (r: Option<Store<C>>)
    requires Connected(s)
  {
    if Some(t) in s.heads then
      match DeleteBranch(s, t)
      case None => None
      case Some(deleted) => NewBranch(deleted, t)
    else
      NewBranch(s, t)
  }

  /** A body writes to the working content of the checked-out branch. */
  function Write<C>(s: Store<C>, f: C -> C): Store<C> {
    s.(working := f(s.working), dirty := true)
  }
}
