/** Task keys, task coordinates and the order of the order vectors
    (thinking_executor/executor_model.py). */
module ExecutorModel {
  import opened Prelude

  datatype Key = Name(name: string) | Index(index: int)

  datatype Kind = Stage | Step

  datatype Coordinates = Coordinates(path: seq<Key>, order: seq<int>, kind: Kind)

  /** The frame kind is None in the root frame. */
  predicate CanHaveSubtasks(kind: Option<Kind>) {
    kind != Some(Step)
  }

  /** Python's `<` on lists of integers. */
  predicate Before(a: seq<int>, b: seq<int>) {
    b != [] && (a == [] || a[0] < b[0] || (a[0] == b[0] && Before(a[1..], b[1..])))
  }

  /** `order[-1] += 1` */
  function Bump(order: seq<int>): (r: seq<int>)
    requires order != []
    ensures r != []
  {
    order[..|order| - 1] + [order[|order| - 1] + 1]
  }

  lemma BeforeIrreflexive(a: seq<int>)
    ensures !Before(a, a)
  {
  }

  lemma {:induction false} BeforeTransitive(a: seq<int>, b: seq<int>, c: seq<int>)
    requires Before(a, b) && Before(b, c)
    ensures Before(a, c)
  {
    if a != [] && a[0] == b[0] == c[0] {
      BeforeTransitive(a[1..], b[1..], c[1..]);
    }
  }

  /** A task comes before everything inside it. */
  lemma {:induction false} BeforeExtension(a: seq<int>, x: int)
    ensures Before(a, a + [x])
  {
    if a != [] {
      BeforeExtension(a[1..], x);
      assert (a + [x])[1..] == a[1..] + [x];
    }
  }

  /** Everything inside a task comes before its next sibling. */
  lemma {:induction false} ExtensionBeforeBump(a: seq<int>, x: int)
    requires a != []
    ensures Before(a + [x], Bump(a))
  {
    if |a| == 1 {
    } else {
      ExtensionBeforeBump(a[1..], x);
      assert (a + [x])[1..] == a[1..] + [x];
      assert Bump(a)[1..] == Bump(a[1..]);
    }
  }

  lemma BeforeBump(a: seq<int>)
    requires a != []
    ensures Before(a, Bump(a))
  {
    BeforeExtension(a, 0);
    ExtensionBeforeBump(a, 0);
    BeforeTransitive(a, a + [0], Bump(a));
  }
}
