/** The names under which the execution log and the branches know tasks: the texts of their
    coordinates, and what is read back from them
    (thinking_executor/executor_model.py, thinking_executor/data/tiny_schema.py). */
module TaskNames {
  import opened Prelude
  import opened ExecutorModel
  import opened CoordinatesText

  /** The text of some coordinates, up to the spelling of its parts. */
  datatype Text = Text(kind: Kind, path: string, order: seq<int>)

  function TextOf(c: Coordinates): (t: Text)
    ensures t.kind == c.kind && t.order == c.order
  {
    Text(c.kind, ShowPath(c), c.order)
  }

  /** Coordinates that may be missing; no coordinates name `main`. */
  function NameOf(c: Option<Coordinates>): Option<Text> {
    if c.Some? then Some(TextOf(c.value)) else None
  }

  /** Coordinates read back from a text; None when reading raises. */
  function Reload(t: Text): (c: Option<Coordinates>)
    ensures c.Some? ==> c.value.kind == t.kind && c.value.order == t.order
  {
    if '@' in t.path || t.order == [] then None
    else Some(Coordinates(ParseKeys(Split(t.path, '/')), t.order, t.kind))
  }

  /** Reading the text back gives coordinates of the same text. */
  predicate Stable(t: Text) {
    Reload(t).Some? && TextOf(Reload(t).value) == t
  }

  /** A key without `@` whose pieces between slashes are no integers in an unusual spelling. */
  predicate StableKey(k: Key) {
    '@' !in ShowKey(k) && forall p <- Split(ShowKey(k), '/') :: StablePiece(p)
  }

  // ------------------------------------------------------------- names stand for the texts

  /** Two coordinates have one name exactly if they print the same. */
  lemma SameText(c: Coordinates, d: Coordinates)
    ensures TextOf(c) == TextOf(d) <==> Show(c) == Show(d)
  {
    assert c.order == d.order ==> ShowOrder(c) == ShowOrder(d);
    if Show(c) == Show(d) {
      TextDeterminesOrder(c, d);
      KindFirst(c);
      KindFirst(d);
      OrderText(c);
      OrderText(d);
      LastSeparator(ShowPath(c), ShowOrder(c), ShowPath(d), ShowOrder(d), '@');
    }
  }

  /** Reading back is what `parse` does with what `__str__` printed. */
  lemma ReloadIsParse(c: Coordinates)
    ensures Reload(TextOf(c)) == Parse(Show(c))
  {
    if '@' in ShowPath(c) || c.order == [] { ParseFails(c); } else { ParseShown(c); }
  }

  lemma StableIsParse(c: Coordinates)
    ensures Stable(TextOf(c)) <==> Parse(Show(c)).Some? && Show(Parse(Show(c)).value) == Show(c)
  {
    ReloadIsParse(c);
    if Parse(Show(c)).Some? { SameText(Parse(Show(c)).value, c); }
  }

  // ------------------------------------------------------------------------ stable keys

  lemma {:induction false} SplitTwo(a: string, b: string, sep: char)
    ensures Split(a + [sep] + b, sep) == Split(a, sep) + Split(b, sep)
  {
    var s := a + [sep] + b;
    if a == "" {
      assert s[1..] == b;
    } else {
      assert s[1..] == a[1..] + [sep] + b;
      SplitTwo(a[1..], b, sep);
      var (ra, rb) := (Split(a[1..], sep), Split(b, sep));
      assert (ra + rb)[0] == ra[0] && (ra + rb)[1..] == ra[1..] + rb;
      if a[0] == sep { Associates([""], ra, rb); } else { Associates([[a[0]] + ra[0]], ra[1..], rb); }
    }
  }

  lemma Associates(a: seq<string>, b: seq<string>, c: seq<string>)
    ensures a + (b + c) == (a + b) + c
  {
  }

  lemma {:induction false} PiecesOfJoined(parts: seq<string>, sep: char, p: string)
    requires parts != []
    ensures p in Split(Join(parts, sep), sep) <==> exists s <- parts :: p in Split(s, sep)
  {
    assert parts == [parts[0]] + parts[1..];
    if |parts| > 1 {
      SplitTwo(parts[0], Join(parts[1..], sep), sep);
      PiecesOfJoined(parts[1..], sep, p);
    }
  }

  /** A name is stable exactly if every key in its path is. */
  lemma StableByKeys(c: Coordinates)
    requires c.path != [] && c.order != []
    ensures Stable(TextOf(c)) <==> forall k <- c.path :: StableKey(k)
  {
    StableIsParse(c);
    ReloadedNameIsStable(c);
    var parts := Shown(c.path);
    JoinMembers(parts, '/', '@');
    forall p ensures p in Split(ShowPath(c), '/') <==> exists s <- parts :: p in Split(s, '/') {
      PiecesOfJoined(parts, '/', p);
    }
    hide Split, StablePiece, Parse, Show, Join, Stable;
    forall k | k in c.path ensures ShowKey(k) in parts {
      var i :| 0 <= i < |c.path| && c.path[i] == k;
      assert parts[i] == ShowKey(k);
    }
    forall s | s in parts ensures exists k <- c.path :: ShowKey(k) == s {
      var i :| 0 <= i < |parts| && parts[i] == s;
      assert c.path[i] in c.path;
    }
  }

  /** The name of a top-level task has its key for a path, and can be read unless that has `@`. */
  lemma OneKeyPath(key: string, order: seq<int>)
    requires order != []
    ensures var t := TextOf(Coordinates([Name(key)], order, Step));
            t.path == key && (Reload(t).Some? <==> '@' !in key)
  {
    assert Shown([Name(key)]) == [key];
  }
}
