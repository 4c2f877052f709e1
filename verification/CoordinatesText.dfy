/** Printing and parsing of task coordinates (thinking_executor/executor_model.py:123-147). */
module CoordinatesText {
  import opened Prelude
  import opened ExecutorModel

  // ----------------------------------------------------------- Python's strings of integers

  /** What Python's `int` ignores around an ASCII literal: blank, tab, line feed, vertical
      tab, form feed, carriage return. */
  predicate IsSpace(c: char) {
    c == ' ' || 9 <= c as int <= 13
  }

  predicate IsDigit(c: char) {
    '0' <= c <= '9'
  }

  function Strip(s: string): (r: string) {
    if s == "" then s
    else if IsSpace(s[0]) then Strip(s[1..])
    else if IsSpace(s[|s| - 1]) then Strip(s[..|s| - 1])
    else s
  }

  /** Digits, with single underscores between them. */
  function ParseDigits(s: string): Option<nat> {
    if s == "" || !IsDigit(s[|s| - 1]) then None
    else
      var digit := (s[|s| - 1] - '0') as nat;
      var front := s[..|s| - 1];
      if front == "" then Some(digit)
      else
        match ParseDigits(if front[|front| - 1] == '_' then front[..|front| - 1] else front)
        case None => None
        case Some(n) => Some(10 * n + digit)
  }

  /** Python's `int(s)`; None for ValueError. */
  function ParseInt(s: string): Option<int> {
    var t := Strip(s);
    if t == "" then None
    else if t[0] == '-' then
      match ParseDigits(t[1..])
      case None => None
      case Some(n) => Some(0 - (n as int))
    else
      match ParseDigits(if t[0] == '+' then t[1..] else t)
      case None => None
      case Some(n) => Some(n)
  }

  function ShowNat(n: nat): (s: string)
    ensures s != "" && forall i | 0 <= i < |s| :: IsDigit(s[i])
  {
    if n < 10 then ['0' + n as char] else ShowNat(n / 10) + ['0' + (n % 10) as char]
  }

  function ShowInt(n: int): (s: string)
    ensures s != ""
  {
    if n < 0 then "-" + ShowNat(-n) else ShowNat(n)
  }

  lemma {:induction false} ParseShownNat(n: nat)
    ensures ParseDigits(ShowNat(n)) == Some(n)
  {
    if n >= 10 {
      ParseShownNat(n / 10);
      var s := ShowNat(n);
      assert s[..|s| - 1] == ShowNat(n / 10);
    }
  }

  lemma ParseShownInt(n: int)
    ensures ParseInt(ShowInt(n)) == Some(n)
  {
    hide ParseDigits, ShowNat;
    var digits := ShowNat(if n < 0 then -n else n);
    ParseShownNat(if n < 0 then -n else n);
    assert IsDigit(digits[0]) && IsDigit(digits[|digits| - 1]);
    assert Strip(ShowInt(n)) == ShowInt(n);
    hide Strip;
    assert n < 0 ==> ShowInt(n)[1..] == digits;
  }

  /** Only spaces, signs, digits and underscores get through `int`. */
  predicate MayOccurInInt(c: char) {
    IsSpace(c) || IsDigit(c) || c == '_' || c == '+' || c == '-'
  }

  lemma {:induction false} StripKeeps(s: string, c: char)
    requires c in s && !IsSpace(c)
    ensures c in Strip(s)
    decreases |s|
  {
    if IsSpace(s[0]) {
      assert s == [s[0]] + s[1..];
      StripKeeps(s[1..], c);
    } else if IsSpace(s[|s| - 1]) {
      assert s == s[..|s| - 1] + [s[|s| - 1]];
      StripKeeps(s[..|s| - 1], c);
    }
  }

  lemma {:induction false} DigitsOnly(s: string, c: char)
    requires ParseDigits(s).Some? && c in s
    ensures IsDigit(c) || c == '_'
    decreases |s|
  {
    var front := s[..|s| - 1];
    if c != s[|s| - 1] {
      assert s == front + [s[|s| - 1]];
      assert front == front[..|front| - 1] + [front[|front| - 1]];
      if front[|front| - 1] != '_' { DigitsOnly(front, c); }
      else if c != '_' { DigitsOnly(front[..|front| - 1], c); }
    }
  }

  lemma IntOnly(s: string, c: char)
    requires ParseInt(s).Some? && c in s
    ensures MayOccurInInt(c)
  {
    if !IsSpace(c) {
      StripKeeps(s, c);
      var t := Strip(s);
      assert t == [t[0]] + t[1..];
      if t[0] == '-' || t[0] == '+' {
        if c != t[0] { DigitsOnly(t[1..], c); }
      } else {
        DigitsOnly(t, c);
      }
    }
  }

  // ------------------------------------------------------------ which strings `int` accepts

  /** Digits, with single underscores between them. */
  predicate WellSpaced(s: string) {
    && s != "" && IsDigit(s[0]) && IsDigit(s[|s| - 1])
    && forall i | 0 <= i < |s| :: IsDigit(s[i]) || (s[i] == '_' && 0 < i < |s| - 1 && IsDigit(s[i - 1]) && IsDigit(s[i + 1]))
  }

  function WithoutUnderscores(s: string): string {
    if s == "" then "" else WithoutUnderscores(s[..|s| - 1]) + if s[|s| - 1] == '_' then "" else [s[|s| - 1]]
  }

  predicate AllSpace(s: string) {
    forall i | 0 <= i < |s| :: IsSpace(s[i])
  }

  predicate AllZero(s: string) {
    forall i | 0 <= i < |s| :: s[i] == '0'
  }

  /** The digits spell `n`, with leading zeros. */
  ghost predicate Spells(digits: string, n: nat) {
    exists zeros :: AllZero(zeros) && digits == zeros + ShowNat(n)
  }

  /** How an integer may be written: a sign, and digits that are those of the number as it is
      printed after any leading zeros, with underscores between digits and spaces around. */
  ghost predicate Literal(before: string, sign: string, body: string, after: string, n: int) {
    && AllSpace(before) && AllSpace(after) && WellSpaced(body)
    && Spells(WithoutUnderscores(body), if n < 0 then -n else n)
    && (sign == "" || sign == "+" || sign == "-")
    && (n < 0 ==> sign == "-") && (n > 0 ==> sign != "-")
  }

  lemma {:induction false} SpacedParses(s: string)
    ensures ParseDigits(s).Some? <==> WellSpaced(s)
    decreases |s|
  {
    if s != "" && IsDigit(s[|s| - 1]) {
      var front, last := s[..|s| - 1], s[|s| - 1];
      assert s == front + [last];
      if front != "" {
        var rest := if front[|front| - 1] == '_' then front[..|front| - 1] else front;
        ParseMore(front, last);
        SpacedMore(front, last);
        hide ParseDigits, WellSpaced;
        SpacedParses(rest);
      }
    }
  }

  lemma SpacedMore(s: string, d: char)
    requires s != "" && IsDigit(d)
    ensures WellSpaced(s + [d]) <==> WellSpaced(if s[|s| - 1] == '_' then s[..|s| - 1] else s)
  {
    var t, rest := s + [d], if s[|s| - 1] == '_' then s[..|s| - 1] else s;
    assert forall i | 0 <= i < |s| :: t[i] == s[i];
    if WellSpaced(t) { assert IsDigit(t[|s| - 1]) || IsDigit(t[|s| - 2]); }
  }

  predicate AllDigits(s: string) {
    forall i | 0 <= i < |s| :: IsDigit(s[i])
  }

  /** One digit more. */
  lemma ParseMore(s: string, d: char)
    requires s != "" && IsDigit(d)
    ensures var rest := if s[|s| - 1] == '_' then s[..|s| - 1] else s;
            ParseDigits(s + [d]) == if ParseDigits(rest).None? then None else Some(10 * ParseDigits(rest).value + (d - '0') as nat)
  {
    hide ParseDigits;
    var t := s + [d];
    ParseStep(t);
    assert t[..|t| - 1] == s;
  }

  lemma ParseStep(t: string)
    requires |t| > 1 && IsDigit(t[|t| - 1])
    ensures var front := t[..|t| - 1];
            var rest := ParseDigits(if front[|front| - 1] == '_' then front[..|front| - 1] else front);
            ParseDigits(t) == if rest.None? then None else Some(10 * rest.value + (t[|t| - 1] - '0') as nat)
  {
  }

  lemma WithoutMore(s: string, d: char)
    requires IsDigit(d)
    ensures var rest := if s != "" && s[|s| - 1] == '_' then s[..|s| - 1] else s;
            WithoutUnderscores(s + [d]) == WithoutUnderscores(rest) + [d]
  {
    assert (s + [d])[..|s|] == s;
    if s != "" && s[|s| - 1] == '_' { assert WithoutUnderscores(s) == WithoutUnderscores(s[..|s| - 1]) + ""; }
  }

  /** Underscores make no difference to what is read. */
  lemma {:induction false} UnderscoresIgnored(s: string)
    requires ParseDigits(s).Some?
    ensures WithoutUnderscores(s) != "" && AllDigits(WithoutUnderscores(s))
    ensures ParseDigits(WithoutUnderscores(s)) == ParseDigits(s)
    decreases |s|
  {
    assert WithoutUnderscores("") == "";
    hide ParseDigits, WithoutUnderscores;
    SpacedParses(s);
    var front, last := s[..|s| - 1], s[|s| - 1];
    assert s == front + [last];
    WithoutMore(front, last);
    if front == "" {
      assert "" + [last] == s;
    } else {
      var rest := if front[|front| - 1] == '_' then front[..|front| - 1] else front;
      ParseMore(front, last);
      UnderscoresIgnored(rest);
      var t := WithoutUnderscores(rest);
      assert IsDigit(t[|t| - 1]);
      ParseMore(t, last);
    }
  }

  lemma {:induction false} ZerosParse(zeros: string)
    requires AllZero(zeros)
    ensures ParseDigits(zeros + "0") == Some(0)
  {
    if zeros != "" {
      var fewer := zeros[..|zeros| - 1];
      ZerosParse(fewer);
      assert zeros == fewer + "0";
      ParseMore(zeros, '0');
    }
  }

  lemma {:induction false} PaddedParses(zeros: string, n: nat)
    requires AllZero(zeros)
    ensures ParseDigits(zeros + ShowNat(n)) == Some(n)
    decreases n
  {
    hide ParseDigits, ShowNat;
    var d := LastDigit(n);
    if n >= 10 {
      var t := zeros + ShowNat(n / 10);
      PaddedParses(zeros, n / 10);
      assert zeros + ShowNat(n) == t + [d];
      assert t[|t| - 1] == ShowNat(n / 10)[|ShowNat(n / 10)| - 1];
      ParseMore(t, d);
    } else {
      ShowDigit(d);
      if zeros == "" {
        assert zeros + [d] == [d];
      } else {
        var fewer := zeros[..|zeros| - 1];
        ZerosParse(fewer);
        assert zeros == fewer + "0";
        ParseMore(zeros, d);
      }
    }
  }

  lemma LastDigit(n: nat) returns (d: char)
    ensures IsDigit(d) && (d - '0') as nat == n % 10 && ShowNat(n) == (if n < 10 then "" else ShowNat(n / 10)) + [d]
  {
    d := '0' + (n % 10) as char;
  }

  lemma ShowMore(n: nat, d: char)
    requires n > 0 && IsDigit(d)
    ensures ShowNat(10 * n + (d - '0') as nat) == ShowNat(n) + [d]
  {
  }

  lemma ShowDigit(d: char)
    requires IsDigit(d)
    ensures ShowNat((d - '0') as nat) == [d] && ParseDigits([d]) == Some((d - '0') as nat)
  {
  }

  /** Digits alone spell the number they are read as. */
  lemma {:induction false} DigitsSpell(s: string) returns (zeros: string)
    requires s != "" && AllDigits(s)
    ensures ParseDigits(s).Some? && AllZero(zeros) && s == zeros + ShowNat(ParseDigits(s).value)
    decreases |s|
  {
    hide ParseDigits, ShowNat;
    var front, last := s[..|s| - 1], s[|s| - 1];
    assert s == front + [last];
    ShowDigit(last);
    ShowDigit('0');
    if front == "" {
      zeros := "";
    } else {
      assert IsDigit(front[|front| - 1]);
      zeros := DigitsSpell(front);
      ParseMore(front, last);
      var n := ParseDigits(front).value;
      if n == 0 { zeros := zeros + "0"; } else { ShowMore(n, last); }
    }
  }

  lemma ParseDigitsMeans(s: string, n: nat)
    ensures ParseDigits(s) == Some(n) <==> WellSpaced(s) && Spells(WithoutUnderscores(s), n)
  {
    SpacedParses(s);
    if ParseDigits(s).Some? {
      var t := WithoutUnderscores(s);
      UnderscoresIgnored(s);
      var zeros := DigitsSpell(t);
      if Spells(t, n) {
        var z :| AllZero(z) && t == z + ShowNat(n);
        PaddedParses(z, n);
      }
    }
  }

  lemma {:induction false} StripSplits(s: string) returns (before: string, after: string)
    ensures AllSpace(before) && AllSpace(after) && s == before + Strip(s) + after
    ensures Strip(s) != "" ==> !IsSpace(Strip(s)[0]) && !IsSpace(Strip(s)[|Strip(s)| - 1])
    decreases |s|
  {
    before, after := "", "";
    if s == "" {
    } else if IsSpace(s[0]) {
      before, after := StripSplits(s[1..]);
      assert Strip(s) == Strip(s[1..]);
      hide Strip;
      before := [s[0]] + before;
    } else if IsSpace(s[|s| - 1]) {
      before, after := StripSplits(s[..|s| - 1]);
      assert Strip(s) == Strip(s[..|s| - 1]);
      hide Strip;
      after := after + [s[|s| - 1]];
    }
  }

  lemma {:induction false} StripAround(before: string, t: string, after: string)
    requires AllSpace(before) && AllSpace(after) && t != "" && !IsSpace(t[0]) && !IsSpace(t[|t| - 1])
    ensures Strip(before + t + after) == t
    decreases |before| + |after|
  {
    var s := before + t + after;
    if before != "" {
      assert s[1..] == before[1..] + t + after && s[0] == before[0];
      StripAround(before[1..], t, after);
    } else if after != "" {
      assert s[..|s| - 1] == before + t + after[..|after| - 1] && s[|s| - 1] == after[|after| - 1];
      StripAround(before, t, after[..|after| - 1]);
    } else {
      assert s == t;
    }
  }

  lemma LiteralParses(before: string, sign: string, body: string, after: string, n: int)
    requires Literal(before, sign, body, after, n)
    ensures ParseInt(before + sign + body + after) == Some(n)
  {
    hide Spells, Strip, ParseDigits;
    var t := sign + body;
    assert before + sign + body + after == before + t + after;
    StripAround(before, t, after);
    ParseDigitsMeans(body, if n < 0 then -n else n);
    if sign == "" {
      assert t == body && IsDigit(t[0]);
    } else {
      assert t[1..] == body && t[0] == sign[0];
    }
  }

  lemma ParsedSign(s: string, n: int) returns (sign: string, body: string)
    requires ParseInt(s) == Some(n)
    ensures (sign == "" || sign == "+" || sign == "-") && Strip(s) == sign + body
    ensures ParseDigits(body) == Some(if n < 0 then -n else n)
    ensures (n < 0 ==> sign == "-") && (n > 0 ==> sign != "-")
  {
    hide Strip, ParseDigits;
    var t := Strip(s);
    sign := if t[0] == '-' || t[0] == '+' then [t[0]] else "";
    body := t[|sign|..];
  }

  lemma ParsedIsLiteral(s: string, n: int) returns (before: string, sign: string, body: string, after: string)
    requires ParseInt(s) == Some(n)
    ensures Literal(before, sign, body, after, n) && s == before + sign + body + after
  {
    hide Spells, WellSpaced, Strip, ParseDigits, ParseInt, AllSpace, WithoutUnderscores;
    before, after := StripSplits(s);
    sign, body := ParsedSign(s, n);
    ParseDigitsMeans(body, if n < 0 then -n else n);
    Regroup(before, sign, body, after);
  }

  lemma Regroup(a: string, b: string, c: string, d: string)
    ensures a + (b + c) + d == a + b + c + d
  {
  }

  /** Exactly the literals are read, and as the numbers they spell. */
  lemma ParseIntMeans(s: string, n: int)
    ensures ParseInt(s) == Some(n) <==>
              exists before, sign, body, after :: Literal(before, sign, body, after, n) && s == before + sign + body + after
  {
    hide Literal, ParseInt;
    if ParseInt(s) == Some(n) { var before, sign, body, after := ParsedIsLiteral(s, n); }
    if before, sign, body, after :| Literal(before, sign, body, after, n) && s == before + sign + body + after {
      LiteralParses(before, sign, body, after, n);
    }
  }

  /** Numbers are written in the decimal system, the greatest place first. */
  lemma SpelledNumbers()
    ensures ShowInt(-204) == "-204" && ParseInt(" +2_04\n") == Some(204) && ParseInt("-007") == Some(-7)
  {
    hide ParseDigits, ShowNat, Strip;
    ShowDigit('2');
    ShowMore(2, '0');
    ShowMore(20, '4');
    assert "-" + (['2'] + ['0'] + ['4']) == "-204";
    SpelledDigits();
    StripAround(" ", "+2_04", "\n");
    StripAround("", "-007", "");
    assert " " + "+2_04" + "\n" == " +2_04\n" && "" + "-007" + "" == "-007";
    assert "+2_04"[1..] == "2_04" && "-007"[1..] == "007";
  }

  lemma SpelledDigits()
    ensures ParseDigits("2_04") == Some(204) && ParseDigits("007") == Some(7)
  {
    hide ParseDigits, ShowNat;
    ShowDigit('2');
    ShowDigit('0');
    assert "2_"[..1] == ['2'] && "2_" + ['0'] == "2_0" && "2_0" + ['4'] == "2_04";
    assert ['0'] + ['0'] == "00" && "00" + ['7'] == "007";
    ParseMore("2_", '0');
    ParseMore("2_0", '4');
    ParseMore(['0'], '0');
    ParseMore("00", '7');
  }

  // -------------------------------------------------------------------- joining, splitting

  function Join(parts: seq<string>, sep: char): string {
    if parts == [] then "" else if |parts| == 1 then parts[0] else parts[0] + [sep] + Join(parts[1..], sep)
  }

  /** `s.split(sep)` */
  function Split(s: string, sep: char): (parts: seq<string>)
    ensures parts != []
  {
    if s == "" then [""]
    else
      var rest := Split(s[1..], sep);
      if s[0] == sep then [""] + rest else [[s[0]] + rest[0]] + rest[1..]
  }

  /** `s.partition(sep)`; without a separator the last part is empty. */
  function Partition(s: string, sep: char): (r: (string, string)) {
    if s == "" then ("", "")
    else if s[0] == sep then ("", s[1..])
    else
      var (before, after) := Partition(s[1..], sep);
      ([s[0]] + before, after)
  }

  lemma {:induction false} PartitionFirst(a: string, b: string, sep: char)
    requires sep !in a
    ensures Partition(a + [sep] + b, sep) == (a, b)
  {
    var s := a + [sep] + b;
    if a == "" {
      assert s[1..] == b;
    } else {
      assert s[1..] == a[1..] + [sep] + b;
      PartitionFirst(a[1..], b, sep);
      assert [a[0]] + a[1..] == a;
    }
  }

  /** Partitioning at an earlier separator leaves the later one in the second part. */
  lemma {:induction false} PartitionEarlier(a: string, b: string, sep: char)
    requires sep in a
    ensures sep in Partition(a + [sep] + b, sep).1
  {
    var s := a + [sep] + b;
    assert s[1..] == a[1..] + [sep] + b;
    if a[0] == sep {
      assert s[1..][|a| - 1] == sep;
    } else {
      assert a == [a[0]] + a[1..];
      PartitionEarlier(a[1..], b, sep);
    }
  }

  lemma {:induction false} SplitAppend(a: string, b: string, sep: char)
    requires sep !in a
    ensures Split(a + [sep] + b, sep) == [a] + Split(b, sep)
    ensures Split(a, sep) == [a]
  {
    var s := a + [sep] + b;
    if a == "" {
      assert s[1..] == b;
    } else {
      assert s[1..] == a[1..] + [sep] + b;
      SplitAppend(a[1..], b, sep);
      assert a == [a[0]] + a[1..];
    }
  }

  lemma {:induction false} SplitJoined(parts: seq<string>, sep: char)
    requires parts != [] && forall p <- parts :: sep !in p
    ensures Split(Join(parts, sep), sep) == parts
  {
    assert parts == [parts[0]] + parts[1..];
    if |parts| == 1 {
      SplitAppend(parts[0], "", sep);
    } else {
      SplitJoined(parts[1..], sep);
      SplitAppend(parts[0], Join(parts[1..], sep), sep);
    }
  }

  function Count(s: string, c: char): nat {
    if s == "" then 0 else (if s[0] == c then 1 else 0) + Count(s[1..], c)
  }

  lemma {:induction false} SplitLength(s: string, sep: char)
    ensures |Split(s, sep)| == Count(s, sep) + 1
  {
    if s != "" { SplitLength(s[1..], sep); }
  }

  lemma {:induction false} CountAppend(a: string, b: string, c: char)
    ensures Count(a + b, c) == Count(a, c) + Count(b, c)
  {
    if a == "" {
      assert a + b == b;
    } else {
      assert (a + b)[1..] == a[1..] + b;
      CountAppend(a[1..], b, c);
    }
  }

  lemma {:induction false} CountIn(s: string, c: char)
    ensures Count(s, c) > 0 <==> c in s
  {
    if s != "" {
      CountIn(s[1..], c);
      assert s == [s[0]] + s[1..];
    }
  }

  /** A part that contains the separator gives too many parts back. */
  lemma {:induction false} JoinCount(parts: seq<string>, sep: char)
    requires parts != []
    ensures Count(Join(parts, sep), sep) >= |parts| - 1
    ensures (exists p <- parts :: sep in p) ==> Count(Join(parts, sep), sep) >= |parts|
  {
    assert parts == [parts[0]] + parts[1..];
    CountIn(parts[0], sep);
    if |parts| > 1 {
      JoinCount(parts[1..], sep);
      CountAppend(parts[0], [sep], sep);
      CountAppend(parts[0] + [sep], Join(parts[1..], sep), sep);
    }
  }

  lemma {:induction false} JoinMembers(parts: seq<string>, sep: char, c: char)
    requires c != sep
    ensures c in Join(parts, sep) <==> exists p <- parts :: c in p
  {
    if parts != [] {
      assert parts == [parts[0]] + parts[1..];
      if |parts| > 1 { JoinMembers(parts[1..], sep, c); }
    }
  }

  /** Splitting loses no character but the separator. */
  lemma {:induction false} SplitMembers(s: string, sep: char, c: char)
    requires c in s && c != sep
    ensures exists p <- Split(s, sep) :: c in p
  {
    var rest := Split(s[1..], sep);
    assert s == [s[0]] + s[1..];
    if s[0] == c {
      assert Split(s, sep)[0] in Split(s, sep) && c in Split(s, sep)[0];
    } else {
      SplitMembers(s[1..], sep, c);
      var p :| p in rest && c in p;
      if s[0] == sep {
        assert p in Split(s, sep);
      } else if p == rest[0] {
        assert Split(s, sep)[0] in Split(s, sep) && c in Split(s, sep)[0];
      } else {
        assert rest == [rest[0]] + rest[1..];
        assert p in Split(s, sep);
      }
    }
  }

  // ----------------------------------------------------------------- keys and coordinates

  function ShowKey(k: Key): string {
    match k
    case Name(name) => name
    case Index(i) => ShowInt(i)
  }

  /** Anything that reads as an integer becomes one. */
  function ParseKey(s: string): Key {
    match ParseInt(s)
    case Some(i) => Index(i)
    case None => Name(s)
  }

  function ShowKind(k: Kind): string {
    if k.Stage? then "STAGE" else "STEP"
  }

  function Shown(path: seq<Key>): (r: seq<string>)
    ensures |r| == |path| && forall i | 0 <= i < |path| :: r[i] == ShowKey(path[i])
  {
    seq(|path|, i requires 0 <= i < |path| => ShowKey(path[i]))
  }

  function ShownInts(order: seq<int>): (r: seq<string>)
    ensures |r| == |order| && forall i | 0 <= i < |order| :: r[i] == ShowInt(order[i])
  {
    seq(|order|, i requires 0 <= i < |order| => ShowInt(order[i]))
  }

  function ShowPath(c: Coordinates): string {
    Join(Shown(c.path), '/')
  }

  function ShowOrder(c: Coordinates): string {
    Join(ShownInts(c.order), '/')
  }

  function Show(c: Coordinates): string {
    ShowKind(c.kind) + [':'] + ShowPath(c) + ['@'] + ShowOrder(c)
  }

  /** How coordinates are written down in the log. */
  lemma SpelledCoordinates()
    ensures Show(Coordinates([Name("a"), Index(1)], [0, 2], Step)) == "STEP:a/1@0/2"
    ensures Show(Coordinates([Name("b")], [1], Stage)) == "STAGE:b@1"
  {
    hide ShowNat;
    ShowDigit('0');
    ShowDigit('1');
    ShowDigit('2');
    assert Shown([Name("a"), Index(1)]) == ["a", "1"] && ShownInts([0, 2]) == ["0", "2"];
    assert Shown([Name("b")]) == ["b"] && ShownInts([1]) == ["1"];
    assert Join(["a", "1"], '/') == "a/1" by { assert ["a", "1"][1..] == ["1"]; }
    assert Join(["0", "2"], '/') == "0/2" by { assert ["0", "2"][1..] == ["2"]; }
  }

  function ParseKeys(parts: seq<string>): (r: seq<Key>)
    ensures |r| == |parts| && forall i | 0 <= i < |parts| :: r[i] == ParseKey(parts[i])
  {
    seq(|parts|, i requires 0 <= i < |parts| => ParseKey(parts[i]))
  }

  /** `list(map(int, parts))`; None when one of them is no integer. */
  function ParseInts(parts: seq<string>): (r: Option<seq<int>>)
    ensures r.Some? ==> |r.value| == |parts|
    ensures r.Some? <==> forall i | 0 <= i < |parts| :: ParseInt(parts[i]).Some?
    ensures r.Some? ==> forall i | 0 <= i < |parts| :: ParseInt(parts[i]) == Some(r.value[i])
  {
    if parts == [] then Some([])
    else
      match (ParseInt(parts[0]), ParseInts(parts[1..]))
      case (Some(n), Some(ns)) => Some([n] + ns)
      case (_, _) => None
  }

  /** What the class method `parse` returns; None for KeyError or ValueError. */
  function Parse(s: string): Option<Coordinates> {
    var (kind, rest) := Partition(s, ':');
    if kind != "STAGE" && kind != "STEP" then None
    else
      var (path, order) := Partition(rest, '@');
      match ParseInts(Split(order, '/'))
      case None => None
      case Some(ns) => Some(Coordinates(ParseKeys(Split(path, '/')), ns, if kind == "STAGE" then Stage else Step))
  }

  /** The loops of `parse`: the orders are read first, then path entries are rewritten. */
  method ParseText(s: string) returns (r: Option<Coordinates>)
    ensures r == Parse(s)
  {
    hide Partition, Split, ParseInt;
    var (kind, rest) := Partition(s, ':');
    if kind != "STAGE" && kind != "STEP" { return None; }
    var (pathText, orderText) := Partition(rest, '@');
    var parts := Split(orderText, '/');
    var order: seq<int> := [];
    for i := 0 to |parts|
      invariant |order| == i
      invariant forall j | 0 <= j < i :: ParseInt(parts[j]) == Some(order[j])
    {
      var n := ParseInt(parts[i]);
      if n.None? { return None; }
      order := order + [n.value];
    }
    assert ParseInts(parts) == Some(order) by {
      assert ParseInts(parts).Some?;
      assert ParseInts(parts).value == order;
    }
    var texts := Split(pathText, '/');
    var path := new Key[|texts|](i requires 0 <= i < |texts| => Name(texts[i]));
    for i := 0 to path.Length
      invariant forall j | 0 <= j < i :: path[j] == ParseKey(texts[j])
      invariant forall j | i <= j < path.Length :: path[j] == Name(texts[j])
    {
      var v := ParseInt(texts[i]);
      if v.Some? { path[i] := Index(v.value); }
    }
    assert path[..] == ParseKeys(texts);
    return Some(Coordinates(path[..], order, if kind == "STAGE" then Stage else Step));
  }

  // -------------------------------------------------------------------------- round trips

  /** A key that survives printing and parsing. */
  predicate CleanKey(k: Key) {
    k.Index? || ('/' !in k.name && '@' !in k.name && ParseInt(k.name).None?)
  }

  predicate CleanCoordinates(c: Coordinates) {
    c.path != [] && c.order != [] && forall k <- c.path :: CleanKey(k)
  }

  lemma IntsAreClean(n: int, c: char)
    requires c in ShowInt(n)
    ensures c != '/' && c != '@' && c != ':'
  {
    ParseShownInt(n);
    IntOnly(ShowInt(n), c);
  }

  lemma OrderText(c: Coordinates)
    ensures '@' !in ShowOrder(c)
    ensures ParseInts(Split(ShowOrder(c), '/')) == if c.order == [] then None else Some(c.order)
  {
    var parts := ShownInts(c.order);
    JoinMembers(parts, '/', '@');
    forall p | p in parts ensures '/' !in p && '@' !in p {
      var i :| 0 <= i < |parts| && parts[i] == p;
      if '/' in p { IntsAreClean(c.order[i], '/'); }
      if '@' in p { IntsAreClean(c.order[i], '@'); }
    }
    if c.order == [] {
      assert Split(ShowOrder(c), '/') == [""];
      assert ParseInt("").None?;
    } else {
      SplitJoined(parts, '/');
      forall i | 0 <= i < |c.order| ensures ParseInt(parts[i]) == Some(c.order[i]) { ParseShownInt(c.order[i]); }
      assert ParseInts(parts).value == c.order;
    }
  }

  lemma KindFirst(c: Coordinates)
    ensures Partition(Show(c), ':') == (ShowKind(c.kind), ShowPath(c) + ['@'] + ShowOrder(c))
  {
    var rest := ShowPath(c) + ['@'] + ShowOrder(c);
    assert Show(c) == ShowKind(c.kind) + [':'] + rest;
    PartitionFirst(ShowKind(c.kind), rest, ':');
  }

  /** Without `@` in the path text, parsing reads the two texts separately. */
  lemma ParseShown(c: Coordinates)
    requires '@' !in ShowPath(c) && c.order != []
    ensures Parse(Show(c)) == Some(Coordinates(ParseKeys(Split(ShowPath(c), '/')), c.order, c.kind))
  {
    KindFirst(c);
    PartitionFirst(ShowPath(c), ShowOrder(c), '@');
    OrderText(c);
  }

  lemma {:induction false} PartitionSplits(s: string, sep: char)
    ensures var (before, after) := Partition(s, sep);
            if sep in s then sep !in before && s == before + [sep] + after else before == s && after == ""
  {
    if s != "" {
      PartitionSplits(s[1..], sep);
      assert s == [s[0]] + s[1..];
    }
  }

  /** A text of the coordinates `c`. */
  predicate Written(s: string, c: Coordinates, path: string, order: string) {
    && s == ShowKind(c.kind) + [':'] + path + ['@'] + order && '@' !in path
    && c.path == ParseKeys(Split(path, '/')) && ParseInts(Split(order, '/')) == Some(c.order)
  }

  /** Parsing takes exactly a kind, a path without `@`, and an order of integers. */
  lemma ParseMeans(s: string, c: Coordinates)
    ensures Parse(s) == Some(c) <==> exists path, order :: Written(s, c, path, order)
  {
    hide Split, ParseInts, ParseKeys, ParseInt, Partition;
    var (kind, rest) := Partition(s, ':');
    var (p, o) := Partition(rest, '@');
    PartitionSplits(s, ':');
    PartitionSplits(rest, '@');
    NoOrder();
    if Parse(s) == Some(c) {
      Regroup(kind, [':'], p, ['@'] + o);
      assert kind + [':'] + (p + ['@'] + o) == ShowKind(c.kind) + [':'] + p + ['@'] + o;
      assert Written(s, c, p, o);
    }
    if path, order :| Written(s, c, path, order) {
      assert s == ShowKind(c.kind) + [':'] + (path + ['@'] + order);
      PartitionFirst(ShowKind(c.kind), path + ['@'] + order, ':');
      PartitionFirst(path, order, '@');
    }
  }

  lemma NoOrder()
    ensures ParseInts(Split("", '/')).None? && Partition("", '@') == ("", "")
  {
    assert ParseInt("").None?;
    assert Split("", '/') == [""];
  }

  /** With `@` in a key, or without orders, parsing fails. */
  lemma ParseFails(c: Coordinates)
    requires '@' in ShowPath(c) || c.order == []
    ensures Parse(Show(c)).None?
  {
    KindFirst(c);
    var rest := ShowPath(c) + ['@'] + ShowOrder(c);
    if '@' in ShowPath(c) {
      PartitionEarlier(ShowPath(c), ShowOrder(c), '@');
      var order := Partition(rest, '@').1;
      SplitMembers(order, '/', '@');
      var p :| p in Split(order, '/') && '@' in p;
      if ParseInt(p).Some? { IntOnly(p, '@'); }
    } else {
      PartitionFirst(ShowPath(c), ShowOrder(c), '@');
      OrderText(c);
    }
  }

  lemma PathText(path: seq<Key>)
    requires path != [] && forall k <- path :: CleanKey(k)
    ensures Split(Join(Shown(path), '/'), '/') == Shown(path) && '@' !in Join(Shown(path), '/')
    ensures ParseKeys(Shown(path)) == path
  {
    var parts := Shown(path);
    forall p | p in parts ensures '/' !in p && '@' !in p {
      var i :| 0 <= i < |parts| && parts[i] == p;
      assert path[i] in path;
      if path[i].Index? {
        if '/' in p { IntsAreClean(path[i].index, '/'); }
        if '@' in p { IntsAreClean(path[i].index, '@'); }
      }
    }
    SplitJoined(parts, '/');
    JoinMembers(parts, '/', '@');
    forall i | 0 <= i < |path| ensures ParseKey(parts[i]) == path[i] {
      assert path[i] in path;
      if path[i].Index? { ParseShownInt(path[i].index); }
    }
  }

  /** Parsing gives back what was printed exactly for coordinates with a path and an order
      whose string keys contain no `/` and no `@` and do not read as integers. */
  lemma RoundTrip(c: Coordinates)
    ensures Parse(Show(c)) == Some(c) <==> CleanCoordinates(c)
  {
    if CleanCoordinates(c) {
      PathText(c.path);
      ParseShown(c);
    } else if '@' in ShowPath(c) || c.order == [] {
      ParseFails(c);
    } else {
      ParseShown(c);
      BrokenPath(c);
    }
  }

  lemma BrokenPath(c: Coordinates)
    requires '@' !in ShowPath(c) && c.order != [] && !CleanCoordinates(c)
    ensures ParseKeys(Split(ShowPath(c), '/')) != c.path
  {
    if c.path != [] {
      var parts := Shown(c.path);
      var i :| 0 <= i < |c.path| && !CleanKey(c.path[i]);
      assert parts[i] == c.path[i].name && parts[i] in parts;
      JoinMembers(parts, '/', '@');
      SplitLength(ShowPath(c), '/');
      JoinCount(parts, '/');
      if forall p <- parts :: '/' !in p {
        SplitJoined(parts, '/');
        assert ParseKeys(parts)[i].Index?;
      }
    }
  }

  /** Hence printing is injective on such coordinates. */
  lemma ShowInjective(c: Coordinates, d: Coordinates)
    requires CleanCoordinates(c) && CleanCoordinates(d) && Show(c) == Show(d)
    ensures c == d
  {
    RoundTrip(c);
    RoundTrip(d);
  }

  lemma {:induction false} LastSeparator(a: string, b: string, a': string, b': string, sep: char)
    requires a + [sep] + b == a' + [sep] + b' && sep !in b && sep !in b'
    ensures a == a' && b == b'
  {
    var s := a + [sep] + b;
    assert s[|a|] == sep && s[|a'|] == sep;
    assert forall i | |a| < i < |s| :: s[i] == b[i - |a| - 1];
    assert forall i | |a'| < i < |s| :: s[i] == b'[i - |a'| - 1];
    assert a == s[..|a|] && a' == s[..|a'|] && b == s[|a| + 1..] && b' == s[|a'| + 1..];
  }

  /** For any keys whatsoever, the text determines the kind and the order vector. */
  lemma TextDeterminesOrder(c: Coordinates, d: Coordinates)
    requires Show(c) == Show(d)
    ensures c.order == d.order && c.kind == d.kind
  {
    KindFirst(c);
    KindFirst(d);
    OrderText(c);
    OrderText(d);
    LastSeparator(ShowPath(c), ShowOrder(c), ShowPath(d), ShowOrder(d), '@');
  }

  // ------------------------------------------------------------------ coordinates reloaded

  lemma {:induction false} JoinSplit(s: string, sep: char)
    ensures Join(Split(s, sep), sep) == s
    ensures forall p <- Split(s, sep) :: sep !in p
  {
    if s != "" {
      JoinSplit(s[1..], sep);
      var rest := Split(s[1..], sep);
      var parts := Split(s, sep);
      assert rest == [rest[0]] + rest[1..];
      if s[0] == sep {
        assert parts[1..] == rest;
      } else {
        assert parts[1..] == rest[1..];
        JoinPrepend(s[0], rest, sep);
      }
    }
  }

  lemma JoinPrepend(c: char, parts: seq<string>, sep: char)
    requires parts != []
    ensures Join([[c] + parts[0]] + parts[1..], sep) == [c] + Join(parts, sep)
  {
    var more := [[c] + parts[0]] + parts[1..];
    assert more[1..] == parts[1..];
    if |parts| > 1 {
      assert Join(more, sep) == [c] + parts[0] + [sep] + Join(parts[1..], sep);
    }
  }

  /** A piece of a path text that prints as it was after being read as a key. */
  predicate StablePiece(p: string) {
    ParseInt(p).Some? ==> ShowInt(ParseInt(p).value) == p
  }

  /** Coordinates written to the log and read back name the same branch - so that skipping a
      stage finds the branch of its latest step - exactly when there is an order, no key
      contains `@`, and no piece of the path text is a non-canonical integer such as `01`. */
  lemma ReloadedNameIsStable(c: Coordinates)
    ensures (Parse(Show(c)).Some? && Show(Parse(Show(c)).value) == Show(c))
       <==> (c.order != [] && '@' !in ShowPath(c) && forall p <- Split(ShowPath(c), '/') :: StablePiece(p))
  {
    if c.order == [] || '@' in ShowPath(c) {
      ParseFails(c);
    } else {
      var d := Reloaded(c);
      hide Show, Parse, Split, StablePiece;
      if Show(d) == Show(c) { StableWhenSame(c, d); }
      if forall p <- Split(ShowPath(c), '/') :: StablePiece(p) { SameWhenStable(c, d); }
    }
  }

  /** What reading back gives: the same order and kind, each piece of the path read as a key. */
  lemma Reloaded(c: Coordinates) returns (d: Coordinates)
    requires c.order != [] && '@' !in ShowPath(c)
    ensures Parse(Show(c)) == Some(d) && ReloadedFrom(c, d)
  {
    ParseShown(c);
    d := Parse(Show(c)).value;
  }

  ghost predicate ReloadedFrom(c: Coordinates, d: Coordinates) {
    && d.order == c.order && d.kind == c.kind && d.path == ParseKeys(Split(ShowPath(c), '/'))
  }

  lemma StableWhenSame(c: Coordinates, d: Coordinates)
    requires ReloadedFrom(c, d) && Show(d) == Show(c)
    ensures forall p <- Split(ShowPath(c), '/') :: StablePiece(p)
  {
    var parts := Split(ShowPath(c), '/');
    JoinSplit(ShowPath(c), '/');
    KindFirst(c);
    KindFirst(d);
    OrderText(c);
    LastSeparator(ShowPath(c), ShowOrder(c), ShowPath(d), ShowOrder(d), '@');
    PiecesHaveNoSlash(parts, d.path);
    SplitJoined(Shown(d.path), '/');
    hide Split, ShowInt, ParseInt;
    forall p | p in parts ensures StablePiece(p) {
      var i :| 0 <= i < |parts| && parts[i] == p;
      assert Shown(d.path)[i] == parts[i];
    }
  }

  lemma PiecesHaveNoSlash(parts: seq<string>, path: seq<Key>)
    requires path == ParseKeys(parts) && forall p <- parts :: '/' !in p
    ensures forall p <- Shown(path) :: '/' !in p
  {
    hide ShowInt, ParseInt;
    forall p | p in Shown(path) ensures '/' !in p {
      var i :| 0 <= i < |parts| && Shown(path)[i] == p;
      assert parts[i] in parts;
      if path[i].Index? && '/' in p { IntsAreClean(path[i].index, '/'); }
    }
  }

  lemma SameWhenStable(c: Coordinates, d: Coordinates)
    requires ReloadedFrom(c, d) && forall p <- Split(ShowPath(c), '/') :: StablePiece(p)
    ensures Show(d) == Show(c)
  {
    var parts := Split(ShowPath(c), '/');
    JoinSplit(ShowPath(c), '/');
    hide Split, ShowInt, ParseInt;
    forall i | 0 <= i < |parts| ensures Shown(d.path)[i] == parts[i] {
      assert parts[i] in parts;
    }
    assert Shown(d.path) == parts;
  }
}
