/** The few string operations of Go's standard library that the panel's printers and
    parsers are built from, with the laws the other modules use. A string is a
    sequence of code points. */
module Text {

  datatype Option<+T> = None | Some(value: T)

  const NEWLINE: char := '\n'

  // ---- Searching and cutting -------------------------------------------------

  /** strings.Index: the first position of sub in s, or -1. */
  function Find(s: string, sub: string): (i: int)
    requires sub != ""
    ensures -1 <= i
    ensures i >= 0 ==> i + |sub| <= |s| && s[i..i + |sub|] == sub
  {
    if |s| < |sub| then -1
    else if sub <= s then 0
    else
      var rest := Find(s[1..], sub);
      if rest < 0 then -1
      else
        assert s[1..][rest..rest + |sub|] == s[rest + 1..rest + 1 + |sub|];
        rest + 1
  }

  /** The part of s above the first sub; all of s when there is none. */
  function Before(s: string, sub: string): (r: string)
    requires sub != ""
    ensures r <= s
  {
    var i := Find(s, sub);
    if i < 0 then s else s[..i]
  }

  lemma BeforeStep(s: string, sub: string)
    requires sub != "" && s != ""
    ensures Before(s, sub) == if sub <= s then "" else [s[0]] + Before(s[1..], sub)
  {
  }

  /** strings.Cut. */
  function Cut(s: string, sep: string): (r: Option<(string, string)>)
    requires sep != ""
    ensures r.Some? ==> s == r.value.0 + sep + r.value.1
  {
    var i := Find(s, sep);
    if i < 0 then None else Some((s[..i], s[i + |sep|..]))
  }

  /** A prefix free of the separator's first character hides no separator. */
  lemma {:induction false} FindSkips(head: string, tail: string, sub: string)
    requires sub != "" && sub[0] !in head
    ensures Find(tail, sub) < 0 ==> Find(head + tail, sub) < 0
    ensures Find(tail, sub) >= 0 ==> Find(head + tail, sub) == |head| + Find(tail, sub)
  {
    if head == "" {
      assert head + tail == tail;
    } else {
      assert (head + tail)[1..] == head[1..] + tail;
      FindSkips(head[1..], tail, sub);
      assert (head + tail)[0] in head;
    }
  }

  lemma CutAtSeparator(key: string, sep: string, value: string)
    requires sep != "" && sep[0] !in key
    ensures Cut(key + sep + value, sep) == Some((key, value))
  {
    FindSkips(key, sep + value, sep);
    assert key + sep + value == key + (sep + value);
    assert (key + sep + value)[|key| + |sep|..] == value;
  }

  // ---- Splitting and joining -------------------------------------------------

  /** strings.Split for a one-character separator. */
  function Split(s: string, sep: char): (parts: seq<string>)
    ensures |parts| >= 1
    ensures forall p | p in parts :: sep !in p
  {
    if s == "" then [""]
    else
      var rest := Split(s[1..], sep);
      if s[0] == sep then [""] + rest else [[s[0]] + rest[0]] + rest[1..]
  }

  /** Every line followed by a newline, as a builder of "...\n" pieces writes them. */
  function Unlines(lines: seq<string>): string {
    if lines == [] then "" else lines[0] + "\n" + Unlines(lines[1..])
  }

  ghost predicate SingleLines(lines: seq<string>) {
    forall i | 0 <= i < |lines| :: NEWLINE !in lines[i]
  }

  lemma {:induction false} UnlinesAppend(a: seq<string>, b: seq<string>)
    ensures Unlines(a + b) == Unlines(a) + Unlines(b)
  {
    if a == [] {
      assert a + b == b;
    } else {
      UnlinesAppend(a[1..], b);
      assert (a + b)[1..] == a[1..] + b;
    }
  }

  lemma {:induction false} SplitPiece(piece: string, rest: string, sep: char)
    requires sep !in piece
    ensures Split(piece + [sep] + rest, sep) == [piece] + Split(rest, sep)
    ensures Split(piece, sep) == [piece]
  {
    if piece == "" {
      assert (piece + [sep] + rest)[1..] == rest;
    } else {
      SplitPiece(piece[1..], rest, sep);
      assert (piece + [sep] + rest)[1..] == piece[1..] + [sep] + rest;
      assert piece == [piece[0]] + piece[1..];
    }
  }

  /** Splitting printed lines gives the lines back, and the empty text after the last newline. */
  lemma {:induction false} SplitUnlines(lines: seq<string>)
    requires SingleLines(lines)
    ensures Split(Unlines(lines), NEWLINE) == lines + [""]
  {
    if lines != [] {
      assert SingleLines(lines[1..]);
      SplitUnlines(lines[1..]);
      assert Unlines(lines) == lines[0] + [NEWLINE] + Unlines(lines[1..]);
      SplitPiece(lines[0], Unlines(lines[1..]), NEWLINE);
      assert lines == [lines[0]] + lines[1..];
    }
  }

  lemma UnlinesInjective(a: seq<string>, b: seq<string>)
    requires SingleLines(a) && SingleLines(b) && Unlines(a) == Unlines(b)
    ensures a == b
  {
    SplitUnlines(a);
    SplitUnlines(b);
    assert a == (a + [""])[..|a|];
    assert b == (b + [""])[..|b|];
  }

  /** strings.Join. */
  function Join(parts: seq<string>, sep: string): string {
    if parts == [] then ""
    else if |parts| == 1 then parts[0]
    else parts[0] + sep + Join(parts[1..], sep)
  }

  lemma {:induction false} SplitJoin(parts: seq<string>, sep: char)
    requires parts != [] && forall p | p in parts :: sep !in p
    ensures Split(Join(parts, [sep]), sep) == parts
  {
    hide Split;
    SplitPiece(parts[0], Join(parts[1..], [sep]), sep);
    if |parts| > 1 {
      SplitJoin(parts[1..], sep);
      assert parts == [parts[0]] + parts[1..];
    } else {
      assert parts == [parts[0]];
    }
  }

  lemma {:induction false} JoinSplit(s: string, sep: char)
    ensures Join(Split(s, sep), [sep]) == s
  {
    if s != "" {
      JoinSplit(s[1..], sep);
      var rest := Split(s[1..], sep);
      if s[0] == sep {
        assert ([""] + rest)[1..] == rest;
      } else {
        assert ([[s[0]] + rest[0]] + rest[1..])[1..] == rest[1..];
      }
    }
  }

  lemma SplitInjective(a: string, b: string, sep: char)
    requires Split(a, sep) == Split(b, sep)
    ensures a == b
  {
    JoinSplit(a, sep);
    JoinSplit(b, sep);
  }

  lemma {:induction false} FirstPiece(s: string, sep: char)
    ensures var p := Split(s, sep)[0]; p <= s && (p == s || s[|p|] == sep)
  {
    if s != "" && s[0] != sep {
      FirstPiece(s[1..], sep);
      assert s == [s[0]] + s[1..];
    }
  }

  /** A text begins with a separator-free word exactly when its first piece does. */
  lemma FirstPieceStarts(s: string, word: string, sep: char)
    requires sep !in word
    ensures word <= s <==> word <= Split(s, sep)[0]
  {
    FirstPiece(s, sep);
    var p := Split(s, sep)[0];
    assert word <= s ==> forall i | 0 <= i < |word| :: word[i] == s[i];
  }

  /** Two texts that differ only after their last separator are equal only part by part. */
  lemma LastPieceUnique(a: string, x: string, b: string, y: string, sep: char)
    requires sep !in x && sep !in y
    requires a + [sep] + x == b + [sep] + y
    ensures a == b && x == y
  {
    var whole := a + [sep] + x;
    assert whole[|a|] == sep && whole[|b|] == sep;
    assert forall i | |a| < i < |whole| :: whole[i] == x[i - |a| - 1];
    assert forall i | |b| < i < |whole| :: whole[i] == y[i - |b| - 1];
    assert |a| == |b|;
    assert a == whole[..|a|] && b == whole[..|b|];
    assert x == whole[|a| + 1..] && y == whole[|b| + 1..];
  }

  // ---- White space -----------------------------------------------------------

  /** unicode.IsSpace. */
  predicate IsSpace(c: char) {
    || c in "\t\n\r "
    || c == '\U{0B}' || c == '\U{0C}'
    || c == '\U{85}' || c == '\U{A0}' || c == '\U{1680}'
    || '\U{2000}' <= c <= '\U{200A}'
    || c == '\U{2028}' || c == '\U{2029}' || c == '\U{202F}' || c == '\U{205F}' || c == '\U{3000}'
  }

  function TrimLeft(s: string): (r: string)
    ensures forall c | c in r :: c in s
    ensures r != "" ==> !IsSpace(r[0])
    ensures |r| <= |s|
  {
    if s != "" && IsSpace(s[0]) then TrimLeft(s[1..]) else s
  }

  function TrimRight(s: string): (r: string)
    ensures r <= s
    ensures r != "" ==> !IsSpace(r[|r| - 1])
  {
    if s != "" && IsSpace(s[|s| - 1]) then TrimRight(s[..|s| - 1]) else s
  }

  /** strings.TrimSpace. */
  function Trim(s: string): (r: string)
    ensures forall c | c in r :: c in s
    ensures r != "" ==> !IsSpace(r[0]) && !IsSpace(r[|r| - 1])
    ensures (s == "" || (!IsSpace(s[0]) && !IsSpace(s[|s| - 1]))) ==> r == s
  {
    TrimRight(TrimLeft(s))
  }

  // ---- Decimal numbers -------------------------------------------------------

  predicate IsDigit(c: char) { '0' <= c <= '9' }

  predicate AllDigits(s: string) { forall c | c in s :: IsDigit(c) }

  function DigitChar(d: nat): (c: char)
    requires d < 10
    ensures IsDigit(c)
  {
    '0' + d as char
  }

  function DigitValue(c: char): (d: nat)
    requires IsDigit(c)
    ensures d < 10
  {
    c as nat - '0' as nat
  }

  function Digits(n: nat): (s: string)
    ensures s != "" && AllDigits(s)
  {
    if n < 10 then [DigitChar(n)] else Digits(n / 10) + [DigitChar(n % 10)]
  }

  function DigitsValue(s: string): nat
    requires AllDigits(s)
  {
    if s == "" then 0 else 10 * DigitsValue(s[..|s| - 1]) + DigitValue(s[|s| - 1])
  }

  /** strconv.Itoa. */
  function Itoa(n: int): (s: string)
    ensures s != "" && (s[0] == '-' || IsDigit(s[0])) && forall c | c in s :: c == '-' || IsDigit(c)
    ensures n >= 0 ==> AllDigits(s)
  {
    if n < 0 then "-" + Digits(-n) else Digits(n)
  }

  const MAX_INT64: int := 0x7FFF_FFFF_FFFF_FFFF

  /** strconv.ParseInt(s, 10, 64), and strconv.Atoi on a 64-bit machine. */
  function ParseInt(s: string): (r: Option<int>)
    ensures r.Some? ==> -MAX_INT64 - 1 <= r.value <= MAX_INT64
  {
    var negative := s != "" && s[0] == '-';
    var body := if s != "" && (s[0] == '-' || s[0] == '+') then s[1..] else s;
    if body == "" || !AllDigits(body) then None
    else
      var n: int := DigitsValue(body);
      if negative then (if n > MAX_INT64 + 1 then None else Some(-n))
      else (if n > MAX_INT64 then None else Some(n))
  }

  lemma {:induction false} DigitsRoundTrip(n: nat)
    ensures DigitsValue(Digits(n)) == n
  {
    if n >= 10 {
      DigitsRoundTrip(n / 10);
      var s := Digits(n);
      assert s[..|s| - 1] == Digits(n / 10);
    }
  }

  lemma ParseItoa(n: int)
    requires -MAX_INT64 - 1 <= n <= MAX_INT64
    ensures ParseInt(Itoa(n)) == Some(n)
  {
    if n < 0 {
      DigitsRoundTrip(-n);
      assert Itoa(n)[1..] == Digits(-n);
    } else {
      DigitsRoundTrip(n);
      assert IsDigit(Itoa(n)[0]);
    }
  }

  /** The number a decimal text stands for. */
  ghost function IntValue(s: string): int
    requires s != "" && AllDigits(s[1..]) && (s[0] == '-' || IsDigit(s[0]))
  {
    (if s[0] == '-' then -1 else 1) * DigitsValue(if s[0] == '-' then s[1..] else s)
  }

  lemma ItoaValue(n: int)
    ensures var s := Itoa(n); AllDigits(s[1..]) && IntValue(s) == n
  {
    var magnitude: nat := if n < 0 then -n else n;
    DigitsRoundTrip(magnitude);
    if n < 0 {
      assert Itoa(n)[1..] == Digits(magnitude);
    } else {
      assert Digits(magnitude)[0] in Digits(magnitude);
    }
  }

  lemma ItoaInjective(m: int, n: int)
    requires Itoa(m) == Itoa(n)
    ensures m == n
  {
    ItoaValue(m);
    ItoaValue(n);
  }

  // ---- Sets ------------------------------------------------------------------

  function Smaller(a: nat, b: nat): nat { if a < b then a else b }

  /** What a list lists. */
  function Members<T>(l: seq<T>): (s: set<T>) { set x | x in l }

  lemma InMembers<T>(l: seq<T>, x: T)
    ensures x in l <==> x in Members(l)
  {
  }

  lemma MembersNone<T>()
    ensures Members<T>([]) == {}
  {
  }

  lemma MembersAppend<T>(l: seq<T>, x: T)
    ensures Members(l + [x]) == Members(l) + {x}
  {
    forall y
      ensures y in Members(l + [x]) <==> y in Members(l) + {x}
    {
    }
  }

  lemma SomeMember(s: set<int>)
    ensures s == {} || exists x :: x in s
  {
    if forall x :: x !in s {
      assert s == {};
    }
  }

  lemma SomeText(s: set<string>)
    ensures s == {} || exists x :: x in s
  {
    if forall x :: x !in s {
      assert s == {};
    }
  }

  lemma SubsetSize<T>(a: set<T>, b: set<T>)
    requires a <= b
    ensures |a| <= |b| && (|a| == |b| ==> a == b)
  {
    assert b == a + (b - a);
  }
}
