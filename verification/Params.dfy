/** Generating and validating AmneziaWG 3.1 parameters (internal/amneziawg/params.go). */
module Params {
  import opened Text
  import opened AmneziaTypes

  const MAX_UINT32: int := 4294967295
  const MAX_UINT16: int := 65535
  const MAX_GENERATED_HEADER: int := 2147483647

  // ---- Ranges ----------------------------------------------------------------

  /** parseUintRange: "N" or "low-high"; None when blank or not numeric. */
  function ParseRange(text: string): (r: Option<(int, int)>) {
    var v := Trim(text);
    if v == "" then None
    else
      match Cut(v, "-")
      case Some((low, high)) =>
        var l, h := ParseInt(Trim(low)), ParseInt(Trim(high));
        if l.None? || h.None? then None else Some((l.value, h.value))
      case None =>
        var n := ParseInt(v);
        if n.None? then None else Some((n.value, n.value))
  }

  /** validateUintRange: blank, or a range of uint32 values from min up. */
  predicate RangeOk(v: string, min: int) {
    Trim(v) == "" ||
    (PlainValue(v) && ParseRange(v).Some? && min <= ParseRange(v).value.0 <= ParseRange(v).value.1 <= MAX_UINT32)
  }

  /** How the panel prints a range, and a single value. */
  function PrintRange(low: nat, high: nat): string { Itoa(low) + "-" + Itoa(high) }

  lemma DigitsPlain(n: nat)
    ensures Trim(Itoa(n)) == Itoa(n) && PlainValue(Itoa(n)) && '-' !in Itoa(n)
  {
    var s := Itoa(n);
    assert forall c | c in s :: IsDigit(c);
    assert s[0] in s && s[|s| - 1] in s;
  }

  /** What a printed value parses back to. */
  lemma ValueRoundTrip(n: nat)
    requires n <= MAX_INT64
    ensures ParseRange(Itoa(n)) == Some((n, n)) && PlainValue(Itoa(n)) && Trim(Itoa(n)) != ""
  {
    DigitsPlain(n);
    ParseItoa(n);
    hide Itoa, ParseInt, Trim, Cut;
    NoDash(Itoa(n));
  }

  lemma TrimmedRange(l: string, h: string)
    requires l != "" && h != "" && Trim(l) == l && Trim(h) == h
    ensures Trim(l + "-" + h) == l + "-" + h
  {
    var v := l + "-" + h;
    assert v[0] == l[0] && v[|v| - 1] == h[|h| - 1];
  }

  /** What a printed range parses back to. */
  lemma RangeRoundTrip(low: nat, high: nat)
    requires low <= MAX_INT64 && high <= MAX_INT64
    ensures ParseRange(PrintRange(low, high)) == Some((low, high)) && PlainValue(PrintRange(low, high))
    ensures Trim(PrintRange(low, high)) != ""
  {
    DigitsPlain(low);
    DigitsPlain(high);
    ParseItoa(low);
    ParseItoa(high);
    hide Itoa, ParseInt, Trim, Cut, PlainValue;
    TrimmedRange(Itoa(low), Itoa(high));
    CutAtSeparator(Itoa(low), "-", Itoa(high));
    PlainRange(Itoa(low), Itoa(high));
  }

  lemma PlainRange(l: string, h: string)
    requires PlainValue(l) && PlainValue(h)
    ensures PlainValue(l + "-" + h)
  {
  }

  lemma {:induction false} NoDash(s: string)
    requires '-' !in s
    ensures Cut(s, "-") == None
  {
    if s != "" {
      NoDash(s[1..]);
      assert s[0] in s;
    }
  }

  // ---- Headers ---------------------------------------------------------------

  /** The message types header i stands for: its range, or WireGuard's own type i + 1. */
  function HeaderRange(h: string, i: nat): (int, int) {
    match ParseRange(h)
    case Some(range) => range
    case None => (i + 1, i + 1)
  }

  predicate Overlap(a: (int, int), b: (int, int)) { a.0 <= b.1 && b.0 <= a.1 }

  predicate NoOverlap(hs: seq<string>) {
    forall i, j | 0 <= i < j < |hs| :: !Overlap(HeaderRange(hs[i], i), HeaderRange(hs[j], j))
  }

  /** Each header's bounds, in two arrays. */
  method HeaderBounds(hs: seq<string>) returns (lo: array<int>, hi: array<int>)
    ensures fresh(lo) && fresh(hi) && lo.Length == hi.Length == |hs|
    ensures forall k | 0 <= k < |hs| :: (lo[k], hi[k]) == HeaderRange(hs[k], k)
  {
    hide ParseRange;
    lo, hi := new int[|hs|], new int[|hs|];
    for i := 0 to |hs|
      invariant forall k | 0 <= k < i :: (lo[k], hi[k]) == HeaderRange(hs[k], k)
    {
      var range := ParseRange(hs[i]);
      if range.None? {
        lo[i], hi[i] := i + 1, i + 1;
      } else {
        lo[i], hi[i] := range.value.0, range.value.1;
      }
    }
  }

  /** validateHNoOverlap. */
  method ValidateNoOverlap(hs: seq<string>) returns (ok: bool)
    ensures ok <==> NoOverlap(hs)
  {
    hide HeaderRange;
    var lo, hi := HeaderBounds(hs);
    for i := 0 to |hs|
      invariant forall a, b | 0 <= a < i && a < b < |hs| :: !Overlap(HeaderRange(hs[a], a), HeaderRange(hs[b], b))
    {
      for j := i + 1 to |hs|
        invariant forall b | i < b < j :: !Overlap(HeaderRange(hs[i], i), HeaderRange(hs[b], b))
      {
        assert (lo[i], hi[i]) == HeaderRange(hs[i], i) && (lo[j], hi[j]) == HeaderRange(hs[j], j);
        if lo[i] <= hi[j] && lo[j] <= hi[i] {
          return false;
        }
      }
    }
    return true;
  }

  predicate InRange(x: int, range: (int, int)) { range.0 <= x <= range.1 }

  // ---- Signature packets -----------------------------------------------------

  predicate KnownTag(tag: string) { tag in ["b", "t", "r", "rc", "rd", "d", "ds", "dz"] }

  /** Up to the first white space. */
  function Word(s: string): (w: string)
    ensures w <= s
  {
    if s == "" || IsSpace(s[0]) then "" else [s[0]] + Word(s[1..])
  }

  /** strings.Fields(s)[0]; "" when there is none. */
  function FirstField(s: string): (w: string) { Word(TrimLeft(s)) }

  /** What validateObfChain accepts of the text still to read. */
  predicate ChainOk(remaining: string)
    decreases |remaining|
  {
    var start := Find(remaining, "<");
    start < 0 ||
    var tail := remaining[start..];
    var end := Find(tail, ">");
    end >= 1 && KnownTag(FirstField(tail[1..end])) && ChainOk(tail[end + 1..])
  }

  method ValidateChain(spec: string) returns (ok: bool)
    ensures ok <==> Trim(spec) == "" || ChainOk(spec)
  {
    hide KnownTag, FirstField, Find, Trim;
    if Trim(spec) == "" {
      return true;
    }
    var remaining := spec;
    while true
      invariant ChainOk(spec) <==> ChainOk(remaining)
      decreases |remaining|
    {
      var start := Find(remaining, "<");
      if start == -1 {
        return true;
      }
      var tail := remaining[start..];
      var end := Find(tail, ">");
      if end == -1 {
        return false;
      }
      OpeningIsNotClosing(tail, end);
      if !KnownTag(FirstField(tail[1..end])) {
        return false;
      }
      remaining := tail[end + 1..];
    }
  }

  lemma OpeningIsNotClosing(tail: string, end: int)
    requires "<" <= tail && end == Find(tail, ">") && end >= 0
    ensures end >= 1
  {
    assert tail[0] == '<' && tail[end..end + 1][0] == tail[end];
  }

  /** A printed tag is accepted exactly when it is one of the engine's eight, and leaves the rest
      to be read. */
  lemma PrintedTag(tag: string, value: string, rest: string)
    requires tag != "" && '>' !in tag && '>' !in value && forall c | c in tag :: !IsSpace(c)
    ensures ChainOk("<" + tag + " " + value + ">" + rest) <==>
      tag in ["b", "t", "r", "rc", "rd", "d", "ds", "dz"] && ChainOk(rest)
  {
    assert KnownTag(tag) <==> tag in ["b", "t", "r", "rc", "rd", "d", "ds", "dz"];
    hide KnownTag, Find, Word, TrimLeft, ChainOk;
    var body := tag + " " + value;
    var spec := "<" + body + ">" + rest;
    assert "<" + tag + " " + value + ">" + rest == spec;
    var end := |body| + 1;
    assert Find(spec, "<") == 0 && Find(spec, ">") == end by {
      OpenClose(body, rest);
    }
    assert spec[0..] == spec && spec[1..end] == body && spec[end + 1..] == rest;
    assert FirstField(body) == tag by {
      TagFirst(tag, value);
    }
    ChainStep(spec, end);
  }

  lemma ChainStep(spec: string, end: nat)
    requires Find(spec, "<") == 0 && Find(spec, ">") == end && end >= 1
    ensures ChainOk(spec) <==> KnownTag(FirstField(spec[1..end])) && ChainOk(spec[end + 1..])
  {
    hide Find, FirstField, KnownTag;
    assert spec[0..] == spec;
  }

  lemma OpenClose(body: string, rest: string)
    requires '>' !in body
    ensures Find("<" + body + ">" + rest, "<") == 0 && Find("<" + body + ">" + rest, ">") == |body| + 1
  {
    var spec := "<" + body + ">" + rest;
    assert spec == ("<" + body) + (">" + rest);
    assert '>' !in "<" + body;
    FindSkips("<" + body, ">" + rest, ">");
    assert ">" <= ">" + rest && "<" <= spec;
  }

  lemma TagFirst(tag: string, value: string)
    requires tag != "" && forall c | c in tag :: !IsSpace(c)
    ensures FirstField(tag + " " + value) == tag
  {
    var body := tag + " " + value;
    TagWord(tag, " " + value);
    assert tag + (" " + value) == body;
    assert body[0] in tag;
    assert TrimLeft(body) == body;
  }

  lemma {:induction false} TagWord(tag: string, after: string)
    requires (forall c | c in tag :: !IsSpace(c)) && after != "" && IsSpace(after[0])
    ensures Word(tag + after) == tag
  {
    if tag == "" {
      assert tag + after == after;
    } else {
      assert (tag + after)[1..] == tag[1..] + after;
      assert tag[0] in tag;
      TagWord(tag[1..], after);
    }
  }

  // ---- A whole parameter set -------------------------------------------------

  /** Whether a text decodes from base64 to 32 bytes. */
  type KeyDecoder = string -> bool

  predicate JunkOk(o: Obfuscation31) {
    && o.jmin <= o.jmax
    && 0 <= o.jc <= MAX_UINT32 && 0 <= o.jmin <= MAX_UINT32 && 0 <= o.jmax <= MAX_UINT32
    && 0 <= o.s1 <= MAX_UINT16 && 0 <= o.s2 <= MAX_UINT16 && 0 <= o.s3 <= MAX_UINT16
    && 0 <= o.s4 <= 32
    && o.s1 + 56 != o.s2
  }

  predicate ChainsOk(o: Obfuscation31) {
    forall i | 0 <= i < 5 :: Trim(o.Signatures()[i]) == "" || ChainOk(o.Signatures()[i])
  }

  predicate HeadersOk(o: Obfuscation31) {
    (forall i | 0 <= i < 4 :: RangeOk(o.Headers()[i], 0)) && NoOverlap(o.Headers())
  }

  predicate KeyOk(o: Obfuscation31, decodes: KeyDecoder) {
    o.headerProtectionKey == "" ||
    (PlainValue(o.headerProtectionKey) && decodes(o.headerProtectionKey)
     && o.s1 >= 12 && o.s2 >= 12 && o.s3 >= 12 && o.s4 >= 12)
  }

  function Timing(o: Obfuscation31): (fields: seq<string>)
    ensures |fields| == 5
  {
    [o.rekeyAfterTime, o.rekeyTimeout, o.rejectAfterTime, o.keepaliveTimeout, o.maxHandshakeAttempts]
  }

  /** parseUintRange's bounds as the caller that ignores its ok sees them. */
  function Bounds(v: string): (int, int) {
    match ParseRange(v)
    case Some(range) => range
    case None => (0, 0)
  }

  predicate RekeyBelowReject(rekey: string, reject: string) {
    (rekey == "" && reject == "") ||
    (if rekey == "" then 120 else Bounds(rekey).1) < (if reject == "" then 180 else Bounds(reject).0)
  }

  predicate TimingOk(o: Obfuscation31) {
    (forall i | 0 <= i < 5 :: RangeOk(Timing(o)[i], 1)) && RekeyBelowReject(o.rekeyAfterTime, o.rejectAfterTime)
  }

  /** What ValidateObfuscation accepts. */
  predicate Accepted(o: Obfuscation31, decodes: KeyDecoder) {
    JunkOk(o) && ChainsOk(o) && HeadersOk(o) && KeyOk(o, decodes) && RangeOk(o.contentPaddingAddition, 0) && TimingOk(o)
  }

  const MAX_SERVER_S1: int := 1700 - 148
  const MAX_SERVER_S2: int := 1700 - 92
  const MAX_SERVER_S3: int := 1700 - 64

  /** What ValidateServerObfuscation accepts. */
  predicate ServerAccepted(o: Obfuscation31, decodes: KeyDecoder) {
    Accepted(o, decodes) && o.s1 <= MAX_SERVER_S1 && o.s2 <= MAX_SERVER_S2 && o.s3 <= MAX_SERVER_S3
  }

  /** ValidateObfuscation. */
  method ValidateObfuscation(o: Obfuscation31, decodes: KeyDecoder) returns (ok: bool)
    ensures ok <==> Accepted(o, decodes)
  {
    hide ParseRange, RangeOk, ChainOk, NoOverlap, KeyOk, RekeyBelowReject;
    if !JunkOk(o) {
      return false;
    }
    for i := 0 to 5
      invariant forall k | 0 <= k < i :: Trim(o.Signatures()[k]) == "" || ChainOk(o.Signatures()[k])
    {
      var valid := ValidateChain(o.Signatures()[i]);
      if !valid {
        return false;
      }
    }
    for i := 0 to 4
      invariant forall k | 0 <= k < i :: RangeOk(o.Headers()[k], 0)
    {
      if !RangeOk(o.Headers()[i], 0) {
        return false;
      }
    }
    var apart := ValidateNoOverlap(o.Headers());
    if !apart || !KeyOk(o, decodes) || !RangeOk(o.contentPaddingAddition, 0) {
      return false;
    }
    for i := 0 to 5
      invariant forall k | 0 <= k < i :: RangeOk(Timing(o)[k], 1)
    {
      if !RangeOk(Timing(o)[i], 1) {
        return false;
      }
    }
    return RekeyBelowReject(o.rekeyAfterTime, o.rejectAfterTime);
  }

  // ---- What acceptance means -------------------------------------------------

  /** A printed range is accepted exactly when it ascends within the 32 bits of a message type. */
  lemma RangeOkExact(low: nat, high: nat, min: int)
    requires low <= MAX_INT64 && high <= MAX_INT64
    ensures RangeOk(PrintRange(low, high), min) <==> min <= low <= high < 0x1_0000_0000
  {
    RangeRoundTrip(low, high);
    hide PrintRange, ParseRange, Trim, PlainValue;
  }

  /** What the sizes of an accepted server set mean for the packets, of which a handshake
      initiation has 148 bytes, a response 92 and a cookie reply 64 before they are padded: an
      initiation and a response never have the same length, all three fit into 1700 bytes, and
      with header protection each padding holds its 12 bytes. */
  lemma SizesExact(o: Obfuscation31, decodes: KeyDecoder)
    ensures ServerAccepted(o, decodes) <==>
      && 148 + o.s1 != 92 + o.s2 && 148 + o.s1 <= 1700 && 92 + o.s2 <= 1700 && 64 + o.s3 <= 1700
      && 0 <= o.s1 && 0 <= o.s2 && 0 <= o.s3 && 0 <= o.s4 <= 32
      && 0 <= o.jc < 0x1_0000_0000 && 0 <= o.jmin <= o.jmax < 0x1_0000_0000
      && (o.headerProtectionKey != "" ==>
        && o.s1 >= 12 && o.s2 >= 12 && o.s3 >= 12 && o.s4 >= 12
        && PlainValue(o.headerProtectionKey) && decodes(o.headerProtectionKey))
      && ChainsOk(o) && HeadersOk(o) && RangeOk(o.contentPaddingAddition, 0) && TimingOk(o)
  {
    hide ChainsOk, HeadersOk, RangeOk, TimingOk, PlainValue;
  }

  /** The headers of an accepted set never share a message type, a blank header standing for
      its own index. */
  lemma HeadersApart(o: Obfuscation31, decodes: KeyDecoder, i: nat, j: nat, x: int)
    requires Accepted(o, decodes) && i < j < 4
    ensures !(InRange(x, HeaderRange(o.Headers()[i], i)) && InRange(x, HeaderRange(o.Headers()[j], j)))
  {
    assert !Overlap(HeaderRange(o.Headers()[i], i), HeaderRange(o.Headers()[j], j));
  }

  /** And two headers that share one are never accepted. */
  lemma OverlapRefused(o: Obfuscation31, i: nat, j: nat, x: int)
    requires i < j < 4 && InRange(x, HeaderRange(o.Headers()[i], i)) && InRange(x, HeaderRange(o.Headers()[j], j))
    ensures !HeadersOk(o)
  {
    assert Overlap(HeaderRange(o.Headers()[i], i), HeaderRange(o.Headers()[j], j));
  }

  /** A time the engine may use: from the range, or its own default when the field is blank. A
      printer that trims the value, like the kernel config's, omits a white-space one; what the
      engine makes of one that is sent as it is, is left out. */
  predicate PossibleTime(x: int, v: string, default': int) {
    if Trim(v) == "" then x == default' else InRange(x, Bounds(v))
  }

  /** Every rekey time an accepted set allows is below every reject time. */
  ghost predicate RenewsInTime(rekey: string, reject: string) {
    forall a: int, b: int :: PossibleTime(a, rekey, 120) && PossibleTime(b, reject, 180) ==> a < b
  }

  /** A rekey time of nothing but white space counts as zero in the check, so nothing is known
      about the reject time beside it; it may come before the default rekey time. */
  predicate RekeyUnchecked(rekey: string, reject: string) {
    rekey != "" && Trim(rekey) == "" && reject != "" && Bounds(reject).0 <= 120
  }

  /** Accepted sets renew in time exactly when the rekey time is not such a white-space one. */
  lemma RenewalExact(o: Obfuscation31, decodes: KeyDecoder)
    requires Accepted(o, decodes)
    ensures RenewsInTime(o.rekeyAfterTime, o.rejectAfterTime) <==> !RekeyUnchecked(o.rekeyAfterTime, o.rejectAfterTime)
  {
    assert RangeOk(Timing(o)[0], 1) && RangeOk(Timing(o)[2], 1);
    hide Accepted, RangeOk, RekeyBelowReject, RenewsInTime, RekeyUnchecked;
    TimesExact(o.rekeyAfterTime, o.rejectAfterTime);
  }

  function WithoutBlanks(s: string): (r: string)
    ensures s != "" && s[0] != ' ' ==> r != "" && r[0] == s[0]
  {
    if s == "" then "" else (if s[0] == ' ' then "" else [s[0]]) + WithoutBlanks(s[1..])
  }

  /** CanonicalizeUintRange. */
  function Canonical(v: string): string { WithoutBlanks(Trim(v)) }

  lemma {:induction false} TrimRightBlank(s: string)
    requires s != "" && !IsSpace(s[0])
    ensures TrimRight(s) != ""
  {
    if IsSpace(s[|s| - 1]) {
      TrimRightBlank(s[..|s| - 1]);
    }
  }

  /** A canonical value of nothing but white space is blank. */
  lemma CanonicalBlank(v: string)
    ensures Trim(Canonical(v)) == "" <==> Canonical(v) == ""
  {
    var c := Canonical(v);
    if Trim(v) == "" {
      assert c == "";
    } else {
      assert c[0] == Trim(v)[0] && !IsSpace(c[0]);
      TrimRightBlank(c);
    }
  }

  /** Where the rekey time is made canonical before the check, as for an inbound, every
      accepted set renews in time. */
  lemma CanonicalRenews(o: Obfuscation31, decodes: KeyDecoder, stored: string)
    requires o.rekeyAfterTime == Canonical(stored) && Accepted(o, decodes)
    ensures RenewsInTime(o.rekeyAfterTime, o.rejectAfterTime)
  {
    hide Accepted, RenewsInTime, Canonical, Trim;
    CanonicalBlank(stored);
    RenewalExact(o, decodes);
  }

  lemma BlankBounds(v: string)
    ensures Trim(v) == "" ==> Bounds(v) == (0, 0)
    ensures RangeOk(v, 1) && Trim(v) != "" ==> 1 <= Bounds(v).0 <= Bounds(v).1
  {
  }

  lemma TimesExact(rekey: string, reject: string)
    requires RangeOk(rekey, 1) && RangeOk(reject, 1) && RekeyBelowReject(rekey, reject)
    ensures RenewsInTime(rekey, reject) <==> !RekeyUnchecked(rekey, reject)
  {
    BlankBounds(rekey);
    BlankBounds(reject);
    BlankTrim();
    hide Bounds, Trim, RangeOk;
    var high := if Trim(rekey) == "" then 120 else Bounds(rekey).1;
    var low := if Trim(reject) == "" then 180 else Bounds(reject).0;
    assert PossibleTime(high, rekey, 120) && PossibleTime(low, reject, 180);
  }

  lemma OneSecond()
    ensures RangeOk("1", 1) && Trim("1") == "1" && Bounds("1") == (1, 1)
    ensures RangeOk(" ", 1) && Trim(" ") == "" && Bounds(" ") == (0, 0)
  {
    assert Itoa(1) == "1";
    ValueRoundTrip(1);
    DigitsPlain(1);
    hide ParseRange;
    assert Trim(" ") == "" && Trim("") == "";
    assert ParseRange(" ") == None by {
      BlankRange(" ");
    }
  }

  lemma BlankRange(v: string)
    requires Trim(v) == ""
    ensures ParseRange(v) == None
  {
  }

  /** The white-space rekey time that slips through, beside a reject time of one second. */
  lemma BlankRekeyAccepted(o: Obfuscation31, decodes: KeyDecoder)
    requires Accepted(o.(rekeyAfterTime := "", rejectAfterTime := ""), decodes)
    ensures var slipped := o.(rekeyAfterTime := " ", rejectAfterTime := "1");
      Accepted(slipped, decodes) && RekeyUnchecked(slipped.rekeyAfterTime, slipped.rejectAfterTime)
  {
    hide RangeOk, ChainOk, NoOverlap, Bounds, Trim;
    OneSecond();
    var clean, slipped := o.(rekeyAfterTime := "", rejectAfterTime := ""),
      o.(rekeyAfterTime := " ", rejectAfterTime := "1");
    assert Timing(slipped)[1] == Timing(clean)[1] && Timing(slipped)[3] == Timing(clean)[3]
      && Timing(slipped)[4] == Timing(clean)[4];
    assert slipped.Headers() == clean.Headers() && slipped.Signatures() == clean.Signatures();
  }

  // ---- Generating ------------------------------------------------------------

  /** A value drawn from the range, whatever the random source says. */
  method RandInt(min: int, max: int) returns (x: int)
    ensures min <= max ==> min <= x <= max
    ensures max < min ==> x == min
  {
    if max <= min {
      return min;
    }
    x :| min <= x <= max;
  }

  const BAND_SIZE: int := (MAX_GENERATED_HEADER - 5 + 1) / 4

  /** One value from each of the four bands. */
  predicate Banded(hs: seq<string>, values: seq<nat>) {
    && |hs| == |values| == 4
    && forall i | 0 <= i < 4 :: hs[i] == Itoa(values[i]) && 5 + i * BAND_SIZE <= values[i] < 5 + (i + 1) * BAND_SIZE
  }

  /** generateHValues. */
  method GenerateHeaders() returns (hs: seq<string>, values: seq<nat>)
    ensures Banded(hs, values)
  {
    hide Itoa;
    hs, values := [], [];
    for i := 0 to 4
      invariant |hs| == |values| == i
      invariant forall k | 0 <= k < i ::
        hs[k] == Itoa(values[k]) && 5 + k * BAND_SIZE <= values[k] < 5 + (k + 1) * BAND_SIZE
    {
      var low := 5 + i * BAND_SIZE;
      var v := RandInt(low, low + BAND_SIZE - 1);
      hs, values := hs + [Itoa(v)], values + [v];
    }
  }

  lemma BandedApart(hs: seq<string>, values: seq<nat>)
    requires Banded(hs, values)
    ensures NoOverlap(hs) && forall i | 0 <= i < 4 :: RangeOk(hs[i], 0)
  {
    hide Itoa, ParseRange;
    assert BAND_SIZE == 536870910;
    forall i | 0 <= i < 4
      ensures HeaderRange(hs[i], i) == (values[i], values[i]) && RangeOk(hs[i], 0)
    {
      ValueRoundTrip(values[i]);
    }
  }

  /** A range drawn from bounds on its low end and its width. */
  method RandRange(lowMin: nat, lowMax: nat, widthMin: nat, widthMax: nat) returns (text: string, low: nat, high: nat)
    requires lowMin <= lowMax && widthMin <= widthMax
    ensures text == PrintRange(low, high)
    ensures lowMin <= low <= lowMax && low + widthMin <= high <= low + widthMax
  {
    var l := RandInt(lowMin, lowMax);
    var width := RandInt(widthMin, widthMax);
    low, high := l, l + width;
    text := PrintRange(low, high);
  }

  lemma PrintedOk(low: nat, high: nat, min: int)
    requires min <= low <= high <= MAX_UINT32
    ensures RangeOk(PrintRange(low, high), min) && Bounds(PrintRange(low, high)) == (low, high)
      && PrintRange(low, high) != ""
  {
    RangeRoundTrip(low, high);
    hide ParseRange, PrintRange, Trim;
    assert Trim(PrintRange(low, high)) != "";
    assert Trim("") == "" by {
      BlankTrim();
    }
  }

  lemma BlankTrim()
    ensures Trim("") == ""
  {
  }

  /** The drawn numbers that decide whether a generated set is accepted. */
  predicate Drawn(o: Obfuscation31, values: seq<nat>, rekey: (nat, nat), reject: (nat, nat)) {
    && 3 <= o.jc <= 6 && 40 <= o.jmin <= 89 && o.jmin + 50 <= o.jmax <= o.jmin + 250
    && 15 <= o.s1 <= 150 && 15 <= o.s2 <= 150 && o.s1 + 56 != o.s2 && 12 <= o.s3 <= 55 && 12 <= o.s4 <= 27
    && Banded(o.Headers(), values)
    && o.rekeyAfterTime == PrintRange(rekey.0, rekey.1) && 100 <= rekey.0 <= rekey.1 <= 160
    && o.rejectAfterTime == PrintRange(reject.0, reject.1) && rekey.1 + 30 <= reject.0 <= reject.1 <= 310
  }

  /** GenerateObfuscation31. keyText is what the random key generator returned; retries are
      the values drawn for S2 until one fits, None when the list runs out first. */
  method GenerateObfuscation31(keyText: string, decodes: KeyDecoder, retries: seq<int>)
    returns (r: Option<Obfuscation31>)
    requires keyText == "" || (PlainValue(keyText) && decodes(keyText))
    requires forall k | 0 <= k < |retries| :: 15 <= retries[k] <= 150
    ensures r.Some? ==> ServerAccepted(r.value, decodes)
    ensures r.None? ==> forall k | 0 <= k < |retries| :: retries[k] == retries[0]
  {
    hide Accepted, ServerAccepted, PrintRange, ParseRange, Bounds, Trim, NoOverlap, PlainValue, ChainOk, Itoa, Banded,
         RangeOk;
    var jc := RandInt(3, 6);
    var jmin := RandInt(40, 89);
    var jspan := RandInt(50, 250);
    var s1 := RandInt(15, 150);
    var s2 := RandInt(15, 150);
    var tries := 0;
    while s1 + 56 == s2
      invariant 0 <= tries <= |retries| && 15 <= s2 <= 150
      invariant tries > 0 ==> s2 == retries[tries - 1]
      invariant forall k | 0 <= k < tries - 1 :: retries[k] == s1 + 56
      decreases |retries| - tries
    {
      if tries == |retries| {
        return None;
      }
      s2 := retries[tries];
      tries := tries + 1;
    }
    var s3 := RandInt(12, 55);
    var s4 := RandInt(12, 27);
    var hs, values := GenerateHeaders();
    var size := RandInt(32, 256);
    var padding, padLow, padHigh := RandRange(8, 24, 8, 40);
    var rekey, rekeyLow, rekeyHigh := RandRange(100, 120, 10, 40);
    var gap := RandInt(30, 60);
    var span := RandInt(30, 90);
    var rejectLow, rejectHigh: nat := rekeyHigh + gap, rekeyHigh + gap + span;
    var timeout, timeoutLow, timeoutHigh := RandRange(3, 6, 1, 4);
    var keepalive, keepaliveLow, keepaliveHigh := RandRange(8, 12, 2, 8);
    var attempts, attemptsLow, attemptsHigh := RandRange(15, 25, 5, 25);
    assert |hs| == 4 by {
      BandedLength(hs, values);
    }
    var o := Obfuscation31(jc, jmin, jmin + jspan, s1, s2, s3, s4, hs[0], hs[1], hs[2], hs[3],
                           "<r " + Itoa(size) + ">", "", "", "", "", keyText, padding,
                           rekey, timeout, PrintRange(rejectLow, rejectHigh), keepalive, attempts, true, true);
    assert o.Headers() == hs;
    PrintedOk(padLow, padHigh, 0);
    PrintedOk(timeoutLow, timeoutHigh, 1);
    PrintedOk(keepaliveLow, keepaliveHigh, 1);
    PrintedOk(attemptsLow, attemptsHigh, 1);
    DrawnAccepted(o, decodes, values, (rekeyLow, rekeyHigh), (rejectLow, rejectHigh), size);
    r := Some(o);
  }

  lemma BandedLength(hs: seq<string>, values: seq<nat>)
    requires Banded(hs, values)
    ensures |hs| == 4
  {
  }

  lemma DrawnAccepted(o: Obfuscation31, decodes: KeyDecoder, values: seq<nat>, rekey: (nat, nat), reject: (nat, nat),
                      size: nat)
    requires Drawn(o, values, rekey, reject)
    requires o.headerProtectionKey == "" || (PlainValue(o.headerProtectionKey) && decodes(o.headerProtectionKey))
    requires o.i1 == "<r " + Itoa(size) + ">" && o.i2 == o.i3 == o.i4 == o.i5 == ""
    requires RangeOk(o.contentPaddingAddition, 0) && RangeOk(o.rekeyTimeout, 1) && RangeOk(o.keepaliveTimeout, 1)
      && RangeOk(o.maxHandshakeAttempts, 1)
    ensures ServerAccepted(o, decodes)
  {
    hide Banded, RangeOk, NoOverlap, ChainOk, PrintRange, Trim, Itoa, Bounds, TimingOk, ChainsOk, HeadersOk;
    assert HeadersOk(o) by {
      BandedApart(o.Headers(), values);
      HeadersFit(o);
    }
    TimesAccepted(o, rekey.0, rekey.1, reject.0, reject.1);
    ChainsAccepted(o, size);
    assert JunkOk(o) && KeyOk(o, decodes);
  }

  lemma HeadersFit(o: Obfuscation31)
    requires NoOverlap(o.Headers()) && forall i | 0 <= i < 4 :: RangeOk(o.Headers()[i], 0)
    ensures HeadersOk(o)
  {
  }

  lemma ChainsAccepted(o: Obfuscation31, size: nat)
    requires o.i1 == "<r " + Itoa(size) + ">" && o.i2 == o.i3 == o.i4 == o.i5 == ""
    ensures ChainsOk(o)
  {
    hide ChainOk, Itoa, Trim;
    SignatureAccepted(size);
    BlankTrim();
    forall i | 0 <= i < 5
      ensures Trim(o.Signatures()[i]) == "" || ChainOk(o.Signatures()[i])
    {
      assert o.Signatures()[i] == if i == 0 then o.i1 else "";
    }
  }

  lemma TimesAccepted(o: Obfuscation31, rekeyLow: nat, rekeyHigh: nat, rejectLow: nat, rejectHigh: nat)
    requires o.rekeyAfterTime == PrintRange(rekeyLow, rekeyHigh) && 100 <= rekeyLow <= rekeyHigh <= 160
    requires o.rejectAfterTime == PrintRange(rejectLow, rejectHigh) && rekeyHigh + 30 <= rejectLow <= rejectHigh <= 310
    requires RangeOk(o.rekeyTimeout, 1) && RangeOk(o.keepaliveTimeout, 1) && RangeOk(o.maxHandshakeAttempts, 1)
    ensures TimingOk(o)
  {
    hide RangeOk, PrintRange, Bounds;
    PrintedOk(rekeyLow, rekeyHigh, 1);
    PrintedOk(rejectLow, rejectHigh, 1);
    var rekey, reject := o.rekeyAfterTime, o.rejectAfterTime;
    assert RangeOk(rekey, 1) && RangeOk(reject, 1) && Bounds(rekey).1 < Bounds(reject).0;
    assert RekeyBelowReject(rekey, reject);
    forall i | 0 <= i < 5
      ensures RangeOk(Timing(o)[i], 1)
    {
      assert Timing(o)[i] == if i == 0 then rekey else if i == 1 then o.rekeyTimeout else if i == 2 then reject
                             else if i == 3 then o.keepaliveTimeout else o.maxHandshakeAttempts;
    }
  }

  lemma SignatureAccepted(size: nat)
    ensures ChainOk("<r " + Itoa(size) + ">")
  {
    var n := Itoa(size);
    assert '>' !in n by {
      assert forall c | c in n :: IsDigit(c);
    }
    assert KnownTag("r") && ChainOk("");
    hide Itoa, ChainOk, KnownTag;
    PrintedTag("r", n, "");
    assert "<" + "r" + " " + n + ">" + "" == "<r " + n + ">";
  }
}
