/** UTF-8 (section 3 of RFC 3629): sizes, byte offsets of characters, encoding and decoding. */
module Utf8 {
  import opened Wrappers
  import opened Strings

  type Byte = x: int | 0 <= x < 256

  /** Encoded width of one scalar value. */
  function Width(c: char): (w: nat)
    ensures 1 <= w <= 4
  {
    var n := c as int;
    if n < 0x80 then 1 else if n < 0x800 then 2 else if n < 0x1_0000 then 3 else 4
  }

  /** Byte offset of character k. */
  function Off(s: string, k: nat): (i: nat)
    requires k <= |s|
  {
    if k == 0 then 0 else Off(s, k - 1) + Width(s[k - 1])
  }

  /** `str::len`. */
  function Size(s: string): (n: nat) { Off(s, |s|) }

  lemma {:induction false} OffGrows(s: string, i: nat, j: nat)
    requires i <= j <= |s|
    ensures Off(s, i) + (j - i) <= Off(s, j) <= Off(s, i) + 4 * (j - i)
    decreases j
  {
    if i < j { OffGrows(s, i, j - 1); }
  }

  lemma OffOrder(s: string, j: nat, k: nat)
    requires j <= |s| && k <= |s|
    ensures j <= k <==> Off(s, j) <= Off(s, k)
  {
    if j <= k { OffGrows(s, j, k); } else { OffGrows(s, k, j); }
  }

  lemma {:induction false} OffOfSlice(s: string, a: nat, b: nat, k: nat)
    requires a <= b <= |s| && k <= b - a
    ensures Off(s[a..b], k) == Off(s, a + k) - Off(s, a)
    decreases k
  {
    if k > 0 { OffOfSlice(s, a, b, k - 1); }
  }

  lemma SizeOfSlice(s: string, a: nat, b: nat)
    requires a <= b <= |s|
    ensures Size(s[a..b]) == Off(s, b) - Off(s, a)
  {
    OffOfSlice(s, a, b, b - a);
  }

  predicate Ascii(s: string) { forall i :: 0 <= i < |s| ==> s[i] as int < 0x80 }

  lemma {:induction false} OffOfAscii(s: string, k: nat)
    requires Ascii(s) && k <= |s|
    ensures Off(s, k) == k
  {
    if k > 0 { OffOfAscii(s, k - 1); }
  }

  // ---- character boundaries ---------------------------------------------------------

  /** The last character offset at or before byte i, looking no further than character k. */
  function FloorTo(s: string, i: nat, k: nat): (r: nat)
    requires k <= |s|
    ensures r <= k && Off(s, r) <= i
    ensures r < k ==> i < Off(s, r + 1)
  {
    if Off(s, k) <= i then k else FloorTo(s, i, k - 1)
  }

  /** How many characters end at or before byte i. */
  function Floor(s: string, i: nat): (r: nat)
    ensures r <= |s| && Off(s, r) <= i && (r < |s| ==> i < Off(s, r + 1))
  {
    FloorTo(s, i, |s|)
  }

  /** `str::is_char_boundary`. */
  predicate IsBoundary(s: string, i: nat) { Off(s, Floor(s, i)) == i }

  lemma FloorIs(s: string, i: nat, k: nat)
    requires k <= |s| && Off(s, k) <= i && (k < |s| ==> i < Off(s, k + 1))
    ensures Floor(s, i) == k
  {
    var r := Floor(s, i);
    if r < |s| { OffOrder(s, r + 1, k); }
    if k < |s| { OffOrder(s, k + 1, r); }
  }

  lemma FloorAbove(s: string, a: nat, i: nat)
    requires a <= |s| && Off(s, a) <= i
    ensures a <= Floor(s, i)
  {
    if Floor(s, i) < |s| { OffOrder(s, Floor(s, i) + 1, a); }
  }

  lemma FloorOfOff(s: string, k: nat)
    requires k <= |s|
    ensures Floor(s, Off(s, k)) == k && IsBoundary(s, Off(s, k))
  {
    FloorIs(s, Off(s, k), k);
  }

  /** The first character that starts at or after byte i. */
  function Ceil(s: string, i: nat): (r: nat)
    requires i <= Size(s)
    ensures r <= |s|
  {
    var k := Floor(s, i);
    if Off(s, k) == i then k else k + 1
  }

  lemma CeilSpec(s: string, i: nat)
    requires i <= Size(s)
    ensures i <= Off(s, Ceil(s, i))
    ensures forall k :: 0 <= k <= |s| && i <= Off(s, k) ==> Ceil(s, i) <= k
  {
    forall k | 0 <= k <= |s| && i <= Off(s, k) ensures Ceil(s, i) <= k {
      OffOrder(s, k, Floor(s, i));
      OffOrder(s, Floor(s, i), k);
    }
  }

  /** `next_boundary_at_or_before`. */
  method BoundaryAtOrBefore(s: string, index: nat) returns (i: nat)
    ensures i == Off(s, Floor(s, index))
  {
    i := if index < Size(s) then index else Size(s);
    FloorAtEnd(s, index);
    while i > 0 && !IsBoundary(s, i)
      invariant i <= Size(s) && Floor(s, i) == Floor(s, index)
    {
      FloorIs(s, i - 1, Floor(s, i));
      i := i - 1;
    }
    assert Off(s, 0) == 0;
    assert i == 0 ==> Off(s, Floor(s, i)) == 0;
  }

  lemma FloorAtEnd(s: string, index: nat)
    ensures index >= Size(s) ==> Floor(s, index) == |s| && Floor(s, Size(s)) == |s|
  {
    if index >= Size(s) {
      FloorIs(s, index, |s|);
      FloorIs(s, Size(s), |s|);
    }
  }

  /** `next_boundary_at_or_after`. */
  method BoundaryAtOrAfter(s: string, index: nat) returns (i: nat)
    requires index <= Size(s)
    ensures i == Off(s, Ceil(s, index))
  {
    i := index;
    FloorOfOff(s, |s|);
    while i < Size(s) && !IsBoundary(s, i)
      invariant i <= Size(s) && Ceil(s, i) == Ceil(s, index)
    {
      CeilStep(s, i);
      i := i + 1;
    }
    assert Off(s, Ceil(s, i)) == i;
  }

  lemma CeilStep(s: string, i: nat)
    requires i < Size(s) && !IsBoundary(s, i)
    ensures Ceil(s, i + 1) == Ceil(s, i)
  {
    var k := Floor(s, i);
    assert k < |s|;
    if i + 1 == Off(s, k + 1) { FloorOfOff(s, k + 1); } else { FloorIs(s, i + 1, k); }
  }

  // ---- encoding ---------------------------------------------------------------------

  function EncodeChar(c: char): (bs: seq<Byte>)
    ensures |bs| == Width(c)
  {
    var n := c as int;
    if n < 0x80 then [n]
    else if n < 0x800 then [0xC0 + n / 64, 0x80 + n % 64]
    else if n < 0x1_0000 then [0xE0 + n / 4096, 0x80 + n / 64 % 64, 0x80 + n % 64]
    else [0xF0 + n / 262144, 0x80 + n / 4096 % 64, 0x80 + n / 64 % 64, 0x80 + n % 64]
  }

  function Encode(s: string): (bs: seq<Byte>) {
    if s == "" then [] else EncodeChar(s[0]) + Encode(s[1..])
  }

  lemma {:induction false} EncodeSize(s: string)
    ensures |Encode(s)| == Size(s)
  {
    if s != "" {
      EncodeSize(s[1..]);
      OffOfSlice(s, 1, |s|, |s| - 1);
      assert s[1..|s|] == s[1..];
      assert Off(s, 1) == Off(s, 0) + Width(s[0]);
    }
  }

  predicate IsContinuation(b: Byte) { 0x80 <= b < 0xC0 }

  predicate IsScalar(n: int) { 0 <= n < 0xD800 || 0xE000 <= n < 0x11_0000 }

  /** The character at the front of the bytes and its width, if the bytes start with a whole one. */
  function DecodeOne(bs: seq<Byte>): (r: Option<(char, nat)>)
    ensures r.Some? ==> 1 <= r.value.1 <= |bs|
  {
    if bs == [] then None
    else if bs[0] < 0x80 then Some((bs[0] as char, 1))
    else if 0xC2 <= bs[0] < 0xE0 && |bs| >= 2 && IsContinuation(bs[1]) then
      Some((Join2(bs[0] - 0xC0, bs[1] - 0x80) as char, 2))
    else if 0xE0 <= bs[0] < 0xF0 && |bs| >= 3 && IsContinuation(bs[1]) && IsContinuation(bs[2]) then
      var n := Join2(Join2(bs[0] - 0xE0, bs[1] - 0x80), bs[2] - 0x80);
      if 0x800 <= n && IsScalar(n) then Some((n as char, 3)) else None
    else if 0xF0 <= bs[0] < 0xF8 && |bs| >= 4
            && IsContinuation(bs[1]) && IsContinuation(bs[2]) && IsContinuation(bs[3]) then
      var n := Join2(Join2(Join2(bs[0] - 0xF0, bs[1] - 0x80), bs[2] - 0x80), bs[3] - 0x80);
      if 0x1_0000 <= n && IsScalar(n) then Some((n as char, 4)) else None
    else None
  }

  /** Six more bits. */
  function Join2(high: int, low: int): int { high * 64 + low }

  /** `bytes.decode("utf-8", errors="ignore")`: bytes that start no character are skipped. */
  function DecodeIgnore(bs: seq<Byte>): (s: string)
    decreases |bs|
  {
    if bs == [] then ""
    else match DecodeOne(bs)
      case Some((c, w)) => [c] + DecodeIgnore(bs[w..])
      case None => DecodeIgnore(bs[1..])
  }

  lemma DecodeWide(c: char, bs: seq<Byte>)
    requires EncodeChar(c) <= bs && c as int >= 0x1_0000
    ensures DecodeOne(bs) == Some((c, 4))
  {
    var n := c as int;
    assert bs[0] == 0xF0 + n / 262144 && bs[1] == 0x80 + n / 4096 % 64;
    assert bs[2] == 0x80 + n / 64 % 64 && bs[3] == 0x80 + n % 64;
    assert n / 4096 == Join2(n / 262144, n / 4096 % 64);
    assert n / 64 == Join2(n / 4096, n / 64 % 64);
    assert n == Join2(n / 64, n % 64);
  }

  lemma DecodeMiddle(c: char, bs: seq<Byte>)
    requires EncodeChar(c) <= bs && 0x800 <= c as int < 0x1_0000
    ensures DecodeOne(bs) == Some((c, 3))
  {
    var n := c as int;
    assert bs[0] == 0xE0 + n / 4096 && bs[1] == 0x80 + n / 64 % 64 && bs[2] == 0x80 + n % 64;
    assert n / 64 == Join2(n / 4096, n / 64 % 64);
    assert n == Join2(n / 64, n % 64);
  }

  lemma DecodeFirst(c: char, rest: seq<Byte>)
    ensures DecodeOne(EncodeChar(c) + rest) == Some((c, Width(c)))
  {
    var n := c as int;
    var bs := EncodeChar(c) + rest;
    if n >= 0x1_0000 {
      DecodeWide(c, bs);
    } else if n >= 0x800 {
      DecodeMiddle(c, bs);
    } else if n >= 0x80 {
      assert bs[0] == 0xC0 + n / 64 && bs[1] == 0x80 + n % 64;
    }
  }

  /** A character cut short decodes to nothing, byte after byte. */
  lemma DecodeCut(c: char, k: nat)
    requires k < Width(c)
    ensures DecodeIgnore(EncodeChar(c)[..k]) == ""
  {
    if k > 0 {
      var bs := EncodeChar(c)[..k];
      assert DecodeOne(bs).None?;
      DecodeContinuations(bs[1..]);
    }
  }

  lemma {:induction false} DecodeContinuations(bs: seq<Byte>)
    requires forall i :: 0 <= i < |bs| ==> IsContinuation(bs[i])
    ensures DecodeIgnore(bs) == ""
  {
    if bs != [] {
      assert DecodeOne(bs).None?;
      DecodeContinuations(bs[1..]);
    }
  }

  lemma DecodeCons(c: char, rest: seq<Byte>)
    ensures DecodeIgnore(EncodeChar(c) + rest) == [c] + DecodeIgnore(rest)
  {
    DecodeFirst(c, rest);
    assert (EncodeChar(c) + rest)[Width(c)..] == rest;
  }

  /** Decoding a prefix of an encoding gives back exactly the characters that fit in it. */
  lemma {:induction false} DecodePrefix(s: string, n: nat)
    requires n <= |Encode(s)|
    ensures DecodeIgnore(Encode(s)[..n]) == s[..Floor(s, n)]
    decreases |s|
  {
    EncodeSize(s);
    if s == "" {
    } else if n < Width(s[0]) {
      assert Encode(s)[..n] == EncodeChar(s[0])[..n];
      DecodeCut(s[0], n);
      FloorBelowFirst(s, n);
    } else {
      var w := Width(s[0]);
      var tail := Encode(s[1..])[..n - w];
      assert Encode(s)[..n] == EncodeChar(s[0]) + tail;
      DecodeCons(s[0], tail);
      DecodePrefix(s[1..], n - w);
      FloorOfTail(s, n);
      HeadAndPrefix(s, Floor(s[1..], n - w));
    }
  }

  lemma HeadAndPrefix(s: string, k: nat)
    requires k < |s|
    ensures [s[0]] + s[1..][..k] == s[..k + 1]
  {
  }

  lemma FloorBelowFirst(s: string, n: nat)
    requires s != "" && n < Width(s[0])
    ensures Floor(s, n) == 0
  {
    assert Off(s, 1) == Off(s, 0) + Width(s[0]);
    FloorIs(s, n, 0);
  }

  lemma FloorOfTail(s: string, n: nat)
    requires s != "" && n >= Width(s[0])
    ensures Floor(s, n) == Floor(s[1..], n - Width(s[0])) + 1
  {
    var t := s[1..];
    var w := Width(s[0]);
    var k := Floor(t, n - w);
    assert s[1..|s|] == t && Off(s, 1) == Off(s, 0) + w;
    OffOfSlice(s, 1, |s|, k);
    if k < |t| { OffOfSlice(s, 1, |s|, k + 1); }
    FloorIs(s, n, k + 1);
  }

  // ---- the two trimmers -------------------------------------------------------------

  /** The longest prefix of whole characters that fits the budget. */
  function Fitting(s: string, budget: nat): (p: string) { s[..Floor(s, budget)] }

  /** It fits, and no longer prefix does. */
  lemma FittingIsLongest(s: string, budget: nat)
    ensures Fitting(s, budget) <= s && Size(Fitting(s, budget)) <= budget
    ensures forall k :: |Fitting(s, budget)| < k <= |s| ==> Size(s[..k]) > budget
    ensures Size(s) <= budget ==> Fitting(s, budget) == s
  {
    var f := Floor(s, budget);
    SizeOfSlice(s, 0, f);
    assert s[0..f] == s[..f];
    forall k | f < k <= |s| ensures Size(s[..k]) > budget {
      SizeOfSlice(s, 0, k);
      assert s[0..k] == s[..k];
      OffGrows(s, f + 1, k);
    }
    if Size(s) <= budget { FloorAtEnd(s, budget); }
  }

  /** `_trim_text_to_bytes` of the Python service. */
  function TrimPython(s: string, budget: int): (r: (Option<string>, bool)) {
    if budget <= 0 then (None, s != "")
    else
      var encoded := Encode(s);
      if |encoded| <= budget then (Some(s), false)
      else
        var kept := TrimEnd(Python, DecodeIgnore(encoded[..budget]));
        (if kept == "" then None else Some(kept), true)
  }

  /** What the Rust trimmer must keep. */
  function RustKeeps(s: string, budget: nat): (r: (string, bool)) {
    if Size(s) <= budget then (s, false) else (TrimEnd(Rust, Fitting(s, budget)), true)
  }

  /** `trim_to_utf8_boundary` of the Rust sidecar. */
  method TrimRust(s: string, budget: nat) returns (text: string, trimmed: bool)
    ensures (text, trimmed) == RustKeeps(s, budget)
  {
    if Size(s) <= budget { return s, false; }
    var end: nat := budget;
    while end > 0 && !IsBoundary(s, end)
      invariant end <= budget && Floor(s, end) == Floor(s, budget)
    {
      FloorIs(s, end - 1, Floor(s, end));
      end := end - 1;
    }
    text, trimmed := TrimEnd(Rust, s[..Floor(s, end)]), true;
  }

  /** The Python trimmer keeps the right-trimmed longest fitting prefix too. */
  lemma PythonKeepsFitting(s: string, budget: nat)
    requires budget > 0
    ensures TrimPython(s, budget).1 == (Size(s) > budget)
    ensures Size(s) <= budget ==> TrimPython(s, budget).0 == Some(s)
    ensures Size(s) > budget ==>
      TrimPython(s, budget).0 == var p := TrimEnd(Python, Fitting(s, budget)); if p == "" then None else Some(p)
  {
    EncodeSize(s);
    if Size(s) > budget { DecodePrefix(s, budget); }
  }

  /**
    The two right trims of a text agree exactly when what Rust keeps does not end in one of the
    four separators that only Python counts as space.
   */
  lemma RightTrimsAgree(p: string)
    ensures var r := TrimEnd(Rust, p);
            TrimEnd(Python, p) == r <==> (r == "" || !IsSeparator(r[|r| - 1]))
  {
    var r := DropSpaces(Rust, p, |p|);
    DroppedAreSpaces(Rust, p, |p|);
    DropThrough(p, |p|, r);
    if r > 0 { assert TrimEnd(Rust, p)[r - 1] == p[r - 1]; }
  }

  lemma {:induction false} DropThrough(p: string, j: nat, r: nat)
    requires r <= j <= |p| && forall x :: r <= x < j ==> IsSpace(Rust, p[x])
    ensures DropSpaces(Python, p, j) == DropSpaces(Python, p, r)
  {
    if r < j { DropThrough(p, j - 1, r); }
  }

  /**
    For every text and positive budget the two trimmers report the same flag, and keep the same
    text exactly when the budget suffices or what Rust keeps does not end in a separator.
   */
  lemma TrimmersAgree(s: string, budget: nat)
    requires budget > 0
    ensures var (py, pyTrimmed) := TrimPython(s, budget);
            var (rs, rsTrimmed) := RustKeeps(s, budget);
            && pyTrimmed == rsTrimmed
            && ((if py.Some? then py.value else "") == rs
                <==> Size(s) <= budget || rs == "" || !IsSeparator(rs[|rs| - 1]))
  {
    PythonKeepsFitting(s, budget);
    RightTrimsAgree(Fitting(s, budget));
  }

  /** A text that is cut after one of the separators, on which they do not agree. */
  lemma TrimmersDiffer(x: char)
    requires IsSeparator(x)
    ensures var s := "a" + [x] + "bc";
            RustKeeps(s, 2) == ("a" + [x], true) && TrimPython(s, 2) == (Some("a"), true)
  {
    var s := "a" + [x] + "bc";
    assert Off(s, 0) == 0 && Off(s, 1) == 1;
    assert Off(s, 2) == 2 && Off(s, 3) == 3;
    assert Size(s) == 4;
    FloorIs(s, 2, 2);
    PythonKeepsFitting(s, 2);
    assert Fitting(s, 2) == "a" + [x];
    assert TrimEnd(Rust, "a" + [x]) == "a" + [x];
    assert DropSpaces(Python, "a" + [x], 1) == 1;
    assert TrimEnd(Python, "a" + [x]) == "a";
  }
}
