/**
  The string operations of the Rust and Python standard libraries that the modelled code
  relies on.  A `string` is a sequence of Unicode scalar values, which is what a Rust `&str`
  and a (surrogate-free) Python `str` hold.
 */
module Strings {
  import opened Wrappers

  /** Whose notion of white space: Rust's `char::is_whitespace` or Python's `str.isspace`. */
  datatype Lang = Rust | Python

  /** Python also counts the separators U+001C to U+001F; otherwise the two sets agree. */
  predicate IsSpace(l: Lang, c: char) {
    var n := c as int;
    || 9 <= n <= 13 || n == 0x20 || n == 0x85 || n == 0xA0 || n == 0x1680
    || 0x2000 <= n <= 0x200A || n == 0x2028 || n == 0x2029 || n == 0x202F
    || n == 0x205F || n == 0x3000 || (l.Python? && IsSeparator(c))
  }

  predicate IsSeparator(c: char) { 0x1C <= c as int <= 0x1F }

  predicate NoSpace(l: Lang, s: string) { forall i :: 0 <= i < |s| ==> !IsSpace(l, s[i]) }

  predicate NoChar(c: char, s: string) { forall i :: 0 <= i < |s| ==> s[i] != c }

  // ---- trimming -------------------------------------------------------------------

  /** First position at or after `i` that holds no space. */
  function SkipSpaces(l: Lang, s: string, i: nat): (k: nat)
    requires i <= |s|
    ensures i <= k <= |s| && (k < |s| ==> !IsSpace(l, s[k]))
    decreases |s| - i
  {
    if i < |s| && IsSpace(l, s[i]) then SkipSpaces(l, s, i + 1) else i
  }

  /** Last position at or before `j` that follows no space. */
  function DropSpaces(l: Lang, s: string, j: nat): (k: nat)
    requires j <= |s|
    ensures k <= j && (k > 0 ==> !IsSpace(l, s[k - 1]))
  {
    if j > 0 && IsSpace(l, s[j - 1]) then DropSpaces(l, s, j - 1) else j
  }

  function TrimStart(l: Lang, s: string): (r: string) { s[SkipSpaces(l, s, 0)..] }
  function TrimEnd(l: Lang, s: string): (r: string) { s[..DropSpaces(l, s, |s|)] }
  function Trim(l: Lang, s: string): (r: string) { TrimEnd(l, TrimStart(l, s)) }

  lemma {:induction false} SkippedAreSpaces(l: Lang, s: string, i: nat)
    requires i <= |s|
    ensures forall x :: i <= x < SkipSpaces(l, s, i) ==> IsSpace(l, s[x])
    decreases |s| - i
  {
    if i < |s| && IsSpace(l, s[i]) { SkippedAreSpaces(l, s, i + 1); }
  }

  lemma {:induction false} DroppedAreSpaces(l: Lang, s: string, j: nat)
    requires j <= |s|
    ensures forall x :: DropSpaces(l, s, j) <= x < j ==> IsSpace(l, s[x])
  {
    if j > 0 && IsSpace(l, s[j - 1]) { DroppedAreSpaces(l, s, j - 1); }
  }

  predicate Trimmed(l: Lang, s: string) {
    s == "" || (!IsSpace(l, s[0]) && !IsSpace(l, s[|s| - 1]))
  }

  /** Where `Trim` cuts: what it removes is white space and what it keeps has none at its ends. */
  lemma TrimCuts(l: Lang, s: string) returns (a: nat, b: nat)
    ensures a <= b <= |s| && Trim(l, s) == s[a..b] && Trimmed(l, s[a..b])
    ensures forall i :: 0 <= i < a || b <= i < |s| ==> IsSpace(l, s[i])
  {
    var t := TrimStart(l, s);
    a := SkipSpaces(l, s, 0);
    b := a + DropSpaces(l, t, |t|);
    SkippedAreSpaces(l, s, 0);
    DroppedAreSpaces(l, t, |t|);
    forall i | b <= i < |s| ensures IsSpace(l, s[i]) {
      assert s[i] == t[i - a];
    }
  }

  lemma TrimOfTrimmed(l: Lang, s: string)
    requires Trimmed(l, s)
    ensures Trim(l, s) == s
  {
    assert SkipSpaces(l, s, 0) == 0;
    assert s[0..] == s;
  }

  /** Two cuts that both trim agree, so a candidate that looks trimmed is the trimmed string. */
  lemma TrimIs(l: Lang, s: string, a: nat, b: nat)
    requires a < b <= |s|
    requires !IsSpace(l, s[a]) && !IsSpace(l, s[b - 1])
    requires forall i :: 0 <= i < a || b <= i < |s| ==> IsSpace(l, s[i])
    ensures Trim(l, s) == s[a..b]
  {
    var x, y := TrimCuts(l, s);
    assert x <= a && b <= y;
    assert s[x..y][0] == s[x] && s[x..y][y - x - 1] == s[y - 1];
  }

  // ---- searching ------------------------------------------------------------------

  predicate MatchAt(s: string, pat: string, i: int) {
    0 <= i && i + |pat| <= |s| && s[i..i + |pat|] == pat
  }

  lemma Mismatch(s: string, pat: string, i: nat, k: nat)
    requires k < |pat| && i + k < |s| && s[i + k] != pat[k]
    ensures !MatchAt(s, pat, i)
  {
    if i + |pat| <= |s| {
      assert s[i..i + |pat|][k] == s[i + k];
    }
  }

  lemma SliceOfSlice(s: string, a: nat, h: nat, x: nat, y: nat)
    requires a <= h <= |s| && x <= y <= h - a
    ensures s[a..h][x..y] == s[a + x..a + y]
  {
    var w := s[a..h];
    forall i | 0 <= i < y - x ensures w[x..y][i] == s[a + x..a + y][i] {
      assert w[x..y][i] == w[x + i];
    }
  }

  lemma ShiftMatch(a: string, s: string, pat: string, i: nat)
    ensures MatchAt(a + s, pat, |a| + i) <==> MatchAt(s, pat, i)
  {
    if i + |pat| <= |s| {
      assert (a + s)[|a| + i..|a| + i + |pat|] == s[i..i + |pat|];
    }
  }

  /** `str::find` from a position: the first match, if any. */
  function FindFrom(s: string, pat: string, from: nat): (r: Option<nat>)
    requires from <= |s|
    ensures r.Some? ==> from <= r.value && MatchAt(s, pat, r.value)
                        && forall j :: from <= j < r.value ==> !MatchAt(s, pat, j)
    ensures r.None? ==> forall j :: from <= j ==> !MatchAt(s, pat, j)
    decreases |s| - from
  {
    if MatchAt(s, pat, from) then Some(from)
    else if from == |s| then None
    else FindFrom(s, pat, from + 1)
  }

  function Find(s: string, pat: string): (r: Option<nat>) { FindFrom(s, pat, 0) }

  predicate Contains(s: string, pat: string) { Find(s, pat).Some? }

  /** `str::rfind`, and Python's `rfind` with -1 read as `None`: the last match before `upto`. */
  function RFindUpTo(s: string, pat: string, upto: nat): (r: Option<nat>)
    ensures r.Some? ==> r.value < upto && MatchAt(s, pat, r.value)
                        && forall j :: r.value < j < upto ==> !MatchAt(s, pat, j)
    ensures r.None? ==> forall j :: 0 <= j < upto ==> !MatchAt(s, pat, j)
  {
    if upto == 0 then None
    else if MatchAt(s, pat, upto - 1) then Some(upto - 1)
    else RFindUpTo(s, pat, upto - 1)
  }

  function RFind(s: string, pat: string): (r: Option<nat>) { RFindUpTo(s, pat, |s| + 1) }

  lemma FindIs(s: string, pat: string, k: nat)
    requires MatchAt(s, pat, k) && forall j :: 0 <= j < k ==> !MatchAt(s, pat, j)
    ensures Find(s, pat) == Some(k)
  {
    var r := Find(s, pat);
    assert r.Some?;
  }

  /** `str::split_once`. */
  function SplitOnce(s: string, pat: string): (r: Option<(string, string)>) {
    match Find(s, pat)
    case Some(i) => Some((s[..i], s[i + |pat|..]))
    case None => None
  }

  // ---- words and lines --------------------------------------------------------------

  /** `str::split_whitespace`: the maximal runs of non-space characters, in order. */
  function Words(l: Lang, s: string): (ws: seq<string>) { WordsFrom(l, "", s) }

  /** The words of `cur + s`, where `cur` is the part of the current word already read. */
  function WordsFrom(l: Lang, cur: string, s: string): (ws: seq<string>)
    decreases |s|
  {
    if s == "" then Flush(cur)
    else if IsSpace(l, s[0]) then Flush(cur) + WordsFrom(l, "", s[1..])
    else WordsFrom(l, cur + [s[0]], s[1..])
  }

  function Flush(cur: string): seq<string> { if cur == "" then [] else [cur] }

  lemma {:induction false} WordsAreWords(l: Lang, cur: string, s: string)
    requires NoSpace(l, cur)
    ensures forall w :: w in WordsFrom(l, cur, s) ==> w != "" && NoSpace(l, w)
    decreases |s|
  {
    if s != "" {
      if IsSpace(l, s[0]) { WordsAreWords(l, "", s[1..]); }
      else { WordsAreWords(l, cur + [s[0]], s[1..]); }
    }
  }

  function JoinSpace(ws: seq<string>): (r: string) {
    if |ws| == 0 then "" else if |ws| == 1 then ws[0] else ws[0] + " " + JoinSpace(ws[1..])
  }

  /** Splitting is a homomorphism at a space. */
  lemma {:induction false} WordsAppend(l: Lang, cur: string, a: string, b: string)
    ensures WordsFrom(l, cur, a + " " + b) == WordsFrom(l, cur, a) + Words(l, b)
    decreases |a|
  {
    var s := a + " " + b;
    if a == "" {
      assert s[1..] == b;
    } else {
      assert s[1..] == a[1..] + " " + b;
      if IsSpace(l, a[0]) { WordsAppend(l, "", a[1..], b); }
      else { WordsAppend(l, cur + [a[0]], a[1..], b); }
    }
  }

  lemma {:induction false} WordsOfWord(l: Lang, cur: string, w: string)
    requires NoSpace(l, w)
    ensures WordsFrom(l, cur, w) == Flush(cur + w)
    decreases |w|
  {
    if w == "" {
      assert cur + w == cur;
    } else {
      WordsOfWord(l, cur + [w[0]], w[1..]);
      assert cur + [w[0]] + w[1..] == cur + w;
    }
  }

  predicate AllWords(l: Lang, ws: seq<string>) { forall i :: 0 <= i < |ws| ==> ws[i] != "" && NoSpace(l, ws[i]) }

  /** Joining words and splitting again gives them back. */
  lemma {:induction false} WordsOfJoin(l: Lang, ws: seq<string>)
    requires AllWords(l, ws)
    ensures Words(l, JoinSpace(ws)) == ws
  {
    if ws != [] {
      WordsOfWord(l, "", ws[0]);
      assert "" + ws[0] == ws[0];
      if |ws| > 1 {
        WordsOfJoin(l, ws[1..]);
        WordsAppend(l, "", ws[0], JoinSpace(ws[1..]));
      }
    }
  }

  /** `str::lines`: pieces ended by LF, less one trailing CR; no empty piece after a final LF. */
  function Lines(s: string): (ls: seq<string>)
    ensures forall i :: 0 <= i < |ls| ==> NoChar('\n', ls[i])
    decreases |s|
  {
    if s == "" then []
    else match Find(s, "\n")
      case None =>
        assert forall i :: 0 <= i < |s| && s[i] == '\n' ==> MatchAt(s, "\n", i);
        [s]
      case Some(i) =>
        assert forall j :: 0 <= j < i && s[j] == '\n' ==> MatchAt(s, "\n", j);
        [StripCr(s[..i])] + Lines(s[i + 1..])
  }

  function StripCr(s: string): (r: string)
    ensures r <= s
  {
    if s != "" && s[|s| - 1] == '\r' then s[..|s| - 1] else s
  }

  // ---- case and numbers -------------------------------------------------------------

  function LowerChar(c: char): char { if 'A' <= c <= 'Z' then (c as int + 32) as char else c }
  function UpperChar(c: char): char { if 'a' <= c <= 'z' then (c as int - 32) as char else c }
  function Lower(s: string): (r: string) { seq(|s|, i requires 0 <= i < |s| => LowerChar(s[i])) }
  function Upper(s: string): (r: string) { seq(|s|, i requires 0 <= i < |s| => UpperChar(s[i])) }

  predicate IsDigit(c: char) { '0' <= c <= '9' }
  predicate AllDigits(s: string) { forall i :: 0 <= i < |s| ==> IsDigit(s[i]) }
  function DigitChar(d: nat): (c: char) requires d < 10 { ('0' as int + d) as char }

  function Decimal(n: nat): (s: string)
    ensures s != "" && AllDigits(s)
  {
    if n < 10 then [DigitChar(n)] else Decimal(n / 10) + [DigitChar(n % 10)]
  }

  function DecimalValue(s: string): (n: nat)
    requires AllDigits(s)
  {
    if s == "" then 0
    else DecimalValue(s[..|s| - 1]) * 10 + (s[|s| - 1] as int - '0' as int)
  }

  lemma {:induction false} DecimalRoundTrip(n: nat)
    ensures DecimalValue(Decimal(n)) == n
  {
    if n < 10 {
      assert Decimal(n)[..0] == "";
    } else {
      var s := Decimal(n);
      assert s[..|s| - 1] == Decimal(n / 10);
      DecimalRoundTrip(n / 10);
    }
  }

  lemma DecimalInjective(m: nat, n: nat)
    requires Decimal(m) == Decimal(n)
    ensures m == n
  {
    DecimalRoundTrip(m);
    DecimalRoundTrip(n);
  }

  /** `str::parse::<u16>`: an optional plus sign, then digits whose value fits. */
  function ParseU16(s: string): (r: Option<nat>)
    ensures r.Some? ==> r.value < 0x1_0000
  {
    var digits := if s != "" && s[0] == '+' then s[1..] else s;
    if digits == "" || !AllDigits(digits) || DecimalValue(digits) >= 0x1_0000 then None
    else Some(DecimalValue(digits))
  }

  lemma ParseU16OfDecimal(n: nat)
    requires n < 0x1_0000
    ensures ParseU16(Decimal(n)) == Some(n)
  {
    DecimalRoundTrip(n);
    assert IsDigit(Decimal(n)[0]);
  }

  lemma DigitsHaveNoSpace(s: string)
    requires AllDigits(s)
    ensures NoSpace(Rust, s)
  {
    forall i | 0 <= i < |s| ensures !IsSpace(Rust, s[i]) {
      assert IsDigit(s[i]);
    }
  }
}
