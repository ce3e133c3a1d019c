/** What the builders write, the parsers read back. */
module SipRoundTrip {
  import opened Wrappers
  import opened Strings
  import opened Sip

  /** A value that survives as one header field: on one line, no white space at its ends. */
  predicate Clean(v: string) { Trimmed(Rust, v) && NoChar('\n', v) }

  predicate CleanField(f: Entry) {
    f.0 != "" && NoSpace(Rust, f.0) && NoChar(':', f.0) && Clean(f.1)
  }

  predicate CleanFields(fs: seq<Entry>) { forall i :: 0 <= i < |fs| ==> CleanField(fs[i]) }

  function LowerField(f: Entry): (r: Entry) { (Lower(f.0), f.1) }

  function LowerFields(fs: seq<Entry>): (r: seq<Entry>)
    ensures |r| == |fs| && forall i :: 0 <= i < |r| ==> r[i] == LowerField(fs[i])
  {
    seq(|fs|, i requires 0 <= i < |fs| => LowerField(fs[i]))
  }

  // ---- one field --------------------------------------------------------------------

  lemma TrimFieldLine(f: Entry)
    requires CleanField(f)
    ensures Trim(Rust, FieldLine(f)) == if f.1 == "" then f.0 + ":" else FieldLine(f)
  {
    var s := FieldLine(f);
    var n := |f.0|;
    assert s[0] == f.0[0];
    if f.1 == "" {
      assert s[n] == ':' && s[n + 1] == ' ' && |s| == n + 2;
      TrimIs(Rust, s, 0, n + 1);
      assert s[0..n + 1] == f.0 + ":";
    } else {
      assert s[|s| - 1] == f.1[|f.1| - 1];
      TrimOfTrimmed(Rust, s);
    }
  }

  lemma SplitAtColon(name: string, rest: string)
    requires NoChar(':', name)
    ensures SplitOnce(name + ":" + rest, ":") == Some((name, rest))
  {
    var s := name + ":" + rest;
    assert s[|name|..|name| + 1] == ":";
    forall j | 0 <= j < |name| ensures !MatchAt(s, ":", j) {
      Mismatch(s, ":", j, 0);
    }
    FindIs(s, ":", |name|);
    assert s[..|name|] == name && s[|name| + 1..] == rest;
  }

  lemma TrimAfterColon(v: string)
    requires Clean(v)
    ensures Trim(Rust, " " + v) == v
  {
    if v == "" {
      var a, b := TrimCuts(Rust, " ");
      assert " " + v == " ";
      assert (" ")[a..b] == "";
    } else {
      var s := " " + v;
      assert s[1] == v[0] && s[|s| - 1] == v[|v| - 1];
      TrimIs(Rust, s, 1, |s|);
      assert s[1..|s|] == v;
    }
  }

  lemma ReadFieldLine(f: Entry)
    requires CleanField(f)
    ensures ReadHeaderLine(FieldLine(f)) == Field(LowerField(f))
  {
    TrimFieldLine(f);
    assert Trimmed(Rust, f.0);
    TrimOfTrimmed(Rust, f.0);
    if f.1 == "" {
      assert f.0 + ":" + "" == f.0 + ":";
      SplitAtColon(f.0, "");
      TrimOfTrimmed(Rust, "");
    } else {
      assert FieldLine(f) == f.0 + ":" + (" " + f.1);
      SplitAtColon(f.0, " " + f.1);
      TrimAfterColon(f.1);
    }
  }

  lemma ReadFieldLines(fs: seq<Entry>)
    requires CleanFields(fs)
    ensures HeaderEntries(FieldLines(fs)) == LowerFields(fs)
  {
    forall i | 0 <= i < |fs| ensures Reader()(FieldLine(fs[i])) == Field(LowerField(fs[i])) {
      assert CleanField(fs[i]);
      ReadFieldLine(fs[i]);
    }
    LinesReadBy(Reader(), FieldLines(fs), LowerFields(fs));
  }

  lemma {:induction false} LinesReadBy(read: LineReader, lines: seq<string>, es: seq<Entry>)
    requires |lines| == |es| && forall i :: 0 <= i < |es| ==> read(lines[i]) == Field(es[i])
    ensures EntriesBy(read, lines) == es
  {
    if lines != [] {
      LinesReadBy(read, lines[1..], es[1..]);
      EntriesCons(read, lines[0], lines[1..], es[0]);
      assert lines == [lines[0]] + lines[1..];
    }
  }

  lemma EntriesCons(read: LineReader, line: string, rest: seq<string>, e: Entry)
    requires read(line) == Field(e)
    ensures EntriesBy(read, [line] + rest) == [e] + EntriesBy(read, rest)
  {
    assert ([line] + rest)[1..] == rest;
  }

  // ---- the blank line ---------------------------------------------------------------

  /** Lines that can be written between CRLFs and told apart again. */
  predicate PlainLines(ls: seq<string>) {
    forall i :: 0 <= i < |ls| ==> ls[i] != "" && NoChar('\n', ls[i])
  }

  /** The lines joined by CRLF, without a final one. */
  function Head(ls: seq<string>): (s: string)
    requires ls != []
  {
    if |ls| == 1 then ls[0] else ls[0] + "\r\n" + Head(ls[1..])
  }

  lemma {:induction false} CrlfLinesIsHead(ls: seq<string>)
    requires ls != []
    ensures CrlfLines(ls) == Head(ls) + "\r\n"
  {
    if |ls| == 1 {
      assert CrlfLines(ls[1..]) == "";
    } else {
      CrlfLinesIsHead(ls[1..]);
    }
  }

  lemma MessageIsHead(ls: seq<string>, body: string)
    requires ls != []
    ensures Message(ls, body) == Head(ls) + "\r\n\r\n" + body
  {
    CrlfLinesIsHead(ls);
    assert Head(ls) + "\r\n" + "\r\n" + body == Head(ls) + "\r\n\r\n" + body;
  }

  /** A blank line cannot start inside the first line or at its end. */
  lemma NoBlankInFirst(l: string, t: string, j: nat)
    requires NoChar('\n', l)
    requires |t| >= 2 && !(t[0] == '\r' && t[1] == '\n')
    requires j < |l| + 2
    ensures !MatchAt(l + "\r\n" + t, "\r\n\r\n", j)
  {
    var s := l + "\r\n" + t;
    if j < |l| {
      assert s[j + 1] == if j + 1 < |l| then l[j + 1] else '\r';
      Mismatch(s, "\r\n\r\n", j, 1);
    } else if j == |l| {
      Mismatch(s, "\r\n\r\n", j, if t[0] != '\r' then 2 else 3);
    } else {
      Mismatch(s, "\r\n\r\n", j, 0);
    }
  }

  lemma {:induction false} FirstBlankLine(ls: seq<string>, body: string)
    requires ls != [] && PlainLines(ls)
    ensures Find(Head(ls) + "\r\n\r\n" + body, "\r\n\r\n") == Some(|Head(ls)|)
    decreases |ls|
  {
    var s := Head(ls) + "\r\n\r\n" + body;
    var k := |Head(ls)|;
    assert s[k..k + 4] == "\r\n\r\n";
    forall j | 0 <= j < k ensures !MatchAt(s, "\r\n\r\n", j) {
      NoBlankBefore(ls, body, j);
    }
    FindIs(s, "\r\n\r\n", k);
  }

  lemma {:induction false} NoBlankBefore(ls: seq<string>, body: string, j: nat)
    requires ls != [] && PlainLines(ls) && j < |Head(ls)|
    ensures !MatchAt(Head(ls) + "\r\n\r\n" + body, "\r\n\r\n", j)
    decreases |ls|
  {
    var s := Head(ls) + "\r\n\r\n" + body;
    var l := ls[0];
    if |ls| == 1 {
      assert s[j + 1] == if j + 1 < |l| then l[j + 1] else '\r';
      Mismatch(s, "\r\n\r\n", j, 1);
    } else {
      var t := Head(ls[1..]) + "\r\n\r\n" + body;
      assert s == l + "\r\n" + t;
      HeadStart(ls[1..], body);
      if j < |l| + 2 {
        NoBlankInFirst(l, t, j);
      } else {
        NoBlankBefore(ls[1..], body, j - |l| - 2);
        ShiftMatch(l + "\r\n", t, "\r\n\r\n", j - |l| - 2);
      }
    }
  }

  lemma HeadStart(ls: seq<string>, body: string)
    requires ls != [] && PlainLines(ls)
    ensures var t := Head(ls) + "\r\n\r\n" + body; |t| >= 2 && !(t[0] == '\r' && t[1] == '\n')
  {
    var l := ls[0];
    var t := Head(ls) + "\r\n\r\n" + body;
    assert t[1] == if |l| > 1 then l[1] else '\r';
  }

  lemma {:induction false} LinesOfHead(ls: seq<string>)
    requires ls != [] && PlainLines(ls)
    ensures Lines(Head(ls)) == ls
    decreases |ls|
  {
    var l := ls[0];
    if |ls| == 1 {
      forall j | 0 <= j < |l| ensures !MatchAt(l, "\n", j) {
        Mismatch(l, "\n", j, 0);
      }
    } else {
      LinesOfHead(ls[1..]);
      FirstLine(l, Head(ls[1..]));
      assert ls == [l] + ls[1..];
    }
  }

  lemma FirstLine(l: string, rest: string)
    requires NoChar('\n', l)
    ensures Lines(l + "\r\n" + rest) == [l] + Lines(rest)
  {
    var s := l + "\r\n" + rest;
    assert s[|l| + 1..|l| + 2] == "\n";
    forall j | 0 <= j < |l| + 1 ensures !MatchAt(s, "\n", j) {
      Mismatch(s, "\n", j, 0);
    }
    FindIs(s, "\n", |l| + 1);
    assert s[..|l| + 1] == l + "\r";
    assert StripCr(l + "\r") == l;
    assert s[|l| + 2..] == rest;
  }

  lemma {:induction false} LinesOfCrlf(ls: seq<string>)
    requires forall i :: 0 <= i < |ls| ==> NoChar('\n', ls[i])
    ensures Lines(CrlfLines(ls)) == ls
  {
    if ls != [] {
      FirstLine(ls[0], CrlfLines(ls[1..]));
      LinesOfCrlf(ls[1..]);
    }
  }

  // ---- whole messages ---------------------------------------------------------------

  lemma FieldLinesArePlain(fs: seq<Entry>)
    requires CleanFields(fs)
    ensures PlainLines(FieldLines(fs))
  {
    forall i | 0 <= i < |fs| ensures FieldLines(fs)[i] != "" && NoChar('\n', FieldLines(fs)[i]) {
      var f := fs[i];
      assert CleanField(f);
      assert IsSpace(Rust, '\n');
      assert NoChar('\n', f.0);
    }
  }

  /** Any message built from clean fields splits into its first line, its fields and its body. */
  lemma MessageReadsBack(first: string, fs: seq<Entry>, body: string)
    requires first != "" && NoChar('\n', first) && CleanFields(fs)
    ensures var m := Message([first] + FieldLines(fs), body);
            var (head, b) := SplitMessage(m);
            && b == body
            && Lines(head) == [first] + FieldLines(fs)
            && Lines(head)[0] == first
            && HeadersOf(Lines(head)[1..]).entries == LowerFields(fs)
  {
    var ls := [first] + FieldLines(fs);
    FieldLinesArePlain(fs);
    assert PlainLines(ls);
    MessageIsHead(ls, body);
    FirstBlankLine(ls, body);
    var m := Message(ls, body);
    assert m[..|Head(ls)|] == Head(ls) && m[|Head(ls)| + 4..] == body;
    LinesOfHead(ls);
    assert ls[1..] == FieldLines(fs);
    ReadFieldLines(fs);
  }

  // ---- what an accepted request carries ---------------------------------------------

  /** A message whose lines end in LF alone splits at its first blank line, too. */
  lemma BareLinesSplit(head: string, body: string)
    requires !Contains(head + "\n\n" + body, "\r\n\r\n") && !Contains(head + "\n", "\n\n")
    ensures SplitMessage(head + "\n\n" + body) == (head, body)
  {
    var m := head + "\n\n" + body;
    assert m[|head|..|head| + 2] == "\n\n";
    forall j | 0 <= j < |head| ensures !MatchAt(m, "\n\n", j) {
      assert !MatchAt(head + "\n", "\n\n", j);
      assert (head + "\n")[j..j + 2] == m[j..j + 2];
    }
    FindIs(m, "\n\n", |head|);
    assert m[..|head|] == head && m[|head| + 2..] == body;
  }

  predicate CleanValues(es: seq<Entry>) { forall i :: 0 <= i < |es| ==> Clean(es[i].1) }

  lemma TrimIsClean(s: string)
    requires NoChar('\n', s)
    ensures Clean(Trim(Rust, s))
  {
    var a, b := TrimCuts(Rust, s);
  }

  lemma ReadLineIsClean(line: string)
    requires NoChar('\n', line) && ReadHeaderLine(line).Field?
    ensures Clean(ReadHeaderLine(line).entry.1)
  {
    var t := Trim(Rust, line);
    TrimIsClean(line);
    var nv := SplitOnce(t, ":").value;
    assert nv.1 == t[|t| - |nv.1|..];
    TrimIsClean(nv.1);
  }

  lemma {:induction false} EntriesAreClean(lines: seq<string>)
    requires forall i :: 0 <= i < |lines| ==> NoChar('\n', lines[i])
    ensures CleanValues(HeaderEntries(lines))
  {
    forall line | NoChar('\n', line) && ReadHeaderLine(line).Field? ensures Clean(ReadHeaderLine(line).entry.1) {
      ReadLineIsClean(line);
    }
    EntriesByAreClean(Reader(), lines);
  }

  lemma {:induction false} EntriesByAreClean(read: LineReader, lines: seq<string>)
    requires forall i :: 0 <= i < |lines| ==> NoChar('\n', lines[i])
    requires forall line :: NoChar('\n', line) && read(line).Field? ==> Clean(read(line).entry.1)
    ensures CleanValues(EntriesBy(read, lines))
  {
    if lines != [] { EntriesByAreClean(read, lines[1..]); }
  }

  /** Every value the request parser stores is clean, whatever text arrived. */
  lemma ParsedValuesAreClean(m: string)
    requires ParseRequest(m).Some?
    ensures CleanValues(ParseRequest(m).value.headers.entries)
  {
    var ls := Lines(SplitMessage(m).0);
    EntriesAreClean(ls[1..]);
  }

  lemma {:induction false} FirstOfIsClean(es: seq<Entry>, key: string)
    requires CleanValues(es) && FirstOf(es, key).Some?
    ensures Clean(FirstOf(es, key).value)
  {
    if es[0].0 != key { FirstOfIsClean(es[1..], key); }
  }

  lemma {:induction false} ValuesAreClean(es: seq<Entry>, key: string)
    requires CleanValues(es)
    ensures forall i :: 0 <= i < |ValuesOf(es, key)| ==> Clean(ValuesOf(es, key)[i])
  {
    if es != [] { ValuesAreClean(es[1..], key); }
  }

  // ---- looking fields up in what was built ------------------------------------------

  lemma LowerFieldsAppend(a: seq<Entry>, b: seq<Entry>)
    ensures LowerFields(a + b) == LowerFields(a) + LowerFields(b)
  {
  }

  lemma ValuesOfFields(name: string, values: seq<string>, key: string)
    ensures ValuesOf(LowerFields(Fields(name, values)), key) == if Lower(name) == key then values else []
    ensures Lower(name) != key ==> FirstOf(LowerFields(Fields(name, values)), key).None?
  {
    ValuesUnderName(LowerFields(Fields(name, values)), Lower(name), values, key);
  }

  lemma {:induction false} ValuesUnderName(es: seq<Entry>, name: string, values: seq<string>, key: string)
    requires |es| == |values| && forall i :: 0 <= i < |es| ==> es[i] == (name, values[i])
    ensures ValuesOf(es, key) == if name == key then values else []
    ensures name != key ==> FirstOf(es, key).None?
  {
    if values != [] {
      ValuesUnderName(es[1..], name, values[1..], key);
      assert values == [values[0]] + values[1..];
    }
  }

  lemma LowerNames()
    ensures Lower("Via") == "via" && Lower("Record-Route") == "record-route"
    ensures Lower("From") == "from" && Lower("To") == "to"
    ensures Lower("Call-ID") == "call-id" && Lower("CSeq") == "cseq"
  {
  }

  lemma LowerOtherNames()
    ensures Lower("Contact") == "contact" && Lower("Content-Type") == "content-type"
    ensures Lower("Content-Length") == "content-length" && Lower("Max-Forwards") == "max-forwards"
  {
  }

  // ---- responses --------------------------------------------------------------------

  const COPIED := {"via", "record-route", "from", "to", "call-id", "cseq"}

  /** The response carries the request's routes and dialog fields, and the given To value. */
  ghost predicate Mirrors(req: Request, h: Headers, to: string) {
    && h.Values("via") == req.headers.Values("via")
    && h.Values("record-route") == req.headers.Values("record-route")
    && h.Get("from") == req.headers.Get("from")
    && h.Get("to") == Some(to)
    && h.Get("call-id") == req.headers.Get("call-id")
    && h.Get("cseq") == req.headers.Get("cseq")
  }

  predicate OnlyOtherNames(tail: seq<Entry>) {
    forall i :: 0 <= i < |tail| ==> Lower(tail[i].0) !in COPIED
  }

  lemma {:induction false} OtherNamesHideNothing(tail: seq<Entry>, key: string)
    requires OnlyOtherNames(tail) && key in COPIED
    ensures ValuesOf(LowerFields(tail), key) == [] && FirstOf(LowerFields(tail), key).None?
  {
    if tail != [] {
      assert LowerFields(tail)[1..] == LowerFields(tail[1..]);
      OtherNamesHideNothing(tail[1..], key);
    }
  }

  lemma RouteLookups(req: Request, key: string)
    ensures var es := LowerFields(RouteFields(req));
            && ValuesOf(es, key) == (if key == "via" || key == "record-route" then req.headers.Values(key) else [])
            && (key != "via" && key != "record-route" ==> FirstOf(es, key).None?)
  {
    var vias, routes := req.headers.Values("via"), req.headers.Values("record-route");
    var a, b := Fields("Via", vias), Fields("Record-Route", routes);
    LowerNames();
    LowerFieldsAppend(a, b);
    ValuesOfFields("Via", vias, key);
    ValuesOfFields("Record-Route", routes, key);
    ValuesOfAppend(LowerFields(a), LowerFields(b), key);
    FirstOfAppend(LowerFields(a), LowerFields(b), key);
  }

  lemma DialogLookups(req: Request, to: string, key: string)
    requires Answerable(req)
    ensures var es := LowerFields(DialogFields(req, to));
            && FirstOf(es, key) == (if key == "to" then Some(to)
                                    else if key in {"from", "call-id", "cseq"} then req.headers.Get(key) else None)
            && (key !in {"from", "to", "call-id", "cseq"} ==> ValuesOf(es, key) == [])
  {
    LowerNames();
    var fs := DialogFields(req, to);
    var f, c, q := fs[0].1, fs[2].1, fs[3].1;
    assert LowerFields(fs) == [("from", f)] + ([("to", to)] + ([("call-id", c)] + ([("cseq", q)] + [])));
    ConsLookups(("cseq", q), [], key);
    ConsLookups(("call-id", c), [("cseq", q)] + [], key);
    ConsLookups(("to", to), [("call-id", c)] + ([("cseq", q)] + []), key);
    ConsLookups(("from", f), [("to", to)] + ([("call-id", c)] + ([("cseq", q)] + [])), key);
  }

  lemma ConsLookups(e: Entry, es: seq<Entry>, key: string)
    ensures FirstOf([e] + es, key) == if e.0 == key then Some(e.1) else FirstOf(es, key)
    ensures ValuesOf([e] + es, key) == (if e.0 == key then [e.1] else []) + ValuesOf(es, key)
  {
    assert ([e] + es)[1..] == es;
  }

  /** Looking a name up among routes, dialog fields and a tail of other fields. */
  lemma BuiltLookups(req: Request, to: string, tail: seq<Entry>, key: string)
    requires Answerable(req) && OnlyOtherNames(tail)
    ensures var es := LowerFields(RouteFields(req) + DialogFields(req, to) + tail);
            && (key in {"via", "record-route"} ==> ValuesOf(es, key) == req.headers.Values(key))
            && (key in {"from", "call-id", "cseq"} ==> FirstOf(es, key) == req.headers.Get(key))
            && (key == "to" ==> FirstOf(es, key) == Some(to))
            && (key !in COPIED ==> FirstOf(es, key) == FirstOf(LowerFields(tail), key))
  {
    var a, b := RouteFields(req), DialogFields(req, to);
    LowerFieldsAppend(a + b, tail);
    LowerFieldsAppend(a, b);
    var la, lb, lt := LowerFields(a), LowerFields(b), LowerFields(tail);
    RouteLookups(req, key);
    DialogLookups(req, to, key);
    if key in COPIED { OtherNamesHideNothing(tail, key); }
    FirstOfAppend(la + lb, lt, key);
    FirstOfAppend(la, lb, key);
    ValuesOfAppend(la + lb, lt, key);
    ValuesOfAppend(la, lb, key);
  }

  lemma BuiltMirrors(req: Request, to: string, tail: seq<Entry>, h: Headers)
    requires Answerable(req) && OnlyOtherNames(tail) && h.Valid()
    requires h.entries == LowerFields(RouteFields(req) + DialogFields(req, to) + tail)
    ensures Mirrors(req, h, to)
  {
    BuiltLookups(req, to, tail, "via");
    BuiltLookups(req, to, tail, "record-route");
    BuiltLookups(req, to, tail, "from");
    BuiltLookups(req, to, tail, "to");
    BuiltLookups(req, to, tail, "call-id");
    BuiltLookups(req, to, tail, "cseq");
  }

  lemma CopiedNamesAreClean()
    ensures forall v :: Clean(v) ==>
      CleanField(("Via", v)) && CleanField(("Record-Route", v)) && CleanField(("From", v))
      && CleanField(("To", v)) && CleanField(("Call-ID", v)) && CleanField(("CSeq", v))
  {
  }

  lemma BuiltIsClean(req: Request, to: string, tail: seq<Entry>)
    requires Answerable(req) && req.headers.Valid() && CleanValues(req.headers.entries)
    requires Clean(to) && CleanFields(tail)
    ensures CleanFields(RouteFields(req) + DialogFields(req, to) + tail)
  {
    CopiedNamesAreClean();
    var es := req.headers.entries;
    ValuesAreClean(es, "via");
    ValuesAreClean(es, "record-route");
    FirstOfIsClean(es, "from");
    FirstOfIsClean(es, "call-id");
    FirstOfIsClean(es, "cseq");
  }

  /** A dialog tag as the gateway draws it: no white space. */
  predicate IsTag(tag: string) { NoSpace(Rust, tag) }

  /** A value is tagged if and only if it was or a tag is added, and never twice. */
  lemma TaggedOnce(v: string, tag: string, other: string)
    ensures v <= EnsureTag(v, tag) && HasTag(EnsureTag(v, tag))
    ensures HasTag(v) ==> EnsureTag(v, tag) == v
    ensures !HasTag(v) ==> EnsureTag(v, tag)[|v|..] == ";tag=" + tag
    ensures EnsureTag(EnsureTag(v, tag), other) == EnsureTag(v, tag)
  {
    if !HasTag(v) {
      var r := v + ";tag=" + tag;
      assert r == EnsureTag(v, tag) && r[|v|..] == ";tag=" + tag;
      assert Lower(r)[|v|..|v| + 5] == ";tag=";
      assert MatchAt(Lower(r), ";tag=", |v|);
    }
  }

  lemma TagKeepsClean(v: string, tag: string)
    requires Clean(v) && IsTag(tag)
    ensures Clean(EnsureTag(v, tag))
  {
    var r := v + ";tag=" + tag;
    assert IsSpace(Rust, '\n');
    assert r[0] == if v == "" then ';' else v[0];
    assert r[|r| - 1] == if tag == "" then '=' else tag[|tag| - 1];
  }

  lemma StatusLineIsPlain(code: nat, reason: string)
    requires Clean(reason) && reason != ""
    ensures var s := StatusLine(code, reason); s != "" && NoChar('\n', s) && Trim(Rust, s) == s
  {
    var s := StatusLine(code, reason);
    assert AllDigits(Decimal(code)) && NoChar('\n', Decimal(code));
    assert s[0] == 'S' && s[|s| - 1] == reason[|reason| - 1];
    TrimOfTrimmed(Rust, s);
  }

  lemma WordThen(w: string, rest: string)
    requires w != "" && NoSpace(Rust, w)
    ensures Words(Rust, w + " " + rest) == [w] + Words(Rust, rest)
  {
    WordsAppend(Rust, "", w, rest);
    WordsOfWord(Rust, "", w);
    assert "" + w == w;
  }

  lemma StatusLineWords(code: nat, reason: string)
    ensures Words(Rust, StatusLine(code, reason)) == [SIP_VERSION, Decimal(code)] + Words(Rust, reason)
  {
    var rest := Decimal(code) + " " + reason;
    assert StatusLine(code, reason) == SIP_VERSION + " " + rest;
    DigitsHaveNoSpace(Decimal(code));
    WordThen(Decimal(code), reason);
    WordThen(SIP_VERSION, rest);
    assert [SIP_VERSION] + ([Decimal(code)] + Words(Rust, reason)) ==
             [SIP_VERSION, Decimal(code)] + Words(Rust, reason);
  }

  /** A built status line and clean fields parse to exactly that status, reason, fields and body. */
  lemma BuiltResponseParses(code: nat, reason: string, fs: seq<Entry>, body: string)
    requires code < 0x1_0000 && Clean(reason) && reason != "" && CleanFields(fs)
    ensures var r := ParseResponse(Message([StatusLine(code, reason)] + FieldLines(fs), body));
            && r.Some? && r.value.status == code && r.value.body == body
            && r.value.reason == JoinSpace(Words(Rust, reason))
            && r.value.headers.Valid() && r.value.headers.entries == LowerFields(fs)
  {
    var s := StatusLine(code, reason);
    StatusLineIsPlain(code, reason);
    StatusLineWords(code, reason);
    MessageReadsBack(s, fs, body);
    ParseU16OfDecimal(code);
    var parts := Words(Rust, s);
    assert parts[0] == SIP_VERSION && parts[1] == Decimal(code) && parts[2..] == Words(Rust, reason);
  }

  /** What the parser guarantees of a request it accepted. */
  ghost predicate WellRead(req: Request) { req.headers.Valid() && CleanValues(req.headers.entries) }

  lemma ToIsClean(req: Request, tag: Option<string>)
    requires WellRead(req) && Answerable(req) && (tag.Some? ==> IsTag(tag.value))
    ensures Clean(ToValue(req.headers.Get("to").value, tag))
  {
    FirstOfIsClean(req.headers.entries, "to");
    if tag.Some? { TagKeepsClean(req.headers.Get("to").value, tag.value); }
  }

  /** Status line, copied fields, other fields and body: the shape of every response built here. */
  function RoutedText(req: Request, to: string, tail: seq<Entry>, code: nat, reason: string, body: string): (s: string)
    requires Answerable(req)
  {
    Message([StatusLine(code, reason)] + FieldLines(RouteFields(req) + DialogFields(req, to) + tail), body)
  }

  lemma RoutedReadsBack(req: Request, to: string, tail: seq<Entry>, code: nat, reason: string, body: string,
                        key: string)
    requires WellRead(req) && Answerable(req) && Clean(to)
    requires CleanFields(tail) && OnlyOtherNames(tail)
    requires code < 0x1_0000 && Clean(reason) && reason != ""
    ensures var r := ParseResponse(RoutedText(req, to, tail, code, reason, body));
            && r.Some? && r.value.status == code && r.value.body == body
            && r.value.reason == JoinSpace(Words(Rust, reason))
            && r.value.headers.Valid() && Mirrors(req, r.value.headers, to)
            && (key !in COPIED ==> r.value.headers.Get(key) == FirstOf(LowerFields(tail), key))
  {
    var fs := RouteFields(req) + DialogFields(req, to) + tail;
    BuiltIsClean(req, to, tail);
    BuiltResponseParses(code, reason, fs, body);
    var h := ParseResponse(RoutedText(req, to, tail, code, reason, body)).value.headers;
    BuiltMirrors(req, to, tail, h);
    BuiltLookups(req, to, tail, key);
  }

  lemma ResponseReadsBack(req: Request, code: nat, reason: string, tag: Option<string>)
    requires WellRead(req) && Answerable(req)
    requires code < 0x1_0000 && Clean(reason) && reason != "" && (tag.Some? ==> IsTag(tag.value))
    ensures var r := ParseResponse(ResponseText(req, code, reason, tag).value);
            && r.Some? && r.value.status == code && r.value.body == ""
            && r.value.reason == JoinSpace(Words(Rust, reason))
            && r.value.headers.Get("content-length") == Some("0")
            && Mirrors(req, r.value.headers, ToValue(req.headers.Get("to").value, tag))
  {
    ToIsClean(req, tag);
    var to := ToValue(req.headers.Get("to").value, tag);
    var tail := [("Content-Length", "0")];
    LowerOtherNames();
    ConsLookups(("content-length", "0"), [], "content-length");
    assert LowerFields(tail) == [("content-length", "0")] + [];
    assert CleanFields(tail) && OnlyOtherNames(tail);
    RoutedReadsBack(req, to, tail, code, reason, "", "content-length");
    assert ResponseText(req, code, reason, tag).value == RoutedText(req, to, tail, code, reason, "");
  }

  // ---- the 200 OK and its session description ---------------------------------------

  /** An address as the configuration yields it: an IP literal, so one word. */
  predicate IsHost(host: string) { host != "" && NoSpace(Rust, host) }

  lemma ContactIsClean(host: string)
    requires IsHost(host)
    ensures Clean("<sip:sbc@" + host + ":5060>")
  {
    var c := "<sip:sbc@" + host + ":5060>";
    assert IsSpace(Rust, '\n');
    assert c[0] == '<' && c[|c| - 1] == '>';
  }

  lemma DecimalIsClean(n: nat)
    ensures Clean(Decimal(n))
  {
    DigitsHaveNoSpace(Decimal(n));
    assert IsSpace(Rust, '\n');
  }

  lemma SdpFieldsAreClean(host: string, sdp: string)
    requires IsHost(host)
    ensures CleanFields(SdpFields(host, sdp)) && OnlyOtherNames(SdpFields(host, sdp))
  {
    LowerOtherNames();
    ContactIsClean(host);
    DecimalIsClean(Utf8.Size(sdp));
    var fs := SdpFields(host, sdp);
    assert CleanField(fs[0]) && CleanField(fs[1]) && CleanField(fs[2]);
  }

  lemma SdpFieldsLength(host: string, sdp: string)
    ensures FirstOf(LowerFields(SdpFields(host, sdp)), "content-length") == Some(Decimal(Utf8.Size(sdp)))
    ensures FirstOf(LowerFields(SdpFields(host, sdp)), "contact") == Some("<sip:sbc@" + host + ":5060>")
  {
    LowerOtherNames();
    var fs := SdpFields(host, sdp);
    var c, n := fs[0].1, fs[2].1;
    assert LowerFields(fs) ==
           [("contact", c)] + ([("content-type", "application/sdp")] + ([("content-length", n)] + []));
    ConsLookups(("content-length", n), [], "content-length");
    ConsLookups(("content-type", "application/sdp"), [("content-length", n)] + [], "content-length");
    ConsLookups(("contact", c), [("content-type", "application/sdp")] + ([("content-length", n)] + []),
                "content-length");
  }

  lemma LengthIsNotCopied()
    ensures "content-length" !in COPIED && "contact" !in COPIED
  {
  }

  lemma OkReason()
    ensures Clean("OK") && JoinSpace(Words(Rust, "OK")) == "OK"
  {
    WordsOfWord(Rust, "", "OK");
    assert "" + "OK" == "OK";
  }

  /** The 200 OK reads back: status, copied fields, tagged To, and the offer under its own byte length. */
  lemma OkReadsBack(req: Request, tag: string, host: string, sdp: string)
    requires WellRead(req) && Answerable(req) && IsTag(tag) && IsHost(host)
    ensures var r := ParseResponse(OkTextWith(req, tag, host, sdp).value);
            && r.Some? && r.value.status == 200 && r.value.body == sdp && r.value.reason == "OK"
            && r.value.headers.Get("content-length") == Some(Decimal(Utf8.Size(r.value.body)))
            && Mirrors(req, r.value.headers, EnsureTag(req.headers.Get("to").value, tag))
  {
    ToIsClean(req, Some(tag));
    var to := EnsureTag(req.headers.Get("to").value, tag);
    SdpFieldsAreClean(host, sdp);
    SdpFieldsLength(host, sdp);
    OkReason();
    RoutedReadsBack(req, to, SdpFields(host, sdp), 200, "OK", sdp, "content-length");
    LengthIsNotCopied();
    assert OkTextWith(req, tag, host, sdp).value == RoutedText(req, to, SdpFields(host, sdp), 200, "OK", sdp);
  }

  /** The Contact of the 200 OK is the gateway's own address. */
  lemma OkContact(req: Request, tag: string, host: string, sdp: string)
    requires WellRead(req) && Answerable(req) && IsTag(tag) && IsHost(host)
    ensures var r := ParseResponse(OkTextWith(req, tag, host, sdp).value);
            r.Some? && r.value.headers.Get("contact") == Some("<sip:sbc@" + host + ":5060>")
  {
    var to := EnsureTag(req.headers.Get("to").value, tag);
    ToIsClean(req, Some(tag));
    OkContactAt(req, to, host, sdp);
    assert OkTextWith(req, tag, host, sdp).value == RoutedText(req, to, SdpFields(host, sdp), 200, "OK", sdp);
  }

  lemma OkContactAt(req: Request, to: string, host: string, sdp: string)
    requires WellRead(req) && Answerable(req) && Clean(to) && IsHost(host)
    ensures var r := ParseResponse(RoutedText(req, to, SdpFields(host, sdp), 200, "OK", sdp));
            r.Some? && r.value.headers.Get("contact") == Some("<sip:sbc@" + host + ":5060>")
  {
    SdpFieldsAreClean(host, sdp);
    SdpFieldsLength(host, sdp);
    OkReason();
    RoutedReadsBack(req, to, SdpFields(host, sdp), 200, "OK", sdp, "contact");
    LengthIsNotCopied();
  }

  /** A line the media scan passes over. */
  predicate Unread(line: string) {
    line != "" && !IsSpace(Rust, line[0]) && line[0] != 'c' && line[0] != 'm'
  }

  lemma {:induction false} ScanSkips<Ip>(ls: seq<string>, rest: seq<string>, parseIp: string -> Option<Ip>, host: Ip,
                                         port: Option<nat>)
    requires forall i :: 0 <= i < |ls| ==> Unread(ls[i])
    ensures ScanMedia(ls + rest, parseIp, host, port) == ScanMedia(rest, parseIp, host, port)
  {
    if ls == [] {
      assert ls + rest == rest;
    } else {
      var a, b := TrimCuts(Rust, ls[0]);
      assert Unread(ls[0]) && a == 0 && b > 0;
      assert (ls + rest)[0] == ls[0] && (ls + rest)[1..] == ls[1..] + rest;
      ScanSkips(ls[1..], rest, parseIp, host, port);
    }
  }

  lemma ThreeWords(a: string, b: string, c: string)
    requires a != "" && b != "" && c != "" && NoSpace(Rust, a) && NoSpace(Rust, b) && NoSpace(Rust, c)
    ensures var t := a + " " + b + " " + c; Trim(Rust, t) == t && Words(Rust, t) == [a, b, c]
  {
    var t := a + " " + (b + " " + c);
    assert a + " " + b + " " + c == t;
    assert t[0] == a[0] && t[|t| - 1] == c[|c| - 1];
    TrimOfTrimmed(Rust, t);
    WordsOfWord(Rust, "", c);
    assert "" + c == c;
    WordThen(b, c);
    WordThen(a, b + " " + c);
  }

  lemma AddressLineWords(host: string)
    requires IsHost(host)
    ensures var t := AddressLine(host); Trim(Rust, t) == t && Words(Rust, t) == ["c=IN", AddrType(host), host]
  {
    ThreeWords("c=IN", AddrType(host), host);
    assert AddressLine(host) == "c=IN" + " " + AddrType(host) + " " + host;
  }

  lemma AudioLineIsTrimmed(port: nat)
    ensures Trim(Rust, AudioLine(port)) == AudioLine(port)
  {
    var t := AudioLine(port);
    assert t[0] == 'm' && t[|t| - 1] == '1';
    TrimOfTrimmed(Rust, t);
  }

  lemma AudioLineWords(port: nat)
    ensures var t := AudioLine(port); Trim(Rust, t) == t && |Words(Rust, t)| >= 2 && Words(Rust, t)[1] == Decimal(port)
  {
    var t := AudioLine(port);
    AudioLineIsTrimmed(port);
    DigitsHaveNoSpace(Decimal(port));
    assert t == "m=audio" + " " + (Decimal(port) + " " + "RTP/AVP 0 8 101");
    SecondWord("m=audio", Decimal(port), "RTP/AVP 0 8 101");
  }

  lemma SecondWord(a: string, b: string, rest: string)
    requires a != "" && NoSpace(Rust, a) && b != "" && NoSpace(Rust, b)
    ensures var ws := Words(Rust, a + " " + (b + " " + rest)); |ws| >= 2 && ws[1] == b
  {
    WordThen(b, rest);
    WordThen(a, b + " " + rest);
  }

  lemma ScanToEnd<Ip>(mid: seq<string>, port: nat, tail: seq<string>, parseIp: string -> Option<Ip>, ip: Ip)
    requires port < 0x1_0000
    requires forall i :: 0 <= i < |mid| ==> Unread(mid[i])
    requires forall i :: 0 <= i < |tail| ==> Unread(tail[i])
    ensures ScanMedia(mid + ([AudioLine(port)] + tail), parseIp, ip, None) == Some((ip, Some(port)))
  {
    ScanSkips(mid, [AudioLine(port)] + tail, parseIp, ip, None);
    ScanAudio(port, tail, parseIp, ip);
    ScanSkips(tail, [], parseIp, ip, Some(port));
    assert tail + [] == tail;
  }

  lemma ScanFromAddress<Ip>(host: string, mid: seq<string>, port: nat, tail: seq<string>,
                            parseIp: string -> Option<Ip>, fallback: Ip)
    requires IsHost(host) && port < 0x1_0000
    requires forall i :: 0 <= i < |mid| ==> Unread(mid[i])
    requires forall i :: 0 <= i < |tail| ==> Unread(tail[i])
    ensures ScanMedia([AddressLine(host)] + (mid + ([AudioLine(port)] + tail)), parseIp, fallback, None) ==
            match parseIp(host) case None => None case Some(ip) => Some((ip, Some(port)))
  {
    var rest := mid + ([AudioLine(port)] + tail);
    ScanAddress(host, rest, parseIp, fallback);
    if parseIp(host).Some? { ScanToEnd(mid, port, tail, parseIp, parseIp(host).value); }
  }

  lemma Regroup<T>(a: seq<T>, b: seq<T>, c: seq<T>, d: seq<T>, e: seq<T>)
    ensures a + b + c + d + e == a + (b + (c + (d + e)))
  {
  }

  /** Scanning the offer finds its address and its port, or stops at an address it cannot read. */
  lemma ScanOffer<Ip>(host: string, port: nat, parseIp: string -> Option<Ip>, fallback: Ip)
    requires IsHost(host) && port < 0x1_0000
    ensures ScanMedia(SdpLines(host, port), parseIp, fallback, None) ==
            match parseIp(host) case None => None case Some(ip) => Some((ip, Some(port)))
  {
    var pre, mid, tail := ["v=0", OriginLine(host), "s=-"], ["t=0 0"], AttributeLines();
    assert forall i :: 0 <= i < |pre| ==> Unread(pre[i]);
    assert forall i :: 0 <= i < |mid| ==> Unread(mid[i]);
    assert forall i :: 0 <= i < |tail| ==> Unread(tail[i]);
    ScanFromAddress(host, mid, port, tail, parseIp, fallback);
    ScanSkips(pre, [AddressLine(host)] + (mid + ([AudioLine(port)] + tail)), parseIp, fallback, None);
    Regroup(pre, [AddressLine(host)], mid, [AudioLine(port)], tail);
  }

  lemma ScanAddress<Ip>(host: string, rest: seq<string>, parseIp: string -> Option<Ip>, fallback: Ip)
    requires IsHost(host)
    ensures ScanMedia([AddressLine(host)] + rest, parseIp, fallback, None) ==
            match parseIp(host) case None => None case Some(ip) => ScanMedia(rest, parseIp, ip, None)
  {
    AddressLineWords(host);
    assert "c=IN" <= AddressLine(host);
    assert ([AddressLine(host)] + rest)[1..] == rest;
  }

  lemma ScanAudio<Ip>(port: nat, rest: seq<string>, parseIp: string -> Option<Ip>, host: Ip)
    requires port < 0x1_0000
    ensures ScanMedia([AudioLine(port)] + rest, parseIp, host, None) == ScanMedia(rest, parseIp, host, Some(port))
  {
    AudioLineWords(port);
    ParseU16OfDecimal(port);
    assert AudioLine(port)[0] == 'm' && "m=audio" <= AudioLine(port);
    assert ([AudioLine(port)] + rest)[1..] == rest;
  }

  lemma HostLinesArePlain(host: string)
    requires IsHost(host)
    ensures NoChar('\n', OriginLine(host)) && NoChar('\n', AddressLine(host))
  {
    assert IsSpace(Rust, '\n');
  }

  lemma AudioLineIsPlain(port: nat)
    ensures NoChar('\n', AudioLine(port))
  {
    DigitsHaveNoSpace(Decimal(port));
    assert IsSpace(Rust, '\n');
  }

  lemma FixedLinesArePlain()
    ensures NoChar('\n', "v=0") && NoChar('\n', "s=-") && NoChar('\n', "t=0 0")
    ensures forall i :: 0 <= i < |AttributeLines()| ==> NoChar('\n', AttributeLines()[i])
  {
  }

  lemma SdpLinesArePlain(host: string, port: nat)
    requires IsHost(host)
    ensures forall i :: 0 <= i < |SdpLines(host, port)| ==> NoChar('\n', SdpLines(host, port)[i])
  {
    HostLinesArePlain(host);
    AudioLineIsPlain(port);
    FixedLinesArePlain();
  }

  /**
    Section 8.2.6.2 of RFC 3261, for every text the request parser accepts: a response is
    built exactly when the five required fields are there, and it reads back with the given
    status, the copied fields in order, and To extended by at most the one tag.
   */
  lemma ResponseRoundTrip(m: string, code: nat, reason: string, tag: Option<string>)
    requires ParseRequest(m).Some?
    requires code < 0x1_0000 && Clean(reason) && reason != "" && (tag.Some? ==> IsTag(tag.value))
    ensures var req := ParseRequest(m).value;
            var text := ResponseText(req, code, reason, tag);
            && (text.Some? <==> Answerable(req))
            && (text.Some? ==>
                  var r := ParseResponse(text.value);
                  && r.Some? && r.value.status == code && r.value.body == ""
                  && r.value.reason == JoinSpace(Words(Rust, reason))
                  && r.value.headers.Get("content-length") == Some("0")
                  && Mirrors(req, r.value.headers, ToValue(req.headers.Get("to").value, tag)))
  {
    ParsedValuesAreClean(m);
    var req := ParseRequest(m).value;
    if Answerable(req) { ResponseReadsBack(req, code, reason, tag); }
  }

  /** A reason phrase of one word, which a request line could not end in. */
  predicate WordReason(reason: string) { reason != "" && NoSpace(Rust, reason) && !IsSipVersion(reason) }

  lemma WordReasonIsClean(reason: string)
    requires WordReason(reason)
    ensures Clean(reason)
  {
    assert IsSpace(Rust, '\n');
  }

  lemma StatusIsNoRequest(code: nat, reason: string, fs: seq<Entry>, body: string)
    requires WordReason(reason) && CleanFields(fs)
    ensures ParseRequest(Message([StatusLine(code, reason)] + FieldLines(fs), body)).None?
  {
    WordReasonIsClean(reason);
    StatusLineIsPlain(code, reason);
    StatusLineWords(code, reason);
    WordsOfWord(Rust, "", reason);
    assert "" + reason == reason;
    BuiltRequestParses(StatusLine(code, reason), fs, body);
  }

  lemma OkIsAWord()
    ensures WordReason("OK")
  {
    assert |Lower("OK")| != |Lower(SIP_VERSION)|;
  }

  /** The session description of the 200 OK names exactly the local address and RTP port. */
  lemma OkMediaAddr<Ip>(req: Request, tag: string, host: string, port: nat, parseIp: string -> Option<Ip>, fallback: Ip)
    requires WellRead(req) && Answerable(req) && IsTag(tag) && IsHost(host) && port < 0x1_0000
    ensures MediaAddr(OkText(req, tag, host, port).value, parseIp, fallback) ==
            match parseIp(host) case None => None case Some(ip) => Some((ip, port))
  {
    var sdp := SdpOffer(host, port);
    OkReadsBack(req, tag, host, sdp);
    OkBody(req, tag, host, sdp);
    SdpLinesArePlain(host, port);
    LinesOfCrlf(SdpLines(host, port));
    ScanOffer(host, port, parseIp, fallback);
  }

  lemma OkBody(req: Request, tag: string, host: string, sdp: string)
    requires WellRead(req) && Answerable(req) && IsTag(tag) && IsHost(host)
    ensures MessageBody(OkTextWith(req, tag, host, sdp).value) == Some(sdp)
  {
    var to := EnsureTag(req.headers.Get("to").value, tag);
    OkReadsBack(req, tag, host, sdp);
    ToIsClean(req, Some(tag));
    SdpFieldsAreClean(host, sdp);
    BuiltIsClean(req, to, SdpFields(host, sdp));
    OkIsAWord();
    StatusIsNoRequest(200, "OK", RouteFields(req) + DialogFields(req, to) + SdpFields(host, sdp), sdp);
  }

  /** The 200 OK for every text the request parser accepts. */
  lemma OkRoundTrip<Ip>(m: string, tag: string, host: string, port: nat, parseIp: string -> Option<Ip>, fallback: Ip)
    requires ParseRequest(m).Some? && IsTag(tag) && IsHost(host) && port < 0x1_0000
    ensures var req := ParseRequest(m).value;
            var text := OkText(req, tag, host, port);
            && (text.Some? <==> Answerable(req))
            && (text.Some? ==>
                  var r := ParseResponse(text.value);
                  && r.Some? && r.value.status == 200
                  && r.value.headers.Get("content-length") == Some(Decimal(Utf8.Size(r.value.body)))
                  && Mirrors(req, r.value.headers, EnsureTag(req.headers.Get("to").value, tag))
                  && MediaAddr(text.value, parseIp, fallback) ==
                     match parseIp(host) case None => None case Some(ip) => Some((ip, port)))
  {
    ParsedValuesAreClean(m);
    var req := ParseRequest(m).value;
    if Answerable(req) {
      OkReadsBack(req, tag, host, SdpOffer(host, port));
      OkMediaAddr(req, tag, host, port, parseIp, fallback);
    }
  }

  // ---- BYE --------------------------------------------------------------------------

  ghost predicate CleanSignaling(d: Signaling) {
    && Clean(d.localFrom) && Clean(d.remoteTo) && Clean(d.callId)
    && IsHost(d.localHost) && NoChar('\n', d.remoteUri)
  }

  /** A request target the request line can carry: one word, or one the reader mistakes for it. */
  predicate Addressable(uri: string) {
    var ws := Words(Rust, uri);
    |ws| == 1 || (|ws| >= 2 && IsSipVersion(ws[1]))
  }

  /** A Contact whose URI holds a space gives a target that is not addressable. */
  lemma TwoWordTarget(a: string, b: string)
    requires a != "" && NoSpace(Rust, a) && b != "" && NoSpace(Rust, b) && !IsSipVersion(b)
    ensures !Addressable(a + " " + b)
  {
    WordThen(a, b);
    WordsOfWord(Rust, "", b);
    assert "" + b == b;
  }

  lemma ByeFieldsAreClean(d: Signaling, branch: string)
    requires CleanSignaling(d) && IsTag(branch)
    ensures CleanFields(ByeFields(d, branch))
  {
    CopiedNamesAreClean();
    ViaIsClean(d.localHost, branch);
    ByeCseqIsClean(SaturatingSucc(d.localCseq));
    var fs := ByeFields(d, branch);
    assert CleanField(fs[5]) && CleanField(fs[6]);
  }

  lemma ViaIsClean(host: string, branch: string)
    requires IsHost(host) && IsTag(branch)
    ensures Clean("SIP/2.0/UDP " + host + ":5060;branch=" + branch)
  {
    var v := "SIP/2.0/UDP " + host + ":5060;branch=" + branch;
    assert IsSpace(Rust, '\n');
    assert v[0] == 'S' && v[|v| - 1] == if branch == "" then '=' else branch[|branch| - 1];
  }

  lemma ByeCseqIsClean(n: nat)
    ensures Clean(Decimal(n) + " BYE")
  {
    DecimalIsClean(n);
    var v := Decimal(n) + " BYE";
    assert v[0] == Decimal(n)[0] && v[|v| - 1] == 'E';
  }

  lemma TargetLineIsTrimmed(name: string, uri: string)
    requires name != "" && NoSpace(Rust, name) && NoChar('\n', uri)
    ensures var s := TargetLine(name, uri); s != "" && NoChar('\n', s) && Trim(Rust, s) == s
  {
    var s := TargetLine(name, uri);
    assert IsSpace(Rust, '\n') && NoChar('\n', name);
    assert s[0] == name[0] && s[|s| - 1] == '0';
    TrimOfTrimmed(Rust, s);
  }

  lemma TargetLineWords(name: string, uri: string)
    requires name != "" && NoSpace(Rust, name)
    ensures Words(Rust, TargetLine(name, uri)) == [name] + Words(Rust, uri) + [SIP_VERSION]
  {
    assert TargetLine(name, uri) == name + " " + (uri + " " + SIP_VERSION);
    WordsBetween(name, uri, SIP_VERSION);
  }

  lemma WordsBetween(a: string, middle: string, b: string)
    requires a != "" && NoSpace(Rust, a) && b != "" && NoSpace(Rust, b)
    ensures Words(Rust, a + " " + (middle + " " + b)) == [a] + Words(Rust, middle) + [b]
  {
    WordThen(a, middle + " " + b);
    WordsAppend(Rust, "", middle, b);
    WordsOfWord(Rust, "", b);
    assert "" + b == b;
    assert [a] + (Words(Rust, middle) + [b]) == [a] + Words(Rust, middle) + [b];
  }

  lemma ByeLookups(d: Signaling, branch: string, h: Headers)
    requires h.Valid() && h.entries == LowerFields(ByeFields(d, branch))
    ensures h.Get("from") == Some(d.localFrom) && h.Get("to") == Some(d.remoteTo) && h.Get("call-id") == Some(d.callId)
    ensures h.Get("cseq") == Some(Decimal(SaturatingSucc(d.localCseq)) + " BYE")
  {
    LowerNames();
    var es := h.entries;
    assert es == [es[0]] + ([es[1]] + ([es[2]] + ([es[3]] + ([es[4]] + es[5..]))));
    FirstAfter(es[0], [es[1]] + ([es[2]] + ([es[3]] + ([es[4]] + es[5..]))));
    FirstAfter(es[1], [es[2]] + ([es[3]] + ([es[4]] + es[5..])));
    FirstAfter(es[2], [es[3]] + ([es[4]] + es[5..]));
    FirstAfter(es[3], [es[4]] + es[5..]);
    FirstAfter(es[4], es[5..]);
  }

  lemma FirstAfter(e: Entry, es: seq<Entry>)
    ensures forall key :: FirstOf([e] + es, key) == if e.0 == key then Some(e.1) else FirstOf(es, key)
  {
    assert ([e] + es)[1..] == es;
  }

  lemma BuiltRequestParses(first: string, fs: seq<Entry>, body: string)
    requires first != "" && NoChar('\n', first) && Trim(Rust, first) == first && CleanFields(fs)
    ensures var parts := Words(Rust, first);
            var r := ParseRequest(Message([first] + FieldLines(fs), body));
            && (r.Some? <==> |parts| >= 3 && IsSipVersion(parts[2]))
            && (r.Some? ==> && r.value.requestMethod == Upper(parts[0]) && r.value.uri == parts[1]
                            && r.value.headers.Valid() && r.value.headers.entries == LowerFields(fs)
                            && r.value.body == body)
  {
    MessageReadsBack(first, fs, body);
  }

  lemma TargetParts(name: string, uri: string, parts: seq<string>)
    requires parts == [name] + Words(Rust, uri) + [SIP_VERSION]
    ensures |parts| >= 3 && IsSipVersion(parts[2]) <==> Addressable(uri)
    ensures Addressable(uri) ==> parts[0] == name && parts[1] == Words(Rust, uri)[0]
  {
    var ws := Words(Rust, uri);
    assert |ws| >= 1 ==> parts[1] == ws[0];
    assert |parts| >= 3 ==> parts[2] == if |ws| == 1 then SIP_VERSION else ws[1];
  }

  /** A request built from clean fields reads back exactly when its target is addressable. */
  lemma TargetRequestParses(name: string, uri: string, fs: seq<Entry>)
    requires name != "" && NoSpace(Rust, name) && Upper(name) == name && NoChar('\n', uri) && CleanFields(fs)
    ensures var r := ParseRequest(Message([TargetLine(name, uri)] + FieldLines(fs), ""));
            && (r.Some? <==> Addressable(uri))
            && (r.Some? ==> && r.value.requestMethod == name && r.value.uri == Words(Rust, uri)[0]
                            && r.value.headers.Valid() && r.value.headers.entries == LowerFields(fs))
  {
    TargetLineIsTrimmed(name, uri);
    TargetLineWords(name, uri);
    BuiltRequestParses(TargetLine(name, uri), fs, "");
    TargetParts(name, uri, Words(Rust, TargetLine(name, uri)));
  }

  lemma MethodNames()
    ensures NoSpace(Rust, "BYE") && Upper("BYE") == "BYE" && NoSpace(Rust, "ACK") && Upper("ACK") == "ACK"
  {
  }

  /**
    A BYE reads back with the dialog's From, To and Call-ID exactly when its request target is
    addressable; a target of several words (or none) is not parsed as a request at all.
   */
  lemma ByeRoundTrip(d: Signaling, branch: string)
    requires CleanSignaling(d) && IsTag(branch)
    ensures var r := ParseRequest(ByeText(d, branch));
            && (r.Some? <==> Addressable(d.remoteUri))
            && (r.Some? ==>
                  && r.value.requestMethod == "BYE"
                  && r.value.uri == Words(Rust, d.remoteUri)[0]
                  && r.value.headers.Get("from") == Some(d.localFrom)
                  && r.value.headers.Get("to") == Some(d.remoteTo)
                  && r.value.headers.Get("call-id") == Some(d.callId)
                  && r.value.headers.Get("cseq") == Some(Decimal(SaturatingSucc(d.localCseq)) + " BYE"))
  {
    MethodNames();
    ByeFieldsAreClean(d, branch);
    TargetRequestParses("BYE", d.remoteUri, ByeFields(d, branch));
    var r := ParseRequest(ByeText(d, branch));
    if r.Some? { ByeLookups(d, branch, r.value.headers); }
  }

  // ---- ACK --------------------------------------------------------------------------

  lemma AckFieldsAreClean(inv: SentInvite, to: string, host: string, branch: string)
    requires Clean(inv.from) && Clean(inv.callId) && Clean(to) && IsHost(host) && IsTag(branch)
    ensures CleanFields(AckFields(inv, to, host, branch))
  {
    CopiedNamesAreClean();
    ViaIsClean(host, branch);
    AckCseqIsClean(inv.cseq);
    var fs := AckFields(inv, to, host, branch);
    assert CleanField(fs[5]) && CleanField(fs[6]);
  }

  lemma AckCseqIsClean(n: nat)
    ensures Clean(Decimal(n) + " ACK")
  {
    DecimalIsClean(n);
    var v := Decimal(n) + " ACK";
    assert v[0] == Decimal(n)[0] && v[|v| - 1] == 'K';
  }

  lemma AckLookups(inv: SentInvite, to: string, host: string, branch: string, h: Headers)
    requires h.Valid() && h.entries == LowerFields(AckFields(inv, to, host, branch))
    ensures h.Get("from") == Some(inv.from) && h.Get("to") == Some(to) && h.Get("call-id") == Some(inv.callId)
    ensures h.Get("cseq") == Some(Decimal(inv.cseq) + " ACK")
  {
    LowerNames();
    var es := h.entries;
    assert es == [es[0]] + ([es[1]] + ([es[2]] + ([es[3]] + ([es[4]] + es[5..]))));
    FirstAfter(es[0], [es[1]] + ([es[2]] + ([es[3]] + ([es[4]] + es[5..]))));
    FirstAfter(es[1], [es[2]] + ([es[3]] + ([es[4]] + es[5..])));
    FirstAfter(es[2], [es[3]] + ([es[4]] + es[5..]));
    FirstAfter(es[3], [es[4]] + es[5..]);
    FirstAfter(es[4], es[5..]);
  }

  /**
    An ACK reads back, exactly when its target is addressable, with the From, Call-ID and CSeq
    number of the INVITE it acknowledges and the To of the response.
   */
  lemma AckRoundTrip(inv: SentInvite, uri: string, to: string, host: string, branch: string)
    requires Clean(inv.from) && Clean(inv.callId) && Clean(to) && IsHost(host) && IsTag(branch) && NoChar('\n', uri)
    ensures var r := ParseRequest(AckText(inv, uri, to, host, branch));
            && (r.Some? <==> Addressable(uri))
            && (r.Some? ==>
                  && r.value.requestMethod == "ACK"
                  && r.value.uri == Words(Rust, uri)[0]
                  && r.value.headers.Get("from") == Some(inv.from)
                  && r.value.headers.Get("to") == Some(to)
                  && r.value.headers.Get("call-id") == Some(inv.callId)
                  && r.value.headers.Get("cseq") == Some(Decimal(inv.cseq) + " ACK"))
  {
    MethodNames();
    AckFieldsAreClean(inv, to, host, branch);
    TargetRequestParses("ACK", uri, AckFields(inv, to, host, branch));
    var r := ParseRequest(AckText(inv, uri, to, host, branch));
    if r.Some? { AckLookups(inv, to, host, branch, r.value.headers); }
  }
}
