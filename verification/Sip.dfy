/** SIP messages as the gateway reads and writes them. */
module Sip {
  import opened Wrappers
  import opened Strings
  import Utf8

  type Entry = (string, string)

  /**
    Parsed header fields: every field in arrival order under its lower-case name, and an
    index from name to the first value, filled as fields are pushed.
   */
  datatype Headers = Headers(entries: seq<Entry>, firstValues: map<string, string>) {
    ghost predicate Valid() { firstValues == FirstIndex(entries) }

    /** First value under an already normalised (lower-case) name. */
    function Get(key: string): (r: Option<string>)
      ensures Valid() ==> r == FirstOf(entries, key)
    {
      LookupFirst(entries, key);
      if key in firstValues then Some(firstValues[key]) else None
    }

    function Values(key: string): (r: seq<string>) { ValuesOf(entries, key) }
  }

  /** `SipHeaders::insert`: every field is kept, the index keeps the first of its name. */
  function Insert(h: Headers, e: Entry): (r: Headers) {
    Headers(h.entries + [e], if e.0 in h.firstValues then h.firstValues else h.firstValues[e.0 := e.1])
  }

  function FirstIndex(es: seq<Entry>): (m: map<string, string>) {
    if es == [] then map[] else
      var m := FirstIndex(es[..|es| - 1]);
      var e := es[|es| - 1];
      if e.0 in m then m else m[e.0 := e.1]
  }

  function FirstOf(es: seq<Entry>, key: string): (r: Option<string>) {
    if es == [] then None
    else if es[0].0 == key then Some(es[0].1)
    else FirstOf(es[1..], key)
  }

  function ValuesOf(es: seq<Entry>, key: string): (r: seq<string>) {
    if es == [] then []
    else (if es[0].0 == key then [es[0].1] else []) + ValuesOf(es[1..], key)
  }

  lemma {:induction false} FirstOfAppend(a: seq<Entry>, b: seq<Entry>, key: string)
    ensures FirstOf(a + b, key) == if FirstOf(a, key).Some? then FirstOf(a, key) else FirstOf(b, key)
  {
    if a == [] {
      assert a + b == b;
    } else {
      assert (a + b)[1..] == a[1..] + b;
      FirstOfAppend(a[1..], b, key);
    }
  }

  lemma {:induction false} ValuesOfAppend(a: seq<Entry>, b: seq<Entry>, key: string)
    ensures ValuesOf(a + b, key) == ValuesOf(a, key) + ValuesOf(b, key)
  {
    if a == [] {
      assert a + b == b;
    } else {
      assert (a + b)[0] == a[0] && (a + b)[1..] == a[1..] + b;
      ValuesOfAppend(a[1..], b, key);
      var head := if a[0].0 == key then [a[0].1] else [];
      assert ValuesOf(a + b, key) == head + (ValuesOf(a[1..], key) + ValuesOf(b, key));
    }
  }

  /** The incremental index answers exactly like a scan for the first field of that name. */
  lemma {:induction false} LookupFirst(es: seq<Entry>, key: string)
    ensures FirstOf(es, key) ==
            if key in FirstIndex(es) then Some(FirstIndex(es)[key]) else None
  {
    if es != [] {
      var n := |es| - 1;
      LookupFirst(es[..n], key);
      FirstOfAppend(es[..n], es[n..], key);
      assert es[..n] + es[n..] == es;
    }
  }

  datatype Request = Request(requestMethod: string, uri: string, version: string, headers: Headers, body: string)
  datatype Response = Response(version: string, status: nat, reason: string, headers: Headers, body: string)

  // ---- parsing ----------------------------------------------------------------------

  function SplitMessage(m: string): (r: (string, string)) {
    match SplitOnce(m, "\r\n\r\n")
    case Some(p) => p
    case None =>
      match SplitOnce(m, "\n\n")
      case Some(p) => p
      case None => (m, "")
  }

  datatype HeaderLine = Blank | NoColon | Field(entry: Entry)

  function ReadHeaderLine(line: string): (r: HeaderLine) {
    var t := Trim(Rust, line);
    if t == "" then Blank
    else match SplitOnce(t, ":")
      case None => NoColon
      case Some(nv) => Field((Lower(Trim(Rust, nv.0)), Trim(Rust, nv.1)))
  }

  /** How one line is read. */
  type LineReader = string -> HeaderLine

  function Reader(): (read: LineReader) { line => ReadHeaderLine(line) }

  /** The fields of the lines up to the first blank one. */
  function EntriesBy(read: LineReader, lines: seq<string>): (es: seq<Entry>) {
    if lines == [] then []
    else match read(lines[0])
      case Blank => []
      case NoColon => EntriesBy(read, lines[1..])
      case Field(e) => [e] + EntriesBy(read, lines[1..])
  }

  function HeaderEntries(lines: seq<string>): (es: seq<Entry>) { EntriesBy(Reader(), lines) }

  /** The headers once the lines are read into `h`: stop at a blank line, skip one without a colon. */
  function ReadInto(read: LineReader, h: Headers, lines: seq<string>): (r: Headers)
    decreases lines
  {
    if lines == [] then h
    else match read(lines[0])
      case Blank => h
      case NoColon => ReadInto(read, h, lines[1..])
      case Field(e) => ReadInto(read, Insert(h, e), lines[1..])
  }

  function HeadersOf(lines: seq<string>): (h: Headers)
    ensures h.Valid() && h.entries == HeaderEntries(lines)
  {
    ReadIntoEntries(Reader(), Headers([], map[]), lines);
    ReadIntoValid(Reader(), Headers([], map[]), lines);
    ReadInto(Reader(), Headers([], map[]), lines)
  }

  lemma {:induction false} ReadIntoEntries(read: LineReader, h: Headers, lines: seq<string>)
    ensures ReadInto(read, h, lines).entries == h.entries + EntriesBy(read, lines)
    decreases lines
  {
    if lines != [] {
      var line := read(lines[0]);
      if line.NoColon? {
        ReadIntoEntries(read, h, lines[1..]);
      } else if line.Field? {
        ReadIntoEntries(read, Insert(h, line.entry), lines[1..]);
      }
    }
  }

  lemma InsertIsValid(h: Headers, e: Entry)
    requires h.Valid()
    ensures Insert(h, e).Valid()
  {
    assert (h.entries + [e])[..|h.entries|] == h.entries;
  }

  lemma {:induction false} ReadIntoValid(read: LineReader, h: Headers, lines: seq<string>)
    requires h.Valid()
    ensures ReadInto(read, h, lines).Valid()
    decreases lines
  {
    if lines != [] {
      var line := read(lines[0]);
      if line.NoColon? {
        ReadIntoValid(read, h, lines[1..]);
      } else if line.Field? {
        InsertIsValid(h, line.entry);
        ReadIntoValid(read, Insert(h, line.entry), lines[1..]);
      }
    }
  }

  /** The header loop of `parse_headers`. */
  method ParseHeaders(lines: seq<string>) returns (h: Headers)
    ensures h == HeadersOf(lines)
  {
    h := Headers([], map[]);
    var rest := lines;
    while rest != []
      invariant ReadInto(Reader(), h, rest) == HeadersOf(lines)
    {
      var line := ReadHeaderLine(rest[0]);
      if line.Blank? { break; }
      if line.Field? { h := Insert(h, line.entry); }
      rest := rest[1..];
    }
  }

  const SIP_VERSION := "SIP/2.0"

  predicate IsSipVersion(v: string) { Lower(v) == Lower(SIP_VERSION) }

  function ParseRequest(m: string): (r: Option<Request>)
    ensures r.Some? ==> r.value.headers.Valid()
  {
    var (head, body) := SplitMessage(m);
    var ls := Lines(head);
    if ls == [] then None else
      var parts := Words(Rust, Trim(Rust, ls[0]));
      if |parts| < 3 || !IsSipVersion(parts[2]) then None
      else Some(Request(Upper(parts[0]), parts[1], parts[2], HeadersOf(ls[1..]), body))
  }

  function ParseResponse(m: string): (r: Option<Response>)
    ensures r.Some? ==> r.value.headers.Valid()
  {
    var (head, body) := SplitMessage(m);
    var ls := Lines(head);
    if ls == [] then None else
      var parts := Words(Rust, Trim(Rust, ls[0]));
      if |parts| < 2 || !IsSipVersion(parts[0]) then None
      else match ParseU16(parts[1])
        case None => None
        case Some(code) => Some(Response(parts[0], code, JoinSpace(parts[2..]), HeadersOf(ls[1..]), body))
  }

  // ---- building ---------------------------------------------------------------------

  function FieldLine(f: Entry): (s: string) { f.0 + ": " + f.1 }

  function FieldLines(fs: seq<Entry>): (ls: seq<string>)
    ensures |ls| == |fs| && forall i :: 0 <= i < |fs| ==> ls[i] == FieldLine(fs[i])
  {
    seq(|fs|, i requires 0 <= i < |fs| => FieldLine(fs[i]))
  }

  /** One field of that name per value, in order. */
  function Fields(name: string, values: seq<string>): (fs: seq<Entry>)
    ensures |fs| == |values| && forall i :: 0 <= i < |fs| ==> fs[i] == (name, values[i])
  {
    seq(|values|, i requires 0 <= i < |values| => (name, values[i]))
  }

  /** Every line followed by CRLF. */
  function CrlfLines(lines: seq<string>): (s: string) {
    if lines == [] then "" else lines[0] + "\r\n" + CrlfLines(lines[1..])
  }

  function Message(lines: seq<string>, body: string): (s: string) {
    CrlfLines(lines) + "\r\n" + body
  }

  lemma CrlfNext(done: string, lines: seq<string>, i: nat)
    requires i < |lines|
    ensures done + CrlfLines(lines[i..]) == (done + lines[i] + "\r\n") + CrlfLines(lines[i + 1..])
  {
    assert lines[i..][1..] == lines[i + 1..];
  }

  /** `build_sip_message`. */
  method BuildSipMessage(lines: seq<string>, body: Option<string>) returns (payload: string)
    ensures payload == Message(lines, if body.Some? then body.value else "")
  {
    payload := "";
    var i := 0;
    while i < |lines|
      invariant 0 <= i <= |lines|
      invariant payload + CrlfLines(lines[i..]) == CrlfLines(lines)
    {
      CrlfNext(payload, lines, i);
      payload := payload + lines[i];
      payload := payload + "\r\n";
      i := i + 1;
    }
    payload := payload + "\r\n";
    if body.Some? {
      payload := payload + body.value;
    }
  }

  predicate HasTag(v: string) { Contains(Lower(v), ";tag=") }

  /** `ensure_tag`: the dialog tag is appended only when the value carries none. */
  function EnsureTag(v: string, tag: string): (r: string) {
    if HasTag(v) then v else v + ";tag=" + tag
  }

  function ToValue(to: string, tag: Option<string>): (r: string) {
    if tag.Some? then EnsureTag(to, tag.value) else to
  }

  function RouteFields(req: Request): (fs: seq<Entry>) {
    Fields("Via", req.headers.Values("via")) + Fields("Record-Route", req.headers.Values("record-route"))
  }

  function StatusLine(code: nat, reason: string): (s: string) {
    SIP_VERSION + " " + Decimal(code) + " " + reason
  }

  /** From, To, Call-ID and CSeq of a response, after the copied routes. */
  function DialogFields(req: Request, to: string): (fs: seq<Entry>)
    requires Answerable(req)
  {
    [("From", req.headers.Get("from").value), ("To", to),
     ("Call-ID", req.headers.Get("call-id").value), ("CSeq", req.headers.Get("cseq").value)]
  }

  /** The fields without which no response is built. */
  predicate Answerable(req: Request) {
    && req.headers.Get("from").Some? && req.headers.Get("to").Some?
    && req.headers.Get("call-id").Some? && req.headers.Get("cseq").Some?
    && req.headers.Values("via") != []
  }

  /** `build_response_for_request` for a response without body. */
  function ResponseText(req: Request, code: nat, reason: string, tag: Option<string>): (r: Option<string>) {
    if !Answerable(req) then None else
      var to := ToValue(req.headers.Get("to").value, tag);
      Some(Message([StatusLine(code, reason)]
                   + FieldLines(RouteFields(req) + DialogFields(req, to) + [("Content-Length", "0")]), ""))
  }

  function RingingText(req: Request, tag: string): (r: Option<string>) {
    ResponseText(req, 180, "Ringing", Some(tag))
  }

  /** `build_sip_200_ok_for_invite`. */
  function OkText(req: Request, tag: string, host: string, port: nat): (r: Option<string>) {
    OkTextWith(req, tag, host, SdpOffer(host, port))
  }

  function OkTextWith(req: Request, tag: string, host: string, sdp: string): (r: Option<string>) {
    if !Answerable(req) then None else
      var to := EnsureTag(req.headers.Get("to").value, tag);
      Some(Message([StatusLine(200, "OK")]
                   + FieldLines(RouteFields(req) + DialogFields(req, to) + SdpFields(host, sdp)), sdp))
  }

  function SdpFields(host: string, sdp: string): (fs: seq<Entry>) {
    [("Contact", "<sip:sbc@" + host + ":5060>"), ("Content-Type", "application/sdp"),
     ("Content-Length", Decimal(Utf8.Size(sdp)))]
  }

  function AddrType(host: string): string { if NoChar(':', host) then "IP4" else "IP6" }

  function OriginLine(host: string): string { "o=RustSBC 2890844526 2890844526 IN " + AddrType(host) + " " + host }
  function AddressLine(host: string): string { "c=IN " + AddrType(host) + " " + host }
  function AudioLine(port: nat): string { "m=audio " + Decimal(port) + " RTP/AVP 0 8 101" }

  function AttributeLines(): (ls: seq<string>) {
    ["a=rtpmap:0 PCMU/8000", "a=rtpmap:8 PCMA/8000", "a=rtpmap:101 telephone-event/8000",
     "a=fmtp:101 0-16", "a=ptime:20", "a=sendrecv"]
  }

  function SdpLines(host: string, port: nat): (ls: seq<string>) {
    ["v=0", OriginLine(host), "s=-"] + [AddressLine(host)] + ["t=0 0"] + [AudioLine(port)] + AttributeLines()
  }

  function SdpOffer(host: string, port: nat): (s: string) { CrlfLines(SdpLines(host, port)) }

  function TargetLine(name: string, uri: string): (s: string) { name + " " + uri + " " + SIP_VERSION }

  /** What the gateway remembers of a dialog it answered. */
  datatype Signaling = Signaling(callId: string, localFrom: string, remoteTo: string,
                                 remoteUri: string, localHost: string, localCseq: nat)

  function ByeFields(d: Signaling, branch: string): (fs: seq<Entry>) {
    [("Via", "SIP/2.0/UDP " + d.localHost + ":5060;branch=" + branch),
     ("From", d.localFrom), ("To", d.remoteTo), ("Call-ID", d.callId),
     ("CSeq", Decimal(SaturatingSucc(d.localCseq)) + " BYE"), ("Max-Forwards", "70"), ("Content-Length", "0")]
  }

  /** `u32::saturating_add(1)`. */
  function SaturatingSucc(n: nat): nat { if n >= 0xFFFF_FFFF then 0xFFFF_FFFF else n + 1 }

  /** `build_bye_request`; the branch is "z9hG4bK" and a fresh UUID. */
  function ByeText(d: Signaling, branch: string): (s: string) {
    Message([TargetLine("BYE", d.remoteUri)] + FieldLines(ByeFields(d, branch)), "")
  }

  /** What the gateway remembers of an INVITE it sent. */
  datatype SentInvite = SentInvite(callId: string, uri: string, from: string, cseq: nat)

  function AckFields(inv: SentInvite, to: string, host: string, branch: string): (fs: seq<Entry>) {
    [("Via", "SIP/2.0/UDP " + host + ":5060;branch=" + branch), ("To", to), ("From", inv.from),
     ("Call-ID", inv.callId), ("CSeq", Decimal(inv.cseq) + " ACK"), ("Max-Forwards", "70"), ("Content-Length", "0")]
  }

  /** The text of `build_ack_for_final_response`. */
  function AckText(inv: SentInvite, uri: string, to: string, host: string, branch: string): (s: string) {
    Message([TargetLine("ACK", uri)] + FieldLines(AckFields(inv, to, host, branch)), "")
  }

  // ---- the builders as they run -----------------------------------------------------

  lemma FieldLinesAppend(a: seq<Entry>, b: seq<Entry>)
    ensures FieldLines(a + b) == FieldLines(a) + FieldLines(b)
  {
  }

  /** One line per value, pushed in order. */
  method PushFields(lines: seq<string>, name: string, values: seq<string>) returns (r: seq<string>)
    ensures r == lines + FieldLines(Fields(name, values))
  {
    r := lines;
    for i := 0 to |values|
      invariant r == lines + FieldLines(Fields(name, values[..i]))
    {
      r := r + [FieldLine((name, values[i]))];
    }
    assert values[..|values|] == values;
  }

  /** `prepend_response_route_headers`: Via and Record-Route lines go in after the first line. */
  method PrependRoutes(req: Request, lines: seq<string>) returns (r: Option<seq<string>>)
    requires lines != []
    ensures r == if req.headers.Values("via") == [] then None
            else Some([lines[0]] + (FieldLines(RouteFields(req)) + lines[1..]))
  {
    var vias, routes := req.headers.Values("via"), req.headers.Values("record-route");
    if vias == [] { return None; }
    var prefix := PushFields([], "Via", vias);
    assert prefix == FieldLines(Fields("Via", vias));
    prefix := PushFields(prefix, "Record-Route", routes);
    FieldLinesAppend(Fields("Via", vias), Fields("Record-Route", routes));
    r := Some([lines[0]] + (prefix + lines[1..]));
  }

  /** `build_response_for_request` without a body. */
  method BuildResponse(req: Request, code: nat, reason: string, tag: Option<string>) returns (text: Option<string>)
    ensures text == ResponseText(req, code, reason, tag)
  {
    var from, to := req.headers.Get("from"), req.headers.Get("to");
    var callId, cseq := req.headers.Get("call-id"), req.headers.Get("cseq");
    if from.None? || to.None? || callId.None? || cseq.None? { return None; }
    var value := to.value;
    if !HasTag(value) && tag.Some? { value := value + ";tag=" + tag.value; }
    var first := StatusLine(code, reason);
    var dialog := [FieldLine(("From", from.value)), FieldLine(("To", value)),
                   FieldLine(("Call-ID", callId.value)), FieldLine(("CSeq", cseq.value))];
    var lines := PrependRoutes(req, [first] + dialog);
    if lines.None? { return None; }
    var last := FieldLine(("Content-Length", "0"));
    assert ([first] + dialog)[1..] == dialog;
    assert dialog == FieldLines(DialogFields(req, value)) && [last] == FieldLines([("Content-Length", "0")]);
    LinesInOrder(first, RouteFields(req), DialogFields(req, value), [("Content-Length", "0")]);
    var payload := BuildSipMessage(lines.value + [last], None);
    text := Some(payload);
  }

  lemma LinesInOrder(first: string, routes: seq<Entry>, dialog: seq<Entry>, tail: seq<Entry>)
    ensures [first] + FieldLines(routes + dialog + tail) ==
              [first] + (FieldLines(routes) + FieldLines(dialog)) + FieldLines(tail)
    ensures [first] + FieldLines(routes + dialog + tail) ==
              [first] + (FieldLines(routes) + (FieldLines(dialog) + FieldLines(tail)))
  {
    FieldLinesAppend(routes + dialog, tail);
    FieldLinesAppend(routes, dialog);
  }

  /** `build_sip_200_ok_for_invite`. */
  method BuildOk(req: Request, tag: string, host: string, port: nat) returns (text: Option<string>)
    ensures text == OkText(req, tag, host, port)
  {
    var sdp := SdpOffer(host, port);
    var from, to := req.headers.Get("from"), req.headers.Get("to");
    var callId, cseq := req.headers.Get("call-id"), req.headers.Get("cseq");
    if from.None? || to.None? || callId.None? || cseq.None? { return None; }
    var value := if HasTag(to.value) then to.value else to.value + ";tag=" + tag;
    var first := StatusLine(200, "OK");
    var dialog := [FieldLine(("From", from.value)), FieldLine(("To", value)),
                   FieldLine(("Call-ID", callId.value)), FieldLine(("CSeq", cseq.value))];
    var media := [FieldLine(("Contact", "<sip:sbc@" + host + ":5060>")), FieldLine(("Content-Type", "application/sdp")),
                  FieldLine(("Content-Length", Decimal(Utf8.Size(sdp))))];
    var lines := PrependRoutes(req, [first] + (dialog + media));
    if lines.None? { return None; }
    assert ([first] + (dialog + media))[1..] == dialog + media;
    assert dialog == FieldLines(DialogFields(req, value)) && media == FieldLines(SdpFields(host, sdp));
    LinesInOrder(first, RouteFields(req), DialogFields(req, value), SdpFields(host, sdp));
    var payload := BuildSipMessage(lines.value, Some(sdp));
    text := Some(payload);
  }

  // ---- reading SDP ------------------------------------------------------------------

  function MessageBody(m: string): (r: Option<string>) {
    match ParseRequest(m)
    case Some(q) => Some(q.body)
    case None => match ParseResponse(m) case Some(p) => Some(p.body) case None => None
  }

  /** Outcome of scanning SDP lines: `None` when an unreadable address ends the scan. */
  function ScanMedia<Ip>(lines: seq<string>, parseIp: string -> Option<Ip>, host: Ip, port: Option<nat>)
    : (r: Option<(Ip, Option<nat>)>)
  {
    if lines == [] then Some((host, port)) else
      var t := Trim(Rust, lines[0]);
      if "c=IN" <= t then
        var parts := Words(Rust, t);
        if |parts| < 3 then ScanMedia(lines[1..], parseIp, host, port)
        else match parseIp(parts[2])
          case None => None
          case Some(ip) => ScanMedia(lines[1..], parseIp, ip, port)
      else if "m=audio" <= t then
        ScanMedia(lines[1..], parseIp, host, AudioPort(t))
      else ScanMedia(lines[1..], parseIp, host, port)
  }

  function AudioPort(t: string): (r: Option<nat>) {
    var parts := Words(Rust, t);
    if |parts| < 2 then None else ParseU16(parts[1])
  }

  function MediaAddr<Ip>(m: string, parseIp: string -> Option<Ip>, fallback: Ip): (r: Option<(Ip, nat)>) {
    match MessageBody(m)
    case None => None
    case Some(body) =>
      match ScanMedia(Lines(body), parseIp, fallback, None)
      case Some((ip, Some(port))) => Some((ip, port))
      case _ => None
  }

  /** `extract_media_addr_from_sdp`: the last address line and the last audio line win. */
  method ExtractMediaAddr<Ip>(m: string, parseIp: string -> Option<Ip>, fallback: Ip) returns (r: Option<(Ip, nat)>)
    ensures r == MediaAddr(m, parseIp, fallback)
  {
    var body := MessageBody(m);
    if body.None? { return None; }
    var lines := Lines(body.value);
    var host, port: Option<nat> := fallback, None;
    var i := 0;
    while i < |lines|
      invariant 0 <= i <= |lines|
      invariant ScanMedia(lines, parseIp, fallback, None) == ScanMedia(lines[i..], parseIp, host, port)
    {
      assert lines[i..][1..] == lines[i + 1..];
      var t := Trim(Rust, lines[i]);
      if "c=IN" <= t {
        var parts := Words(Rust, t);
        if |parts| >= 3 {
          var ip := parseIp(parts[2]);
          if ip.None? { return None; }
          host := ip.value;
        }
      } else if "m=audio" <= t {
        port := AudioPort(t);
      }
      i := i + 1;
    }
    if port.None? { return None; }
    return Some((host, port.value));
  }

  /** `extract_uri_from_name_addr`: the text between the first `<` and the first `>`. */
  function UriOfNameAddr(v: string): (r: Option<string>) {
    match (Find(v, "<"), Find(v, ">"))
    case (Some(a), Some(b)) => if a + 1 <= b then Some(Trim(Rust, v[a + 1..b])) else None
    case _ => Some(Trim(Rust, v))
  }
}
