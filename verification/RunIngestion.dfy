/** Run input: uploads accepted in order under byte budgets, and the workflow text made of them. */
module RunIngestion {
  import opened Wrappers
  import opened Strings
  import opened Utf8
  import opened Chunking

  datatype Upload = Upload(fileName: string, contentType: string, bytes: seq<Byte>)

  /** What reading a file gives: no extractor for its type, or text and a warning, either of which may be absent. */
  datatype Extraction = Unsupported | Read(text: Option<string>, warning: Option<string>)

  datatype Limits = Limits(
    maxFiles: int, maxFileBytes: int, maxExtractedBytes: int, maxPastedBytes: int, maxWorkflowBytes: int,
    sidecar: bool, chunkSize: int, chunkOverlap: int)

  datatype FileRecord = FileRecord(fileName: string, contentType: string, fileBytes: nat, text: string,
                                   textBytes: nat, trimmed: bool)

  datatype Reason =
    | TooMany | EmptyFile | TooBig | WrongType | Unreadable(warning: string) | NoText | BudgetFull | NothingKept

  datatype Refusal = Refusal(fileName: string, contentType: string, reason: Reason)

  datatype Outcome = Kept(file: FileRecord) | Refused(refusal: Refusal) {
    function Bytes(): nat { if Kept? then file.textBytes else 0 }
  }

  function NonNegative(n: int): (r: nat) { if n < 0 then 0 else n }

  function NameOf(u: Upload): string { if u.fileName == "" then "untitled" else u.fileName }
  function TypeOf(u: Upload): string { if u.contentType == "" then "application/octet-stream" else u.contentType }

  function NormalText(value: Option<string>): (s: string) { if value.None? then "" else Trim(Python, value.value) }

  // ---- one upload -------------------------------------------------------------------

  function Refuse(u: Upload, reason: Reason): Outcome { Refused(Refusal(NameOf(u), TypeOf(u), reason)) }

  function Fit(u: Upload, text: string, left: nat): (o: Outcome) {
    var (kept, trimmed) := TrimPython(text, left);
    if kept.None? || kept.value == "" then Refuse(u, NothingKept)
    else Kept(FileRecord(NameOf(u), TypeOf(u), |u.bytes|, kept.value, Size(kept.value), trimmed))
  }

  /** What becomes of the upload at position `i` when `total` bytes have been kept before it. */
  function Decide(l: Limits, extract: Upload -> Extraction, u: Upload, i: nat, total: nat): (o: Outcome) {
    DecideRead(l, u, i, total, extract(u), TextOf(extract(u)))
  }

  /** The normalised text of what was read. */
  function TextOf(read: Extraction): (text: string) { if read.Read? then NormalText(read.text) else "" }

  function DecideRead(l: Limits, u: Upload, i: nat, total: nat, read: Extraction, text: string): (o: Outcome) {
    Gate(l, u, i, read, DecideText(u, text, NonNegative(l.maxExtractedBytes - total)))
  }

  /** The checks before an upload's text is looked at; `decided` is what becomes of it if it passes. */
  function Gate(l: Limits, u: Upload, i: nat, read: Extraction, decided: Outcome): (o: Outcome) {
    if i >= l.maxFiles then Refuse(u, TooMany)
    else if |u.bytes| == 0 then Refuse(u, EmptyFile)
    else if |u.bytes| > l.maxFileBytes then Refuse(u, TooBig)
    else if read.Unsupported? then Refuse(u, WrongType)
    else if read.warning.Some? && read.warning.value != "" then Refuse(u, Unreadable(read.warning.value))
    else decided
  }

  /** The same once the normalised text is known. */
  function DecideText(u: Upload, text: string, left: nat): (o: Outcome) {
    if text == "" then Refuse(u, NoText) else if left == 0 then Refuse(u, BudgetFull) else Fit(u, text, left)
  }

  /** `Decide` as the loop body takes it, branch by branch. */
  method DecideUpload(l: Limits, extract: Upload -> Extraction, u: Upload, i: nat, total: nat) returns (o: Outcome)
    ensures o == DeciderOf(l, extract)(u, i, total)
  {
    if i >= l.maxFiles { return Refuse(u, TooMany); }
    var size := |u.bytes|;
    if size == 0 { return Refuse(u, EmptyFile); }
    if size > l.maxFileBytes { return Refuse(u, TooBig); }
    var read := extract(u);
    if read.Unsupported? { return Refuse(u, WrongType); }
    if read.warning.Some? && read.warning.value != "" { return Refuse(u, Unreadable(read.warning.value)); }
    var text := NormalText(read.text);
    if text == "" { return Refuse(u, NoText); }
    var left := NonNegative(l.maxExtractedBytes - total);
    if left == 0 { return Refuse(u, BudgetFull); }
    var (kept, trimmed) := TrimPython(text, left);
    if kept.None? || kept.value == "" { return Refuse(u, NothingKept); }
    o := Kept(FileRecord(NameOf(u), TypeOf(u), size, kept.value, Size(kept.value), trimmed));
  }

  /** A decision on the upload at a position after so many kept bytes. */
  type Decider = (Upload, nat, nat) -> Outcome

  function DeciderOf(l: Limits, extract: Upload -> Extraction): (d: Decider) {
    (u, i: nat, total: nat) => Decide(l, extract, u, i, total)
  }

  /** What becomes of the first `n` uploads, each decided after the bytes kept before it. */
  function Outcomes(decide: Decider, files: seq<Upload>, n: nat): (os: seq<Outcome>)
    requires n <= |files|
    ensures |os| == n
  {
    if n == 0 then []
    else
      var before := Outcomes(decide, files, n - 1);
      before + [decide(files[n - 1], n - 1, TotalBytes(KeptIn(before)))]
  }

  function KeptIn(os: seq<Outcome>): (fs: seq<FileRecord>) {
    if os == [] then []
    else
      var o := os[|os| - 1];
      KeptIn(os[..|os| - 1]) + (if o.Kept? then [o.file] else [])
  }

  function RefusedIn(os: seq<Outcome>): (rs: seq<Refusal>) {
    if os == [] then []
    else
      var o := os[|os| - 1];
      RefusedIn(os[..|os| - 1]) + (if o.Refused? then [o.refusal] else [])
  }

  function TotalBytes(fs: seq<FileRecord>): (n: nat) {
    if fs == [] then 0 else TotalBytes(fs[..|fs| - 1]) + fs[|fs| - 1].textBytes
  }

  // ---- what is kept of one upload ---------------------------------------------------

  /** A text that starts with no space keeps something of it exactly when its first character fits. */
  lemma TrimOfText(text: string, left: nat)
    requires text != "" && !IsSpace(Python, text[0]) && left > 0
    ensures var (kept, trimmed) := TrimPython(text, left);
            && (kept.Some? <==> Width(text[0]) <= left)
            && trimmed == (Size(text) > left)
            && (kept.Some? ==> kept.value != "" && kept.value <= text && Size(kept.value) <= left)
            && (!trimmed ==> kept == Some(text))
            && (trimmed && kept.Some? ==> kept.value == TrimEnd(Python, Fitting(text, left)))
  {
    PythonKeepsFitting(text, left);
    FittingIsLongest(text, left);
    OneCharacter(text);
    var p := Fitting(text, left);
    SizeOfTrimmed(p);
    OffGrows(text, 1, |text|);
    if Width(text[0]) <= left { KeepsFirst(text, left, p); } else { FloorIs(text, left, 0); }
  }

  lemma OneCharacter(text: string)
    requires text != ""
    ensures Off(text, 1) == Width(text[0]) && Size(text[..1]) == Width(text[0])
  {
    assert Off(text, 0) == 0;
    SizeOfSlice(text, 0, 1);
    assert text[0..1] == text[..1];
  }

  lemma KeepsFirst(text: string, left: nat, p: string)
    requires text != "" && !IsSpace(Python, text[0]) && p == Fitting(text, left) && Width(text[0]) <= left
    ensures TrimEnd(Python, p) != ""
  {
    OneCharacter(text);
    FloorAbove(text, 1, left);
    DroppedAreSpaces(Python, p, |p|);
    assert p[0] == text[0];
  }

  lemma SizeOfTrimmed(p: string)
    ensures TrimEnd(Python, p) <= p && Size(TrimEnd(Python, p)) <= Size(p)
  {
    var k := DropSpaces(Python, p, |p|);
    SizeOfSlice(p, 0, k);
    assert p[0..k] == p[..k];
    OffGrows(p, k, |p|);
  }

  lemma TrimStartsClean(s: string)
    ensures Trim(Python, s) != "" ==> !IsSpace(Python, Trim(Python, s)[0])
  {
    var a, b := TrimCuts(Python, s);
  }

  /** An upload that reaches the budget: in range, of an acceptable size, and with text to keep. */
  predicate Readable(l: Limits, extract: Upload -> Extraction, u: Upload, i: nat) {
    Passes(l, u, i, extract(u)) && TextOf(extract(u)) != ""
  }

  predicate Passes(l: Limits, u: Upload, i: nat, read: Extraction) {
    && i < l.maxFiles && 0 < |u.bytes| <= l.maxFileBytes
    && read.Read? && (read.warning.None? || read.warning.value == "")
  }

  /**
    `o` keeps a non-empty prefix of `text` that fits, all of it unless marked as trimmed; it keeps
    nothing exactly when not even the first character fits.
   */
  ghost predicate KeepsPrefix(u: Upload, text: string, left: nat, o: Outcome)
    requires text != ""
  {
    && (o.Kept? <==> Width(text[0]) <= left)
    && (o.Kept? ==>
          && o.file.fileName == (if u.fileName == "" then "untitled" else u.fileName)
          && o.file.contentType == (if u.contentType == "" then "application/octet-stream" else u.contentType)
          && o.file.fileBytes == |u.bytes|
          && o.file.text != "" && o.file.text <= text
          && o.file.textBytes == Size(o.file.text) <= left
          && o.file.trimmed == (Size(text) > left)
          && (!o.file.trimmed ==> o.file.text == text))
  }

  lemma TextExactly(u: Upload, text: string, left: nat)
    requires text != "" && !IsSpace(Python, text[0])
    ensures KeepsPrefix(u, text, left, DecideText(u, text, left))
  {
    if left > 0 { TrimOfText(text, left); }
  }

  lemma GatePasses(l: Limits, u: Upload, i: nat, read: Extraction, decided: Outcome)
    ensures if Passes(l, u, i, read) then Gate(l, u, i, read, decided) == decided
            else Gate(l, u, i, read, decided).Refused?
  {
  }

  lemma BlankIsRefused(u: Upload, left: nat)
    ensures DecideText(u, "", left).Refused?
  {
  }

  lemma ReadExactly(l: Limits, u: Upload, i: nat, total: nat, read: Extraction, text: string)
    requires text != "" ==> !IsSpace(Python, text[0])
    ensures var o := DecideRead(l, u, i, total, read, text);
            if Passes(l, u, i, read) && text != ""
            then KeepsPrefix(u, text, NonNegative(l.maxExtractedBytes - total), o)
            else o.Refused?
  {
    var left := NonNegative(l.maxExtractedBytes - total);
    var decided := DecideText(u, text, left);
    if text == "" { BlankIsRefused(u, left); } else { TextExactly(u, text, left); }
    GatePasses(l, u, i, read, decided);
  }

  /** An upload that is not readable is refused; of a readable one, what fits is kept. */
  lemma KeptExactly(l: Limits, extract: Upload -> Extraction, u: Upload, i: nat, total: nat)
    ensures var o := Decide(l, extract, u, i, total);
            if Readable(l, extract, u, i)
            then KeepsPrefix(u, TextOf(extract(u)), NonNegative(l.maxExtractedBytes - total), o)
            else o.Refused?
  {
    TextStartsClean(extract(u));
    ReadExactly(l, u, i, total, extract(u), TextOf(extract(u)));
  }

  lemma TextStartsClean(read: Extraction)
    ensures TextOf(read) != "" ==> !IsSpace(Python, TextOf(read)[0])
  {
    if read.Read? && read.text.Some? { TrimStartsClean(read.text.value); }
  }

  /** Why an upload is refused: the first of the conditions that applies. */
  ghost predicate RefusedFor(l: Limits, u: Upload, i: nat, read: Extraction, left: nat, reason: Reason) {
    match reason
    case TooMany => i >= l.maxFiles
    case EmptyFile => i < l.maxFiles && u.bytes == []
    case TooBig => i < l.maxFiles && u.bytes != [] && |u.bytes| > l.maxFileBytes
    case WrongType => i < l.maxFiles && 0 < |u.bytes| <= l.maxFileBytes && read.Unsupported?
    case Unreadable(w) =>
      i < l.maxFiles && 0 < |u.bytes| <= l.maxFileBytes && read.Read? && read.warning == Some(w) && w != ""
    case NoText => Passes(l, u, i, read) && (read.text.None? || Trim(Python, read.text.value) == "")
    case BudgetFull => Passes(l, u, i, read) && TextOf(read) != "" && left == 0
    case NothingKept => Passes(l, u, i, read) && TextOf(read) != "" && 0 < left < Width(TextOf(read)[0])
  }

  /** A refusal names the upload and the reason that applies to it. */
  lemma RefusalIsExplained(l: Limits, extract: Upload -> Extraction, u: Upload, i: nat, total: nat)
    ensures var o := Decide(l, extract, u, i, total);
            o.Refused? ==>
              && o.refusal.fileName == (if u.fileName == "" then "untitled" else u.fileName)
              && o.refusal.contentType == (if u.contentType == "" then "application/octet-stream" else u.contentType)
              && RefusedFor(l, u, i, extract(u), NonNegative(l.maxExtractedBytes - total), o.refusal.reason)
  {
    KeptExactly(l, extract, u, i, total);
  }

  // ---- the whole list ---------------------------------------------------------------

  lemma TotalAppend(fs: seq<FileRecord>, f: FileRecord)
    ensures TotalBytes(fs + [f]) == TotalBytes(fs) + f.textBytes
  {
    assert (fs + [f])[..|fs|] == fs;
  }

  /** One more outcome adds to exactly one of the lists. */
  lemma ListsAppend(os: seq<Outcome>, o: Outcome)
    ensures KeptIn(os + [o]) == KeptIn(os) + (if o.Kept? then [o.file] else [])
    ensures RefusedIn(os + [o]) == RefusedIn(os) + (if o.Refused? then [o.refusal] else [])
    ensures TotalBytes(KeptIn(os + [o])) == TotalBytes(KeptIn(os)) + o.Bytes()
  {
    assert (os + [o])[..|os|] == os;
    assert KeptIn(os + [o]) == KeptIn(os) + (if o.Kept? then [o.file] else []);
    if o.Kept? { TotalAppend(KeptIn(os), o.file); } else { assert KeptIn(os) + [] == KeptIn(os); }
  }

  lemma OutcomesNext(decide: Decider, files: seq<Upload>, i: nat, total: nat, o: Outcome)
    requires i < |files| && total == TotalBytes(KeptIn(Outcomes(decide, files, i))) && o == decide(files[i], i, total)
    ensures var before, after := Outcomes(decide, files, i), Outcomes(decide, files, i + 1);
            && KeptIn(after) == KeptIn(before) + (if o.Kept? then [o.file] else [])
            && RefusedIn(after) == RefusedIn(before) + (if o.Refused? then [o.refusal] else [])
            && TotalBytes(KeptIn(after)) == total + o.Bytes()
  {
    ListsAppend(Outcomes(decide, files, i), o);
  }

  /** The upload loop: every upload ends in exactly one of the two lists, each in upload order. */
  method IngestFiles(l: Limits, extract: Upload -> Extraction, files: seq<Upload>)
    returns (accepted: seq<FileRecord>, rejected: seq<Refusal>)
    ensures accepted == KeptIn(Outcomes(DeciderOf(l, extract), files, |files|))
    ensures rejected == RefusedIn(Outcomes(DeciderOf(l, extract), files, |files|))
  {
    accepted, rejected := [], [];
    var total := 0;
    ghost var decide := DeciderOf(l, extract);
    for i := 0 to |files|
      invariant accepted == KeptIn(Outcomes(decide, files, i)) && rejected == RefusedIn(Outcomes(decide, files, i))
      invariant total == TotalBytes(accepted)
    {
      var o := DecideUpload(l, extract, files[i], i, total);
      OutcomesNext(decide, files, i, total, o);
      match o {
        case Kept(f) => accepted := accepted + [f];
        case Refused(r) => rejected := rejected + [r];
      }
      total := total + o.Bytes();
    }
  }

  /** Keeps only the first files, and of each no more than what is left. */
  ghost predicate Frugal(decide: Decider, l: Limits) {
    forall u, i: nat, total: nat :: decide(u, i, total).Kept? ==>
      i < l.maxFiles && decide(u, i, total).file.textBytes <= NonNegative(l.maxExtractedBytes - total)
  }

  lemma DeciderIsFrugal(l: Limits, extract: Upload -> Extraction)
    ensures Frugal(DeciderOf(l, extract), l)
  {
    forall u, i: nat, total: nat | DeciderOf(l, extract)(u, i, total).Kept?
      ensures i < l.maxFiles
      ensures DeciderOf(l, extract)(u, i, total).file.textBytes <= NonNegative(l.maxExtractedBytes - total)
    {
      KeptExactly(l, extract, u, i, total);
    }
  }

  /** The lists of the outcomes add up and stay within the limits. */
  ghost predicate Within(l: Limits, os: seq<Outcome>) {
    && |KeptIn(os)| + |RefusedIn(os)| == |os|
    && |KeptIn(os)| <= NonNegative(l.maxFiles) && |KeptIn(os)| <= |os|
    && TotalBytes(KeptIn(os)) <= NonNegative(l.maxExtractedBytes)
  }

  /** One more upload, decided frugally. */
  lemma OneMoreWithin(l: Limits, before: seq<Outcome>, total: nat, o: Outcome)
    requires Within(l, before) && total == TotalBytes(KeptIn(before))
    requires o.Kept? ==> |before| < l.maxFiles && o.file.textBytes <= NonNegative(l.maxExtractedBytes - total)
    ensures Within(l, before + [o])
  {
    ListsAppend(before, o);
  }

  lemma {:induction false} FrugalStaysWithin(decide: Decider, l: Limits, files: seq<Upload>, n: nat)
    requires Frugal(decide, l) && n <= |files|
    ensures Within(l, Outcomes(decide, files, n))
  {
    if n > 0 {
      FrugalStaysWithin(decide, l, files, n - 1);
      var before := Outcomes(decide, files, n - 1);
      var total := TotalBytes(KeptIn(before));
      OneMoreWithin(l, before, total, decide(files[n - 1], n - 1, total));
    }
  }

  /**
    For every list of uploads and every limits: accepted and rejected add up to the uploads, at most
    `maxFiles` are accepted, and their kept bytes stay within the budget.
   */
  lemma UploadsAreAccountedFor(l: Limits, extract: Upload -> Extraction, files: seq<Upload>)
    ensures var os := Outcomes(DeciderOf(l, extract), files, |files|);
            |os| == |files| && Within(l, os)
  {
    DeciderIsFrugal(l, extract);
    FrugalStaysWithin(DeciderOf(l, extract), l, files, |files|);
  }

  /** An upload's outcome depends only on it and on what was kept before it. */
  lemma {:induction false} OutcomeIsFinal(decide: Decider, files: seq<Upload>, i: nat, n: nat)
    requires i < n <= |files|
    ensures Outcomes(decide, files, n)[i] == decide(files[i], i, TotalBytes(KeptIn(Outcomes(decide, files, i))))
    decreases n
  {
    if i < n - 1 { OutcomeIsFinal(decide, files, i, n - 1); }
  }

  // ---- the workflow text ------------------------------------------------------------

  function SectionsOf(pasted: string, files: seq<FileRecord>): (ss: seq<string>) {
    (if pasted != "" then ["Pasted notes:\n" + pasted] else []) + FileSections(files)
  }

  function FileSections(files: seq<FileRecord>): (ss: seq<string>) {
    seq(|files|, i requires 0 <= i < |files| => "File: " + files[i].fileName + "\n" + files[i].text)
  }

  function JoinBlank(ss: seq<string>): (s: string) {
    if ss == [] then "" else if |ss| == 1 then ss[0] else ss[0] + "\n\n" + JoinBlank(ss[1..])
  }

  /** `analyze_text` of the sidecar; `None` when it cannot be reached or answers with an error. */
  function AnalyzeText(text: string, maxBytes: int, size: int, overlap: int, reachable: bool)
    : (r: Option<(string, bool)>)
  {
    if !reachable || maxBytes <= 0 || !ValidLimits(size, overlap) then None
    else Some(RustKeeps(Normalize(Rust, text), maxBytes))
  }

  /** The workflow text ("" for none) and whether it was trimmed; `None` when the sidecar fails. */
  function WorkflowText(l: Limits, pasted: string, files: seq<FileRecord>, reachable: bool)
    : (r: Option<(string, bool)>)
  {
    var sections := SectionsOf(pasted, files);
    if sections == [] then Some(("", false))
    else if l.sidecar then
      AnalyzeText(JoinBlank(sections), l.maxWorkflowBytes, l.chunkSize, l.chunkOverlap, reachable)
    else
      var (text, trimmed) := TrimPython(JoinBlank(sections), l.maxWorkflowBytes);
      Some((if text.None? then "" else text.value, trimmed))
  }

  /** The part is in the text at `at`, and a blank line follows unless the text ends there. */
  predicate PartAt(text: string, part: string, at: nat) {
    && MatchAt(text, part, at)
    && (at + |part| == |text| || MatchAt(text, "\n\n", at + |part|))
  }

  /** The parts are the text, in order, with blank lines between them. */
  ghost predicate InOrder(text: string, parts: seq<string>, at: seq<nat>) {
    && |at| == |parts| && (parts != [] ==> at[0] == 0)
    && (forall i :: 0 <= i < |parts| ==> PartAt(text, parts[i], at[i]))
    && (forall i :: 0 < i < |parts| ==> at[i] == at[i - 1] + |parts[i - 1]| + 2)
    && (parts != [] ==> at[|parts| - 1] + |parts[|parts| - 1]| == |text|)
  }

  lemma {:induction false} JoinedInOrder(parts: seq<string>) returns (at: seq<nat>)
    ensures InOrder(JoinBlank(parts), parts, at)
  {
    if parts == [] {
      at := [];
    } else if |parts| == 1 {
      at := [0];
      OnePart(parts[0]);
      assert parts == [parts[0]];
    } else {
      var rest := JoinedInOrder(parts[1..]);
      at := [0] + Behind(rest, |parts[0]| + 2);
      OneMoreInOrder(parts[0], parts[1..], JoinBlank(parts[1..]), rest, at);
      assert parts == [parts[0]] + parts[1..];
    }
  }

  function Behind(at: seq<nat>, d: nat): (r: seq<nat>)
    ensures |r| == |at| && forall i :: 0 <= i < |at| ==> r[i] == at[i] + d
  {
    seq(|at|, i requires 0 <= i < |at| => at[i] + d)
  }

  lemma OnePart(part: string)
    ensures InOrder(part, [part], [0])
  {
    assert part[0..|part|] == part;
  }

  lemma OneMoreInOrder(part: string, parts: seq<string>, text: string, rest: seq<nat>, at: seq<nat>)
    requires parts != [] && InOrder(text, parts, rest)
    requires |at| == |rest| + 1 && at[0] == 0 && forall i :: 0 <= i < |rest| ==> at[i + 1] == rest[i] + |part| + 2
    ensures InOrder(part + "\n\n" + text, [part] + parts, at)
  {
    var all := part + "\n\n" + text;
    FirstPart(part, text);
    forall i | 0 <= i < |parts| ensures PartAt(all, parts[i], rest[i] + |part| + 2) {
      PartShifts(part + "\n\n", text, parts[i], rest[i]);
    }
    OneMore(part, parts, rest, at, (x, i: nat) => PartAt(all, x, i));
  }

  lemma OneMore(part: string, parts: seq<string>, rest: seq<nat>, at: seq<nat>, found: (string, nat) -> bool)
    requires parts != [] && |rest| == |parts| && rest[0] == 0
    requires forall i :: 0 < i < |parts| ==> rest[i] == rest[i - 1] + |parts[i - 1]| + 2
    requires |at| == |rest| + 1 && at[0] == 0 && forall i :: 0 <= i < |rest| ==> at[i + 1] == rest[i] + |part| + 2
    requires found(part, 0) && forall i :: 0 <= i < |parts| ==> found(parts[i], rest[i] + |part| + 2)
    ensures var ps := [part] + parts;
            && (forall i :: 0 <= i < |ps| ==> found(ps[i], at[i]))
            && (forall i :: 0 < i < |ps| ==> at[i] == at[i - 1] + |ps[i - 1]| + 2)
            && at[|ps| - 1] + |ps[|ps| - 1]| == rest[|parts| - 1] + |parts[|parts| - 1]| + |part| + 2
  {
    var ps := [part] + parts;
    forall i | 0 <= i < |ps| ensures found(ps[i], at[i]) {
      if i > 0 { assert ps[i] == parts[i - 1] && at[i] == rest[i - 1] + |part| + 2; }
    }
    forall i | 0 < i < |ps| ensures at[i] == at[i - 1] + |ps[i - 1]| + 2 {
      assert at[i] == rest[i - 1] + |part| + 2;
      if i > 1 { assert rest[i - 1] == rest[i - 2] + |parts[i - 2]| + 2 && at[i - 1] == rest[i - 2] + |part| + 2; }
    }
  }

  lemma FirstPart(part: string, text: string)
    ensures PartAt(part + "\n\n" + text, part, 0)
  {
    var all := part + "\n\n" + text;
    assert all[0..|part|] == part && all[|part|..|part| + 2] == "\n\n";
  }

  lemma PartShifts(head: string, text: string, part: string, at: nat)
    requires PartAt(text, part, at)
    ensures PartAt(head + text, part, |head| + at)
  {
    ShiftMatch(head, text, part, at);
    ShiftMatch(head, text, "\n\n", at + |part|);
  }

  /**
    The workflow text before it is trimmed: the notes, if there are any, then every file that was kept,
    in order, each under its heading and with its whole text, and nothing else.
   */
  lemma EverySectionOccurs(pasted: string, files: seq<FileRecord>) returns (parts: seq<string>, at: seq<nat>)
    ensures InOrder(JoinBlank(SectionsOf(pasted, files)), parts, at)
    ensures var notes := if pasted == "" then 0 else 1;
            && |parts| == notes + |files|
            && (pasted != "" ==> parts[0] == "Pasted notes:\n" + pasted)
            && forall i :: 0 <= i < |files| ==> parts[notes + i] == "File: " + files[i].fileName + "\n" + files[i].text
  {
    parts := SectionsOf(pasted, files);
    at := JoinedInOrder(parts);
  }

  lemma RustKeepsFits(s: string, budget: nat)
    ensures RustKeeps(s, budget).0 <= s && Size(RustKeeps(s, budget).0) <= budget
    ensures RustKeeps(s, budget).1 == (Size(s) > budget)
  {
    FittingIsLongest(s, budget);
    var p := Fitting(s, budget);
    var k := DropSpaces(Rust, p, |p|);
    SizeOfSlice(p, 0, k);
    assert p[0..k] == p[..k];
    OffGrows(p, k, |p|);
  }

  /**
    On either path the workflow text is a prefix of its source within the limit; the sidecar fails
    exactly when it cannot be reached or refuses the limits, and is not asked when there is no text.
   */
  lemma WorkflowFits(l: Limits, pasted: string, files: seq<FileRecord>, reachable: bool)
    ensures var r := WorkflowText(l, pasted, files, reachable);
            var combined := JoinBlank(SectionsOf(pasted, files));
            var source := if l.sidecar then Normalize(Rust, combined) else combined;
            && (r.None? <==> && l.sidecar && (pasted != "" || files != [])
                             && (!reachable || l.maxWorkflowBytes <= 0 || !ValidLimits(l.chunkSize, l.chunkOverlap)))
            && (r.Some? ==> r.value.0 <= source && Size(r.value.0) <= NonNegative(l.maxWorkflowBytes))
            && (r.Some? && (pasted != "" || files != []) && l.maxWorkflowBytes > 0 ==>
                  r.value.1 == (Size(source) > l.maxWorkflowBytes) && (!r.value.1 ==> r.value.0 == source))
  {
    var sections := SectionsOf(pasted, files);
    assert |FileSections(files)| == |files|;
    assert sections == [] <==> pasted == "" && files == [];
    if sections != [] {
      var combined := JoinBlank(sections);
      if l.sidecar {
        if l.maxWorkflowBytes > 0 { RustKeepsFits(Normalize(Rust, combined), l.maxWorkflowBytes); }
      } else if l.maxWorkflowBytes > 0 {
        PythonFits(combined, l.maxWorkflowBytes);
      }
    }
  }

  lemma PythonFits(s: string, budget: nat)
    requires budget > 0
    ensures var (kept, trimmed) := TrimPython(s, budget);
            && (kept.Some? ==> kept.value <= s && Size(kept.value) <= budget)
            && trimmed == (Size(s) > budget) && (!trimmed ==> kept == Some(s))
  {
    PythonKeepsFitting(s, budget);
    FittingIsLongest(s, budget);
    SizeOfTrimmed(Fitting(s, budget));
  }

  // ---- the two paths write different texts ------------------------------------------

  lemma {:induction false} JoinedHasNoNewline(ws: seq<string>)
    requires forall w :: w in ws ==> NoSpace(Rust, w)
    ensures NoChar('\n', JoinSpace(ws))
  {
    if ws != [] {
      assert ws[0] in ws && IsSpace(Rust, '\n');
      assert NoChar('\n', ws[0]);
      if |ws| > 1 {
        var rest := JoinSpace(ws[1..]);
        JoinedHasNoNewline(ws[1..]);
        assert NoChar('\n', ws[0] + " " + rest);
      }
    }
  }

  lemma NormalizedHasNoNewline(s: string)
    ensures NoChar('\n', Normalize(Rust, s))
  {
    WordsAreWords(Rust, "", s);
    JoinedHasNoNewline(Words(Rust, s));
  }

  /**
    Whenever the Python path keeps everything, it and the sidecar produce different texts: only the
    first has line breaks.
   */
  lemma PathsDiffer(l: Limits, pasted: string, files: seq<FileRecord>, reachable: bool)
    requires (pasted != "" || files != []) && !l.sidecar && ValidLimits(l.chunkSize, l.chunkOverlap)
    requires 0 < l.maxWorkflowBytes && Size(JoinBlank(SectionsOf(pasted, files))) <= l.maxWorkflowBytes
    ensures var python := WorkflowText(l, pasted, files, reachable);
            var rust := WorkflowText(l.(sidecar := true), pasted, files, true);
            python.Some? && rust.Some? && !NoChar('\n', python.value.0) && NoChar('\n', rust.value.0)
  {
    var sections := SectionsOf(pasted, files);
    WorkflowFits(l, pasted, files, reachable);
    WorkflowFits(l.(sidecar := true), pasted, files, true);
    var combined := JoinBlank(sections);
    NormalizedHasNoNewline(combined);
    assert |FileSections(files)| == |files|;
    FirstSectionBreaks(pasted, files);
    assert sections[0] <= combined;
  }

  lemma FirstSectionBreaks(pasted: string, files: seq<FileRecord>)
    requires pasted != "" || files != []
    ensures SectionsOf(pasted, files) != [] && !NoChar('\n', SectionsOf(pasted, files)[0])
  {
    var ss := SectionsOf(pasted, files);
    if pasted != "" {
      assert ss[0] == "Pasted notes:\n" + pasted;
      assert ss[0][13] == '\n';
    } else {
      var name := files[0].fileName;
      assert ss[0] == "File: " + name + "\n" + files[0].text;
      assert ss[0][6 + |name|] == '\n';
    }
  }

  // ---- the whole call ---------------------------------------------------------------

  datatype SourceKind = MixedInput | PastedText | FileUpload

  datatype Ingested = Ingested(pasted: string, text: string, files: seq<FileRecord>, rejected: seq<Refusal>,
                               warnings: nat, kind: SourceKind)

  function StoredPasted(l: Limits, pasted: Option<string>): (r: (string, bool)) {
    var normal := NormalText(pasted);
    if Size(normal) > l.maxPastedBytes && normal != "" then
      var (kept, trimmed) := TrimPython(normal, l.maxPastedBytes);
      (if kept.None? then "" else kept.value, trimmed)
    else (normal, false)
  }

  lemma PastedFits(l: Limits, pasted: Option<string>)
    ensures var (stored, trimmed) := StoredPasted(l, pasted);
            && stored <= NormalText(pasted) && Size(stored) <= NonNegative(l.maxPastedBytes)
            && (trimmed <==> stored != NormalText(pasted))
  {
    var normal := NormalText(pasted);
    if l.maxPastedBytes > 0 {
      PythonFits(normal, l.maxPastedBytes);
    } else if normal == "" {
      assert Size(normal) == 0;
    }
  }

  function Flag(b: bool): nat { if b then 1 else 0 }

  function TrimmedFiles(fs: seq<FileRecord>): (n: nat) {
    if fs == [] then 0 else Flag(fs[0].trimmed) + TrimmedFiles(fs[1..])
  }

  /** `ingest_run_input`; `None` when the sidecar's failure propagates. */
  method IngestRunInput(l: Limits, extract: Upload -> Extraction, pasted: Option<string>, files: seq<Upload>,
                        reachable: bool)
    returns (r: Option<Ingested>)
    ensures var os := Outcomes(DeciderOf(l, extract), files, |files|);
            && r.Some? == WorkflowText(l, StoredPasted(l, pasted).0, KeptIn(os), reachable).Some?
            && (r.Some? ==>
                  && r.value.files == KeptIn(os) && r.value.rejected == RefusedIn(os)
                  && r.value.pasted == StoredPasted(l, pasted).0
                  && r.value.text == WorkflowText(l, r.value.pasted, r.value.files, reachable).value.0
                  && r.value.warnings == Flag(StoredPasted(l, pasted).1) + TrimmedFiles(KeptIn(os))
                                         + Flag(WorkflowText(l, r.value.pasted, r.value.files, reachable).value.1)
                  && (r.value.kind == PastedText <==> r.value.pasted != "" && r.value.files == [])
                  && (r.value.kind == FileUpload <==> r.value.pasted == "" && r.value.files != []))
    ensures r.Some? ==>
      && |r.value.files| + |r.value.rejected| == |files|
      && TotalBytes(r.value.files) <= NonNegative(l.maxExtractedBytes)
      && Size(r.value.text) <= NonNegative(l.maxWorkflowBytes)
  {
    var (stored, pastedTrimmed) := StoredPasted(l, pasted);
    var accepted, rejected := IngestFiles(l, extract, files);
    UploadsAreAccountedFor(l, extract, files);
    WorkflowFits(l, stored, accepted, reachable);
    var text := WorkflowText(l, stored, accepted, reachable);
    if text.None? { return None; }
    var warnings := Flag(pastedTrimmed) + TrimmedFiles(accepted) + Flag(text.value.1);
    var kind := MixedInput;
    if stored != "" && accepted == [] {
      kind := PastedText;
    } else if accepted != [] && stored == "" {
      kind := FileUpload;
    }
    r := Some(Ingested(stored, text.value.0, accepted, rejected, warnings, kind));
  }
}
