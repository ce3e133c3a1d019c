/** SMS threads: permanent opt-out and a limit on generated replies, with handlers that overlap. */
module SmsThreads {
  import opened Wrappers
  import opened Strings

  const REPLY_LIMIT: nat := 2

  const OPT_OUT_CONFIRMATION := "Understood - we won't send future messages to this number."
  const LIMIT_MESSAGE := "This SMS thread is limited for the demo. Please return to the app for the full run details."
  const FALLBACK_MESSAGE := "Thanks for the reply. I could not generate a useful SMS answer right now; "
                            + "please return to the app for the run details."
  const OPT_OUT_WORDS := {"stop", "stopall", "unsubscribe", "cancel", "end", "quit"}

  /** Unicode tables of the runtime: which characters are decimal digits, and lower case. */
  datatype Tables = Tables(digit: char -> bool, lower: string -> string) {
    predicate Valid() { digit('1') && !digit('+') }
  }

  /** What the handlers use of the above. */
  datatype Rules = Rules(
    normalize: string -> Option<string>, optOutWord: string -> bool,
    confirmation: string, limitNotice: string, fallback: string)
  {
    /** A normalised number normalises to itself. */
    ghost predicate Valid() {
      forall phone :: normalize(phone).Some? ==> normalize(normalize(phone).value) == normalize(phone)
    }
  }

  function RulesOf(t: Tables): (u: Rules) {
    Rules(phone => Normalize(t, phone), body => Only(c => 'a' <= c <= 'z', t.lower(body)) in OPT_OUT_WORDS,
          OPT_OUT_CONFIRMATION, LIMIT_MESSAGE, FALLBACK_MESSAGE)
  }

  lemma RulesAreValid(t: Tables)
    requires t.Valid()
    ensures RulesOf(t).Valid()
  {
    forall phone | Normalize(t, phone).Some? ensures Normalize(t, Normalize(t, phone).value) == Normalize(t, phone) {
      NormalizeIdempotent(t, phone);
    }
  }

  // ---- phone numbers ----------------------------------------------------------------

  function Only(keep: char -> bool, s: string): (r: string) {
    if s == "" then "" else (if keep(s[0]) then [s[0]] else "") + Only(keep, s[1..])
  }

  function NormalDigits(digits: string): (r: Option<string>) {
    var ten := if |digits| == 11 && digits[0] == '1' then digits[1..] else digits;
    if |ten| != 10 || ten[0] in {'0', '1'} || ten[3] in {'0', '1'} then None else Some("+1" + ten)
  }

  /** `_normalize_us_phone`. */
  function Normalize(t: Tables, phone: string): (r: Option<string>) {
    if Trim(Python, phone) == "" then None else NormalDigits(Only(t.digit, phone))
  }

  lemma {:induction false} OnlyOfKept(keep: char -> bool, s: string)
    requires forall i :: 0 <= i < |s| ==> keep(s[i])
    ensures Only(keep, s) == s
  {
    if s != "" { OnlyOfKept(keep, s[1..]); }
  }

  lemma {:induction false} OnlyKeeps(keep: char -> bool, s: string)
    ensures forall i :: 0 <= i < |Only(keep, s)| ==> keep(Only(keep, s)[i])
  {
    if s != "" { OnlyKeeps(keep, s[1..]); }
  }

  lemma NotBlank(s: string, i: nat)
    requires i < |s| && !IsSpace(Python, s[i])
    ensures Trim(Python, s) != ""
  {
    var a, b := TrimCuts(Python, s);
  }

  lemma IdempotentOnDigits(keep: char -> bool, ten: string)
    requires keep('1') && !keep('+') && |ten| == 10 && forall i :: 0 <= i < |ten| ==> keep(ten[i])
    ensures Trim(Python, "+1" + ten) != "" && Only(keep, "+1" + ten) == ['1'] + ten
  {
    var normal, rest := "+1" + ten, ['1'] + ten;
    NotBlank(normal, 0);
    assert normal[1..] == rest;
    OnlyOfKept(keep, rest);
  }

  /** A normalised number normalises to itself. */
  lemma NormalizeIdempotent(t: Tables, phone: string)
    requires t.Valid() && Normalize(t, phone).Some?
    ensures Normalize(t, Normalize(t, phone).value) == Normalize(t, phone)
  {
    var digits := Only(t.digit, phone);
    OnlyKeeps(t.digit, phone);
    var ten := if |digits| == 11 && digits[0] == '1' then digits[1..] else digits;
    IdempotentOnDigits(t.digit, ten);
    assert (['1'] + ten)[1..] == ten;
  }

  /** Ten digits, or eleven that begin with 1; neither the area code nor the exchange begins with 0 or 1. */
  predicate UsNumber(digits: string) {
    && (|digits| == 10 || (|digits| == 11 && digits[0] == '1'))
    && digits[|digits| - 10] !in {'0', '1'} && digits[|digits| - 7] !in {'0', '1'}
  }

  /** A text that is not blank is a number exactly when its digits are, and then it is +1 and the last ten of them. */
  lemma NormalizeIs(t: Tables, phone: string)
    ensures var ds := Only(t.digit, phone);
            && (Normalize(t, phone).Some? <==> Trim(Python, phone) != "" && UsNumber(ds))
            && (Normalize(t, phone).Some? ==> Normalize(t, phone).value == "+1" + ds[|ds| - 10..])
  {
    DigitsAreNormal(Only(t.digit, phone));
  }

  lemma DigitsAreNormal(ds: string)
    ensures NormalDigits(ds).Some? <==> UsNumber(ds)
    ensures UsNumber(ds) ==> NormalDigits(ds) == Some("+1" + ds[|ds| - 10..])
  {
    if |ds| == 10 {
      assert ds[0..] == ds;
    } else if |ds| == 11 {
      assert ds[1..][0] == ds[1] && ds[1..][3] == ds[4];
    }
  }

  // ---- rows -------------------------------------------------------------------------

  datatype Conversation = Conversation(phone: string, run: Option<nat>, replies: nat)

  datatype Kind = Inbound | Skipped | Completion | Confirmation | Reply | LimitNotice

  datatype Message = Message(conversation: Option<nat>, run: Option<nat>, phone: string, body: string, kind: Kind,
                             status: string) {
    /** Whether the provider was asked to send it. */
    predicate Sent() { kind != Inbound && kind != Skipped }
  }

  /** Conversation ids are positions, so the latest is the last. */
  datatype Db = Db(optOuts: set<string>, conversations: seq<Conversation>, messages: seq<Message>)

  function Latest(cs: seq<Conversation>, phone: string, run: Option<nat>): (r: Option<nat>)
    ensures r.Some? ==> r.value < |cs| && cs[r.value].phone == phone && (run.Some? ==> cs[r.value].run == run)
    ensures r.Some? ==> forall i :: r.value < i < |cs| ==> cs[i].phone != phone || (run.Some? && cs[i].run != run)
    ensures r.None? ==> forall i :: 0 <= i < |cs| ==> cs[i].phone != phone || (run.Some? && cs[i].run != run)
  {
    if cs == [] then None
    else
      var last := cs[|cs| - 1];
      if last.phone == phone && (run.None? || last.run == run) then Some(|cs| - 1)
      else Latest(cs[..|cs| - 1], phone, run)
  }

  function GetOrCreate(db: Db, phone: string, run: Option<nat>): (r: (Db, nat))
    ensures r.1 < |r.0.conversations| && r.0.conversations[r.1].phone == phone
    ensures db.conversations <= r.0.conversations && |r.0.conversations| <= |db.conversations| + 1
    ensures r.0.optOuts == db.optOuts && r.0.messages == db.messages
    ensures |db.conversations| < |r.0.conversations| ==>
              r.0.conversations[|db.conversations|] == Conversation(phone, run, 0)
  {
    match Latest(db.conversations, phone, run)
    case Some(i) => (db, i)
    case None => (db.(conversations := db.conversations + [Conversation(phone, run, 0)]), |db.conversations|)
  }

  function Log(db: Db, m: Message): (r: Db) { db.(messages := db.messages + [m]) }

  function IsOptedOut(u: Rules, db: Db, phone: string): bool {
    u.normalize(phone).Some? && u.normalize(phone).value in db.optOuts
  }

  /** Asking the provider: a failure only shows in the row's status. */
  function Send(db: Db, c: nat, phone: string, body: string, kind: Kind, run: Option<nat>,
                status: Option<string>): (r: Db) {
    Log(db, Message(Some(c), run, phone, body, kind, if status.None? then "failed" else status.value))
  }

  // ---- handlers, cut where they await -----------------------------------------------

  /** `Generating` remembers the reply count that was read before the await. */
  datatype Phase = Classifying | Generating(read: nat)

  datatype Handler = Handler(phone: string, conversation: nat, body: string, phase: Phase)

  datatype System = System(db: Db, handlers: map<nat, Handler>)

  /** `status` is the provider's answer, `None` for a failed send. */
  datatype Event =
    | Arrive(h: nat, from: string, body: string)
    | Classified(h: nat, verdict: Option<bool>, status: Option<string>)
    | Generated(h: nat, reply: Option<string>, status: Option<string>)
    | RunCompleted(run: nat, completed: bool, wants: bool, phone: string, text: string, enabled: bool,
                   status: Option<string>)

  predicate IsOptOut(u: Rules, body: string, verdict: Option<bool>) {
    u.optOutWord(body) || verdict == Some(true)
  }

  function OnArrive(u: Rules, s: System, h: nat, from: string, body: string): (r: System) {
    match u.normalize(from)
    case None => s
    case Some(phone) =>
      var (db, c) := GetOrCreate(s.db, phone, None);
      System(Log(db, Message(Some(c), db.conversations[c].run, phone, body, Inbound, "received")),
             s.handlers[h := Handler(phone, c, body, Classifying)])
  }

  function RunOf(db: Db, c: nat): (run: Option<nat>) {
    if c < |db.conversations| then db.conversations[c].run else None
  }

  function Replies(db: Db, c: nat): (n: nat) { if c < |db.conversations| then db.conversations[c].replies else 0 }

  function OptOut(u: Rules, db: Db, phone: string): (r: Db) {
    match u.normalize(phone) case None => db case Some(p) => db.(optOuts := db.optOuts + {p})
  }

  function OnClassified(u: Rules, s: System, h: nat, hd: Handler, verdict: Option<bool>,
                        status: Option<string>): (r: System) {
    var done := s.handlers - {h};
    var run := RunOf(s.db, hd.conversation);
    if IsOptOut(u, hd.body, verdict) then
      System(Send(OptOut(u, s.db, hd.phone), hd.conversation, hd.phone, u.confirmation, Confirmation, run, status),
             done)
    else if IsOptedOut(u, s.db, hd.phone) then System(s.db, done)
    else if Replies(s.db, hd.conversation) < REPLY_LIMIT then
      System(s.db, s.handlers[h := hd.(phase := Generating(Replies(s.db, hd.conversation)))])
    else System(Send(s.db, hd.conversation, hd.phone, u.limitNotice, LimitNotice, run, status), done)
  }

  function SetReplies(db: Db, c: nat, n: nat): (r: Db) {
    if c < |db.conversations| then db.(conversations := db.conversations[c := db.conversations[c].(replies := n)])
    else db
  }

  function OnGenerated(u: Rules, s: System, h: nat, hd: Handler, read: nat, reply: Option<string>,
                       status: Option<string>): (r: System) {
    var text := if reply.None? || reply.value == "" then u.fallback else reply.value;
    System(Send(SetReplies(s.db, hd.conversation, read + 1), hd.conversation, hd.phone, text, Reply,
                RunOf(s.db, hd.conversation), status),
           s.handlers - {h})
  }

  /** `maybe_send_completion_notification`. */
  function OnCompleted(u: Rules, db: Db, run: nat, phone: string, text: string, status: Option<string>): (r: Db) {
    match u.normalize(phone)
    case None => Log(db, Message(None, Some(run), phone, "", Skipped, "skipped_invalid_phone"))
    case Some(p) =>
      if IsOptedOut(u, db, p) then Log(db, Message(None, Some(run), p, "", Skipped, "skipped_opted_out"))
      else
        var (db1, c) := GetOrCreate(db, p, Some(run));
        Send(db1, c, p, text, Completion, Some(run), status)
  }

  function Step(u: Rules, s: System, e: Event): (r: System) {
    match e
    case Arrive(h, from, body) => if h in s.handlers then s else OnArrive(u, s, h, from, body)
    case Classified(h, verdict, status) =>
      if h in s.handlers && s.handlers[h].phase.Classifying?
      then OnClassified(u, s, h, s.handlers[h], verdict, status) else s
    case Generated(h, reply, status) =>
      if h in s.handlers && s.handlers[h].phase.Generating?
      then OnGenerated(u, s, h, s.handlers[h], s.handlers[h].phase.read, reply, status) else s
    case RunCompleted(run, completed, wants, phone, text, enabled, status) =>
      if enabled && completed && wants && phone != "" then s.(db := OnCompleted(u, s.db, run, phone, text, status))
      else s
  }

  function Run(u: Rules, s: System, es: seq<Event>): (r: System)
    decreases |es|
  {
    if es == [] then s else Run(u, Step(u, s, es[0]), es[1..])
  }

  function Init(): System { System(Db({}, [], []), map[]) }

  // ---- opting out -------------------------------------------------------------------

  ghost predicate Normal(u: Rules, phone: string) { u.normalize(phone) == Some(phone) }

  /** Handlers work on normalised numbers and on a conversation of their number. */
  ghost predicate WellFormed(u: Rules, s: System) {
    forall h :: h in s.handlers ==>
      var hd := s.handlers[h];
      Normal(u, hd.phone) && hd.conversation < |s.db.conversations|
      && s.db.conversations[hd.conversation].phone == hd.phone
  }

  /** `r` keeps the opt-outs and the messages of `s`, adds at most one message, and is well formed. */
  ghost predicate GrowsInto(u: Rules, s: System, r: System) {
    && WellFormed(u, r) && s.db.optOuts <= r.db.optOuts
    && s.db.messages <= r.db.messages && |r.db.messages| <= |s.db.messages| + 1
  }

  lemma ArriveWellFormed(u: Rules, s: System, h: nat, from: string, body: string)
    requires u.Valid() && WellFormed(u, s)
    ensures GrowsInto(u, s, OnArrive(u, s, h, from, body))
  {
    assert u.normalize(from).Some? ==> Normal(u, u.normalize(from).value);
  }

  lemma ClassifiedWellFormed(u: Rules, s: System, h: nat, verdict: Option<bool>, status: Option<string>)
    requires WellFormed(u, s) && h in s.handlers
    ensures GrowsInto(u, s, OnClassified(u, s, h, s.handlers[h], verdict, status))
  {
  }

  lemma GeneratedWellFormed(u: Rules, s: System, h: nat, read: nat, reply: Option<string>, status: Option<string>)
    requires WellFormed(u, s) && h in s.handlers
    ensures GrowsInto(u, s, OnGenerated(u, s, h, s.handlers[h], read, reply, status))
  {
  }

  lemma CompletedWellFormed(u: Rules, s: System, run: nat, phone: string, text: string, status: Option<string>)
    requires WellFormed(u, s)
    ensures GrowsInto(u, s, s.(db := OnCompleted(u, s.db, run, phone, text, status)))
  {
  }

  lemma StepWellFormed(u: Rules, s: System, e: Event)
    requires u.Valid() && WellFormed(u, s)
    ensures GrowsInto(u, s, Step(u, s, e))
  {
    match e
    case Arrive(h, from, body) => ArriveWellFormed(u, s, h, from, body);
    case Classified(h, verdict, status) => if h in s.handlers { ClassifiedWellFormed(u, s, h, verdict, status); }
    case Generated(h, reply, status) =>
      if h in s.handlers && s.handlers[h].phase.Generating? {
        GeneratedWellFormed(u, s, h, s.handlers[h].phase.read, reply, status);
      }
    case RunCompleted(run, _, _, phone, text, _, status) => CompletedWellFormed(u, s, run, phone, text, status);
  }

  /** A generated reply whose number opted out while it was being written. */
  predicate LateReply(s: System, e: Event) {
    && e.Generated? && e.h in s.handlers && s.handlers[e.h].phase.Generating?
    && s.handlers[e.h].phone in s.db.optOuts
  }

  /** `m`, logged by `e`, is the confirmation of an opt-out message just received from that number. */
  predicate Confirms(u: Rules, s: System, e: Event, m: Message) {
    && m.kind == Confirmation && m.body == u.confirmation
    && e.Classified? && e.h in s.handlers && s.handlers[e.h].phone == m.phone
       && IsOptOut(u, s.handlers[e.h].body, e.verdict)
  }

  /** What `e` sends to `phone` in any of its spellings. */
  predicate Sends(u: Rules, s: System, e: Event, phone: string) {
    var r := Step(u, s, e);
    |r.db.messages| > |s.db.messages| && r.db.messages[|r.db.messages| - 1].Sent()
    && u.normalize(r.db.messages[|r.db.messages| - 1].phone) == Some(phone)
  }

  /**
    In every state, a step sends an opted-out number something other than a due confirmation
    exactly when it is a late reply.
   */
  lemma StepHonoursOptOut(u: Rules, s: System, e: Event, phone: string)
    requires u.Valid() && WellFormed(u, s) && phone in s.db.optOuts && Sends(u, s, e, phone)
    ensures var r := Step(u, s, e); !Confirms(u, s, e, r.db.messages[|r.db.messages| - 1]) <==> LateReply(s, e)
  {
    match e
    case Arrive(_, _, _) =>
    case Classified(h, _, _) => assert Normal(u, s.handlers[h].phone);
    case Generated(h, _, _) => assert Normal(u, s.handlers[h].phone);
    case RunCompleted(_, _, _, _, _, _, _) =>
  }

  // ---- counting the replies ---------------------------------------------------------

  function RepliesSent(ms: seq<Message>, c: nat): (n: nat) {
    if ms == [] then 0
    else
      var m := ms[|ms| - 1];
      RepliesSent(ms[..|ms| - 1], c) + (if m.kind == Reply && m.conversation == Some(c) then 1 else 0)
  }

  lemma RepliesOfLog(db: Db, m: Message, c: nat)
    ensures RepliesSent(Log(db, m).messages, c) ==
            RepliesSent(db.messages, c) + (if m.kind == Reply && m.conversation == Some(c) then 1 else 0)
  {
    assert (db.messages + [m])[..|db.messages|] == db.messages;
  }

  ghost predicate CountedIn(db: Db, c: nat) {
    RepliesSent(db.messages, c) == Replies(db, c) && Replies(db, c) <= REPLY_LIMIT
  }

  /** The stored count of a conversation is the number of generated replies sent in it, at most the limit. */
  ghost predicate Counted(db: Db) { forall c: nat :: CountedIn(db, c) }

  /** A handler that is generating read a count below the limit. */
  ghost predicate ReadsBounded(s: System) {
    forall h :: h in s.handlers && s.handlers[h].phase.Generating? ==> s.handlers[h].phase.read < REPLY_LIMIT
  }

  lemma StepReadsBounded(u: Rules, s: System, e: Event)
    requires ReadsBounded(s)
    ensures ReadsBounded(Step(u, s, e))
  {
  }

  lemma LogCounted(db: Db, m: Message)
    requires Counted(db) && m.kind != Reply
    ensures Counted(Log(db, m))
  {
    forall c: nat ensures CountedIn(Log(db, m), c) {
      assert CountedIn(db, c);
      RepliesOfLog(db, m, c);
    }
  }

  lemma CreateCounted(db: Db, phone: string, run: Option<nat>)
    requires Counted(db)
    ensures Counted(GetOrCreate(db, phone, run).0)
    ensures forall c: nat :: Replies(GetOrCreate(db, phone, run).0, c) == Replies(db, c)
  {
    var r := GetOrCreate(db, phone, run).0;
    forall c: nat ensures Replies(r, c) == Replies(db, c) && CountedIn(r, c) { assert CountedIn(db, c); }
  }

  lemma ArriveCounted(u: Rules, s: System, h: nat, from: string, body: string)
    requires Counted(s.db)
    ensures var r := OnArrive(u, s, h, from, body);
            Counted(r.db) && forall c: nat :: Replies(r.db, c) == Replies(s.db, c)
  {
    if u.normalize(from).Some? {
      var phone := u.normalize(from).value;
      CreateCounted(s.db, phone, None);
      var (db, c) := GetOrCreate(s.db, phone, None);
      LogCounted(db, Message(Some(c), db.conversations[c].run, phone, body, Inbound, "received"));
    }
  }

  lemma OptOutCounted(u: Rules, db: Db, phone: string)
    requires Counted(db)
    ensures Counted(OptOut(u, db, phone)) && forall c: nat :: Replies(OptOut(u, db, phone), c) == Replies(db, c)
  {
    var r := OptOut(u, db, phone);
    forall c: nat ensures Replies(r, c) == Replies(db, c) && CountedIn(r, c) { assert CountedIn(db, c); }
  }

  lemma ClassifiedCounted(u: Rules, s: System, h: nat, verdict: Option<bool>, status: Option<string>)
    requires Counted(s.db) && h in s.handlers
    ensures var r := OnClassified(u, s, h, s.handlers[h], verdict, status);
            Counted(r.db) && forall c: nat :: Replies(r.db, c) == Replies(s.db, c)
  {
    var hd := s.handlers[h];
    var run := RunOf(s.db, hd.conversation);
    var st := if status.None? then "failed" else status.value;
    var db := OptOut(u, s.db, hd.phone);
    OptOutCounted(u, s.db, hd.phone);
    LogCounted(db, Message(Some(hd.conversation), run, hd.phone, u.confirmation, Confirmation, st));
    LogCounted(s.db, Message(Some(hd.conversation), run, hd.phone, u.limitNotice, LimitNotice, st));
  }

  lemma CompletedCounted(u: Rules, db: Db, run: nat, phone: string, text: string, status: Option<string>)
    requires Counted(db)
    ensures var r := OnCompleted(u, db, run, phone, text, status);
            Counted(r) && forall c: nat :: Replies(r, c) == Replies(db, c)
  {
    if u.normalize(phone).None? {
      LogCounted(db, Message(None, Some(run), phone, "", Skipped, "skipped_invalid_phone"));
    } else {
      var p := u.normalize(phone).value;
      LogCounted(db, Message(None, Some(run), p, "", Skipped, "skipped_opted_out"));
      CreateCounted(db, p, Some(run));
      var (db1, c) := GetOrCreate(db, p, Some(run));
      var st := if status.None? then "failed" else status.value;
      LogCounted(db1, Message(Some(c), Some(run), p, text, Completion, st));
    }
  }

  /** If `e` finishes a reply, the count its handler read is still the stored one. */
  predicate UpToDate(s: System, e: Event) {
    e.Generated? && e.h in s.handlers && s.handlers[e.h].phase.Generating? ==>
      s.handlers[e.h].phase.read == Replies(s.db, s.handlers[e.h].conversation)
  }

  /**
    A finished reply counts right, in its own conversation and so everywhere, exactly when its
    handler was up to date.
   */
  lemma GeneratedCounted(u: Rules, s: System, h: nat, hd: Handler, read: nat, reply: Option<string>,
                         status: Option<string>)
    requires Counted(s.db) && hd.conversation < |s.db.conversations| && read < REPLY_LIMIT
    ensures var r := OnGenerated(u, s, h, hd, read, reply, status);
            && (Counted(r.db) <==> read == Replies(s.db, hd.conversation))
            && (CountedIn(r.db, hd.conversation) <==> read == Replies(s.db, hd.conversation))
  {
    var r := OnGenerated(u, s, h, hd, read, reply, status);
    var db := SetReplies(s.db, hd.conversation, read + 1);
    forall c: nat ensures CountedIn(r.db, c) <==> c != hd.conversation || read == Replies(s.db, c) {
      assert CountedIn(s.db, c);
      RepliesOfLog(db, r.db.messages[|s.db.messages|], c);
    }
  }

  /**
    From a state whose counts are right, a step keeps them right if and only if it finishes no
    reply from a stale count.
   */
  lemma CountedStep(u: Rules, s: System, e: Event)
    requires u.Valid() && WellFormed(u, s) && ReadsBounded(s) && Counted(s.db)
    ensures Counted(Step(u, s, e).db) <==> UpToDate(s, e)
  {
    match e
    case Arrive(h, from, body) => ArriveCounted(u, s, h, from, body);
    case Classified(h, verdict, status) => if h in s.handlers { ClassifiedCounted(u, s, h, verdict, status); }
    case Generated(h, reply, status) =>
      if h in s.handlers && s.handlers[h].phase.Generating? {
        GeneratedCounted(u, s, h, s.handlers[h], s.handlers[h].phase.read, reply, status);
      }
    case RunCompleted(run, _, _, phone, text, _, status) => CompletedCounted(u, s.db, run, phone, text, status);
  }

  ghost predicate UpToDateRun(u: Rules, s: System, es: seq<Event>)
    decreases |es|
  {
    es == [] || (UpToDate(s, es[0]) && UpToDateRun(u, Step(u, s, es[0]), es[1..]))
  }

  lemma {:induction false} RunCounted(u: Rules, s: System, es: seq<Event>)
    requires u.Valid() && WellFormed(u, s) && ReadsBounded(s) && Counted(s.db) && UpToDateRun(u, s, es)
    ensures Counted(Run(u, s, es).db)
    decreases |es|
  {
    if es != [] {
      CountedStep(u, s, es[0]);
      StepWellFormed(u, s, es[0]);
      StepReadsBounded(u, s, es[0]);
      RunCounted(u, Step(u, s, es[0]), es[1..]);
    }
  }

  lemma InitCounted()
    ensures Counted(Init().db)
  {
    forall c: nat ensures CountedIn(Init().db, c) {}
  }

  /**
    On every run in which no reply is finished from a stale count, however handlers overlap, each
    conversation gets at most two generated replies, as its row says.
   */
  lemma AtMostTwoReplies(t: Tables, es: seq<Event>, c: nat)
    requires t.Valid() && UpToDateRun(RulesOf(t), Init(), es)
    ensures var db := Run(RulesOf(t), Init(), es).db; RepliesSent(db.messages, c) == Replies(db, c) <= REPLY_LIMIT
  {
    RulesAreValid(t);
    InitCounted();
    RunCounted(RulesOf(t), Init(), es);
    assert CountedIn(Run(RulesOf(t), Init(), es).db, c);
  }

  // ---- opting out for good ----------------------------------------------------------

  /** No reply is finished whose number opted out while it was being written. */
  ghost predicate PromptRun(u: Rules, s: System, es: seq<Event>)
    decreases |es|
  {
    es == [] || (!LateReply(s, es[0]) && PromptRun(u, Step(u, s, es[0]), es[1..]))
  }

  /** `k` is not a message logged after the first `n` that sends `phone` anything but a confirmation. */
  ghost predicate OnlyConfirms(u: Rules, ms: seq<Message>, n: nat, phone: string, k: nat) {
    n <= k < |ms| && ms[k].Sent() && u.normalize(ms[k].phone) == Some(phone) ==>
      ms[k].kind == Confirmation && ms[k].body == u.confirmation
  }

  lemma {:induction false} OptOutHolds(u: Rules, s: System, es: seq<Event>, phone: string, k: nat)
    requires u.Valid() && WellFormed(u, s) && PromptRun(u, s, es) && phone in s.db.optOuts
    ensures s.db.messages <= Run(u, s, es).db.messages
    ensures OnlyConfirms(u, Run(u, s, es).db.messages, |s.db.messages|, phone, k)
    decreases |es|
  {
    if es != [] {
      StepWellFormed(u, s, es[0]);
      StepConfirms(u, s, es[0], phone, k);
      OptOutHolds(u, Step(u, s, es[0]), es[1..], phone, k);
    }
  }

  lemma StepConfirms(u: Rules, s: System, e: Event, phone: string, k: nat)
    requires u.Valid() && WellFormed(u, s) && phone in s.db.optOuts && !LateReply(s, e)
    ensures s.db.messages <= Step(u, s, e).db.messages && phone in Step(u, s, e).db.optOuts
    ensures OnlyConfirms(u, Step(u, s, e).db.messages, |s.db.messages|, phone, k)
  {
    StepWellFormed(u, s, e);
    if Sends(u, s, e, phone) { StepHonoursOptOut(u, s, e, phone); }
  }

  lemma {:induction false} RunWellFormed(u: Rules, s: System, es: seq<Event>)
    requires u.Valid() && WellFormed(u, s)
    ensures WellFormed(u, Run(u, s, es))
    decreases |es|
  {
    if es != [] {
      StepWellFormed(u, s, es[0]);
      RunWellFormed(u, Step(u, s, es[0]), es[1..]);
    }
  }

  /**
    Once a number has opted out, on any run so far, everything sent to it later, however it is
    spelled, is the opt-out confirmation, as long as no late reply is finished.
   */
  lemma OptOutIsPermanent(t: Tables, before: seq<Event>, since: seq<Event>, spelling: string, k: nat)
    requires t.Valid() && PromptRun(RulesOf(t), Run(RulesOf(t), Init(), before), since)
    requires IsOptedOut(RulesOf(t), Run(RulesOf(t), Init(), before).db, spelling)
    ensures var u := RulesOf(t);
            var s := Run(u, Init(), before);
            OnlyConfirms(u, Run(u, s, since).db.messages, |s.db.messages|, u.normalize(spelling).value, k)
  {
    RulesAreValid(t);
    var u := RulesOf(t);
    RunWellFormed(u, Init(), before);
    OptOutHolds(u, Run(u, Init(), before), since, u.normalize(spelling).value, k);
  }

  // ---- one message at a time from each number ---------------------------------------

  /** No message is taken from a number while another from it is being handled. */
  ghost predicate Serial(u: Rules, s: System, e: Event) {
    e.Arrive? && u.normalize(e.from).Some? ==>
      forall h :: h in s.handlers ==> s.handlers[h].phone != u.normalize(e.from).value
  }

  ghost predicate SerialRun(u: Rules, s: System, es: seq<Event>)
    decreases |es|
  {
    es == [] || (Serial(u, s, es[0]) && SerialRun(u, Step(u, s, es[0]), es[1..]))
  }

  ghost predicate OnePerNumber(s: System) {
    forall g, h :: g in s.handlers && h in s.handlers && g != h ==> s.handlers[g].phone != s.handlers[h].phone
  }

  /** A handler that is generating read the count that is still stored, and its number has not opted out. */
  ghost predicate Settled(s: System) {
    forall h :: h in s.handlers && s.handlers[h].phase.Generating? ==>
      var hd := s.handlers[h];
      hd.phase.read == Replies(s.db, hd.conversation) && hd.phone !in s.db.optOuts
  }

  ghost predicate Invariant(u: Rules, s: System) { WellFormed(u, s) && OnePerNumber(s) && Settled(s) }

  lemma CreateKeepsReplies(db: Db, phone: string, run: Option<nat>, c: nat)
    ensures Replies(GetOrCreate(db, phone, run).0, c) == Replies(db, c)
  {
  }

  lemma ArriveKeeps(u: Rules, s: System, h: nat, from: string, body: string)
    requires u.Valid() && Invariant(u, s) && h !in s.handlers && Serial(u, s, Arrive(h, from, body))
    ensures Invariant(u, OnArrive(u, s, h, from, body))
  {
    StepWellFormed(u, s, Arrive(h, from, body));
    if u.normalize(from).Some? {
      var phone := u.normalize(from).value;
      forall c: nat ensures Replies(GetOrCreate(s.db, phone, None).0, c) == Replies(s.db, c) {
        CreateKeepsReplies(s.db, phone, None, c);
      }
    }
  }

  lemma ClassifiedKeeps(u: Rules, s: System, h: nat, verdict: Option<bool>, status: Option<string>)
    requires u.Valid() && Invariant(u, s) && h in s.handlers && s.handlers[h].phase.Classifying?
    ensures Invariant(u, OnClassified(u, s, h, s.handlers[h], verdict, status))
  {
    StepWellFormed(u, s, Classified(h, verdict, status));
    assert Normal(u, s.handlers[h].phone);
  }

  lemma GeneratedKeeps(u: Rules, s: System, h: nat, reply: Option<string>, status: Option<string>)
    requires u.Valid() && Invariant(u, s) && h in s.handlers && s.handlers[h].phase.Generating?
    ensures Invariant(u, OnGenerated(u, s, h, s.handlers[h], s.handlers[h].phase.read, reply, status))
  {
    StepWellFormed(u, s, Generated(h, reply, status));
    var hd := s.handlers[h];
    var r := OnGenerated(u, s, h, hd, hd.phase.read, reply, status);
    forall g | g in r.handlers && r.handlers[g].phase.Generating?
      ensures Replies(r.db, r.handlers[g].conversation) == Replies(s.db, s.handlers[g].conversation)
    {
      assert s.handlers[g].phone != hd.phone;
    }
  }

  lemma CompletedKeeps(u: Rules, s: System, run: nat, phone: string, text: string, status: Option<string>)
    requires u.Valid() && Invariant(u, s)
    ensures Invariant(u, s.(db := OnCompleted(u, s.db, run, phone, text, status)))
  {
    if u.normalize(phone).Some? {
      var p := u.normalize(phone).value;
      forall c: nat ensures Replies(GetOrCreate(s.db, p, Some(run)).0, c) == Replies(s.db, c) {
        CreateKeepsReplies(s.db, p, Some(run), c);
      }
    }
  }

  lemma StepKeeps(u: Rules, s: System, e: Event)
    requires u.Valid() && Invariant(u, s) && Serial(u, s, e)
    ensures Invariant(u, Step(u, s, e)) && !LateReply(s, e) && UpToDate(s, e)
  {
    match e
    case Arrive(h, from, body) => if h !in s.handlers { ArriveKeeps(u, s, h, from, body); }
    case Classified(h, verdict, status) =>
      if h in s.handlers && s.handlers[h].phase.Classifying? { ClassifiedKeeps(u, s, h, verdict, status); }
    case Generated(h, reply, status) =>
      if h in s.handlers && s.handlers[h].phase.Generating? { GeneratedKeeps(u, s, h, reply, status); }
    case RunCompleted(run, _, _, phone, text, _, status) => CompletedKeeps(u, s, run, phone, text, status);
  }

  lemma {:induction false} SerialFrom(u: Rules, s: System, es: seq<Event>)
    requires u.Valid() && Invariant(u, s) && SerialRun(u, s, es)
    ensures UpToDateRun(u, s, es) && PromptRun(u, s, es)
    decreases |es|
  {
    if es != [] {
      StepKeeps(u, s, es[0]);
      SerialFrom(u, Step(u, s, es[0]), es[1..]);
    }
  }

  /** Taking one message per number at a time is enough for both. */
  lemma SerialRunsAreSafe(t: Tables, es: seq<Event>)
    requires t.Valid() && SerialRun(RulesOf(t), Init(), es)
    ensures UpToDateRun(RulesOf(t), Init(), es) && PromptRun(RulesOf(t), Init(), es)
  {
    RulesAreValid(t);
    SerialFrom(RulesOf(t), Init(), es);
  }

  // ---- why messages must be taken one at a time -------------------------------------

  /** Two messages from one number, the second a STOP handled while the first is being answered. */
  function Overlap(from: string, reply: string): (es: seq<Event>) {
    [Arrive(0, from, "hi"), Classified(0, Some(false), Some("queued")),
     Arrive(1, from, "stop"), Classified(1, Some(true), Some("queued")),
     Generated(0, Some(reply), Some("queued"))]
  }

  /** Then the generated reply goes out after the opt-out was confirmed. */
  lemma ReplyAfterOptOut(u: Rules, from: string, reply: string)
    requires u.Valid() && u.normalize(from).Some? && reply != "" && !IsOptOut(u, "hi", Some(false))
    ensures var s := Run(u, Init(), Overlap(from, reply)[..4]);
            var e := Overlap(from, reply)[4];
            var r := Step(u, s, e);
            && IsOptedOut(u, s.db, from)
            && |r.db.messages| == |s.db.messages| + 1
            && r.db.messages[|s.db.messages|].kind == Reply && r.db.messages[|s.db.messages|].body == reply
            && u.normalize(r.db.messages[|s.db.messages|].phone) == u.normalize(from)
  {
    var es := Overlap(from, reply);
    var p := u.normalize(from).value;
    var s1 := Step(u, Init(), es[0]);
    var s2 := Step(u, s1, es[1]);
    var s3 := Step(u, s2, es[2]);
    var s4 := Step(u, s3, es[3]);
    assert s1.handlers[0] == Handler(p, 0, "hi", Classifying);
    assert s2.handlers[0] == Handler(p, 0, "hi", Generating(0));
    assert s3.handlers[1].phone == p && s3.handlers[0] == s2.handlers[0];
    assert p in s4.db.optOuts && s4.handlers[0] == s2.handlers[0];
    FourSteps(u, Init(), es[..4]);
  }

  lemma FourSteps(u: Rules, s: System, es: seq<Event>)
    requires |es| == 4
    ensures Run(u, s, es) == Step(u, Step(u, Step(u, Step(u, s, es[0]), es[1]), es[2]), es[3])
  {
    assert es[1..][1..] == es[2..] && es[2..][1..] == es[3..] && es[3..][1..] == [];
    var s1 := Step(u, s, es[0]);
    var s2 := Step(u, s1, es[1]);
    var s3 := Step(u, s2, es[2]);
    assert Run(u, s3, es[3..]) == Step(u, s3, es[3]);
    assert Run(u, s2, es[2..]) == Run(u, s3, es[3..]);
    assert Run(u, s1, es[1..]) == Run(u, s2, es[2..]);
  }

  lemma {:induction false} RunTo(u: Rules, s: System, es: seq<Event>, i: nat)
    requires i < |es|
    ensures Run(u, s, es[..i + 1]) == Step(u, Run(u, s, es[..i]), es[i])
    decreases i
  {
    assert es[..i + 1][0] == es[0];
    if i == 0 {
      assert es[..1][1..] == [];
    } else {
      assert es[..i + 1][1..] == es[1..][..i] && es[..i][1..] == es[1..][..i - 1];
      RunTo(u, Step(u, s, es[0]), es[1..], i - 1);
    }
  }

  /** Two overlapping messages of one number are answered, then a third. */
  function ThreeMessages(from: string): (es: seq<Event>) {
    [Arrive(0, from, "hi"), Arrive(1, from, "hi"), Classified(0, Some(false), None), Classified(1, Some(false), None),
     Generated(0, None, None), Generated(1, None, None),
     Arrive(2, from, "hi"), Classified(2, Some(false), None), Generated(2, None, None)]
  }

  /** One conversation with number `p`, whose row counts `n` replies of the `m` sent. */
  ghost predicate OneThread(s: System, p: string, handlers: map<nat, Handler>, n: nat, m: nat) {
    && s.handlers == handlers && s.db.optOuts == {}
    && s.db.conversations == [Conversation(p, None, n)] && RepliesSent(s.db.messages, 0) == m
  }

  function Hi(p: string, phase: Phase): Handler { Handler(p, 0, "hi", phase) }

  lemma ArriveInThread(u: Rules, s: System, h: nat, from: string, handlers: map<nat, Handler>, n: nat, m: nat)
    requires u.normalize(from).Some? && h !in handlers
    requires OneThread(s, u.normalize(from).value, handlers, n, m) || (s == Init() && handlers == map[] && n == m == 0)
    ensures var p := u.normalize(from).value;
            OneThread(Step(u, s, Arrive(h, from, "hi")), p, handlers[h := Hi(p, Classifying)], n, m)
  {
    var p := u.normalize(from).value;
    var (db, c) := GetOrCreate(s.db, p, None);
    assert c == 0;
    RepliesOfLog(db, Message(Some(c), db.conversations[c].run, p, "hi", Inbound, "received"), 0);
  }

  lemma ClassifyInThread(u: Rules, s: System, h: nat, p: string, handlers: map<nat, Handler>, n: nat, m: nat)
    requires OneThread(s, p, handlers, n, m) && n < REPLY_LIMIT && !IsOptOut(u, "hi", Some(false))
    requires h in handlers && handlers[h] == Hi(p, Classifying)
    ensures OneThread(Step(u, s, Classified(h, Some(false), None)), p, handlers[h := Hi(p, Generating(n))], n, m)
  {
  }

  lemma GenerateInThread(u: Rules, s: System, h: nat, p: string, handlers: map<nat, Handler>, n: nat, m: nat, read: nat)
    requires OneThread(s, p, handlers, n, m) && h in handlers && handlers[h] == Hi(p, Generating(read))
    ensures OneThread(Step(u, s, Generated(h, None, None)), p, handlers - {h}, read + 1, m + 1)
  {
    var db := SetReplies(s.db, 0, read + 1);
    RepliesOfLog(db, Message(Some(0), RunOf(s.db, 0), p, u.fallback, Reply, "failed"), 0);
  }

  lemma FirstArrived(u: Rules, from: string) returns (s: System)
    requires u.normalize(from).Some?
    ensures s == Run(u, Init(), ThreeMessages(from)[..1])
    ensures var p := u.normalize(from).value; OneThread(s, p, map[0 := Hi(p, Classifying)], 0, 0)
  {
    RunTo(u, Init(), ThreeMessages(from), 0);
    ArriveInThread(u, Init(), 0, from, map[], 0, 0);
    s := Step(u, Init(), Arrive(0, from, "hi"));
  }

  lemma BothArrived(u: Rules, from: string) returns (s: System)
    requires u.normalize(from).Some?
    ensures s == Run(u, Init(), ThreeMessages(from)[..2])
    ensures var p := u.normalize(from).value;
            OneThread(s, p, map[0 := Hi(p, Classifying), 1 := Hi(p, Classifying)], 0, 0)
  {
    var s1 := FirstArrived(u, from);
    RunTo(u, Init(), ThreeMessages(from), 1);
    ArriveInThread(u, s1, 1, from, map[0 := Hi(u.normalize(from).value, Classifying)], 0, 0);
    s := Step(u, s1, Arrive(1, from, "hi"));
  }

  lemma FirstClassified(u: Rules, from: string) returns (s: System)
    requires u.normalize(from).Some? && !IsOptOut(u, "hi", Some(false))
    ensures s == Run(u, Init(), ThreeMessages(from)[..3])
    ensures var p := u.normalize(from).value;
            OneThread(s, p, map[0 := Hi(p, Generating(0)), 1 := Hi(p, Classifying)], 0, 0)
  {
    var s2 := BothArrived(u, from);
    var p := u.normalize(from).value;
    RunTo(u, Init(), ThreeMessages(from), 2);
    ClassifyInThread(u, s2, 0, p, map[0 := Hi(p, Classifying), 1 := Hi(p, Classifying)], 0, 0);
    s := Step(u, s2, Classified(0, Some(false), None));
  }

  lemma BothClassified(u: Rules, from: string) returns (s: System)
    requires u.normalize(from).Some? && !IsOptOut(u, "hi", Some(false))
    ensures s == Run(u, Init(), ThreeMessages(from)[..4])
    ensures var p := u.normalize(from).value;
            OneThread(s, p, map[0 := Hi(p, Generating(0)), 1 := Hi(p, Generating(0))], 0, 0)
  {
    var s3 := FirstClassified(u, from);
    var p := u.normalize(from).value;
    RunTo(u, Init(), ThreeMessages(from), 3);
    ClassifyInThread(u, s3, 1, p, map[0 := Hi(p, Generating(0)), 1 := Hi(p, Classifying)], 0, 0);
    s := Step(u, s3, Classified(1, Some(false), None));
  }

  lemma FirstAnswered(u: Rules, from: string) returns (s: System)
    requires u.normalize(from).Some? && !IsOptOut(u, "hi", Some(false))
    ensures s == Run(u, Init(), ThreeMessages(from)[..5])
    ensures var p := u.normalize(from).value; OneThread(s, p, map[1 := Hi(p, Generating(0))], 1, 1)
  {
    var s4 := BothClassified(u, from);
    var p := u.normalize(from).value;
    var g := Hi(p, Generating(0));
    RunTo(u, Init(), ThreeMessages(from), 4);
    GenerateInThread(u, s4, 0, p, map[0 := g, 1 := g], 0, 0, 0);
    assert map[0 := g, 1 := g] - {0} == map[1 := g];
    s := Step(u, s4, Generated(0, None, None));
  }

  lemma BothAnswered(u: Rules, from: string) returns (s: System)
    requires u.normalize(from).Some? && !IsOptOut(u, "hi", Some(false))
    ensures s == Run(u, Init(), ThreeMessages(from)[..6])
    ensures OneThread(s, u.normalize(from).value, map[], 1, 2)
  {
    var s5 := FirstAnswered(u, from);
    var p := u.normalize(from).value;
    var g := Hi(p, Generating(0));
    RunTo(u, Init(), ThreeMessages(from), 5);
    GenerateInThread(u, s5, 1, p, map[1 := g], 1, 1, 0);
    assert map[1 := g] - {1} == map[];
    s := Step(u, s5, Generated(1, None, None));
  }

  lemma ThirdArrived(u: Rules, from: string) returns (s: System)
    requires u.normalize(from).Some? && !IsOptOut(u, "hi", Some(false))
    ensures s == Run(u, Init(), ThreeMessages(from)[..7])
    ensures var p := u.normalize(from).value; OneThread(s, p, map[2 := Hi(p, Classifying)], 1, 2)
  {
    var s6 := BothAnswered(u, from);
    RunTo(u, Init(), ThreeMessages(from), 6);
    ArriveInThread(u, s6, 2, from, map[], 1, 2);
    s := Step(u, s6, Arrive(2, from, "hi"));
  }

  /**
    The second reply is not counted, so the third message is answered too: three generated replies
    in one conversation.
   */
  lemma OverlapBreaksTheLimit(u: Rules, from: string)
    requires u.normalize(from).Some? && !IsOptOut(u, "hi", Some(false))
    ensures var db := Run(u, Init(), ThreeMessages(from)).db;
            RepliesSent(db.messages, 0) == 3 > REPLY_LIMIT && Replies(db, 0) == 2
  {
    var es, p := ThreeMessages(from), u.normalize(from).value;
    var s7 := ThirdArrived(u, from);
    RunTo(u, Init(), es, 7);
    ClassifyInThread(u, s7, 2, p, map[2 := Hi(p, Classifying)], 1, 2);
    var s8 := Step(u, s7, Classified(2, Some(false), None));
    RunTo(u, Init(), es, 8);
    GenerateInThread(u, s8, 2, p, map[2 := Hi(p, Generating(1))], 1, 2, 1);
    assert es[..9] == es;
  }

  // ---- the service ------------------------------------------------------------------

  /** The last two steps of a handler in a row. */
  function AnswerAlone(u: Rules, db: Db, hd: Handler, verdict: Option<bool>, reply: Option<string>,
                       status: Option<string>): (r: Db) {
    Step(u, OnClassified(u, System(db, map[0 := hd]), 0, hd, verdict, status), Generated(0, reply, status)).db
  }

  /** A reply handled without interruption: its three steps in a row. */
  function HandleAlone(u: Rules, db: Db, from: string, body: string, verdict: Option<bool>, reply: Option<string>,
                       status: Option<string>): (r: Db) {
    var s1 := Step(u, System(db, map[]), Arrive(0, from, body));
    var s2 := Step(u, s1, Classified(0, verdict, status));
    Step(u, s2, Generated(0, reply, status)).db
  }

  class SmsService {
    var optOuts: set<string>
    var conversations: seq<Conversation>
    var messages: seq<Message>

    ghost function Value(): (db: Db)
      reads this
    {
      Db(optOuts, conversations, messages)
    }

    constructor ()
      ensures Value() == Init().db
    {
      optOuts, conversations, messages := {}, [], [];
    }

    method GetOrCreateConversation(phone: string, run: Option<nat>) returns (c: nat)
      modifies this
      ensures (Value(), c) == GetOrCreate(old(Value()), phone, run)
    {
      var found := Latest(conversations, phone, run);
      if found.Some? { return found.value; }
      c := |conversations|;
      conversations := conversations + [Conversation(phone, run, 0)];
    }

    /** Records the message, asks the provider, and writes the outcome into the row. */
    method SendReply(c: nat, phone: string, body: string, kind: Kind, run: Option<nat>, status: Option<string>)
      modifies this
      ensures Value() == Send(old(Value()), c, phone, body, kind, run, status)
    {
      var n := |messages|;
      messages := messages + [Message(Some(c), run, phone, body, kind, "attempted")];
      messages := messages[n := messages[n].(status := if status.Some? then status.value else "failed")];
    }

    method HandleInboundReply(u: Rules, from: string, body: string, verdict: Option<bool>, reply: Option<string>,
                              status: Option<string>)
      requires u.Valid()
      modifies this
      ensures Value() == HandleAlone(u, old(Value()), from, body, verdict, reply, status)
    {
      var normal := u.normalize(from);
      if normal.None? { return; }
      var phone := normal.value;
      var c := GetOrCreateConversation(phone, None);
      var run := conversations[c].run;
      messages := messages + [Message(Some(c), run, phone, body, Inbound, "received")];
      Answer(u, phone, c, body, verdict, reply, status);
    }

    method Answer(u: Rules, phone: string, c: nat, body: string, verdict: Option<bool>, reply: Option<string>,
                  status: Option<string>)
      requires u.normalize(phone) == Some(phone) && c < |conversations|
      modifies this
      ensures Value() == AnswerAlone(u, old(Value()), Handler(phone, c, body, Classifying), verdict, reply, status)
    {
      var run := conversations[c].run;
      if IsOptOut(u, body, verdict) {
        optOuts := optOuts + {phone};
        SendReply(c, phone, u.confirmation, Confirmation, run, status);
        return;
      }
      if phone in optOuts { return; }
      var text := u.limitNotice;
      if conversations[c].replies < REPLY_LIMIT {
        text := if reply.Some? && reply.value != "" then reply.value else u.fallback;
        conversations := conversations[c := conversations[c].(replies := conversations[c].replies + 1)];
        SendReply(c, phone, text, Reply, run, status);
      } else {
        SendReply(c, phone, text, LimitNotice, run, status);
      }
    }

    method CompletionNotification(u: Rules, run: nat, completed: bool, wants: bool, phone: string, text: string,
                                  enabled: bool, status: Option<string>)
      requires u.Valid()
      modifies this
      ensures Value() == Step(u, System(old(Value()), map[]),
                              RunCompleted(run, completed, wants, phone, text, enabled, status)).db
    {
      if !enabled || !completed || !wants || phone == "" { return; }
      var normal := u.normalize(phone);
      if normal.None? {
        messages := messages + [Message(None, Some(run), phone, "", Skipped, "skipped_invalid_phone")];
        return;
      }
      if normal.value in optOuts {
        messages := messages + [Message(None, Some(run), normal.value, "", Skipped, "skipped_opted_out")];
        return;
      }
      var c := GetOrCreateConversation(normal.value, Some(run));
      SendReply(c, normal.value, text, Completion, Some(run), status);
    }
  }
}
