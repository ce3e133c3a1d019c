/** What one inbound message and one completed run lead to, row by row. */
module SmsOutcomes {
  import opened Wrappers
  import opened SmsThreads

  /** A row that was sent to `phone` in conversation `c`: a failed send only shows in its status. */
  predicate SentTo(m: Message, c: nat, phone: string, body: string, kind: Kind, status: Option<string>) {
    && m.conversation == Some(c) && m.phone == phone && m.body == body && m.kind == kind && m.Sent()
    && m.status == (if status.Some? then status.value else "failed")
  }

  /** The message as it was received. */
  predicate Received(m: Message, c: nat, phone: string, body: string) {
    m.conversation == Some(c) && m.phone == phone && m.body == body && m.kind == Inbound && m.status == "received"
  }

  /** `c` is the latest conversation of the number, or a new one if there was none; no other conversation changes. */
  ghost predicate InThread(db: Db, r: Db, phone: string, c: nat) {
    && c < |r.conversations| && r.conversations[c].phone == phone
    && (forall i :: c < i < |r.conversations| ==> r.conversations[i].phone != phone)
    && |r.conversations| == (if c < |db.conversations| then |db.conversations| else |db.conversations| + 1)
    && (forall i :: 0 <= i < |db.conversations| && i != c ==> r.conversations[i] == db.conversations[i])
  }

  /** The answer to a message: the confirmation, silence, a reply or the notice of the limit. */
  ghost predicate Answered(u: Rules, db: Db, r: Db, c: nat, phone: string, stop: bool, reply: Option<string>,
                           status: Option<string>, out: seq<Message>) {
    var text := if reply.Some? && reply.value != "" then reply.value else u.fallback;
    if stop then
      |out| == 1 && SentTo(out[0], c, phone, u.confirmation, Confirmation, status) && Replies(r, c) == Replies(db, c)
    else if phone in db.optOuts then out == [] && Replies(r, c) == Replies(db, c)
    else if Replies(db, c) < 2 then
      |out| == 1 && SentTo(out[0], c, phone, text, Reply, status) && Replies(r, c) == Replies(db, c) + 1
    else |out| == 1 && SentTo(out[0], c, phone, u.limitNotice, LimitNotice, status) && Replies(r, c) == Replies(db, c)
  }

  lemma ThreadOf(db: Db, phone: string)
    ensures var (d, c) := GetOrCreate(db, phone, None); InThread(db, d, phone, c) && Replies(d, c) == Replies(db, c)
  {
  }

  lemma AloneArrives(u: Rules, db: Db, from: string, body: string) returns (s: System, c: nat)
    requires u.normalize(from).Some?
    ensures var phone := u.normalize(from).value;
            && s == Step(u, System(db, map[]), Arrive(0, from, body))
            && InThread(db, s.db, phone, c) && Replies(s.db, c) == Replies(db, c)
            && s.handlers == map[0 := Handler(phone, c, body, Classifying)] && s.db.optOuts == db.optOuts
            && |s.db.messages| == |db.messages| + 1 && db.messages <= s.db.messages
            && Received(s.db.messages[|db.messages|], c, phone, body)
  {
    var phone := u.normalize(from).value;
    ThreadOf(db, phone);
    s := Step(u, System(db, map[]), Arrive(0, from, body));
    c := GetOrCreate(db, phone, None).1;
  }

  lemma AloneAnswers(u: Rules, s: System, hd: Handler, verdict: Option<bool>, reply: Option<string>,
                     status: Option<string>)
    requires s.handlers == map[0 := hd] && hd.phase.Classifying? && u.normalize(hd.phone) == Some(hd.phone)
    requires hd.conversation < |s.db.conversations|
    ensures var r := Step(u, Step(u, s, Classified(0, verdict, status)), Generated(0, reply, status)).db;
            && s.db.messages <= r.messages
            && Answered(u, s.db, r, hd.conversation, hd.phone, IsOptOut(u, hd.body, verdict), reply, status,
                        r.messages[|s.db.messages|..])
            && r.optOuts == s.db.optOuts + (if IsOptOut(u, hd.body, verdict) then {hd.phone} else {})
            && |r.conversations| == |s.db.conversations|
            && (forall i :: 0 <= i < |r.conversations| ==>
                  && r.conversations[i].phone == s.db.conversations[i].phone
                  && (i != hd.conversation ==> r.conversations[i] == s.db.conversations[i]))
  {
  }

  /**
    A message from a number that can be read, handled without interruption: one row for the message in the
    number's conversation, then the confirmation of an opt-out, silence if the number had opted out before,
    a reply while fewer than two were sent in that conversation, and the notice of the limit after that.
   */
  lemma MessageIsAnswered(u: Rules, db: Db, from: string, body: string, verdict: Option<bool>, reply: Option<string>,
                          status: Option<string>)
    returns (c: nat)
    requires u.Valid() && u.normalize(from).Some?
    ensures var phone := u.normalize(from).value;
            var r := HandleAlone(u, db, from, body, verdict, reply, status);
            && InThread(db, r, phone, c)
            && |r.messages| > |db.messages| && db.messages <= r.messages
            && Received(r.messages[|db.messages|], c, phone, body)
            && Answered(u, db, r, c, phone, IsOptOut(u, body, verdict), reply, status, r.messages[|db.messages| + 1..])
            && r.optOuts == db.optOuts + (if IsOptOut(u, body, verdict) then {phone} else {})
  {
    var s;
    s, c := AloneArrives(u, db, from, body);
    AloneAnswers(u, s, s.handlers[0], verdict, reply, status);
  }

  /** A message from anywhere else leaves no trace. */
  lemma UnreadableIsIgnored(u: Rules, db: Db, from: string, body: string, verdict: Option<bool>, reply: Option<string>,
                            status: Option<string>)
    requires u.normalize(from).None?
    ensures HandleAlone(u, db, from, body, verdict, reply, status) == db
  {
  }

  /**
    A completed run whose owner wants to hear of it: one row, sent in the run's own conversation with the
    number, unless the number cannot be read or has opted out, which is all the row then says.
   */
  lemma CompletionIsSent(u: Rules, s: System, run: nat, phone: string, text: string, status: Option<string>)
    returns (c: nat)
    requires phone != ""
    ensures var r := Step(u, s, RunCompleted(run, true, true, phone, text, true, status));
            var n := |s.db.messages|;
            && r.handlers == s.handlers && r.db.optOuts == s.db.optOuts
            && |r.db.messages| == n + 1 && s.db.messages <= r.db.messages && r.db.messages[n].run == Some(run)
            && (match u.normalize(phone)
                case None => !r.db.messages[n].Sent() && r.db.messages[n].status == "skipped_invalid_phone"
                             && r.db.conversations == s.db.conversations
                case Some(p) =>
                  if IsOptedOut(u, s.db, p) then
                    !r.db.messages[n].Sent() && r.db.messages[n].status == "skipped_opted_out"
                    && r.db.conversations == s.db.conversations
                  else
                    && SentTo(r.db.messages[n], c, p, text, Completion, status)
                    && c < |r.db.conversations| && r.db.conversations[c].phone == p
                    && r.db.conversations[c].run == Some(run) && s.db.conversations <= r.db.conversations)
  {
    c := 0;
    if u.normalize(phone).Some? { c := GetOrCreate(s.db, u.normalize(phone).value, Some(run)).1; }
  }

  /** Otherwise nothing is recorded. */
  lemma CompletionIsNotWanted(u: Rules, s: System, e: Event)
    requires e.RunCompleted? && !(e.enabled && e.completed && e.wants && e.phone != "")
    ensures Step(u, s, e) == s
  {
  }
}
