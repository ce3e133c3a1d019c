/** The loop that turns voice-provider events into messages for the caller's media stream. */
module VoiceLoop {
  import opened Wrappers

  /** Provider events, with the audio of a delta already decoded; `Other` stands for the events that only report. */
  datatype ProviderEvent<T> =
    | Created(id: Option<string>)
    | SpeechStarted
    | AudioDelta(id: Option<string>, audio: seq<T>)
    | TerminalTool
    | Done
    | Other

  datatype WsMessage<T> = Media(audio: seq<T>) | ClearPlayback | EndCall

  datatype Voice = Voice(
    current: Option<string>,
    cancelled: Option<string>,
    active: bool,
    streaming: bool,
    closing: bool,
    stopped: bool)

  function Fresh(): Voice { Voice(None, None, false, false, false, false) }

  datatype Reaction<T> = Reaction(voice: Voice, messages: seq<WsMessage<T>>, cancelSent: bool)

  function React<T>(v: Voice, e: ProviderEvent<T>): (r: Reaction<T>) {
    if v.stopped then Reaction(v, [], false)
    else match e
      case Created(id) =>
        var current := if id.Some? && id.value != "" then id else v.current;
        Reaction(v.(current := current, active := true), [], false)
      case SpeechStarted =>
        Reaction(if v.active then v.(cancelled := v.current) else v,
                 if v.streaming then [ClearPlayback] else [], v.active)
      case AudioDelta(id, audio) =>
        var w := if id.Some? then v.(current := id) else v;
        if id.Some? && id == v.cancelled then Reaction(w, [], false)
        else Reaction(w, if audio != [] && v.streaming then [Media(audio)] else [], false)
      case TerminalTool => Reaction(v.(closing := true), [], false)
      case Done =>
        if v.closing then Reaction(v.(active := false, stopped := true), [EndCall], false)
        else Reaction(v.(active := false), [], false)
      case Other => Reaction(v, [], false)
  }

  // ---- which response an interruption silences --------------------------------------

  /** The tracking variables after a sequence of provider events. */
  function After<T>(v: Voice, es: seq<ProviderEvent<T>>): (r: Voice) {
    if es == [] then v else React(After(v, es[..|es| - 1]), es[|es| - 1]).voice
  }

  /** The id that a created event or an audio delta carried last. */
  function LastAnnounced<T>(es: seq<ProviderEvent<T>>): (id: Option<string>) {
    if es == [] then None
    else match es[|es| - 1]
      case Created(Some(id)) => if id != "" then Some(id) else LastAnnounced(es[..|es| - 1])
      case AudioDelta(Some(id), _) => Some(id)
      case _ => LastAnnounced(es[..|es| - 1])
  }

  /** An open stream, before the first provider event. */
  function Connected(): Voice { Fresh().(streaming := true) }

  lemma {:induction false} CurrentIsLast<T>(es: seq<ProviderEvent<T>>)
    ensures var v := After(Connected(), es); v.streaming && (!v.stopped ==> v.current == LastAnnounced(es))
  {
    if es != [] { CurrentIsLast(es[..|es| - 1]); }
  }

  /** Until the caller speaks again, what was cancelled stays cancelled. */
  lemma {:induction false} CancelledStays<T>(v: Voice, es: seq<ProviderEvent<T>>)
    requires forall i :: 0 <= i < |es| ==> !es[i].SpeechStarted?
    ensures After(v, es).cancelled == v.cancelled && After(v, es).streaming == v.streaming
  {
    if es != [] { CancelledStays(v, es[..|es| - 1]); }
  }

  /**
    After any events, an interruption filters the audio of `id`, then and until the next one,
    exactly when `id` was the last id announced before it.
   */
  lemma InterruptionSilencesTheLast<T>(es: seq<ProviderEvent<T>>, more: seq<ProviderEvent<T>>, id: string,
                                       audio: seq<T>)
    requires After(Connected(), es).active && !After(Connected(), es).stopped && audio != []
    requires forall i :: 0 <= i < |more| ==> !more[i].SpeechStarted?
    requires !After(React(After(Connected(), es), ProviderEvent<T>.SpeechStarted).voice, more).stopped
    ensures var v := React(After(Connected(), es), ProviderEvent<T>.SpeechStarted).voice;
            React(After(v, more), AudioDelta(Some(id), audio)).messages == [] <==> LastAnnounced(es) == Some(id)
  {
    CurrentIsLast(es);
    CancelledStays(React(After(Connected(), es), ProviderEvent<T>.SpeechStarted).voice, more);
  }

  // ---- when the call ends -----------------------------------------------------------

  /** A tool asked to end the call. */
  ghost predicate ToldToEnd<T>(es: seq<ProviderEvent<T>>) { exists i :: 0 <= i < |es| && es[i].TerminalTool? }

  /** And a response was done after that. */
  ghost predicate Ended<T>(es: seq<ProviderEvent<T>>) {
    exists j :: 0 <= j < |es| && es[j].Done? && ToldToEnd(es[..j])
  }

  lemma ToldLater<T>(es: seq<ProviderEvent<T>>, n: nat)
    requires |es| == n + 1
    ensures ToldToEnd(es) <==> ToldToEnd(es[..n]) || es[n].TerminalTool?
    ensures Ended(es) <==> Ended(es[..n]) || (es[n].Done? && ToldToEnd(es[..n]))
  {
    forall i | 0 <= i < n ensures es[..n][i] == es[i] && es[..n][..i] == es[..i] {}
    if ToldToEnd(es[..n]) {
      var i :| 0 <= i < |es[..n]| && es[..n][i].TerminalTool?;
      assert es[i].TerminalTool?;
    }
    if Ended(es[..n]) {
      var j :| 0 <= j < |es[..n]| && es[..n][j].Done? && ToldToEnd(es[..n][..j]);
      assert es[j].Done? && ToldToEnd(es[..j]);
    }
  }

  lemma {:induction false} EndedIsStopped<T>(v: Voice, es: seq<ProviderEvent<T>>)
    requires !v.stopped && !v.closing
    ensures var r := After(v, es); (r.stopped <==> Ended(es)) && (!r.stopped ==> (r.closing <==> ToldToEnd(es)))
  {
    if es != [] {
      var n := |es| - 1;
      EndedIsStopped(v, es[..n]);
      ToldLater(es, n);
    }
  }

  /**
    After any events, the next one ends the call exactly when it is the first done response after a tool
    asked for the end; and once the call has ended nothing is sent any more.
   */
  lemma EndsExactly<T>(es: seq<ProviderEvent<T>>, e: ProviderEvent<T>)
    ensures var r := React(After(Connected(), es), e);
            && (EndCall in r.messages <==> e.Done? && ToldToEnd(es) && !Ended(es))
            && (EndCall in r.messages ==> r.messages == [EndCall] && r.voice.stopped)
            && (Ended(es) ==> r.messages == [] && !r.cancelSent)
  {
    EndedIsStopped(Connected(), es);
  }

  /** The handler's variables; tool results wait in `ready` while a response is in progress. */
  class VoiceHandler<T(==)> {
    var current: Option<string>
    var cancelled: Option<string>
    var active: bool
    var streaming: bool
    var closing: bool
    var stopped: bool
    var ready: seq<nat>

    ghost function Now(): Voice
      reads this
    {
      Voice(current, cancelled, active, streaming, closing, stopped)
    }

    constructor ()
      ensures Now() == Fresh() && ready == []
    {
      current, cancelled, active, streaming, closing, stopped := None, None, false, false, false, false;
      ready := [];
    }

    method Handle(e: ProviderEvent<T>) returns (messages: seq<WsMessage<T>>, cancelSent: bool)
      modifies this
      ensures Reaction(Now(), messages, cancelSent) == React(old(Now()), e)
      ensures ready == old(ready)
    {
      messages, cancelSent := [], false;
      if stopped { return; }
      match e
      case Created(id) =>
        if id.Some? && id.value != "" { current := id; }
        active := true;
      case SpeechStarted =>
        if active {
          cancelled := current;
          cancelSent := true;
        }
        if streaming { messages := [ClearPlayback]; }
      case AudioDelta(id, audio) =>
        if id.Some? { current := id; }
        if id.Some? && id == cancelled { return; }
        if audio != [] && streaming { messages := [Media(audio)]; }
      case TerminalTool => closing := true;
      case Done =>
        active := false;
        if closing {
          messages := [EndCall];
          stopped := true;
        }
      case Other =>
    }

    /** The locked part of `send_or_queue_tool_result`: what the caller must now send itself. */
    method DecideToolResult(run: nat) returns (toSend: seq<nat>)
      modifies this`ready
      ensures if active then toSend == [] && ready == old(ready) + [run]
              else toSend == [run] && ready == old(ready)
    {
      toSend := [];
      if active { ready := ready + [run]; } else { toSend := [run]; }
    }

    /** The locked part of `flush_ready_tool_results`. */
    method TakeReady() returns (toSend: seq<nat>)
      modifies this`ready
      ensures toSend == old(ready) && ready == []
    {
      toSend := ready;
      ready := [];
    }
  }
}
