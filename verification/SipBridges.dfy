/** The port a call advertises and the one its media bridge listens on. */
module SipBridges {
  import opened Wrappers
  import opened Sip
  import opened SipEngine
  import opened SipEngineRuns
  import opened SipEngineEnds

  /** A pending invite keeps the port and the number of the setup that was started for it. */
  ghost predicate SetupsFiled(s: State) {
    forall c :: c in s.pending ==>
      s.pending[c].setup < |s.setups| && s.setups[s.pending[c].setup] == Setup(c, s.pending[c].port)
  }

  /** A setup task reports under the Call-ID and, if it succeeded, on the port it was started with. */
  predicate Reports(s: State, e: Event) {
    e.SetupDone? ==>
      && e.setup < |s.setups| && s.setups[e.setup].callId == e.callId
      && (e.bridgePort.Some? ==> e.bridgePort.value == s.setups[e.setup].port)
  }

  /** No invite of that Call-ID is pending, or the result is that of the setup started for it. */
  predicate Belongs(s: State, e: Event) {
    e.SetupDone? && e.callId in s.pending ==> s.pending[e.callId].setup == e.setup
  }

  lemma StepFilesSetups(cfg: Config, s: State, e: Event)
    requires SetupsFiled(s)
    ensures SetupsFiled(Step(cfg, s, e).state)
  {
    if s.running && e.Received? {
      RequestFilesSetups(cfg, s, e);
    } else if s.running && e.SetupDone? {
      SetupDialogs(cfg, s, e);
      SetupKeepsSetups(cfg, s, e);
    } else if s.running && e.Responded? {
      ResponseFrame(cfg, s, e);
    }
  }

  lemma RequestFilesSetups(cfg: Config, s: State, e: Event)
    requires SetupsFiled(s) && e.Received?
    ensures SetupsFiled(OnRequest(cfg, s, e).state)
  {
    if e.request.Some? && e.request.value.requestMethod == "INVITE" { InviteFilesSetups(cfg, s, e); }
  }

  lemma InviteFilesSetups(cfg: Config, s: State, e: Event)
    requires SetupsFiled(s) && e.Received? && e.request.Some?
    ensures SetupsFiled(OnInvite(cfg, s, e).state)
  {
    var c := CallIdOf(e.request.value);
    if c !in s.dialogs && c !in s.pending && c != MISSING_CALL_ID {
      var early, full, unusable := AdmitTexts(cfg, s, e);
      AdmitFilesSetup(cfg, s, e, early, full, unusable);
    }
  }

  lemma AdmitFilesSetup(cfg: Config, s: State, e: Event, early: seq<Datagram>, full: seq<Datagram>,
                        unusable: seq<Datagram>)
    requires SetupsFiled(s) && e.Received? && e.request.Some?
    ensures SetupsFiled(AdmitWith(cfg, s, e, early, full, unusable).state)
  {
  }

  lemma SetupKeepsSetups(cfg: Config, s: State, e: Event)
    requires e.SetupDone?
    ensures OnSetupDone(cfg, s, e).state.setups == s.setups
  {
  }

  lemma {:induction false} EveryRunFilesSetups(cfg: Config, es: seq<Event>)
    ensures SetupsFiled(Run(cfg, Init(), es))
  {
    if es != [] {
      EveryRunFilesSetups(cfg, es[..|es| - 1]);
      StepFilesSetups(cfg, Run(cfg, Init(), es[..|es| - 1]), es[|es| - 1]);
    }
  }

  /** The bridge of every open call listens on the port that its 200 OK advertises. */
  ghost predicate Bridged(s: State) { forall c :: c in s.dialogs ==> s.dialogs[c].bridgePort == s.dialogs[c].port }

  /** A result that opens the dialog of a pending invite whose port is not the one the result's setup was given. */
  predicate Misroutes(s: State, e: Event) {
    && s.running && e.SetupDone? && e.callId in s.pending && e.bridgePort.Some? && e.sendOk
    && Answerable(s.pending[e.callId].request) && !CrossedContact(s.pending[e.callId].request.headers)
    && e.bridgePort.value != s.pending[e.callId].port
  }

  /** A step leaves every call bridged exactly when it does not open one on a foreign port. */
  lemma BridgeStep(cfg: Config, s: State, e: Event)
    requires Bridged(s) && Booked(s)
    ensures Bridged(Step(cfg, s, e).state) <==> !Misroutes(s, e)
  {
    if s.running && e.Received? {
      RequestFrame(cfg, s, e);
    } else if s.running && e.SetupDone? {
      SetupBridged(cfg, s, e);
    } else {
      OtherFrame(cfg, s, e);
    }
  }

  lemma SetupBridged(cfg: Config, s: State, e: Event)
    requires Bridged(s) && Booked(s) && s.running && e.SetupDone?
    ensures Bridged(OnSetupDone(cfg, s, e).state) <==> !Misroutes(s, e)
  {
    if e.callId in s.pending {
      var p := s.pending[e.callId];
      RemoteUriIff(p.request);
      ConcludeBridged(cfg, s, e, ResponseText(p.request, 503, "Service Unavailable", Some(p.tag)),
                      OkText(p.request, p.tag, cfg.host, p.port), RemoteUri(p.request));
    }
  }

  lemma ConcludeBridged(cfg: Config, s: State, e: Event, refusal: Option<string>, okText: Option<string>,
                        remote: Option<string>)
    requires Bridged(s) && e.SetupDone? && e.callId in s.pending && e.callId !in s.dialogs
    requires okText.Some? ==> Answerable(s.pending[e.callId].request)
    ensures Bridged(Conclude(cfg, s, e, refusal, okText, remote).state) <==>
            !(&& e.bridgePort.Some? && e.sendOk && okText.Some? && remote.Some?
              && e.bridgePort.value != s.pending[e.callId].port)
  {
    var r := Conclude(cfg, s, e, refusal, okText, remote).state;
    if e.callId in r.dialogs { assert r.dialogs[e.callId].port == s.pending[e.callId].port; }
  }

  /** Along the whole run. */
  ghost predicate AlwaysBridged(run: Runner, es: seq<Event>) {
    forall i :: 0 <= i <= |es| ==> Bridged(run(es[..i]))
  }

  ghost predicate NeverMisroutes(run: Runner, es: seq<Event>) {
    forall i :: 0 <= i < |es| ==> !Misroutes(run(es[..i]), es[i])
  }

  lemma AlwaysBridgedBefore(run: Runner, es: seq<Event>, n: nat)
    requires |es| == n + 1
    ensures AlwaysBridged(run, es) <==> AlwaysBridged(run, es[..n]) && Bridged(run(es))
    ensures NeverMisroutes(run, es) <==> NeverMisroutes(run, es[..n]) && !Misroutes(run(es[..n]), es[n])
  {
    assert es[..n + 1] == es;
    forall i | 0 <= i <= n
      ensures Bridged(run(es[..i])) <==> Bridged(run(es[..n][..i]))
      ensures i < n ==> (Misroutes(run(es[..i]), es[i]) <==> Misroutes(run(es[..n][..i]), es[..n][i]))
    {
      assert es[..n][..i] == es[..i];
    }
  }

  /** All along a run each bridge is on the advertised port if and only if no step of the run misroutes. */
  lemma {:induction false} BridgedExactly(cfg: Config, es: seq<Event>)
    ensures AlwaysBridged(RunnerOf(cfg), es) <==> NeverMisroutes(RunnerOf(cfg), es)
  {
    if es != [] {
      var n := |es| - 1;
      BridgedExactly(cfg, es[..n]);
      AlwaysBridgedBefore(RunnerOf(cfg), es, n);
      if AlwaysBridged(RunnerOf(cfg), es[..n]) {
        assert es[..n][..n] == es[..n];
        EveryRunIsBooked(cfg, es[..n]);
        BridgeStep(cfg, Run(cfg, Init(), es[..n]), es[n]);
      }
    }
  }

  /** The result of the setup that was started for the pending invite never misroutes. */
  lemma OwnResultNeverMisroutes(s: State, e: Event)
    requires SetupsFiled(s) && Reports(s, e) && Belongs(s, e)
    ensures !Misroutes(s, e)
  {
  }

  /** No result meets an invite that was sent again under the same Call-ID. */
  ghost predicate OwnResults(run: Runner, es: seq<Event>) {
    forall i :: 0 <= i < |es| ==> Reports(run(es[..i]), es[i]) && Belongs(run(es[..i]), es[i])
  }

  /** On every run on which each result belongs to the invite it meets, each bridge is on the advertised port. */
  lemma OwnResultsKeepBridges(cfg: Config, es: seq<Event>)
    requires OwnResults(RunnerOf(cfg), es)
    ensures AlwaysBridged(RunnerOf(cfg), es)
  {
    forall i | 0 <= i < |es| ensures !Misroutes(Run(cfg, Init(), es[..i]), es[i]) {
      assert RunnerOf(cfg)(es[..i]) == Run(cfg, Init(), es[..i]);
      EveryRunFilesSetups(cfg, es[..i]);
      OwnResultNeverMisroutes(Run(cfg, Init(), es[..i]), es[i]);
    }
    BridgedExactly(cfg, es);
  }
}
