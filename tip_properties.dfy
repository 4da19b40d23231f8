/**
 * What sendTip promises, proved about the functions that specify it (SendTipRun and its stages):
 * the order of the wallet requests, one response per request, where the recipient check and the
 * amount parse sit, the call-to-action writes of each outcome, and the payload it submits.
 */
module TipProperties {
  import opened Results
  import opened JsText
  import opened AddressValidator
  import opened AmountCodec
  import opened TransferCall
  import opened Tipping

  // ------------------------------------------------------------------ timeline algebra

  /** Every request of the timeline goes to provider src. */
  predicate AllTo(events: seq<Event>, src: ProviderSource) {
    forall i :: 0 <= i < |events| && events[i].Requested? ==> events[i].provider == src
  }

  /** Where the last element of a concatenation and the rest of it come from. */
  lemma DropLastOfAppend<T>(a: seq<T>, b: seq<T>)
    requires b != []
    ensures (a + b)[..|a + b| - 1] == a + b[..|b| - 1] && (a + b)[|a + b| - 1] == b[|b| - 1]
  {
  }

  lemma TimelineAppend(a: seq<Event>, b: seq<Event>)
    ensures Requests(a + b) == Requests(a) + Requests(b)
    ensures CtaWrites(a + b) == CtaWrites(a) + CtaWrites(b)
  {
    RequestsAppend(a, b);
    WritesAppend(a, b);
  }

  lemma {:induction false} RequestsAppend(a: seq<Event>, b: seq<Event>)
    ensures Requests(a + b) == Requests(a) + Requests(b)
    decreases |b|
  {
    if b == [] {
      assert a + b == a;
    } else {
      var b' := b[..|b| - 1];
      DropLastOfAppend(a, b);
      RequestsAppend(a, b');
      assert Requests(a + b) == Requests(a + b') + RequestOf(b[|b| - 1]);
    }
  }

  lemma {:induction false} WritesAppend(a: seq<Event>, b: seq<Event>)
    ensures CtaWrites(a + b) == CtaWrites(a) + CtaWrites(b)
    decreases |b|
  {
    if b == [] {
      assert a + b == a;
    } else {
      var b' := b[..|b| - 1];
      DropLastOfAppend(a, b);
      WritesAppend(a, b');
      assert CtaWrites(a + b) == CtaWrites(a + b') + WriteOf(b[|b| - 1]);
    }
  }

  lemma TimelineSingle(e: Event)
    ensures Requests([e]) == RequestOf(e) && CtaWrites([e]) == WriteOf(e)
  {
    assert [e][..0] == [];
  }

  lemma TimelinePair(e1: Event, e2: Event)
    ensures Requests([e1, e2]) == RequestOf(e1) + RequestOf(e2)
    ensures CtaWrites([e1, e2]) == WriteOf(e1) + WriteOf(e2)
  {
    TimelineSingle(e1);
    assert [e1, e2][..1] == [e1];
  }

  lemma TimelineTriple(e1: Event, e2: Event, e3: Event)
    ensures Requests([e1, e2, e3]) == RequestOf(e1) + RequestOf(e2) + RequestOf(e3)
    ensures CtaWrites([e1, e2, e3]) == WriteOf(e1) + WriteOf(e2) + WriteOf(e3)
  {
    TimelinePair(e1, e2);
    assert [e1, e2, e3][..2] == [e1, e2];
  }

  /** A timeline of requests only writes nothing, and its requests are its events' requests. */
  lemma {:induction false} RequestsOnlyTimeline(events: seq<Event>)
    requires RequestsOnly(events)
    ensures CtaWrites(events) == [] && |Requests(events)| == |events|
    decreases |events|
  {
    if events != [] {
      RequestsOnlyTimeline(events[..|events| - 1]);
    }
  }

  /** The call-to-action after a timeline is its last write, or the start where it writes nothing. */
  lemma {:induction false} CtaAfterLastWrite(start: Cta, events: seq<Event>)
    ensures var w := CtaWrites(events);
      CtaAfter(start, events) == if w == [] then start else w[|w| - 1]
    decreases |events|
  {
    if events != [] {
      CtaAfterLastWrite(start, events[..|events| - 1]);
    }
  }

  // ------------------------------------------------------------------ the network stage

  /** The wallet answered eth_chainId with something other than Base: ensureBaseMainnet asks to switch. */
  predicate Switched(wallet: seq<Response>) {
    wallet != [] && wallet[0].Answer? && wallet[0].value != JStr(BASE_MAINNET_CHAIN_ID)
  }

  /** The requests ensureBaseMainnet makes. */
  function NetworkRequests(wallet: seq<Response>): seq<Request> {
    [ChainIdQuery] + if Switched(wallet) then [SwitchChain(BASE_MAINNET_CHAIN_ID)] else []
  }

  function StageEvents(n: Stage): seq<Event> {
    if n.Proceed? then n.events else n.run.events
  }

  /** ensureBaseMainnet asks eth_chainId on src, then a switch to 0x2105 only when the answer is another chain. */
  lemma NetworkTimeline(src: ProviderSource, wallet: seq<Response>)
    ensures var ev := StageEvents(NetworkStage(src, wallet));
      RequestsOnly(ev) && AllTo(ev, src) && Requests(ev) == NetworkRequests(wallet)
      && |ev| == |NetworkRequests(wallet)|
  {
    var ask := Requested(src, ChainIdQuery);
    var ev := StageEvents(NetworkStage(src, wallet));
    if Switched(wallet) {
      var sw := Requested(src, SwitchChain(BASE_MAINNET_CHAIN_ID));
      assert ev == [ask, sw];
      TimelinePair(ask, sw);
    } else {
      assert ev == [ask];
      TimelineSingle(ask);
    }
  }

  /** One response per request: the network stage hands on the responses after its own, or ends Pending on the first it lacks. */
  lemma NetworkCounts(src: ProviderSource, wallet: seq<Response>)
    ensures var n := NetworkStage(src, wallet); var ev := StageEvents(n);
      (n.Proceed? ==> |ev| <= |wallet| && n.rest == wallet[|ev|..])
      && (n.Halt? ==> |ev| <= |wallet| + 1 && (n.run.outcome == Pending <==> |ev| == |wallet| + 1))
  {
  }

  /**
   * ensureBaseMainnet lets sendTip on exactly when the chain is Base or the switch succeeded, turns
   * a failed switch into WrongNetwork, and passes a failed eth_chainId on as it is.
   */
  lemma EnsureBaseMainnetCases(src: ProviderSource, wallet: seq<Response>)
    ensures var n := NetworkStage(src, wallet);
      (n.Proceed? <==> (wallet != [] && wallet[0].Answer?
                        && (wallet[0].value == JStr(BASE_MAINNET_CHAIN_ID) || (|wallet| >= 2 && wallet[1].Answer?))))
      && (n.Halt? && n.run.outcome == Failed(WrongNetwork) <==> Switched(wallet) && |wallet| >= 2 && wallet[1].Raise?)
      && (n.Halt? ==> (n.run.outcome == Pending || n.run.outcome == Failed(WrongNetwork)
                       || n.run.outcome == Failed(WalletFailure(wallet[0].error))))
  {
  }

  // ------------------------------------------------------------------ up to the payload

  type Checked = Result<(string, nat), TipError>

  /** sendTip up to the payload: the network requests, then eth_requestAccounts once the network is settled. */
  lemma PrepareRequests(env: Env, src: ProviderSource, wallet: seq<Response>, checked: Checked)
    ensures var p, n := Prepare(env, src, wallet, checked), NetworkStage(src, wallet);
      var ev := PreparedEvents(p);
      RequestsOnly(ev) && AllTo(ev, src) && |ev| == |Requests(ev)|
      && Requests(ev) == NetworkRequests(wallet) + (if n.Proceed? then [RequestAccounts] else [])
  {
    var n := NetworkStage(src, wallet);
    var p := Prepare(env, src, wallet, checked);
    NetworkTimeline(src, wallet);
    if n.Proceed? {
      var acc := Requested(src, RequestAccounts);
      var ev := n.events + [acc];
      assert PreparedEvents(p) == ev;
      TimelineSingle(acc);
      TimelineAppend(n.events, [acc]);
      assert RequestsOnly(ev) by {
        assert forall i :: 0 <= i < |n.events| ==> ev[i] == n.events[i];
      }
      RequestsOnlyTimeline(ev);
    } else {
      assert PreparedEvents(p) == n.run.events;
      RequestsOnlyTimeline(n.run.events);
    }
  }

  /** Still one response per request up to the payload, which is built only after an answer. */
  lemma PrepareCounts(env: Env, src: ProviderSource, wallet: seq<Response>, checked: Checked)
    ensures var p, n := Prepare(env, src, wallet, checked), NetworkStage(src, wallet);
      var ev := PreparedEvents(p);
      |ev| <= |wallet| + 1
      && (p.Stopped? ==> (p.run.outcome == Pending <==> |ev| == |wallet| + 1))
      && (p.Stopped? ==> p.run.outcome.Pending? || p.run.outcome.Failed?)
      && (p.Ready? ==> n.Proceed? && 1 <= |ev| <= |wallet| && p.rest == wallet[|ev|..] && wallet[|ev| - 1].Answer?)
  {
    var n := NetworkStage(src, wallet);
    NetworkCounts(src, wallet);
    if n.Halt? {
      EnsureBaseMainnetCases(src, wallet);
      assert Prepare(env, src, wallet, checked) == Stopped(n.run);
    } else {
      var p := Prepare(env, src, wallet, checked);
      assert |PreparedEvents(p)| == |n.events| + 1;
      AccountsCounts(env, wallet, n.events, n.rest, checked);
    }
  }

  /** The accounts step consumes the response after the network stage's, if there is one. */
  lemma AccountsCounts(env: Env, wallet: seq<Response>, ev: seq<Event>, rest: seq<Response>, checked: Checked)
    requires |ev| <= |wallet| && rest == wallet[|ev|..]
    ensures var r, k := FromAccounts(env, Head(rest), checked), |ev| + 1;
      (r.Err? ==> (r.error == Pending <==> k == |wallet| + 1) && (r.error.Pending? || r.error.Failed?))
      && (r.Ok? ==> k <= |wallet| && Tail(rest) == wallet[k..] && wallet[k - 1].Answer?)
  {
    FromAccountsEnds(env, Head(rest), checked);
    if rest != [] {
      assert wallet[|ev|] == rest[0];
      assert Tail(rest) == wallet[|ev| + 1..];
    }
  }

  /**
   * The accounts step ends the run Pending exactly when eth_requestAccounts never settles; otherwise
   * it ends it Failed. An answer without a truthy first account is NoAccount, and unless the checks
   * themselves said NoAccount, that is the only way to NoAccount.
   */
  lemma FromAccountsEnds(env: Env, reply: Option<Response>, checked: Checked)
    ensures var r := FromAccounts(env, reply, checked);
      (r == Err(Pending) <==> reply == None) && (r.Err? ==> r.error.Pending? || r.error.Failed?)
      && (r.Err? && r.error.Failed? && (r.error.error.BadRecipient? || r.error.error.BadAmount?) ==>
            checked == Err(r.error.error))
    ensures var r := FromAccounts(env, reply, checked);
      (reply.Some? && reply.value.Answer? && !Truthy(FirstAccount(reply.value.value)) ==> r == Err(Failed(NoAccount)))
      && (r == Err(Failed(NoAccount)) && checked != Err(NoAccount) ==>
            reply.Some? && reply.value.Answer? && !Truthy(FirstAccount(reply.value.value)))
  {
  }

  /** The reply to eth_requestAccounts, when the network stage let the run get that far. */
  function AccountsReply(src: ProviderSource, wallet: seq<Response>): Option<Response> {
    var n := NetworkStage(src, wallet);
    if n.Proceed? then Head(n.rest) else None
  }

  /** The reply is an answer whose first account is falsy. */
  predicate NoAccountIn(reply: Option<Response>) {
    reply.Some? && reply.value.Answer? && !Truthy(FirstAccount(reply.value.value))
  }

  /**
   * Preparation stops with NoAccount when eth_requestAccounts is answered without a truthy first
   * account, and (unless the checks themselves said NoAccount) only then; such a stop has made the
   * network requests and eth_requestAccounts, and nothing else.
   */
  lemma PrepareNoAccount(env: Env, src: ProviderSource, wallet: seq<Response>, checked: Checked)
    ensures var p := Prepare(env, src, wallet, checked);
      (NoAccountIn(AccountsReply(src, wallet)) ==> p == Stopped(p.run) && p.run.outcome == Failed(NoAccount))
      && (p.Stopped? && p.run.outcome == Failed(NoAccount) && checked != Err(NoAccount) ==>
            NoAccountIn(AccountsReply(src, wallet)))
    ensures var p := Prepare(env, src, wallet, checked);
      p.Stopped? && p.run.outcome == Failed(NoAccount) && checked != Err(NoAccount) ==>
        RequestsOnly(p.run.events) && Requests(p.run.events) == NetworkRequests(wallet) + [RequestAccounts]
  {
    var n := NetworkStage(src, wallet);
    EnsureBaseMainnetCases(src, wallet);
    PrepareRequests(env, src, wallet, checked);
    if n.Proceed? {
      FromAccountsEnds(env, Head(n.rest), checked);
    }
  }

  /**
   * What sendTip does with the checks once the accounts are in: a payload only for a truthy first
   * account and inputs that pass, built from them; a failed check stops the run with its error,
   * and only once the network and the accounts are through.
   */
  lemma PrepareChecks(env: Env, src: ProviderSource, wallet: seq<Response>, checked: Checked)
    ensures var p, n := Prepare(env, src, wallet, checked), NetworkStage(src, wallet);
      var k := |PreparedEvents(p)|;
      (p.Ready? ==> (1 <= k <= |wallet| && wallet[k - 1].Answer? && checked.Ok?
           && Truthy(FirstAccount(wallet[k - 1].value))
           && p.payload == BuildPayload(FirstAccount(wallet[k - 1].value), checked.value.0,
                                        checked.value.1, env.dataSuffix)))
      && (p.Stopped? && p.run.outcome.Failed? && (p.run.outcome.error.BadRecipient? || p.run.outcome.error.BadAmount?) ==>
           checked == Err(p.run.outcome.error) && n.Proceed?
           && 1 <= k <= |wallet| && wallet[k - 1].Answer? && Truthy(FirstAccount(wallet[k - 1].value)))
  {
    var n := NetworkStage(src, wallet);
    NetworkCounts(src, wallet);
    EnsureBaseMainnetCases(src, wallet);
    if n.Proceed? {
      AccountsChecks(env, wallet, n.events, n.rest, checked);
      assert |PreparedEvents(Prepare(env, src, wallet, checked))| == |n.events| + 1;
    }
  }

  /** The accounts step read at position |ev| of the script: what a payload or a failed check needs. */
  lemma AccountsChecks(env: Env, wallet: seq<Response>, ev: seq<Event>, rest: seq<Response>, checked: Checked)
    requires |ev| <= |wallet| && rest == wallet[|ev|..]
    ensures var r, k := FromAccounts(env, Head(rest), checked), |ev| + 1;
      (r.Ok? ==> (k <= |wallet| && wallet[k - 1].Answer? && checked.Ok?
           && Truthy(FirstAccount(wallet[k - 1].value))
           && r.value == BuildPayload(FirstAccount(wallet[k - 1].value), checked.value.0,
                                      checked.value.1, env.dataSuffix)))
      && (r.Err? && r.error.Failed? && (r.error.error.BadRecipient? || r.error.error.BadAmount?) ==>
           checked == Err(r.error.error)
           && k <= |wallet| && wallet[k - 1].Answer? && Truthy(FirstAccount(wallet[k - 1].value)))
  {
    if rest != [] {
      assert wallet[|ev|] == rest[0];
    }
  }

  // ------------------------------------------------------------------ the submission

  /** How sendTip reads the wallet_sendCalls response: a result is a delivery, a rejection a cancel, anything else a failure. */
  function Settle(r: Response): Outcome {
    match r
    case Answer(v) => Delivered(v)
    case Raise(e) => if IsUserRejection(e) then Cancelled else Failed(WalletFailure(e))
  }

  const PREPARING: Cta := Cta(CTA_PREPARING, true)
  const CONFIRM: Cta := Cta(CTA_CONFIRM, true)
  const SENDING: Cta := Cta(CTA_SENDING, true)
  const DONE: Cta := Cta(CTA_DONE, false)
  const IDLE: Cta := Cta(CTA_IDLE, false)

  /** The setCta writes of a run that reached wallet_sendCalls, by its outcome. */
  function SubmitWrites(o: Outcome): seq<Cta> {
    if o.Pending? then [PREPARING, CONFIRM]
    else if o.Delivered? then [PREPARING, CONFIRM, SENDING, DONE]
    else [PREPARING, CONFIRM, IDLE]
  }

  /** The submission's first three events: two busy CTA texts, then wallet_sendCalls. */
  lemma SubmitOpening(src: ProviderSource, payload: Payload)
    ensures var ev := [CtaSet(CTA_PREPARING, true), CtaSet(CTA_CONFIRM, true), Requested(src, SendCalls(payload))];
      AllTo(ev, src) && Requests(ev) == [SendCalls(payload)] && CtaWrites(ev) == [PREPARING, CONFIRM]
  {
    TimelineTriple(CtaSet(CTA_PREPARING, true), CtaSet(CTA_CONFIRM, true), Requested(src, SendCalls(payload)));
  }

  /** Two CTA writes and no request. */
  lemma TwoWrites(a: Cta, b: Cta)
    ensures var ev := [CtaSet(a.text, a.busy), CtaSet(b.text, b.busy)];
      Requests(ev) == [] && CtaWrites(ev) == [a, b]
  {
    var e1, e2 := CtaSet(a.text, a.busy), CtaSet(b.text, b.busy);
    TimelineSingle(e1);
    TimelineSingle(e2);
    TimelineAppend([e1], [e2]);
    assert [e1] + [e2] == [e1, e2];
  }

  /**
   * The submission: "Preparing tip…" and "Confirm in wallet" (both busy), one wallet_sendCalls on
   * src with the payload, and then the CTA writes of its outcome.
   */
  lemma SubmitTimeline(src: ProviderSource, payload: Payload, wallet: seq<Response>)
    ensures var s := Submit(src, payload, wallet);
      AllTo(s.events, src) && Requests(s.events) == [SendCalls(payload)]
      && CtaWrites(s.events) == SubmitWrites(s.outcome)
      && |s.events| >= 3 && s.events[0] == CtaSet(CTA_PREPARING, true)
  {
    var s := Submit(src, payload, wallet);
    var ev := [CtaSet(CTA_PREPARING, true), CtaSet(CTA_CONFIRM, true), Requested(src, SendCalls(payload))];
    SubmitOpening(src, payload);
    if wallet == [] {
      assert s.events == ev;
    } else if wallet[0].Answer? {
      var tail := [CtaSet(CTA_SENDING, true), CtaSet(CTA_DONE, false)];
      TwoWrites(SENDING, DONE);
      TimelineAppend(ev, tail);
      assert s.events == ev + tail;
    } else {
      var e4 := CtaSet(CTA_IDLE, false);
      TimelineSingle(e4);
      TimelineAppend(ev, [e4]);
      assert s.events == ev + [e4];
    }
  }

  /** The submission fails only with the wallet's own error. */
  lemma SubmitFailsOnlyInWallet(src: ProviderSource, payload: Payload, wallet: seq<Response>)
    ensures var o := Submit(src, payload, wallet).outcome;
      o.Pending? || o.Delivered? || o.Cancelled? || (o.Failed? && o.error.WalletFailure?)
  {
  }

  /** The response to wallet_sendCalls decides the outcome; without one the run is Pending. */
  lemma SubmitOutcome(src: ProviderSource, payload: Payload, wallet: seq<Response>)
    ensures var s := Submit(src, payload, wallet);
      (s.outcome == Pending <==> wallet == []) && (wallet != [] ==> s.outcome == Settle(wallet[0]))
  {
  }

  // ------------------------------------------------------------------ a whole run on one provider

  /** The requests of a run on provider src: the network ones, the accounts, and the calls if a payload was built. */
  lemma SentRequests(env: Env, src: ProviderSource, wallet: seq<Response>, checked: Checked)
    ensures var r, p, n := Sent(env, src, wallet, checked), Prepare(env, src, wallet, checked), NetworkStage(src, wallet);
      Requests(r.events) == NetworkRequests(wallet) + (if n.Proceed? then [RequestAccounts] else [])
                            + (if p.Ready? then [SendCalls(p.payload)] else [])
      && CtaWrites(r.events) == (if p.Ready? then SubmitWrites(r.outcome) else [])
  {
    var p := Prepare(env, src, wallet, checked);
    var ev := PreparedEvents(p);
    var s := SubmitOf(src, p);
    PrepareRequests(env, src, wallet, checked);
    RequestsOnlyTimeline(ev);
    TimelineAppend(ev, s.events);
    if p.Ready? {
      SubmitTimeline(src, p.payload, p.rest);
    } else {
      assert s.events == [];
    }
  }

  /** Every request of a run goes to the provider getProvider chose. */
  lemma SentAllTo(env: Env, src: ProviderSource, wallet: seq<Response>, checked: Checked)
    ensures AllTo(Sent(env, src, wallet, checked).events, src)
  {
    var p := Prepare(env, src, wallet, checked);
    var ev := PreparedEvents(p);
    var s := SubmitOf(src, p);
    PrepareRequests(env, src, wallet, checked);
    if p.Ready? {
      SubmitTimeline(src, p.payload, p.rest);
    }
    forall i | 0 <= i < |ev + s.events| && (ev + s.events)[i].Requested?
      ensures (ev + s.events)[i].provider == src
    {
      if i >= |ev| {
        assert (ev + s.events)[i] == s.events[i - |ev|];
      }
    }
  }

  /** A run makes nothing but requests up to eth_requestAccounts, and its first CTA write comes right after. */
  lemma SentOpening(env: Env, src: ProviderSource, wallet: seq<Response>, checked: Checked)
    ensures var r, p := Sent(env, src, wallet, checked), Prepare(env, src, wallet, checked);
      var k := |PreparedEvents(p)|;
      k <= |r.events| && RequestsOnly(r.events[..k])
      && (p.Ready? ==> k < |r.events| && r.events[k] == CtaSet(CTA_PREPARING, true)
                       && r.events[k - 1] == Requested(src, RequestAccounts))
  {
    var p := Prepare(env, src, wallet, checked);
    var ev := PreparedEvents(p);
    var s := SubmitOf(src, p);
    PrepareRequests(env, src, wallet, checked);
    assert (ev + s.events)[..|ev|] == ev;
    if p.Ready? {
      SubmitTimeline(src, p.payload, p.rest);
      assert ev == NetworkStage(src, wallet).events + [Requested(src, RequestAccounts)];
    }
  }

  /**
   * One response per request: a run never makes more than one request beyond the responses, it is
   * Pending exactly when it made that one, and once it reached wallet_sendCalls the response to
   * its last request decides the outcome.
   */
  lemma SentCounts(env: Env, src: ProviderSource, wallet: seq<Response>, checked: Checked)
    ensures var r, p := Sent(env, src, wallet, checked), Prepare(env, src, wallet, checked);
      var c := |Requests(r.events)|;
      1 <= c <= |wallet| + 1 && (r.outcome == Pending <==> c == |wallet| + 1)
      && (p.Ready? && c <= |wallet| ==> r.outcome == Settle(wallet[c - 1]))
      && (p.Stopped? ==> r.outcome.Pending? || r.outcome.Failed?)
  {
    var p := Prepare(env, src, wallet, checked);
    PrepareRequests(env, src, wallet, checked);
    PrepareCounts(env, src, wallet, checked);
    SentRequests(env, src, wallet, checked);
    if p.Ready? {
      SubmitOutcome(src, p.payload, p.rest);
      var k := |PreparedEvents(p)|;
      assert |Requests(Sent(env, src, wallet, checked).events)| == k + 1;
      assert p.rest != [] ==> p.rest[0] == wallet[k];
    }
  }

  // ------------------------------------------------------------------ sendTip as a whole

  /** CheckInputs fails with the recipient error first, then the amount error, and passes the recipient and units on. */
  lemma CheckInputsCases(cfg: Config, amountUsd: string)
    ensures var c := CheckInputs(cfg, amountUsd);
      (c.Ok? <==> ValidateRecipientOrThrow(cfg.recipient).Ok? && ParseUsdToUsdcUnits(amountUsd).Ok?)
      && (c.Ok? ==> c.value == (cfg.recipient, ParseUsdToUsdcUnits(amountUsd).value))
      && (c.Err? ==> (c.error.BadRecipient? && ValidateRecipientOrThrow(cfg.recipient) == Err(c.error.addressError))
                     || (c.error.BadAmount? && ValidateRecipientOrThrow(cfg.recipient).Ok?
                         && ParseUsdToUsdcUnits(amountUsd) == Err(c.error.amountError)))
  {
  }

  /** Gated off, sendTip returns at once: no request, no CTA write. */
  lemma SendTipGated(cfg: Config, env: Env, wallet: seq<Response>, amountUsd: string)
    ensures !CanSendTips(cfg) ==> SendTipRun(cfg, env, wallet, amountUsd) == TipRun(Skipped, [])
    ensures CanSendTips(cfg) && ChooseProvider(env).Err? ==>
      SendTipRun(cfg, env, wallet, amountUsd) == TipRun(Failed(NoProvider), [])
    ensures CanSendTips(cfg) && ChooseProvider(env).Ok? ==>
      SendTipRun(cfg, env, wallet, amountUsd) == Sent(env, ChooseProvider(env).value, wallet, CheckInputs(cfg, amountUsd))
  {
  }

  /** The JSON-RPC method of a request. */
  datatype Method = EthChainId | WalletSwitchEthereumChain | EthRequestAccounts | WalletSendCalls

  function MethodOf(r: Request): Method {
    match r
    case ChainIdQuery => EthChainId
    case SwitchChain(_) => WalletSwitchEthereumChain
    case RequestAccounts => EthRequestAccounts
    case SendCalls(_) => WalletSendCalls
  }

  function Methods(rs: seq<Request>): seq<Method> {
    seq(|rs|, i requires 0 <= i < |rs| => MethodOf(rs[i]))
  }

  /** The methods in the order sendTip calls them; the switch only when the chain was not Base. */
  function ProtocolMethods(switched: bool): seq<Method> {
    [EthChainId] + (if switched then [WalletSwitchEthereumChain] else []) + [EthRequestAccounts, WalletSendCalls]
  }

  lemma MethodsAppend(a: seq<Request>, b: seq<Request>)
    ensures Methods(a + b) == Methods(a) + Methods(b)
  {
    assert forall i :: 0 <= i < |b| ==> (a + b)[|a| + i] == b[i];
  }

  function ProtocolPrefix(switched: bool, accounts: bool, send: Option<Payload>): seq<Request> {
    [ChainIdQuery] + (if switched then [SwitchChain(BASE_MAINNET_CHAIN_ID)] else [])
    + (if accounts then [RequestAccounts] else []) + (if send.Some? then [SendCalls(send.value)] else [])
  }

  /** The request lists a run can make follow the protocol; the switch is there exactly when asked for. */
  lemma ProtocolPrefixMethods(switched: bool, accounts: bool, send: Option<Payload>)
    requires send.Some? ==> accounts
    ensures var rs := ProtocolPrefix(switched, accounts, send);
      Methods(rs) <= ProtocolMethods(switched)
      && (WalletSwitchEthereumChain in Methods(rs) <==> switched)
      && (EthRequestAccounts in Methods(rs) <==> accounts)
      && (WalletSendCalls in Methods(rs) <==> send.Some?)
      && (forall i :: 0 <= i < |rs| && rs[i].SwitchChain? ==> rs[i].chainId == BASE_MAINNET_CHAIN_ID)
  {
    var net := [ChainIdQuery] + (if switched then [SwitchChain(BASE_MAINNET_CHAIN_ID)] else []);
    var tail := (if accounts then [RequestAccounts] else []) + (if send.Some? then [SendCalls(send.value)] else []);
    var rs := ProtocolPrefix(switched, accounts, send);
    assert rs == net + tail;
    MethodsAppend(net, tail);
    NetworkMethods(switched);
    TailMethods(accounts, send);
    var sw := if switched then [WalletSwitchEthereumChain] else [];
    assert ProtocolMethods(switched) == ([EthChainId] + sw) + [EthRequestAccounts, WalletSendCalls];
    assert forall i :: 0 <= i < |rs| && rs[i].SwitchChain? ==> i < |net|;
  }

  /** The network half of the protocol: eth_chainId, then the switch to Base when asked for. */
  lemma NetworkMethods(switched: bool)
    ensures var net := [ChainIdQuery] + (if switched then [SwitchChain(BASE_MAINNET_CHAIN_ID)] else []);
      Methods(net) == [EthChainId] + (if switched then [WalletSwitchEthereumChain] else [])
      && forall i :: 0 <= i < |net| && net[i].SwitchChain? ==> net[i].chainId == BASE_MAINNET_CHAIN_ID
  {
  }

  /** The rest: eth_requestAccounts, then wallet_sendCalls, neither a switch. */
  lemma TailMethods(accounts: bool, send: Option<Payload>)
    requires send.Some? ==> accounts
    ensures var tail := (if accounts then [RequestAccounts] else []) + (if send.Some? then [SendCalls(send.value)] else []);
      var ms := Methods(tail);
      ms <= [EthRequestAccounts, WalletSendCalls]
      && (EthRequestAccounts in ms <==> accounts) && (WalletSendCalls in ms <==> send.Some?)
      && forall i :: 0 <= i < |tail| ==> !tail[i].SwitchChain?
  {
    var acc := if accounts then [RequestAccounts] else [];
    var snd := if send.Some? then [SendCalls(send.value)] else [];
    MethodsAppend(acc, snd);
    assert Methods(acc + snd)
      == (if accounts then [EthRequestAccounts] else []) + (if send.Some? then [WalletSendCalls] else []);
  }

  /** The requests of a run on one provider, as a prefix of the protocol. */
  lemma SentProtocol(env: Env, src: ProviderSource, wallet: seq<Response>, checked: Checked)
    ensures var p, n := Prepare(env, src, wallet, checked), NetworkStage(src, wallet);
      Requests(Sent(env, src, wallet, checked).events)
        == ProtocolPrefix(Switched(wallet), n.Proceed?, if p.Ready? then Some(p.payload) else None)
      && (p.Ready? ==> n.Proceed?)
  {
    SentRequests(env, src, wallet, checked);
    PrepareCounts(env, src, wallet, checked);
  }

  /**
   * sendTip's requests: none when sending is gated off or there is no provider; otherwise, in order
   * and each at most once, eth_chainId, wallet_switchEthereumChain (exactly when the chain was not
   * Base, and always to 0x2105), eth_requestAccounts and wallet_sendCalls, all to the chosen
   * provider, stopping wherever the run ends.
   */
  lemma RequestOrder(cfg: Config, env: Env, wallet: seq<Response>, amountUsd: string)
    ensures var run := SendTipRun(cfg, env, wallet, amountUsd); var rs := Requests(run.events);
      (rs == [] <==> !CanSendTips(cfg) || ChooseProvider(env).Err?)
      && Methods(rs) <= ProtocolMethods(Switched(wallet))
      && (WalletSwitchEthereumChain in Methods(rs) <==> rs != [] && Switched(wallet))
      && (forall i :: 0 <= i < |rs| && rs[i].SwitchChain? ==> rs[i].chainId == BASE_MAINNET_CHAIN_ID)
      && (ChooseProvider(env).Ok? ==> AllTo(run.events, ChooseProvider(env).value))
  {
    SendTipGated(cfg, env, wallet, amountUsd);
    if !CanSendTips(cfg) || ChooseProvider(env).Err? {
      assert Requests([]) == [];
    } else {
      var src, checked := ChooseProvider(env).value, CheckInputs(cfg, amountUsd);
      var p, n := Prepare(env, src, wallet, checked), NetworkStage(src, wallet);
      SentProtocol(env, src, wallet, checked);
      ProtocolPrefixMethods(Switched(wallet), n.Proceed?, if p.Ready? then Some(p.payload) else None);
      SentAllTo(env, src, wallet, checked);
    }
  }

  /**
   * One response per request: a run makes at most one request more than there are responses; it
   * is Pending exactly when it made that one; and a run that reached wallet_sendCalls ends as the
   * response to it says.
   */
  predicate AnswersRequests(run: TipRun, wallet: seq<Response>) {
    var rs := Requests(run.events);
    |rs| <= |wallet| + 1 && (run.outcome == Pending <==> |rs| == |wallet| + 1)
    && (rs != [] && rs[|rs| - 1].SendCalls? && |rs| <= |wallet| ==> run.outcome == Settle(wallet[|rs| - 1]))
  }

  lemma SentAnswersRequests(env: Env, src: ProviderSource, wallet: seq<Response>, checked: Checked)
    ensures AnswersRequests(Sent(env, src, wallet, checked), wallet)
  {
    SentProtocol(env, src, wallet, checked);
    SentCounts(env, src, wallet, checked);
  }

  /** sendTip answers one request with one response. */
  lemma OneResponsePerRequest(cfg: Config, env: Env, wallet: seq<Response>, amountUsd: string)
    ensures AnswersRequests(SendTipRun(cfg, env, wallet, amountUsd), wallet)
  {
    SendTipGated(cfg, env, wallet, amountUsd);
    if !CanSendTips(cfg) || ChooseProvider(env).Err? {
      assert Requests([]) == [];
    } else {
      SentAnswersRequests(env, ChooseProvider(env).value, wallet, CheckInputs(cfg, amountUsd));
    }
  }

  /**
   * The CTA writes of each outcome: a delivery goes "Preparing tip…", "Confirm in wallet",
   * "Sending…" (all busy) to "Send again"; a rejection and a wallet failure after the submission
   * end on "Send USDC", not busy; a run that stops earlier, for whatever reason, writes nothing.
   */
  predicate WritesFitOutcome(run: TipRun) {
    var ws := CtaWrites(run.events);
    (run.outcome.Delivered? ==> ws == [PREPARING, CONFIRM, SENDING, DONE])
    && (run.outcome == Cancelled ==> ws == [PREPARING, CONFIRM, IDLE])
    && (run.outcome.Failed? && run.outcome.error.WalletFailure? ==> ws == [] || ws == [PREPARING, CONFIRM, IDLE])
    && (run.outcome.Failed? && !run.outcome.error.WalletFailure? ==> ws == [])
    && (run.outcome == Pending ==> ws == [] || ws == [PREPARING, CONFIRM])
    && (run.outcome == Skipped ==> ws == [])
  }

  lemma SentWrites(env: Env, src: ProviderSource, wallet: seq<Response>, checked: Checked)
    ensures WritesFitOutcome(Sent(env, src, wallet, checked))
  {
    var r, p := Sent(env, src, wallet, checked), Prepare(env, src, wallet, checked);
    SentRequests(env, src, wallet, checked);
    if p.Ready? {
      assert r.outcome == Submit(src, p.payload, p.rest).outcome;
      SubmitFailsOnlyInWallet(src, p.payload, p.rest);
      assert CtaWrites(r.events) == SubmitWrites(r.outcome);
    } else {
      SentCounts(env, src, wallet, checked);
      assert CtaWrites(r.events) == [];
    }
  }

  lemma CtaWritesByOutcome(cfg: Config, env: Env, wallet: seq<Response>, amountUsd: string)
    ensures WritesFitOutcome(SendTipRun(cfg, env, wallet, amountUsd))
  {
    SendTipGated(cfg, env, wallet, amountUsd);
    if !CanSendTips(cfg) || ChooseProvider(env).Err? {
      assert CtaWrites([]) == [];
    } else {
      SentWrites(env, ChooseProvider(env).value, wallet, CheckInputs(cfg, amountUsd));
    }
  }

  /**
   * Where the CTA ends: on "Send again" after a delivery, on "Send USDC" after a rejection, never
   * busy once the run has settled, and untouched by a run that wrote nothing.
   */
  lemma FinalCta(cfg: Config, env: Env, wallet: seq<Response>, amountUsd: string, start: Cta)
    ensures var run := SendTipRun(cfg, env, wallet, amountUsd); var after := CtaAfter(start, run.events);
      (run.outcome.Delivered? ==> after == DONE)
      && (run.outcome == Cancelled ==> after == IDLE)
      && (CtaWrites(run.events) == [] ==> after == start)
      && (run.outcome != Pending ==> after == start || !after.busy)
  {
    var run := SendTipRun(cfg, env, wallet, amountUsd);
    CtaWritesByOutcome(cfg, env, wallet, amountUsd);
    CtaAfterLastWrite(start, run.events);
  }

  /**
   * The recipient check and the amount parse come after the wallet calls: a run they stop has got
   * as far as a truthy first account from eth_requestAccounts and has written no CTA; a run that
   * writes the CTA passed both, and its first write comes right after eth_requestAccounts.
   */
  predicate ChecksAfterAccounts(run: TipRun, wallet: seq<Response>, checked: Checked) {
    var rs, ws, ev := Requests(run.events), CtaWrites(run.events), run.events;
    (run.outcome.Failed? && (run.outcome.error.BadRecipient? || run.outcome.error.BadAmount?) ==>
       checked == Err(run.outcome.error) && ws == [] && 2 <= |rs| <= |wallet| && rs[|rs| - 1] == RequestAccounts
       && wallet[|rs| - 1].Answer? && Truthy(FirstAccount(wallet[|rs| - 1].value)))
    && (ws != [] ==> checked.Ok? && exists k :: 0 < k < |ev| && RequestsOnly(ev[..k])
                                      && ev[k - 1].Requested? && ev[k - 1].request == RequestAccounts
                                      && ev[k] == CtaSet(CTA_PREPARING, true))
  }

  lemma SentChecksAfterAccounts(env: Env, src: ProviderSource, wallet: seq<Response>, checked: Checked)
    ensures ChecksAfterAccounts(Sent(env, src, wallet, checked), wallet, checked)
  {
    if Prepare(env, src, wallet, checked).Ready? {
      ChecksWhenReady(env, src, wallet, checked);
    } else {
      ChecksWhenStopped(env, src, wallet, checked);
    }
  }

  /** A run that built a payload passed both checks, and its first CTA write follows eth_requestAccounts. */
  lemma ChecksWhenReady(env: Env, src: ProviderSource, wallet: seq<Response>, checked: Checked)
    requires Prepare(env, src, wallet, checked).Ready?
    ensures ChecksAfterAccounts(Sent(env, src, wallet, checked), wallet, checked)
  {
    var r, p := Sent(env, src, wallet, checked), Prepare(env, src, wallet, checked);
    assert checked.Ok? by { PrepareChecks(env, src, wallet, checked); }
    assert !r.outcome.Failed? || r.outcome.error.WalletFailure? by {
      assert r.outcome == Submit(src, p.payload, p.rest).outcome;
      SubmitFailsOnlyInWallet(src, p.payload, p.rest);
    }
    SentOpening(env, src, wallet, checked);
    var k := |PreparedEvents(p)|;
    assert 0 < k < |r.events| && RequestsOnly(r.events[..k]) && r.events[k - 1].Requested?
      && r.events[k - 1].request == RequestAccounts && r.events[k] == CtaSet(CTA_PREPARING, true);
  }

  /** A run stopped before the payload writes no CTA; if a check stopped it, it got a truthy account first. */
  lemma ChecksWhenStopped(env: Env, src: ProviderSource, wallet: seq<Response>, checked: Checked)
    requires Prepare(env, src, wallet, checked).Stopped?
    ensures ChecksAfterAccounts(Sent(env, src, wallet, checked), wallet, checked)
  {
    var r, p := Sent(env, src, wallet, checked), Prepare(env, src, wallet, checked);
    assert r == p.run by {
      assert SubmitOf(src, p).events == [];
      assert r.events == PreparedEvents(p) + [];
    }
    PrepareRequests(env, src, wallet, checked);
    RequestsOnlyTimeline(r.events);
    if r.outcome.Failed? && (r.outcome.error.BadRecipient? || r.outcome.error.BadAmount?) {
      PrepareChecks(env, src, wallet, checked);
      var rs := Requests(r.events);
      assert |rs| == |r.events|;
      assert rs == NetworkRequests(wallet) + [RequestAccounts];
    }
  }

  lemma ChecksComeLast(cfg: Config, env: Env, wallet: seq<Response>, amountUsd: string)
    ensures ChecksAfterAccounts(SendTipRun(cfg, env, wallet, amountUsd), wallet, CheckInputs(cfg, amountUsd))
  {
    SendTipGated(cfg, env, wallet, amountUsd);
    if !CanSendTips(cfg) || ChooseProvider(env).Err? {
      assert CtaWrites([]) == [];
    } else {
      SentChecksAfterAccounts(env, ChooseProvider(env).value, wallet, CheckInputs(cfg, amountUsd));
    }
  }

  /**
   * A missing first account: a send fails with NoAccount exactly when it passed the gate, found a
   * provider, and eth_requestAccounts was answered without a truthy first account. Such a run has
   * made the network requests and eth_requestAccounts on that provider, and written no CTA.
   */
  lemma NoAccountRefused(cfg: Config, env: Env, wallet: seq<Response>, amountUsd: string)
    ensures var run := SendTipRun(cfg, env, wallet, amountUsd);
      run.outcome == Failed(NoAccount) <==>
        CanSendTips(cfg) && ChooseProvider(env).Ok? && NoAccountIn(AccountsReply(ChooseProvider(env).value, wallet))
    ensures var run := SendTipRun(cfg, env, wallet, amountUsd);
      run.outcome == Failed(NoAccount) ==>
        CtaWrites(run.events) == [] && RequestsOnly(run.events) && AllTo(run.events, ChooseProvider(env).value)
        && Requests(run.events) == NetworkRequests(wallet) + [RequestAccounts]
  {
    SendTipGated(cfg, env, wallet, amountUsd);
    if CanSendTips(cfg) && ChooseProvider(env).Ok? {
      var src, checked := ChooseProvider(env).value, CheckInputs(cfg, amountUsd);
      var p := Prepare(env, src, wallet, checked);
      assert checked != Err(NoAccount) by { CheckInputsCases(cfg, amountUsd); }
      PrepareNoAccount(env, src, wallet, checked);
      SentAllTo(env, src, wallet, checked);
      if p.Ready? {
        assert Sent(env, src, wallet, checked).outcome == Submit(src, p.payload, p.rest).outcome;
        SubmitFailsOnlyInWallet(src, p.payload, p.rest);
      } else {
        assert Sent(env, src, wallet, checked) == p.run by {
          assert SubmitOf(src, p).events == [];
          assert p.run.events + [] == p.run.events;
        }
        if p.run.outcome == Failed(NoAccount) {
          RequestsOnlyTimeline(p.run.events);
        }
      }
    }
  }

  /**
   * The wallet_sendCalls payload: version 2.0.0 on Base, atomic, from the truthy first account,
   * with the attribution suffix and exactly one call, to the USDC contract, of value 0x0, carrying
   * the transfer of the checked units to the checked recipient.
   */
  predicate SubmitsPayload(run: TipRun, env: Env, checked: Checked) {
    var rs := Requests(run.events);
    rs != [] && rs[|rs| - 1].SendCalls? ==>
      var p := rs[|rs| - 1].payload;
      checked.Ok? && p.version == CALLS_VERSION && p.chainId == BASE_MAINNET_CHAIN_ID && p.atomicRequired
      && Truthy(p.from) && p.dataSuffix == env.dataSuffix
      && p.calls == [Call(USDC_CONTRACT, "0x0", EncodeErc20TransferData(checked.value.0, checked.value.1))]
  }

  lemma SentPayload(env: Env, src: ProviderSource, wallet: seq<Response>, checked: Checked)
    ensures SubmitsPayload(Sent(env, src, wallet, checked), env, checked)
  {
    var p := Prepare(env, src, wallet, checked);
    var rs := Requests(Sent(env, src, wallet, checked).events);
    SentRequests(env, src, wallet, checked);
    if p.Ready? {
      PrepareChecks(env, src, wallet, checked);
      assert rs[|rs| - 1] == SendCalls(p.payload);
    } else {
      var tail := if NetworkStage(src, wallet).Proceed? then [RequestAccounts] else [];
      assert rs == NetworkRequests(wallet) + tail;
      assert !rs[|rs| - 1].SendCalls?;
    }
  }

  /**
   * What sendTip submits: only for a valid recipient and an amount that parses, one USDC transfer
   * of exactly the parsed units to the configured recipient, whose calldata decodes back to the
   * lower-cased recipient and the units whenever they fit a uint256 word.
   */
  lemma PayloadShape(cfg: Config, env: Env, wallet: seq<Response>, amountUsd: string)
    ensures var rs := Requests(SendTipRun(cfg, env, wallet, amountUsd).events);
      rs != [] && rs[|rs| - 1].SendCalls? ==>
        var p := rs[|rs| - 1].payload;
        ValidateRecipientOrThrow(cfg.recipient) == Ok(cfg.recipient) && ParseUsdToUsdcUnits(amountUsd).Ok?
        && p.version == CALLS_VERSION && p.chainId == BASE_MAINNET_CHAIN_ID && p.atomicRequired
        && Truthy(p.from) && p.dataSuffix == env.dataSuffix
        && var units := ParseUsdToUsdcUnits(amountUsd).value;
        p.calls == [Call(USDC_CONTRACT, "0x0", EncodeErc20TransferData(cfg.recipient, units))]
        && (units < Uint256Bound() ==>
              DecodeErc20TransferData(p.calls[0].data) == Some(("0x" + ToLower(cfg.recipient[2..]), units)))
  {
    RunSubmitsPayload(cfg, env, wallet, amountUsd);
    PayloadOfChecked(SendTipRun(cfg, env, wallet, amountUsd), cfg, env, amountUsd);
  }

  /** PayloadShape for any run that submits only what SubmitsPayload allows. */
  lemma PayloadOfChecked(run: TipRun, cfg: Config, env: Env, amountUsd: string)
    requires SubmitsPayload(run, env, CheckInputs(cfg, amountUsd))
    ensures var rs := Requests(run.events);
      rs != [] && rs[|rs| - 1].SendCalls? ==>
        var p := rs[|rs| - 1].payload;
        ValidateRecipientOrThrow(cfg.recipient) == Ok(cfg.recipient) && ParseUsdToUsdcUnits(amountUsd).Ok?
        && p.version == CALLS_VERSION && p.chainId == BASE_MAINNET_CHAIN_ID && p.atomicRequired
        && Truthy(p.from) && p.dataSuffix == env.dataSuffix
        && var units := ParseUsdToUsdcUnits(amountUsd).value;
        p.calls == [Call(USDC_CONTRACT, "0x0", EncodeErc20TransferData(cfg.recipient, units))]
        && (units < Uint256Bound() ==>
              DecodeErc20TransferData(p.calls[0].data) == Some(("0x" + ToLower(cfg.recipient[2..]), units)))
  {
    var rs := Requests(run.events);
    if rs != [] && rs[|rs| - 1].SendCalls? {
      var p, checked := rs[|rs| - 1].payload, CheckInputs(cfg, amountUsd);
      assert checked.Ok?;
      CheckedInputsEncode(cfg, amountUsd);
      var units := ParseUsdToUsdcUnits(amountUsd).value;
      assert checked.value == (cfg.recipient, units);
      assert p.calls[0].data == EncodeErc20TransferData(cfg.recipient, units);
    }
  }

  /** A whole run, gated or not, submits only what SubmitsPayload allows. */
  lemma RunSubmitsPayload(cfg: Config, env: Env, wallet: seq<Response>, amountUsd: string)
    ensures SubmitsPayload(SendTipRun(cfg, env, wallet, amountUsd), env, CheckInputs(cfg, amountUsd))
  {
    SendTipGated(cfg, env, wallet, amountUsd);
    if !CanSendTips(cfg) || ChooseProvider(env).Err? {
      assert Requests([]) == [];
    } else {
      SentPayload(env, ChooseProvider(env).value, wallet, CheckInputs(cfg, amountUsd));
    }
  }

  /** Inputs that pass the checks: the recipient as configured, the parsed units, and calldata that decodes back. */
  lemma CheckedInputsEncode(cfg: Config, amountUsd: string)
    requires CheckInputs(cfg, amountUsd).Ok?
    ensures ValidateRecipientOrThrow(cfg.recipient) == Ok(cfg.recipient) && ParseUsdToUsdcUnits(amountUsd).Ok?
    ensures var units := ParseUsdToUsdcUnits(amountUsd).value;
      CheckInputs(cfg, amountUsd).value == (cfg.recipient, units)
      && (units < Uint256Bound() ==>
            DecodeErc20TransferData(EncodeErc20TransferData(cfg.recipient, units))
              == Some(("0x" + ToLower(cfg.recipient[2..]), units)))
  {
    CheckInputsCases(cfg, amountUsd);
    ValidateRecipientCases(cfg.recipient);
    var units := ParseUsdToUsdcUnits(amountUsd).value;
    if units < Uint256Bound() {
      DecodeEncode(cfg.recipient, units);
    }
  }

  // ------------------------------------------------------------------ gating, rejection, the amount

  /** An address-like string has no 'T', so it never contains "TODO". */
  lemma AddressHasNoTodo(addr: string)
    requires IsAddressLike(addr)
    ensures !Includes(addr, "TODO")
  {
    forall i | 0 <= i < |addr| ensures addr[i] != 'T' {
      if i >= 2 {
        assert addr[i] == addr[2..][i - 2];
      }
    }
    NotIncludedWithoutFirstChar(addr, "TODO");
  }

  /** canSendTips: a builder code without "TODO" and an address-like recipient (which has no "TODO" in it). */
  lemma CanSendTipsIff(cfg: Config)
    ensures CanSendTips(cfg) <==>
      cfg.builderCode != [] && !Includes(cfg.builderCode, "TODO") && IsAddressLike(cfg.recipient)
  {
    if IsAddressLike(cfg.recipient) {
      AddressHasNoTodo(cfg.recipient);
    }
  }

  /**
   * The zero address passes canSendTips, so sending stays enabled; but every send is turned down
   * by validateRecipientOrThrow after the wallet calls, with no CTA write and no wallet_sendCalls.
   */
  lemma ZeroRecipientNeverSends(cfg: Config, env: Env, wallet: seq<Response>, amountUsd: string)
    requires cfg.recipient == ZERO_ADDRESS && cfg.builderCode != [] && !Includes(cfg.builderCode, "TODO")
    ensures CanSendTips(cfg) && CheckInputs(cfg, amountUsd) == Err(BadRecipient(ZeroAddress))
    ensures var run := SendTipRun(cfg, env, wallet, amountUsd);
      CtaWrites(run.events) == [] && WalletSendCalls !in Methods(Requests(run.events))
      && !run.outcome.Delivered? && run.outcome != Cancelled
  {
    assert IsAddressLike(ZERO_ADDRESS) by {
      assert ZERO_ADDRESS[2..] == Repeat('0', ADDRESS_HEX_DIGITS);
    }
    CanSendTipsIff(cfg);
    var checked := CheckInputs(cfg, amountUsd);
    SendTipGated(cfg, env, wallet, amountUsd);
    if ChooseProvider(env).Err? {
      assert Requests([]) == [] && CtaWrites([]) == [];
    } else {
      var src := ChooseProvider(env).value;
      var p, n := Prepare(env, src, wallet, checked), NetworkStage(src, wallet);
      PrepareChecks(env, src, wallet, checked);
      SentRequests(env, src, wallet, checked);
      SentCounts(env, src, wallet, checked);
      SentProtocol(env, src, wallet, checked);
      ProtocolPrefixMethods(Switched(wallet), n.Proceed?, None);
    }
  }

  /** sendTip's rejection test: code 4001, or "rejected" anywhere in the message in any case ("user rejected" adds nothing). */
  lemma RejectionIff(e: WalletError)
    ensures IsUserRejection(e) <==> e.code == Some(USER_REJECTED_CODE) || Includes(ToLower(e.message), "rejected")
  {
    if Includes(ToLower(e.message), "user rejected") {
      assert "user rejected" == "user " + "rejected";
      IncludesTail(ToLower(e.message), "user ", "rejected");
    }
  }

  /**
   * The amount the CTA sends, as parseUsdToUsdcUnits reads it: the custom text when it is not blank
   * (its surrounding whitespace makes no difference), otherwise the preset in whole dollars.
   */
  lemma AmountTextParse(custom: string, preset: nat)
    ensures Trim(custom) != [] ==> ParseUsdToUsdcUnits(AmountText(custom, preset)) == ParseUsdToUsdcUnits(custom)
    ensures Trim(custom) == [] ==>
      ParseUsdToUsdcUnits(AmountText(custom, preset)) == if preset == 0 then Err(NotPositive) else Ok(preset * UNITS_PER_USDC)
  {
    if Trim(custom) != [] {
      ParseOfTrimmed(custom);
    } else {
      var whole := NatToString(preset, 10);
      DecimalDigits(preset);
      ParseWhole(whole);
    }
  }

  lemma NoTodoWithoutT(s: string)
    requires forall i :: 0 <= i < |s| ==> s[i] != 'T'
    ensures !Includes(s, "TODO")
  {
    NotIncludedWithoutFirstChar(s, "TODO");
  }

  lemma BuilderCodeHasNoTodo()
    ensures !Includes(BUILDER_CODE, "TODO")
  {
    NoTodoWithoutT(BUILDER_CODE);
  }

  lemma RecipientHasNoTodo()
    ensures !Includes(RECIPIENT, "TODO")
  {
    NoTodoWithoutT(RECIPIENT);
  }

  lemma HexJoin(a: string, b: string)
    requires AllHex(a) && AllHex(b)
    ensures AllHex(a + b)
  {
    assert forall i :: 0 <= i < |b| ==> (a + b)[|a| + i] == b[i];
  }

  /** The recipient literal's hex digits, ten at a time. */
  lemma RecipientChunk0()
    ensures AllHex(RECIPIENT[2..12])
  {
    var w := RECIPIENT[2..12];
    assert forall i :: 0 <= i < 10 ==> w[i] == RECIPIENT[2 + i];
  }

  lemma RecipientChunk1()
    ensures AllHex(RECIPIENT[12..22])
  {
    var w := RECIPIENT[12..22];
    assert forall i :: 0 <= i < 10 ==> w[i] == RECIPIENT[12 + i];
  }

  lemma RecipientChunk2()
    ensures AllHex(RECIPIENT[22..32])
  {
    var w := RECIPIENT[22..32];
    assert forall i :: 0 <= i < 10 ==> w[i] == RECIPIENT[22 + i];
  }

  lemma RecipientChunk3()
    ensures AllHex(RECIPIENT[32..42])
  {
    var w := RECIPIENT[32..42];
    assert forall i :: 0 <= i < 10 ==> w[i] == RECIPIENT[32 + i];
  }

  /** A 42-character string is address-like when it opens with "0x" and its four ten-character runs are hex. */
  lemma AddressLikeByChunks(r: string)
    requires |r| == 42 && r[0] == '0' && r[1] == 'x'
    requires AllHex(r[2..12]) && AllHex(r[12..22]) && AllHex(r[22..32]) && AllHex(r[32..42])
    ensures IsAddressLike(r)
  {
    assert r[..2] == "0x";
    HexJoin(r[2..12], r[12..22]);
    HexJoin(r[22..32], r[32..42]);
    HexJoin(r[2..12] + r[12..22], r[22..32] + r[32..42]);
    assert r[2..] == r[2..12] + r[12..22] + (r[22..32] + r[32..42]);
  }

  lemma RecipientIsAddressLike()
    ensures IsAddressLike(RECIPIENT)
  {
    RecipientChunk0();
    RecipientChunk1();
    RecipientChunk2();
    RecipientChunk3();
    AddressLikeByChunks(RECIPIENT);
  }

  /** The shipped constants enable sending: neither contains "TODO" and the recipient is address-like. */
  lemma DefaultConfigEnabled()
    ensures CanSendTips(DEFAULT_CONFIG)
  {
    BuilderCodeHasNoTodo();
    RecipientHasNoTodo();
    RecipientIsAddressLike();
  }
}
