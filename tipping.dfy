/**
 * The tipping pipeline of the Yield-Vats mini app: send gating (canSendTips), the call-to-action
 * state (state.tip.cta / state.tip.busy, written by setCta), provider choice, network check and
 * the sendTip sequence of wallet requests ending in an EIP-5792 wallet_sendCalls.
 *
 * The wallet is a script of responses, one per request, in order. A request that finds the
 * script exhausted is an await that never settles: the run ends Pending with what it did so far.
 */
module Tipping {
  import opened Results
  import opened JsText
  import opened AddressValidator
  import opened AmountCodec
  import opened TransferCall

  // ------------------------------------------------------------------ constants

  /** Base mainnet, chain id 8453. */
  const BASE_MAINNET_CHAIN_ID: string := "0x2105"
  const USDC_CONTRACT: string := "0x833589fCD6eDb6E08f4c7C32D4f71b54bdA02913"
  const BUILDER_CODE: string := "bc_4tcf5clw"
  const RECIPIENT: string := "0x5eC6AF0798b25C563B102d3469971f1a8d598121"
  /** The wallet_sendCalls request version. */
  const CALLS_VERSION: string := "2.0.0"
  /** EIP-1193 "User Rejected Request". */
  const USER_REJECTED_CODE: int := 4001

  const CTA_IDLE: string := "Send USDC"
  const CTA_PREPARING: string := "Preparing tip…"
  const CTA_CONFIRM: string := "Confirm in wallet"
  const CTA_SENDING: string := "Sending…"
  const CTA_DONE: string := "Send again"

  /** The preset amount selected at start-up, in dollars. */
  const DEFAULT_PRESET: nat := 5

  // ------------------------------------------------------------------ gating

  /** The two constants a deployer must fill in. */
  datatype Config = Config(builderCode: string, recipient: string)

  const DEFAULT_CONFIG: Config := Config(BUILDER_CODE, RECIPIENT)

  /** canSendTips: builder code and recipient are filled in (no "TODO") and the recipient is address-like. */
  predicate CanSendTips(cfg: Config) {
    if cfg.builderCode == [] || Includes(cfg.builderCode, "TODO") then false
    else if cfg.recipient == [] || Includes(cfg.recipient, "TODO") then false
    else IsAddressLike(cfg.recipient)
  }

  // ------------------------------------------------------------------ wallet values

  /** The JavaScript values a wallet can answer with (numbers are integers here). */
  datatype JsValue =
    | JUndefined
    | JNull
    | JBool(b: bool)
    | JNum(n: int)
    | JStr(s: string)
    | JArr(items: seq<JsValue>)
    | JObj(id: nat)

  /** JavaScript truthiness. */
  predicate Truthy(v: JsValue) {
    match v
    case JUndefined => false
    case JNull => false
    case JBool(b) => b
    case JNum(n) => n != 0
    case JStr(s) => s != []
    case JArr(_) => true
    case JObj(_) => true
  }

  /** accounts?.[0]: the first element of an array, the first character of a string, else undefined. */
  function FirstAccount(accounts: JsValue): (r: JsValue)
    ensures Truthy(r) ==>
      || (accounts.JArr? && accounts.items != [] && r == accounts.items[0])
      || (accounts.JStr? && accounts.s != [] && r == JStr([accounts.s[0]]))
    ensures !accounts.JArr? && !accounts.JStr? ==> r == JUndefined
    ensures accounts.JArr? && accounts.items != [] ==> r == accounts.items[0]
    ensures accounts.JStr? && accounts.s != [] ==> r == JStr([accounts.s[0]])
  {
    match accounts
    case JArr(items) => if items == [] then JUndefined else items[0]
    case JStr(s) => if s == [] then JUndefined else JStr([s[0]])
    case _ => JUndefined
  }

  /** An error a wallet raises: its numeric code, if it has one, and its message. */
  datatype WalletError = WalletError(code: Option<int>, message: string)

  /** What the wallet does with one request. */
  datatype Response = Answer(value: JsValue) | Raise(error: WalletError)

  /** /user rejected|rejected/i on the message: ASCII case-insensitive search. */
  predicate MatchesRejected(msg: string) {
    Includes(ToLower(msg), "user rejected") || Includes(ToLower(msg), "rejected")
  }

  /** The test sendTip uses to tell a user rejection from a failure. */
  predicate IsUserRejection(e: WalletError) {
    e.code == Some(USER_REJECTED_CODE) || MatchesRejected(e.message)
  }

  // ------------------------------------------------------------------ requests and events

  datatype ProviderSource = HostProvider | InjectedProvider

  /**
   * The surroundings of one send: whether the host SDK hands out a provider, whether
   * window.ethereum is set, and the ERC-8021 data suffix the attribution library makes
   * for the builder code.
   */
  datatype Env = Env(hostProvider: bool, injectedProvider: bool, dataSuffix: string)

  datatype TipError =
    | NoProvider                     // "No Ethereum provider found. ..."
    | WrongNetwork                   // "Please switch to Base Mainnet (0x2105) ..."
    | NoAccount                      // "No account connected."
    | BadRecipient(addressError: AddressError)
    | BadAmount(amountError: AmountError)
    | WalletFailure(error: WalletError)  // a wallet error passed on as it is

  /** getProvider: the host's provider first, then window.ethereum. */
  function ChooseProvider(env: Env): (r: Result<ProviderSource, TipError>)
    ensures r.Err? <==> !env.hostProvider && !env.injectedProvider
    ensures r.Err? ==> r.error == NoProvider
    ensures r.Ok? ==> (r.value == HostProvider <==> env.hostProvider)
  {
    if env.hostProvider then Ok(HostProvider)
    else if env.injectedProvider then Ok(InjectedProvider)
    else Err(NoProvider)
  }

  datatype Call = Call(to: string, value: string, data: string)

  datatype Payload = Payload(
    version: string, from: JsValue, chainId: string, atomicRequired: bool,
    calls: seq<Call>, dataSuffix: string)

  /** The wallet_sendCalls payload: one USDC transfer call, atomic, on Base, with the attribution suffix. */
  function BuildPayload(from: JsValue, recipient: string, units: nat, dataSuffix: string): Payload {
    var data := EncodeErc20TransferData(recipient, units);
    Payload(CALLS_VERSION, from, BASE_MAINNET_CHAIN_ID, true, [Call(USDC_CONTRACT, "0x0", data)], dataSuffix)
  }

  datatype Request =
    | ChainIdQuery                 // eth_chainId
    | SwitchChain(chainId: string) // wallet_switchEthereumChain
    | RequestAccounts              // eth_requestAccounts
    | SendCalls(payload: Payload)  // wallet_sendCalls

  /** One entry of the timeline: a request to the provider, or a setCta. */
  datatype Event = Requested(provider: ProviderSource, request: Request) | CtaSet(text: string, busy: bool)

  datatype Outcome =
    | Skipped             // canSendTips was false: a toast, no request
    | Pending             // a request never settled
    | Delivered(result: JsValue)
    | Cancelled           // the user rejected the calls
    | Failed(error: TipError)

  datatype TipRun = TipRun(outcome: Outcome, events: seq<Event>)

  /** The call-to-action: its text and whether it is busy. */
  datatype Cta = Cta(text: string, busy: bool)

  /** The call-to-action after the events: the last setCta, or the starting one if there is none. */
  function CtaAfter(start: Cta, events: seq<Event>): Cta {
    if events == [] then start
    else match events[|events| - 1]
      case CtaSet(t, b) => Cta(t, b)
      case Requested(_, _) => CtaAfter(start, events[..|events| - 1])
  }

  function RequestOf(e: Event): seq<Request> {
    if e.Requested? then [e.request] else []
  }

  function WriteOf(e: Event): seq<Cta> {
    if e.CtaSet? then [Cta(e.text, e.busy)] else []
  }

  /** The requests of a timeline, in order. */
  function Requests(events: seq<Event>): seq<Request> {
    if events == [] then [] else Requests(events[..|events| - 1]) + RequestOf(events[|events| - 1])
  }

  /** The setCta writes of a timeline, in order. */
  function CtaWrites(events: seq<Event>): seq<Cta> {
    if events == [] then [] else CtaWrites(events[..|events| - 1]) + WriteOf(events[|events| - 1])
  }

  // ------------------------------------------------------------------ the sequence, as functions

  /** How far a stage got: on to the next one with the responses left, or stopped with a result. */
  datatype Stage = Proceed(events: seq<Event>, rest: seq<Response>) | Halt(run: TipRun)

  /** ensureBaseMainnet: ask the chain id; unless it is Base, ask once to switch, any failure being WrongNetwork. */
  function NetworkStage(src: ProviderSource, wallet: seq<Response>): Stage {
    var ask := [Requested(src, ChainIdQuery)];
    if wallet == [] then Halt(TipRun(Pending, ask))
    else match wallet[0]
      case Raise(e) => Halt(TipRun(Failed(WalletFailure(e)), ask))
      case Answer(chainId) =>
        if chainId == JStr(BASE_MAINNET_CHAIN_ID) then Proceed(ask, wallet[1..])
        else
          var ask2 := ask + [Requested(src, SwitchChain(BASE_MAINNET_CHAIN_ID))];
          var w := wallet[1..];
          if w == [] then Halt(TipRun(Pending, ask2))
          else match w[0]
            case Raise(_) => Halt(TipRun(Failed(WrongNetwork), ask2))
            case Answer(_) => Proceed(ask2, w[1..])
  }

  datatype Prepared = Ready(payload: Payload, events: seq<Event>, rest: seq<Response>) | Stopped(run: TipRun)

  /** What provider.request settles to: the next scripted response, or nothing. */
  function Head(wallet: seq<Response>): Option<Response> {
    if wallet == [] then None else Some(wallet[0])
  }

  function Tail(wallet: seq<Response>): seq<Response> {
    if wallet == [] then [] else wallet[1..]
  }

  /** The recipient check, then the amount parse, as sendTip makes them; Ok holds the recipient and the units. */
  function CheckInputs(cfg: Config, amountUsd: string): Result<(string, nat), TipError> {
    match ValidateRecipientOrThrow(cfg.recipient)
    case Err(ae) => Err(BadRecipient(ae))
    case Ok(recipient) =>
      match ParseUsdToUsdcUnits(amountUsd)
      case Err(pe) => Err(BadAmount(pe))
      case Ok(units) => Ok((recipient, units))
  }

  /**
   * sendTip from the eth_requestAccounts reply to the payload: the first account, then (only now)
   * the outcome of CheckInputs. Err holds how the run ends.
   */
  function FromAccounts(env: Env, reply: Option<Response>, checked: Result<(string, nat), TipError>): Result<Payload, Outcome> {
    match reply
    case None => Err(Pending)
    case Some(Raise(e)) => Err(Failed(WalletFailure(e)))
    case Some(Answer(accounts)) =>
      var from := FirstAccount(accounts);
      if !Truthy(from) then Err(Failed(NoAccount))
      else match checked
        case Err(e) => Err(Failed(e))
        case Ok((recipient, units)) => Ok(BuildPayload(from, recipient, units, env.dataSuffix))
  }

  /** sendTip up to the payload: the network, the accounts, then the checks. */
  function Prepare(env: Env, src: ProviderSource, wallet: seq<Response>, checked: Result<(string, nat), TipError>): Prepared {
    match NetworkStage(src, wallet)
    case Halt(run) => Stopped(run)
    case Proceed(ev, w) =>
      var ev' := ev + [Requested(src, RequestAccounts)];
      match FromAccounts(env, Head(w), checked)
      case Err(o) => Stopped(TipRun(o, ev'))
      case Ok(p) => Ready(p, ev', Tail(w))
  }

  /** The submission: two busy CTA texts, wallet_sendCalls, then success, rejection or failure. */
  function Submit(src: ProviderSource, payload: Payload, wallet: seq<Response>): TipRun {
    var ev := [CtaSet(CTA_PREPARING, true), CtaSet(CTA_CONFIRM, true), Requested(src, SendCalls(payload))];
    if wallet == [] then TipRun(Pending, ev)
    else match wallet[0]
      case Answer(result) => TipRun(Delivered(result), ev + [CtaSet(CTA_SENDING, true), CtaSet(CTA_DONE, false)])
      case Raise(e) =>
        if IsUserRejection(e) then TipRun(Cancelled, ev + [CtaSet(CTA_IDLE, false)])
        else TipRun(Failed(WalletFailure(e)), ev + [CtaSet(CTA_IDLE, false)])
  }

  /** What follows Prepare: nothing after a stopped run, the submission after a payload. */
  function SubmitOf(src: ProviderSource, p: Prepared): TipRun {
    match p
    case Stopped(run) => TipRun(run.outcome, [])
    case Ready(payload, _, rest) => Submit(src, payload, rest)
  }

  /** sendTip on provider src, given what CheckInputs makes of its inputs. */
  function Sent(env: Env, src: ProviderSource, wallet: seq<Response>, checked: Result<(string, nat), TipError>): TipRun {
    var p := Prepare(env, src, wallet, checked);
    var s := SubmitOf(src, p);
    TipRun(s.outcome, PreparedEvents(p) + s.events)
  }

  /** sendTip once the provider is known. */
  function SendWithProvider(cfg: Config, env: Env, src: ProviderSource, wallet: seq<Response>, amountUsd: string): TipRun {
    Sent(env, src, wallet, CheckInputs(cfg, amountUsd))
  }

  /** sendTip as a whole: its outcome and its timeline. */
  function SendTipRun(cfg: Config, env: Env, wallet: seq<Response>, amountUsd: string): TipRun {
    if !CanSendTips(cfg) then TipRun(Skipped, [])
    else match ChooseProvider(env)
      case Err(e) => TipRun(Failed(e), [])
      case Ok(src) => SendWithProvider(cfg, env, src, wallet, amountUsd)
  }

  /** The amount the CTA click sends: the trimmed custom text if there is one, else the preset. */
  function AmountText(custom: string, preset: nat): string {
    if Trim(custom) != [] then Trim(custom) else NatToString(preset, 10)
  }

  // ------------------------------------------------------------------ the state

  class TipState {
    const config: Config
    var preset: nat
    var custom: string
    var cta: string
    var busy: bool
    /** Everything sent to a provider and every setCta, in order. */
    var history: seq<Event>

    constructor (config: Config)
      ensures this.config == config
      ensures preset == DEFAULT_PRESET && custom == [] && cta == CTA_IDLE && !busy && history == []
    {
      this.config := config;
      preset := DEFAULT_PRESET;
      custom := [];
      cta := CTA_IDLE;
      busy := false;
      history := [];
    }

    /** setCta: the text, busy coerced to a boolean, then a render. */
    method SetCta(text: string, busy: bool)
      modifies this`cta, this`busy, this`history
      ensures cta == text && this.busy == busy
      ensures history == old(history) + [CtaSet(text, busy)]
    {
      cta := text;
      this.busy := busy;
      history := history + [CtaSet(text, busy)];
    }

    /** provider.request: logged, then answered by the next scripted response, if any. */
    method Ask(src: ProviderSource, request: Request, wallet: seq<Response>) returns (reply: Option<Response>, rest: seq<Response>)
      modifies this`history
      ensures history == old(history) + [Requested(src, request)]
      ensures wallet == [] ==> reply == None && rest == []
      ensures wallet != [] ==> reply == Some(wallet[0]) && rest == wallet[1..]
    {
      history := history + [Requested(src, request)];
      if wallet == [] {
        reply, rest := None, [];
      } else {
        reply, rest := Some(wallet[0]), wallet[1..];
      }
    }

    /** ensureBaseMainnet on the chosen provider. */
    method EnsureBaseMainnet(src: ProviderSource, wallet: seq<Response>) returns (halted: Option<Outcome>, rest: seq<Response>)
      modifies this`history
      ensures match NetworkStage(src, wallet)
        case Proceed(ev, w) => halted == None && rest == w && history == old(history) + ev
        case Halt(run) => halted == Some(run.outcome) && history == old(history) + run.events
    {
      var reply, w := Ask(src, ChainIdQuery, wallet);
      halted, rest := None, w;
      match reply {
        case None => halted := Some(Pending);
        case Some(Raise(e)) => halted := Some(Failed(WalletFailure(e)));
        case Some(Answer(chainId)) =>
          if chainId != JStr(BASE_MAINNET_CHAIN_ID) {
            var switched, w' := Ask(src, SwitchChain(BASE_MAINNET_CHAIN_ID), w);
            rest := w';
            match switched {
              case None => halted := Some(Pending);
              case Some(Raise(_)) => halted := Some(Failed(WrongNetwork));
              case Some(Answer(_)) =>
            }
          }
      }
    }

    /**
     * sendTip from the network check to the payload: nothing but requests, and the recipient
     * check and amount parse only once a first account is in.
     */
    method PrepareSend(env: Env, src: ProviderSource, wallet: seq<Response>, amountUsd: string) returns (prepared: Prepared)
      modifies this`history
      ensures prepared == Prepare(env, src, wallet, CheckInputs(config, amountUsd))
      ensures history == old(history) + PreparedEvents(prepared)
    {
      var before := history;
      var halted, rest := EnsureBaseMainnet(src, wallet);
      if halted.Some? {
        return Stopped(TipRun(halted.value, history[|before|..]));
      }
      ghost var network := history[|before|..];
      var reply, rest' := Ask(src, RequestAccounts, rest);
      var asked := history[|before|..];
      assert asked == network + [Requested(src, RequestAccounts)];
      assert reply == Head(rest) && rest' == Tail(rest);
      match reply {
        case None => return Stopped(TipRun(Pending, asked));
        case Some(Raise(e)) => return Stopped(TipRun(Failed(WalletFailure(e)), asked));
        case Some(Answer(accounts)) =>
          var from := FirstAccount(accounts);
          if !Truthy(from) {
            return Stopped(TipRun(Failed(NoAccount), asked));
          }
          var checked := CheckInputs(config, amountUsd);
          if checked.Err? {
            return Stopped(TipRun(Failed(checked.error), asked));
          }
          var (recipient, units) := checked.value;
          prepared := Ready(BuildPayload(from, recipient, units, env.dataSuffix), asked, rest');
      }
    }

    /** sendTip from the first busy setCta to the end: wallet_sendCalls and what its answer leads to. */
    method SubmitCalls(src: ProviderSource, payload: Payload, wallet: seq<Response>) returns (outcome: Outcome)
      modifies this`cta, this`busy, this`history
      ensures var run := Submit(src, payload, wallet);
        outcome == run.outcome && history == old(history) + run.events
        && Cta(cta, busy) == CtaAfter(Cta(old(cta), old(busy)), run.events)
    {
      SetCta(CTA_PREPARING, true);
      // sleep(1200)
      SetCta(CTA_CONFIRM, true);
      var result, _ := Ask(src, SendCalls(payload), wallet);
      ghost var ev := [CtaSet(CTA_PREPARING, true), CtaSet(CTA_CONFIRM, true), Requested(src, SendCalls(payload))];
      assert ev[..2] == [CtaSet(CTA_PREPARING, true), CtaSet(CTA_CONFIRM, true)];
      match result {
        case None => outcome := Pending;
        case Some(Answer(v)) =>
          SetCta(CTA_SENDING, true);
          // sleep(800)
          SetCta(CTA_DONE, false);
          outcome := Delivered(v);
        case Some(Raise(e)) =>
          SetCta(CTA_IDLE, false);
          outcome := if IsUserRejection(e) then Cancelled else Failed(WalletFailure(e));
      }
    }

    /** sendTip on the provider getProvider chose. */
    method SendTipWith(env: Env, src: ProviderSource, wallet: seq<Response>, amountUsd: string) returns (outcome: Outcome)
      modifies this`cta, this`busy, this`history
      ensures var run := SendWithProvider(config, env, src, wallet, amountUsd);
        outcome == run.outcome && history == old(history) + run.events
        && Cta(cta, busy) == CtaAfter(Cta(old(cta), old(busy)), run.events)
    {
      ghost var start, h0 := Cta(cta, busy), history;
      var prepared := PrepareSend(env, src, wallet, amountUsd);
      ghost var ev := PreparedEvents(prepared);
      ghost var h1 := history;
      assert h1 == h0 + ev;
      assert CtaAfter(start, ev) == start by {
        PreparedRequestsOnly(env, src, wallet, CheckInputs(config, amountUsd));
        CtaAfterRequestsOnly(start, ev);
      }
      ghost var s := SubmitOf(src, prepared);
      outcome := FinishSend(src, prepared);
      ConcatAssoc(h0, ev, s.events);
      CtaAfterAppend(start, ev, s.events);
    }

    /** sendTip after PrepareSend: the submission if there is a payload, else nothing more. */
    method FinishSend(src: ProviderSource, prepared: Prepared) returns (outcome: Outcome)
      modifies this`cta, this`busy, this`history
      ensures var s := SubmitOf(src, prepared);
        outcome == s.outcome && history == old(history) + s.events
        && Cta(cta, busy) == CtaAfter(Cta(old(cta), old(busy)), s.events)
    {
      match prepared {
        case Stopped(run) => outcome := run.outcome;
        case Ready(payload, _, rest) => outcome := SubmitCalls(src, payload, rest);
      }
    }

    /** sendTip({ amountUsd }). */
    method SendTip(env: Env, wallet: seq<Response>, amountUsd: string) returns (outcome: Outcome)
      modifies this`cta, this`busy, this`history
      ensures var run := SendTipRun(config, env, wallet, amountUsd);
        outcome == run.outcome && history == old(history) + run.events
        && Cta(cta, busy) == CtaAfter(Cta(old(cta), old(busy)), run.events)
    {
      if !CanSendTips(config) {
        // toast: set a real BUILDER_CODE and RECIPIENT
        return Skipped;
      }
      var provider := ChooseProvider(env);
      if provider.Err? {
        return Failed(provider.error);
      }
      outcome := SendTipWith(env, provider.value, wallet, amountUsd);
    }

    /** A preset button: that amount, the custom text cleared, the CTA reset. */
    method SelectPreset(amount: nat)
      modifies this`preset, this`custom, this`cta, this`busy, this`history
      ensures preset == amount && custom == [] && cta == CTA_IDLE && !busy
      ensures history == old(history) + [CtaSet(CTA_IDLE, false)]
    {
      preset := amount;
      custom := [];
      SetCta(CTA_IDLE, false);
    }

    /** Typing in the custom amount field: the text kept as typed, the CTA reset. */
    method EditCustom(text: string)
      modifies this`custom, this`cta, this`busy, this`history
      ensures custom == text && preset == old(preset) && cta == CTA_IDLE && !busy
      ensures history == old(history) + [CtaSet(CTA_IDLE, false)]
    {
      custom := text;
      SetCta(CTA_IDLE, false);
    }

    /**
     * A click on the CTA. While busy, or while sending is disabled, the button is disabled and
     * the click does nothing (None); otherwise the chosen amount goes to sendTip.
     */
    method ClickCta(env: Env, wallet: seq<Response>) returns (outcome: Option<Outcome>)
      modifies this`cta, this`busy, this`history
      ensures old(busy) || !CanSendTips(config) ==>
        outcome == None && history == old(history) && cta == old(cta) && busy == old(busy)
      ensures !old(busy) && CanSendTips(config) ==>
        var run := SendTipRun(config, env, wallet, AmountText(custom, preset));
        outcome == Some(run.outcome) && history == old(history) + run.events
        && Cta(cta, busy) == CtaAfter(Cta(old(cta), old(busy)), run.events)
    {
      if busy || !CanSendTips(config) {
        return None;
      }
      var amount := AmountText(custom, preset);
      var o := SendTip(env, wallet, amount);
      outcome := Some(o);
    }
  }

  // ------------------------------------------------------------------ timeline facts

  predicate RequestsOnly(events: seq<Event>) {
    forall i :: 0 <= i < |events| ==> events[i].Requested?
  }

  lemma {:induction false} CtaAfterRequestsOnly(start: Cta, events: seq<Event>)
    requires RequestsOnly(events)
    ensures CtaAfter(start, events) == start
    decreases |events|
  {
    if events != [] {
      CtaAfterRequestsOnly(start, events[..|events| - 1]);
    }
  }

  function PreparedEvents(p: Prepared): seq<Event> {
    match p
    case Ready(_, ev, _) => ev
    case Stopped(run) => run.events
  }

  lemma PreparedRequestsOnly(env: Env, src: ProviderSource, wallet: seq<Response>, checked: Result<(string, nat), TipError>)
    ensures RequestsOnly(PreparedEvents(Prepare(env, src, wallet, checked)))
  {
    NetworkRequestsOnly(src, wallet);
  }

  lemma {:induction false} CtaAfterAppend(start: Cta, a: seq<Event>, b: seq<Event>)
    ensures CtaAfter(start, a + b) == CtaAfter(CtaAfter(start, a), b)
    decreases |b|
  {
    if b == [] {
      assert a + b == a;
    } else {
      assert (a + b)[..|a + b| - 1] == a + b[..|b| - 1];
      CtaAfterAppend(start, a, b[..|b| - 1]);
    }
  }

  lemma ConcatAssoc<T>(a: seq<T>, b: seq<T>, c: seq<T>)
    ensures (a + b) + c == a + (b + c)
  {
  }

  lemma NetworkRequestsOnly(src: ProviderSource, wallet: seq<Response>)
    ensures match NetworkStage(src, wallet)
      case Proceed(ev, _) => RequestsOnly(ev)
      case Halt(run) => RequestsOnly(run.events)
  {
  }
}
