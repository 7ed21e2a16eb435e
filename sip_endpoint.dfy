// The newer SIP endpoint, Opal::Sip::EndPoint: how it builds REGISTER
// requests, turns registration results into account events, chooses what to
// do with an incoming call, accepts URIs for calls and instant messages, and
// expands a contact's URI into menu actions. OPAL itself (the SIP stack, the
// call manager's settings, SIPURL parsing) is outside the model: what the
// endpoint reads from it is passed in as plain values.

module SipEndpoint {
  import opened Base
  import opened Text
  import opened SipStatus

  const UriPrefix := "sip:"
  const DefaultListenPort := 5060
  /** Expiry, in seconds, of the message-summary subscription issued after registering. */
  const MwiSubscriptionExpiry := 3600

  /** The port the constructor listens on: the requested one, 5060 when none is given. */
  function ListenPort(requested: nat): (p: nat)
    ensures p > 0
    ensures requested > 0 ==> p == requested
  {
    if requested > 0 then requested else DefaultListenPort
  }

  // ---- Registration ----

  /** The registrar host with everything from its first ':' removed (the
      part that goes into the address of record). */
  function AorHost(host: string): (r: string)
    ensures ':' !in r
    ensures |r| <= |host| && r == host[..|r|]
    ensures |r| < |host| ==> host[|r|] == ':'
  {
    match FindChar(host, ':')
    case Some(loc) => host[..loc]
    case None => host
  }

  /** get_aor_domain: the text after the first '@', "" when there is none. */
  function AorDomain(aor: string): (r: string)
    ensures '@' !in aor ==> r == ""
    ensures '@' in aor ==>
      |r| < |aor| && r == aor[|aor| - |r|..] && aor[|aor| - |r| - 1] == '@'
      && '@' !in aor[..|aor| - |r| - 1]
  {
    match FindChar(aor, '@')
    case Some(loc) =>
      assert aor[..loc] == aor[..|aor| - |aor[loc + 1..]| - 1];
      aor[loc + 1..]
    case None => ""
  }

  /** The address of record Register builds: the user name when it already
      names a domain, otherwise user@host with the host's port removed. */
  function AddressOfRecord(username: string, host: string): (r: string)
    ensures '@' in r
    ensures '@' in username ==> r == username
    ensures '@' !in username ==>
      |r| > |username| && r[..|username|] == username && AorDomain(r) == AorHost(host)
  {
    if '@' in username then username
    else
      var r := username + "@" + AorHost(host);
      FindCharOfConcat(username, '@', AorHost(host));
      assert r[..|username|] == username;
      r
  }

  /** The REGISTER parameters handed to OPAL. */
  datatype RegisterParams = RegisterParams(
    addressOfRecord: string,
    registrarAddress: string,
    compatibility: int,
    authId: string,
    password: string,
    expire: nat,
    minRetryTime: nat,
    maxRetryTime: nat)

  /** The registration states an account is told about. */
  datatype RegistrationState = Registered | Unregistered | RegistrationFailed | UnregistrationFailed

  /** A registration report posted to the main loop: the account's AOR, its new state, the text to show. */
  datatype RegistrationEvent = RegistrationEvent(aor: string, state: RegistrationState, info: string)

  /** What Register does: the request, and the failure report issued when OPAL refuses to start it. */
  datatype RegisterOutcome = RegisterOutcome(params: RegisterParams, failure: Option<RegistrationEvent>)

  /**
   * Register: `started` is whether OPAL's SIPEndPoint::Register accepted the
   * request. An expiry of 0 asks the registrar to remove the binding
   * (section 10.2.2 of RFC 3261), which is how a disabled account unregisters.
   */
  function Register(username: string, host: string, authUsername: string, password: string,
                    isEnabled: bool, compatMode: int, timeout: nat, started: bool): (r: RegisterOutcome)
    ensures r.params.addressOfRecord == AddressOfRecord(username, host)
    ensures r.params.registrarAddress == host
    ensures r.params.authId == authUsername && r.params.password == password
    ensures r.params.compatibility == compatMode
    ensures r.params.expire == 0 <==> !isEnabled || timeout == 0
    ensures isEnabled ==> r.params.expire == timeout
    ensures r.params.minRetryTime == 0 && r.params.maxRetryTime == 0
    ensures r.failure.Some? <==> !started
    ensures r.failure.Some? ==>
      r.failure.value == RegistrationEvent(WithUriPrefix(r.params.addressOfRecord),
                                           if isEnabled then RegistrationFailed else UnregistrationFailed,
                                           "Failed")
  {
    var aor := AddressOfRecord(username, host);
    var params := RegisterParams(aor, host, compatMode, authUsername, password,
                                 if isEnabled then timeout else 0, 0, 0);
    RegisterOutcome(params, if started then None else OnRegistrationFailed(aor, MaxStatusCode, isEnabled))
  }

  /** An AOR as reported to the accounts: "sip:" added unless it already contains it. */
  function WithUriPrefix(aor: string): (r: string)
    ensures Contains(r, UriPrefix)
    ensures Contains(aor, UriPrefix) ==> r == aor
    ensures !Contains(aor, UriPrefix) ==> r == UriPrefix + aor
  {
    if Contains(aor, UriPrefix) then aor
    else
      FindOfPrefix(UriPrefix, aor);
      UriPrefix + aor
  }

  lemma WithUriPrefixIdempotent(aor: string)
    ensures WithUriPrefix(WithUriPrefix(aor)) == WithUriPrefix(aor)
  {
  }

  /** What OnRegistered does: the message-summary subscription it issues (for the AOR as given) and the event it posts. */
  datatype RegisteredOutcome = RegisteredOutcome(mwiSubscription: Option<string>, event: RegistrationEvent)

  /** OnRegistered; `subscribed` is OPAL's IsSubscribed for the AOR's message summary. */
  function OnRegistered(aor: string, wasRegistering: bool, subscribed: bool): (r: RegisteredOutcome)
    ensures r.mwiSubscription.Some? <==> !subscribed
    ensures r.mwiSubscription.Some? ==> r.mwiSubscription.value == aor
    ensures r.event.aor == WithUriPrefix(aor) && r.event.info == ""
    ensures r.event.state == Registered <==> wasRegistering
    ensures r.event.state == Registered || r.event.state == Unregistered
  {
    RegisteredOutcome(if subscribed then None else Some(aor),
                      RegistrationEvent(WithUriPrefix(aor), if wasRegistering then Registered else Unregistered, ""))
  }

  /** The provisional and success codes: a registration "failing" with one of these shows no text. */
  predicate IsProgressCode(code: int)
  {
    code == InformationTrying || code == InformationRinging || code == InformationCallForwarded
    || code == InformationQueued || code == InformationSessionProgress
    || code == SuccessfulOK || code == SuccessfulAccepted
  }

  /** The local and redirection codes the switch of OnRegistrationFailed names. */
  const NamedLowCodes: set<int> := {
    IllegalStatusCode, LocalTransportError, LocalBadTransportAddress, LocalTimeout,
    RedirectionMultipleChoices, RedirectionMovedPermanently, RedirectionMovedTemporarily,
    RedirectionUseProxy, RedirectionAlternativeService
  }

  /** The 4xx codes the switch names. */
  const NamedRequestCodes: set<int> := {
    FailureBadRequest, FailureUnAuthorised, FailurePaymentRequired, FailureForbidden,
    FailureNotFound, FailureMethodNotAllowed, FailureNotAcceptable,
    FailureProxyAuthenticationRequired, FailureRequestTimeout, FailureConflict,
    FailureLengthRequired, FailureRequestEntityTooLarge, FailureRequestURITooLong,
    FailureUnsupportedMediaType, FailureUnsupportedURIScheme, FailureBadExtension,
    FailureExtensionRequired, FailureIntervalTooBrief, FailureTemporarilyUnavailable,
    FailureLoopDetected, FailureTooManyHops, FailureAddressIncomplete, FailureAmbiguous,
    FailureBusyHere, FailureRequestTerminated, FailureNotAcceptableHere, FailureBadEvent,
    FailureRequestPending, FailureUndecipherable
  }

  /** The 5xx and 6xx codes the switch names. */
  const NamedServerCodes: set<int> := {
    FailureInternalServerError, FailureNotImplemented, FailureBadGateway,
    FailureServiceUnavailable, FailureServerTimeout, FailureSIPVersionNotSupported,
    FailureMessageTooLarge,
    GlobalFailureBusyEverywhere, GlobalFailureDecline, GlobalFailureDoesNotExistAnywhere,
    GlobalFailureNotAcceptable
  }

  /** Every code the switch names with a text of its own. */
  const NamedFailureCodes: set<int> := NamedLowCodes + NamedRequestCodes + NamedServerCodes

  /** The text OnRegistrationFailed shows for a status code: a total map. */
  function RegistrationFailureInfo(code: int): (info: string)
    ensures info == "" <==> IsProgressCode(code)
    ensures code !in NamedFailureCodes && !IsProgressCode(code) ==> info == "Failed"
    ensures code == FailureGone || code == FailureTransactionDoesNotExist || code == MaxStatusCode ==>
      info == "Failed"
  {
    if IsProgressCode(code) then ""
    else if code < 400 then LowFailureInfo(code)
    else if code < 500 then RequestFailureInfo(code)
    else ServerFailureInfo(code)
  }

  function LowFailureInfo(code: int): (info: string)
    requires code < 400 && !IsProgressCode(code)
    ensures info != ""
    ensures code !in NamedLowCodes ==> info == "Failed"
  {
    if code == IllegalStatusCode then "Illegal status code"
    else if code == LocalTransportError || code == LocalBadTransportAddress then "Transport error"
    else if code == LocalTimeout then "Remote party host is offline"
    else if code == RedirectionMultipleChoices then "Multiple choices"
    else if code == RedirectionMovedPermanently then "Moved permanently"
    else if code == RedirectionMovedTemporarily then "Moved temporarily"
    else if code == RedirectionUseProxy then "Use proxy"
    else if code == RedirectionAlternativeService then "Alternative service"
    else "Failed"
  }

  function RequestFailureInfo(code: int): (info: string)
    requires 400 <= code < 500
    ensures info != ""
    ensures code !in NamedRequestCodes ==> info == "Failed"
  {
    if code == FailureBadRequest then "Bad request"
    else if code == FailureUnAuthorised then "Unauthorized"
    else if code == FailurePaymentRequired then "Payment required"
    else if code == FailureForbidden then "Forbidden, please check that username and password are correct"
    else if code == FailureNotFound then "Not found"
    else if code == FailureMethodNotAllowed then "Method not allowed"
    else if code == FailureNotAcceptable then "Not acceptable"
    else if code == FailureProxyAuthenticationRequired then "Proxy authentication required"
    else if code == FailureRequestTimeout then "Timeout"
    else if code == FailureConflict then "Conflict"
    else if code == FailureLengthRequired then "Length required"
    else if code == FailureRequestEntityTooLarge then "Request entity too big"
    else if code == FailureRequestURITooLong then "Request URI too long"
    else if code == FailureUnsupportedMediaType then "Unsupported media type"
    else if code == FailureUnsupportedURIScheme then "Unsupported URI scheme"
    else if code == FailureBadExtension then "Bad extension"
    else if code == FailureExtensionRequired then "Extension required"
    else if code == FailureIntervalTooBrief then "Interval too brief"
    else if code == FailureTemporarilyUnavailable then "Temporarily unavailable"
    else if code == FailureLoopDetected then "Loop detected"
    else if code == FailureTooManyHops then "Too many hops"
    else if code == FailureAddressIncomplete then "Address incomplete"
    else if code == FailureAmbiguous then "Ambiguous"
    else if code == FailureBusyHere then "Busy Here"
    else if code == FailureRequestTerminated then "Request terminated"
    else if code == FailureNotAcceptableHere then "Not acceptable here"
    else if code == FailureBadEvent then "Bad event"
    else if code == FailureRequestPending then "Request pending"
    else if code == FailureUndecipherable then "Undecipherable"
    else "Failed"
  }

  function ServerFailureInfo(code: int): (info: string)
    requires 500 <= code
    ensures info != ""
    ensures code !in NamedServerCodes ==> info == "Failed"
  {
    if code == FailureInternalServerError then "Internal server error"
    else if code == FailureNotImplemented then "Not implemented"
    else if code == FailureBadGateway then "Bad gateway"
    else if code == FailureServiceUnavailable then "Service unavailable"
    else if code == FailureServerTimeout then "Server timeout"
    else if code == FailureSIPVersionNotSupported then "SIP version not supported"
    else if code == FailureMessageTooLarge then "Message too large"
    else if code == GlobalFailureBusyEverywhere then "Busy everywhere"
    else if code == GlobalFailureDecline then "Decline"
    else if code == GlobalFailureDoesNotExistAnywhere then "Does not exist anymore"
    else if code == GlobalFailureNotAcceptable then "Globally not acceptable"
    else "Failed"
  }

  /**
   * OnRegistrationFailed: the event posted to the main loop, if any. OPAL
   * follows a failure with a RequestTerminated of its own, which is not
   * shown, since a text has already been scheduled.
   */
  function OnRegistrationFailed(aor: string, code: int, wasRegistering: bool): (r: Option<RegistrationEvent>)
    ensures r.None? <==> code == FailureRequestTerminated
    ensures r.Some? ==> r.value.aor == WithUriPrefix(aor) && r.value.info == RegistrationFailureInfo(code)
    ensures r.Some? ==> (r.value.state == RegistrationFailed <==> wasRegistering)
    ensures r.Some? ==> r.value.state == RegistrationFailed || r.value.state == UnregistrationFailed
  {
    if code == FailureRequestTerminated then None
    else Some(RegistrationEvent(WithUriPrefix(aor),
                                if wasRegistering then RegistrationFailed else UnregistrationFailed,
                                RegistrationFailureInfo(code)))
  }

  /** Success and failure reports for the same AOR reach the same account. */
  lemma RegistrationReportsShareAor(aor: string, wasRegistering: bool, subscribed: bool, code: int)
    requires code != FailureRequestTerminated
    ensures OnRegistrationFailed(aor, code, wasRegistering).value.aor
         == OnRegistered(aor, wasRegistering, subscribed).event.aor
  {
  }

  // ---- The account bank, as far as the endpoint reads and updates it ----

  /**
   * An account of the bank: what the endpoint reads (name, protocol, enabled,
   * host, AOR) and the last registration and message-waiting reports it was
   * handed.
   */
  datatype BankAccount = BankAccount(
    name: string,
    protocol: string,
    enabled: bool,
    host: string,
    aor: string,
    registration: Option<RegistrationState>,
    status: string,
    mwi: string)

  /** find_account: the first account with that AOR. */
  function FindAccount(bank: seq<BankAccount>, aor: string): (r: Option<nat>)
    ensures r.Some? ==> r.value < |bank| && bank[r.value].aor == aor
    ensures r.Some? ==> forall j :: 0 <= j < r.value ==> bank[j].aor != aor
    ensures r.None? <==> forall j :: 0 <= j < |bank| ==> bank[j].aor != aor
  {
    if bank == [] then None
    else if bank[0].aor == aor then Some(0)
    else match FindAccount(bank[1..], aor)
      case None => None
      case Some(k) => Some(k + 1)
  }

  /** registration_event_in_main: the account with that AOR records the event; an unknown AOR changes nothing. */
  function RegistrationEventInMain(bank: seq<BankAccount>, e: RegistrationEvent): (r: seq<BankAccount>)
    ensures |r| == |bank|
    ensures FindAccount(bank, e.aor).None? ==> r == bank
    ensures forall j :: 0 <= j < |bank| && FindAccount(bank, e.aor) != Some(j) ==> r[j] == bank[j]
    ensures FindAccount(bank, e.aor).Some? ==>
      var i := FindAccount(bank, e.aor).value;
      r[i] == bank[i].(registration := Some(e.state), status := e.info)
  {
    match FindAccount(bank, e.aor)
    case None => bank
    case Some(i) => bank[i := bank[i].(registration := Some(e.state), status := e.info)]
  }

  /** mwi_received_in_main: the account with that AOR records the summary; an unknown AOR changes nothing. */
  function MwiReceivedInMain(bank: seq<BankAccount>, aor: string, info: string): (r: seq<BankAccount>)
    ensures |r| == |bank|
    ensures FindAccount(bank, aor).None? ==> r == bank
    ensures forall j :: 0 <= j < |bank| && FindAccount(bank, aor) != Some(j) ==> r[j] == bank[j]
    ensures FindAccount(bank, aor).Some? ==>
      var i := FindAccount(bank, aor).value;
      r[i] == bank[i].(mwi := info)
  {
    match FindAccount(bank, aor)
    case None => bank
    case Some(i) => bank[i := bank[i].(mwi := info)]
  }

  /** OnMWIReceived: the summary lower-cased, with "no" read as "0/0" (no messages waiting). */
  function NormalizedMwi(info: string): (r: string)
    ensures ToLower(r) == r
    ensures ToLower(info) != "no" ==> r == ToLower(info)
    ensures r == "0/0" <==> ToLower(info) == "no" || ToLower(info) == "0/0"
  {
    ToLowerIdempotent(info);
    assert ToLower("0/0") == "0/0";
    if ToLower(info) == "no" then "0/0" else ToLower(info)
  }

  lemma NormalizedMwiIdempotent(info: string)
    ensures NormalizedMwi(NormalizedMwi(info)) == NormalizedMwi(info)
  {
    var r := NormalizedMwi(info);
    if r != "0/0" {
      assert ToLower(r) != "no";
    }
  }

  // ---- Subscriptions ----

  /** A presence subscriber thread started for an account. */
  datatype Subscription = Subscription(account: BankAccount, registering: bool)

  /** subscribe: only SIP accounts get a subscriber. */
  function Subscribe(account: BankAccount): (r: Option<Subscription>)
    ensures r.Some? <==> account.protocol == "SIP"
    ensures r.Some? ==> r.value.account == account && r.value.registering
  {
    if account.protocol != "SIP" then None else Some(Subscription(account, true))
  }

  /** unsubscribe: only SIP accounts get an unsubscriber. */
  function Unsubscribe(account: BankAccount): (r: Option<Subscription>)
    ensures r.Some? <==> account.protocol == "SIP"
    ensures r.Some? ==> r.value.account == account && !r.value.registering
  {
    if account.protocol != "SIP" then None else Some(Subscription(account, false))
  }

  // ---- Calls and messages ----

  /** The URIs this endpoint takes: a "sip:" URI, or one without any scheme. */
  predicate IsSipUri(uri: string)
  {
    StartsWith(uri, UriPrefix) || ':' !in uri
  }

  /** dial: the URI the call is set up to, "sip:" added when there is no scheme. */
  function Dial(uri: string): (r: Option<string>)
    ensures r.Some? <==> IsSipUri(uri)
    ensures r.Some? ==> StartsWith(r.value, UriPrefix)
    ensures r.Some? ==> r.value == uri || r.value == UriPrefix + uri
  {
    if !IsSipUri(uri) then None
    else if ':' !in uri then
      FindOfPrefix(UriPrefix, uri);
      Some(UriPrefix + uri)
    else Some(uri)
  }

  /** A URI dial has completed is dialled as it is. */
  lemma DialSettles(uri: string)
    requires IsSipUri(uri)
    ensures Dial(Dial(uri).value) == Dial(uri)
  {
    var t := Dial(uri).value;
    StartsWithIsPrefix(t, UriPrefix);
    assert t[3] == t[..4][3] == UriPrefix[3] == ':';
  }

  /** The instant message send_message hands to OPAL. */
  datatype InstantMessage = InstantMessage(to: string, mimeType: string, body: string)

  /** send_message: a non-empty SIP URI and a non-empty body are sent as plain text. */
  function SendMessage(uri: string, message: string): (r: Option<InstantMessage>)
    ensures r.Some? <==> uri != [] && IsSipUri(uri) && message != []
    ensures r.Some? ==> r.value == InstantMessage(uri, "text/plain;charset=UTF-8", message)
  {
    if uri != [] && IsSipUri(uri) && message != [] then
      Some(InstantMessage(uri, "text/plain;charset=UTF-8", message))
    else None
  }

  /** Whatever can be messaged can be dialled. */
  lemma MessageableIsDialable(uri: string, message: string)
    requires SendMessage(uri, message).Some?
    ensures Dial(uri).Some?
  {
  }

  /** A notice shown in a chat window: the peer's URI, its display name, the text. */
  datatype Notice = Notice(uri: string, displayName: string, text: string)

  const CouldNotSend := "Could not send message: "

  /**
   * OnMESSAGECompleted: the notice for a message that was not delivered.
   * `uri` and `displayName` are the sanitised destination, `description` is
   * OPAL's text for the code.
   */
  function MessageCompleted(reason: int, uri: string, displayName: string, description: string): (r: Option<Notice>)
    ensures r.None? <==> reason == SuccessfulOK || reason == FailureRequestTimeout
    ensures r.Some? ==> r.value.uri == uri && r.value.displayName == displayName
    ensures r.Some? ==> |r.value.text| >= |CouldNotSend| && r.value.text[..|CouldNotSend|] == CouldNotSend
    ensures r.Some? && reason == FailureTemporarilyUnavailable ==> r.value.text == CouldNotSend + "user offline"
    ensures r.Some? && reason != FailureTemporarilyUnavailable ==> r.value.text == CouldNotSend + description
  {
    if reason == SuccessfulOK || reason == FailureRequestTimeout then None
    else
      var shown := CouldNotSend + (if reason == FailureTemporarilyUnavailable then "user offline" else description);
      assert shown[..|CouldNotSend|] == CouldNotSend;
      Some(Notice(uri, displayName, shown))
  }

  // ---- Incoming calls ----

  /** The call manager's forwarding and answering settings. */
  datatype CallSettings = CallSettings(
    unconditionalForward: bool,
    forwardOnBusy: bool,
    forwardOnNoAnswer: bool,
    autoAnswer: bool,
    rejectDelay: nat)

  /** What OnIncomingConnection does with an accepted connection. */
  datatype IncomingAction =
    | ForwardIncoming(uri: string)
    | ClearIncoming(reason: CallEndReason)
    | ForwardOnNoAnswer(delay: nat, uri: string)
    | AnswerIncoming
    | RejectAfter(delay: nat)
    | NoIncomingAction

  /**
   * The decision for a connection OPAL accepted, first match wins;
   * `callCount` is the manager's number of calls (this one included),
   * `isOpalCall` whether the connection's call is an Opal::Call, and
   * `autoAnswerCall` the endpoint's one-shot answer flag.
   */
  function IncomingDecision(forwardUri: string, s: CallSettings, callCount: nat,
                            isOpalCall: bool, autoAnswerCall: bool): (r: IncomingAction)
    ensures forwardUri != [] && s.unconditionalForward ==> r == ForwardIncoming(forwardUri)
    ensures r.ForwardIncoming? <==>
      forwardUri != [] && (s.unconditionalForward || (callCount > 1 && s.forwardOnBusy))
    ensures r.ForwardIncoming? || r.ForwardOnNoAnswer? ==> forwardUri != [] && r.uri == forwardUri
    ensures callCount > 1 ==> r == ForwardIncoming(forwardUri) || r == ClearIncoming(EndedByLocalBusy)
    ensures r.ClearIncoming? <==>
      callCount > 1 && !(forwardUri != [] && (s.unconditionalForward || s.forwardOnBusy))
    ensures r.ClearIncoming? ==> r.reason == EndedByLocalBusy
    ensures r.ForwardOnNoAnswer? <==>
      forwardUri != [] && !s.unconditionalForward && callCount <= 1 && isOpalCall && s.forwardOnNoAnswer
    ensures r.ForwardOnNoAnswer? ==> r.delay == s.rejectDelay
    ensures r == AnswerIncoming <==>
      callCount <= 1 && isOpalCall && (autoAnswerCall || s.autoAnswer)
      && !(forwardUri != [] && (s.unconditionalForward || s.forwardOnNoAnswer))
    ensures r.RejectAfter? <==>
      callCount <= 1 && isOpalCall && !autoAnswerCall && !s.autoAnswer
      && !(forwardUri != [] && (s.unconditionalForward || s.forwardOnNoAnswer))
    ensures r.RejectAfter? ==> r.delay == s.rejectDelay
    ensures r == NoIncomingAction <==>
      callCount <= 1 && !isOpalCall && !(forwardUri != [] && s.unconditionalForward)
  {
    if forwardUri != [] && s.unconditionalForward then ForwardIncoming(forwardUri)
    else if callCount > 1 then
      if forwardUri != [] && s.forwardOnBusy then ForwardIncoming(forwardUri)
      else ClearIncoming(EndedByLocalBusy)
    else if !isOpalCall then NoIncomingAction
    else if forwardUri != [] && s.forwardOnNoAnswer then ForwardOnNoAnswer(s.rejectDelay, forwardUri)
    else if autoAnswerCall || s.autoAnswer then AnswerIncoming
    else RejectAfter(s.rejectDelay)
  }

  const RingAnswer := "Ring Answer"

  /** The one-shot answer flag after an INVITE with that Alert-Info header (section 20.4 of RFC 3261); None is a missing PDU. */
  predicate ArmedByInvite(armed: bool, alertInfo: Option<string>)
  {
    armed || (alertInfo.Some? && Contains(alertInfo.value, RingAnswer))
  }

  /** A "Ring Answer" INVITE is answered once, and the next call waits again. */
  lemma RingAnswerAnswersOnce(s: CallSettings, alertInfo: string)
    requires Contains(alertInfo, RingAnswer) && !s.autoAnswer
    ensures IncomingDecision("", s, 1, true, ArmedByInvite(false, Some(alertInfo))) == AnswerIncoming
    ensures IncomingDecision("", s, 1, true, false) == RejectAfter(s.rejectDelay)
  {
  }

  // ---- DTMF ----

  /** set_dtmf_mode: 0 is RFC 2833, 1 is SIP INFO (sent as tones); any other value changes nothing. */
  function InputModeFor(mode: nat, current: UserInputMode): (r: UserInputMode)
    ensures mode == 0 ==> r == SendAsInlineRFC2833
    ensures mode == 1 ==> r == SendAsTone
    ensures mode > 1 ==> r == current
  {
    if mode == 0 then SendAsInlineRFC2833
    else if mode == 1 then SendAsTone
    else current
  }

  /** get_dtmf_mode: 0 for RFC 2833, 1 for SIP INFO and for anything else. */
  function DtmfModeOf(m: UserInputMode): (r: nat)
    ensures r <= 1
    ensures r == 0 <==> m == SendAsInlineRFC2833
  {
    if m == SendAsInlineRFC2833 then 0 else 1
  }

  /** get_dtmf_mode reads back what set_dtmf_mode set. */
  lemma DtmfRoundTrip(mode: nat, current: UserInputMode)
    requires mode <= 1
    ensures DtmfModeOf(InputModeFor(mode, current)) == mode
  {
  }

  // ---- Menu actions for a contact's URI ----

  predicate IsSeparator(c: char)
  {
    c == ' ' || c == '-'
  }

  /** A URI with its spaces and dashes removed. */
  function Stripped(s: string): (r: string)
    ensures |r| <= |s|
  {
    if s == [] then []
    else (if IsSeparator(s[0]) then [] else [s[0]]) + Stripped(s[1..])
  }

  /** The stripped URI holds no separator and only characters of the URI; a URI without separators is kept. */
  lemma {:induction false} StrippedMeaning(s: string)
    ensures var r := Stripped(s);
            (forall i :: 0 <= i < |r| ==> !IsSeparator(r[i]) && r[i] in s)
            && ((forall i :: 0 <= i < |s| ==> !IsSeparator(s[i])) ==> r == s)
  {
    if s != [] {
      StrippedMeaning(s[1..]);
      var head := if IsSeparator(s[0]) then [] else [s[0]];
      var tail := Stripped(s[1..]);
      assert Stripped(s) == head + tail;
      forall i | 0 <= i < |head + tail|
        ensures !IsSeparator((head + tail)[i]) && (head + tail)[i] in s
      {
        if i < |head| {
          assert (head + tail)[i] == s[0];
        } else {
          assert (head + tail)[i] == tail[i - |head|];
          assert tail[i - |head|] in s[1..];
        }
      }
      if forall i :: 0 <= i < |s| ==> !IsSeparator(s[i]) {
        assert forall i :: 0 <= i < |s[1..]| ==> !IsSeparator(s[1..][i]);
        assert head == [s[0]];
        assert s == [s[0]] + s[1..];
      }
    }
  }

  lemma {:induction false} StrippedConcat(a: string, b: string)
    ensures Stripped(a + b) == Stripped(a) + Stripped(b)
  {
    if a == [] {
      assert a + b == b;
    } else {
      assert (a + b)[0] == a[0];
      assert (a + b)[1..] == a[1..] + b;
      StrippedConcat(a[1..], b);
    }
  }

  /** A leading separator is stripped. */
  lemma StrippedDropsSeparator(c: char, rest: string)
    requires IsSeparator(c)
    ensures Stripped([c] + rest) == Stripped(rest)
  {
    assert ([c] + rest)[0] == c && ([c] + rest)[1..] == rest;
  }

  /** Erasing a separator does not change what is left once separators are stripped. */
  lemma StrippedErase(str: string, i: nat)
    requires i < |str| && IsSeparator(str[i])
    ensures Stripped(str[..i] + str[i + 1..]) == Stripped(str)
  {
    var front, back := str[..i], str[i + 1..];
    assert str == front + ([str[i]] + back);
    StrippedConcat(front, [str[i]] + back);
    StrippedDropsSeparator(str[i], back);
    StrippedConcat(front, back);
  }

  /** The erase loop of menu_builder_add_actions. */
  method StripSeparators(uri: string) returns (str: string)
    ensures str == Stripped(uri)
  {
    str := uri;
    var i := 0;
    while i < |str|
      invariant 0 <= i <= |str|
      invariant Stripped(str) == Stripped(uri)
      invariant forall k :: 0 <= k < i ==> !IsSeparator(str[k])
      decreases |str| - i
    {
      if IsSeparator(str[i]) {
        // erase(i, 1); the i-- that follows is undone by the loop's i++
        StrippedErase(str, i);
        str := str[..i] + str[i + 1..];
      } else {
        i := i + 1;
      }
    }
    StrippedMeaning(str);
  }

  /** The URI offered through one SIP account for a URI that names no domain. */
  function ExpandedUri(uri: string, host: string): string
  {
    var str := Stripped(uri);
    (if Contains(str, UriPrefix) then str else UriPrefix + str) + "@" + host
  }

  /** The accounts a domain-less URI is offered through: the enabled SIP accounts. */
  predicate Expands(a: BankAccount)
  {
    a.protocol == "SIP" && a.enabled
  }

  function ExpandedUris(uri: string, bank: seq<BankAccount>): (r: seq<string>)
    ensures |r| <= |bank|
  {
    if bank == [] then []
    else
      var last := bank[|bank| - 1];
      ExpandedUris(uri, bank[..|bank| - 1]) + (if Expands(last) then [ExpandedUri(uri, last.host)] else [])
  }

  function ExpandingNames(bank: seq<BankAccount>): (r: seq<string>)
    ensures |r| <= |bank|
  {
    if bank == [] then []
    else
      var last := bank[|bank| - 1];
      ExpandingNames(bank[..|bank| - 1]) + (if Expands(last) then [last.name] else [])
  }

  lemma {:induction false} ExpandedLengths(uri: string, bank: seq<BankAccount>)
    ensures |ExpandedUris(uri, bank)| == |ExpandingNames(bank)|
  {
    if bank != [] {
      ExpandedLengths(uri, bank[..|bank| - 1]);
    }
  }

  /** The URIs of the menu, one per enabled SIP account, or the URI itself when it names a domain. */
  function MenuTargets(uri: string, bank: seq<BankAccount>): seq<string>
  {
    if '@' in uri then [uri] else ExpandedUris(uri, bank)
  }

  /** The account names shown beside the menu URIs ("" for a URI with a domain). */
  function MenuNames(uri: string, bank: seq<BankAccount>): seq<string>
  {
    if '@' in uri then [""] else ExpandingNames(bank)
  }

  /** A menu entry: the action's name, its caption, the URI it acts on and the contact it is for. */
  datatype MenuAction = MenuAction(action: string, caption: string, uri: string, contact: string)

  function ActionLabel(verb: string, accountName: string): string
  {
    if accountName != [] then verb + " [" + accountName + "]" else verb
  }

  /** Call while idle, transfer while a connection exists. */
  function CallAction(uri: string, accountName: string, connectionCount: nat): MenuAction
  {
    if connectionCount == 0 then MenuAction("call", ActionLabel("Call", accountName), uri, "")
    else MenuAction("transfer", ActionLabel("Transfer", accountName), uri, "")
  }

  function MessageAction(uri: string, accountName: string, fullname: string): MenuAction
  {
    MenuAction("message", ActionLabel("Message", accountName), uri, fullname)
  }

  /** The enabled SIP accounts' expanded URIs, built as the bank is walked. */
  method ExpandForAccounts(uri: string, bank: seq<BankAccount>) returns (uris: seq<string>, names: seq<string>)
    ensures uris == ExpandedUris(uri, bank) && names == ExpandingNames(bank)
  {
    uris, names := [], [];
    var i := 0;
    while i < |bank|
      invariant 0 <= i <= |bank|
      invariant uris == ExpandedUris(uri, bank[..i]) && names == ExpandingNames(bank[..i])
    {
      assert bank[..i + 1][..i] == bank[..i];
      if bank[i].protocol == "SIP" && bank[i].enabled {
        var str := StripSeparators(uri);
        var full := if Contains(str, UriPrefix) then str else UriPrefix + str;
        uris := uris + [full + "@" + bank[i].host];
        names := names + [bank[i].name];
      }
      i := i + 1;
    }
    assert bank[..|bank|] == bank;
  }

  /** The two action loops: a call (or transfer) action per URI, then a message action per URI. */
  method AddActions(fullname: string, uris: seq<string>, names: seq<string>, connectionCount: nat)
    returns (actions: seq<MenuAction>)
    requires |uris| == |names|
    ensures |actions| == 2 * |uris|
    ensures forall i :: 0 <= i < |uris| ==> actions[i] == CallAction(uris[i], names[i], connectionCount)
    ensures forall i :: 0 <= i < |uris| ==> actions[|uris| + i] == MessageAction(uris[i], names[i], fullname)
  {
    actions := [];
    var i := 0;
    while i < |uris|
      invariant 0 <= i <= |uris|
      invariant |actions| == i
      invariant forall k :: 0 <= k < i ==> actions[k] == CallAction(uris[k], names[k], connectionCount)
    {
      actions := actions + [CallAction(uris[i], names[i], connectionCount)];
      i := i + 1;
    }
    i := 0;
    while i < |uris|
      invariant 0 <= i <= |uris|
      invariant |actions| == |uris| + i
      invariant forall k :: 0 <= k < |uris| ==> actions[k] == CallAction(uris[k], names[k], connectionCount)
      invariant forall k :: 0 <= k < i ==> actions[|uris| + k] == MessageAction(uris[k], names[k], fullname)
    {
      actions := actions + [MessageAction(uris[i], names[i], fullname)];
      i := i + 1;
    }
  }

  /**
   * menu_builder_add_actions: for a URI this endpoint takes, one call (or
   * transfer) action per menu URI, then one message action per menu URI.
   */
  method MenuBuilderAddActions(fullname: string, uri: string, bank: seq<BankAccount>, connectionCount: nat)
    returns (populated: bool, actions: seq<MenuAction>)
    ensures populated <==> IsSipUri(uri)
    ensures !populated ==> actions == []
    ensures populated ==>
      var targets, names := MenuTargets(uri, bank), MenuNames(uri, bank);
      |targets| == |names| && |actions| == 2 * |targets|
      && (forall i :: 0 <= i < |targets| ==> actions[i] == CallAction(targets[i], names[i], connectionCount))
      && (forall i :: 0 <= i < |targets| ==> actions[|targets| + i] == MessageAction(targets[i], names[i], fullname))
  {
    if !(StartsWith(uri, UriPrefix) || ':' !in uri) {
      return false, [];
    }
    var uris, names;
    if '@' !in uri {
      uris, names := ExpandForAccounts(uri, bank);
      ExpandedLengths(uri, bank);
    } else {
      uris, names := [uri], [""];
    }
    actions := AddActions(fullname, uris, names, connectionCount);
    populated := true;
  }

  lemma StrippedOfSipPrefix(rest: string)
    ensures StartsWith(Stripped(UriPrefix + rest), UriPrefix)
  {
    StrippedConcat(UriPrefix, rest);
    StrippedMeaning(UriPrefix);
    assert Stripped(UriPrefix) == UriPrefix;
    FindOfPrefix(UriPrefix, Stripped(rest));
  }

  /** A "sip:" URI still starts with "sip:" once stripped. */
  lemma StrippedKeepsScheme(uri: string)
    requires StartsWith(uri, UriPrefix)
    ensures StartsWith(Stripped(uri), UriPrefix)
  {
    StartsWithIsPrefix(uri, UriPrefix);
    assert uri == UriPrefix + uri[4..];
    StrippedOfSipPrefix(uri[4..]);
  }

  /** A URI without ':' holds no "sip:" once stripped. */
  lemma StrippedWithoutScheme(uri: string)
    requires ':' !in uri
    ensures !Contains(Stripped(uri), UriPrefix)
  {
    var str := Stripped(uri);
    StrippedMeaning(uri);
    forall i | 0 <= i < |str|
      ensures str[i] != ':'
    {
      assert str[i] in uri;
    }
    MissingCharNotContained(str, UriPrefix, 3);
  }

  /** Every expanded URI is a "sip:" URI, so dial takes it as it is. */
  lemma ExpandedUriIsSip(uri: string, host: string)
    requires IsSipUri(uri)
    ensures StartsWith(ExpandedUri(uri, host), UriPrefix)
    ensures Dial(ExpandedUri(uri, host)) == Some(ExpandedUri(uri, host))
  {
    var str := Stripped(uri);
    var full := if Contains(str, UriPrefix) then str else UriPrefix + str;
    if StartsWith(uri, UriPrefix) {
      StrippedKeepsScheme(uri);
    } else {
      StrippedWithoutScheme(uri);
      FindOfPrefix(UriPrefix, str);
    }
    assert StartsWith(full, UriPrefix);
    StartsWithAppend(full, UriPrefix, "@" + host);
    assert ExpandedUri(uri, host) == full + ("@" + host);
    SipUriDialled(ExpandedUri(uri, host));
  }

  /** A "sip:" URI is dialled as it is. */
  lemma SipUriDialled(t: string)
    requires StartsWith(t, UriPrefix)
    ensures Dial(t) == Some(t)
  {
    StartsWithIsPrefix(t, UriPrefix);
    assert t[3] == t[..4][3] == UriPrefix[3] == ':';
  }

  /** Each URI the menu offers is one dial takes. */
  lemma {:induction false} MenuTargetsAreDialable(uri: string, bank: seq<BankAccount>, i: nat)
    requires IsSipUri(uri) && i < |MenuTargets(uri, bank)|
    ensures Dial(MenuTargets(uri, bank)[i]).Some?
    ensures '@' !in uri ==> Dial(MenuTargets(uri, bank)[i]) == Some(MenuTargets(uri, bank)[i])
    decreases |bank|
  {
    if '@' !in uri {
      var prev := ExpandedUris(uri, bank[..|bank| - 1]);
      if i < |prev| {
        MenuTargetsAreDialable(uri, bank[..|bank| - 1], i);
      } else {
        ExpandedUriIsSip(uri, bank[|bank| - 1].host);
      }
    }
  }

  // ---- Registered party names ----

  /** The host-to-AOR map after visit_accounts has seen each account of `bank` in order. */
  function Visited(m: map<string, string>, bank: seq<BankAccount>): map<string, string>
  {
    if bank == [] then m
    else
      var last := bank[|bank| - 1];
      Visited(m, bank[..|bank| - 1])[last.host := last.aor]
  }

  /** The index of the last account of `bank` on that host. */
  function LastOnHost(bank: seq<BankAccount>, host: string): (r: Option<nat>)
    ensures r.None? <==> forall j :: 0 <= j < |bank| ==> bank[j].host != host
    ensures r.Some? ==> r.value < |bank| && bank[r.value].host == host
    ensures r.Some? ==> forall k :: r.value < k < |bank| ==> bank[k].host != host
  {
    if bank == [] then None
    else if bank[|bank| - 1].host == host then Some(|bank| - 1)
    else
      var front := bank[..|bank| - 1];
      assert forall j :: 0 <= j < |front| ==> front[j] == bank[j];
      LastOnHost(front, host)
  }

  function LastAorFor(bank: seq<BankAccount>, host: string): Option<string>
  {
    match LastOnHost(bank, host)
    case None => None
    case Some(i) => Some(bank[i].aor)
  }

  /** Last write wins: each host maps to its last account's AOR; other hosts keep their entries. */
  lemma {:induction false} VisitedLastWriteWins(m: map<string, string>, bank: seq<BankAccount>, host: string)
    ensures LastAorFor(bank, host).Some? ==>
      host in Visited(m, bank) && Visited(m, bank)[host] == LastAorFor(bank, host).value
    ensures LastAorFor(bank, host).None? ==>
      (host in Visited(m, bank) <==> host in m) && (host in m ==> Visited(m, bank)[host] == m[host])
  {
    if bank != [] && bank[|bank| - 1].host != host {
      VisitedLastWriteWins(m, bank[..|bank| - 1], host);
    }
  }

  /** GetRegisteredPartyName: the AOR stored for the host, else OPAL's default party name. */
  function PartyName(m: map<string, string>, host: string, defaultName: string): (r: string)
    ensures host in m && m[host] != "" ==> r == m[host]
    ensures !(host in m && m[host] != "") ==> r == defaultName
  {
    if host in m && m[host] != "" then m[host] else defaultName
  }

  /** After a bank update, the party name for a host is its last account's AOR, when that is not empty. */
  lemma PartyNameAfterUpdate(m: map<string, string>, bank: seq<BankAccount>, host: string, defaultName: string)
    requires LastAorFor(bank, host).Some? && LastAorFor(bank, host).value != ""
    ensures PartyName(Visited(m, bank), host, defaultName) == LastAorFor(bank, host).value
  {
    VisitedLastWriteWins(m, bank, host);
  }

  // ---- The endpoint's own state ----

  class EndPoint {
    /** Set by a "Ring Answer" INVITE, consumed by the next auto-answered call. */
    var autoAnswerCall: bool
    var forwardUri: string
    var userInputMode: UserInputMode
    /** Host to address of record, written by visit_accounts. */
    var accounts: map<string, string>
    var listenPort: nat

    constructor (requestedPort: nat, inputMode: UserInputMode)
      ensures !autoAnswerCall && forwardUri == "" && accounts == map[]
      ensures listenPort == ListenPort(requestedPort) && userInputMode == inputMode
    {
      autoAnswerCall := false;
      forwardUri := "";
      userInputMode := inputMode;
      accounts := map[];
      listenPort := ListenPort(requestedPort);
    }

    method SetForwardUri(uri: string)
      modifies this
      ensures forwardUri == uri
      ensures autoAnswerCall == old(autoAnswerCall) && userInputMode == old(userInputMode)
      ensures accounts == old(accounts) && listenPort == old(listenPort)
    {
      forwardUri := uri;
    }

    method SetDtmfMode(mode: nat)
      modifies this
      ensures userInputMode == InputModeFor(mode, old(userInputMode))
      ensures autoAnswerCall == old(autoAnswerCall) && forwardUri == old(forwardUri)
      ensures accounts == old(accounts) && listenPort == old(listenPort)
    {
      if mode == 0 {
        userInputMode := SendAsInlineRFC2833;
      } else if mode == 1 {
        userInputMode := SendAsTone;
      }
    }

    function GetDtmfMode(): (r: nat)
      reads this
      ensures r <= 1 && (r == 0 <==> userInputMode == SendAsInlineRFC2833)
    {
      DtmfModeOf(userInputMode)
    }

    /** OnReceivedINVITE: `alertInfo` is the Alert-Info header, None when there is no PDU. */
    method OnReceivedInvite(alertInfo: Option<string>)
      modifies this
      ensures autoAnswerCall == ArmedByInvite(old(autoAnswerCall), alertInfo)
      ensures forwardUri == old(forwardUri) && userInputMode == old(userInputMode)
      ensures accounts == old(accounts) && listenPort == old(listenPort)
    {
      if alertInfo.Some? && Text.Find(alertInfo.value, RingAnswer).Some? {
        autoAnswerCall := true;
      }
    }

    /**
     * OnIncomingConnection: `baseAccepts` is OPAL's own verdict on the
     * connection. Only an auto-answered call consumes the one-shot flag.
     */
    method OnIncomingConnection(baseAccepts: bool, s: CallSettings, callCount: nat, isOpalCall: bool)
      returns (accepted: bool, action: IncomingAction)
      modifies this
      ensures accepted == baseAccepts
      ensures action == if baseAccepts then IncomingDecision(forwardUri, s, callCount, isOpalCall, old(autoAnswerCall))
                        else NoIncomingAction
      ensures autoAnswerCall == (old(autoAnswerCall) && action != AnswerIncoming)
      ensures forwardUri == old(forwardUri) && userInputMode == old(userInputMode)
      ensures accounts == old(accounts) && listenPort == old(listenPort)
    {
      if !baseAccepts {
        return false, NoIncomingAction;
      }
      accepted := true;
      if forwardUri != [] && s.unconditionalForward {
        action := ForwardIncoming(forwardUri);
      } else if callCount > 1 {
        if forwardUri != [] && s.forwardOnBusy {
          action := ForwardIncoming(forwardUri);
        } else {
          action := ClearIncoming(EndedByLocalBusy);
        }
      } else if isOpalCall {
        if forwardUri != [] && s.forwardOnNoAnswer {
          action := ForwardOnNoAnswer(s.rejectDelay, forwardUri);
        } else if autoAnswerCall || s.autoAnswer {
          autoAnswerCall := false;
          action := AnswerIncoming;
        } else {
          action := RejectAfter(s.rejectDelay);
        }
      } else {
        action := NoIncomingAction;
      }
    }

    /** visit_accounts: the account's host now maps to its AOR. */
    method VisitAccount(account: BankAccount) returns (r: bool)
      modifies this
      ensures r
      ensures accounts == old(accounts)[account.host := account.aor]
      ensures autoAnswerCall == old(autoAnswerCall) && forwardUri == old(forwardUri)
      ensures userInputMode == old(userInputMode) && listenPort == old(listenPort)
    {
      accounts := accounts[account.host := account.aor];
      r := true;
    }

    /** on_bank_updated: every account of the bank is visited in order. */
    method OnBankUpdated(bank: seq<BankAccount>)
      modifies this
      ensures accounts == Visited(old(accounts), bank)
      ensures autoAnswerCall == old(autoAnswerCall) && forwardUri == old(forwardUri)
      ensures userInputMode == old(userInputMode) && listenPort == old(listenPort)
    {
      var i := 0;
      while i < |bank|
        invariant 0 <= i <= |bank|
        invariant accounts == Visited(old(accounts), bank[..i])
        invariant autoAnswerCall == old(autoAnswerCall) && forwardUri == old(forwardUri)
        invariant userInputMode == old(userInputMode) && listenPort == old(listenPort)
      {
        assert bank[..i + 1][..i] == bank[..i];
        var visited := VisitAccount(bank[i]);
        i := i + 1;
      }
      assert bank[..|bank|] == bank;
    }

    /**
     * GetRegisteredPartyName: `defaultName` is OPAL's default party name for
     * the transport. Looking the host up with std::map's operator[] stores an
     * empty AOR for a host not seen before.
     */
    method GetRegisteredPartyName(hostName: string, defaultName: string) returns (r: string)
      modifies this
      ensures r == PartyName(old(accounts), hostName, defaultName)
      ensures accounts == if hostName in old(accounts) then old(accounts) else old(accounts)[hostName := ""]
      ensures autoAnswerCall == old(autoAnswerCall) && forwardUri == old(forwardUri)
      ensures userInputMode == old(userInputMode) && listenPort == old(listenPort)
    {
      if hostName !in accounts {
        accounts := accounts[hostName := ""];
      }
      var localAor := accounts[hostName];
      if localAor != [] {
        r := localAor;
      } else {
        r := defaultName;
      }
    }
  }

  /** A lookup that inserted an empty AOR does not change any later party name. */
  lemma EmptyInsertKeepsPartyNames(m: map<string, string>, inserted: string, host: string, defaultName: string)
    requires inserted !in m
    ensures PartyName(m[inserted := ""], host, defaultName) == PartyName(m, host, defaultName)
  {
  }

}
