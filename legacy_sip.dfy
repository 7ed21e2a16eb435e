// The older SIP endpoint, GMSIPEndpoint (src/endpoints/sip.cpp, sip.h): its
// admission decision for incoming calls and the no-answer timer, the
// de-duplication of instant messages by sender and Call-ID, the texts of
// registration and message failures, presence publication, message-waiting
// change detection, DTMF mode, the party name for outgoing requests and the
// choice of the listening interface. Configuration keys, OPAL and the
// manager are read through plain parameters.

module LegacySip {
  import opened Base
  import opened Text
  import opened SipStatus
  import opened Accounts
  import SipEndpoint

  /** The presence states of the personal-data "status" key. */
  datatype ContactStatus =
    | ContactOnline
    | ContactOffline
    | ContactInvisible
    | ContactDnd
    | ContactAway
    | ContactFreeForChat
    | ContactUnknown(code: int)

  // ---- Incoming calls ----

  // The reason codes GMManager::OnIncomingConnection takes.
  const AskUser := 0
  const RejectCall := 1
  const ForwardCall := 2
  const AutoAnswerCall := 4

  /** The longest no-answer delay, in seconds. */
  const MaxNoAnswerDelay := 60

  /** What OnIncomingConnection reads from the configuration. */
  datatype IncomingConfig = IncomingConfig(
    forwardHost: Option<string>,
    busyForward: bool,
    alwaysForward: bool,
    status: ContactStatus,
    noAnswerTimeout: int)

  /**
   * The admission decision, first match wins. A configured forward host
   * counts even when it is the empty string: only its presence is tested.
   */
  function AdmissionReason(c: IncomingConfig, state: CallingState): (r: nat)
    ensures r == AskUser || r == RejectCall || r == ForwardCall || r == AutoAnswerCall
    ensures c.status == ContactDnd ==> r == RejectCall
    ensures r == ForwardCall ==> c.forwardHost.Some? && c.status != ContactDnd
    ensures c.status != ContactDnd && c.forwardHost.Some? && c.alwaysForward ==> r == ForwardCall
    ensures state != Standby ==> r == RejectCall || r == ForwardCall
    ensures r == ForwardCall <==>
      c.status != ContactDnd && c.forwardHost.Some? && (c.alwaysForward || (state != Standby && c.busyForward))
    ensures r == RejectCall <==>
      c.status == ContactDnd
      || (!(c.forwardHost.Some? && c.alwaysForward) && state != Standby && !(c.forwardHost.Some? && c.busyForward))
    ensures r == AutoAnswerCall <==>
      c.status == ContactFreeForChat && state == Standby && !(c.forwardHost.Some? && c.alwaysForward)
    ensures r == AskUser <==>
      c.status != ContactDnd && c.status != ContactFreeForChat && state == Standby
      && !(c.forwardHost.Some? && c.alwaysForward)
  {
    if c.status == ContactDnd then RejectCall
    else if c.forwardHost.Some? && c.alwaysForward then ForwardCall
    else if state != Standby then
      if c.forwardHost.Some? && c.busyForward then ForwardCall else RejectCall
    else if c.status == ContactFreeForChat then AutoAnswerCall
    else AskUser
  }

  /** The no-answer delay the ask decision arms: the configured one, at most a minute. */
  function NoAnswerDelay(timeout: int): (d: int)
    ensures d <= MaxNoAnswerDelay
    ensures d == timeout || d == MaxNoAnswerDelay
    ensures timeout <= MaxNoAnswerDelay ==> d == timeout
  {
    if timeout < MaxNoAnswerDelay then timeout else MaxNoAnswerDelay
  }

  /** What the no-answer timer does when it fires ("None" is nothing at all). */
  datatype NoAnswerAction = ForwardTo(host: string) | ClearAllCalls(reason: CallEndReason)

  /** OnNoAnswerTimeout: acts only on a call still ringing here. */
  function NoAnswerTimeout(state: CallingState, forwardHost: Option<string>, forwardOnNoAnswer: bool)
    : (r: Option<NoAnswerAction>)
    ensures r.Some? <==> state == Called
    ensures r.Some? && r.value.ForwardTo? ==> forwardHost == Some(r.value.host) && forwardOnNoAnswer
    ensures r.Some? && r.value.ClearAllCalls? ==>
      r.value.reason == EndedByNoAnswer && !(forwardHost.Some? && forwardOnNoAnswer)
  {
    if state != Called then None
    else if forwardHost.Some? && forwardOnNoAnswer then Some(ForwardTo(forwardHost.value))
    else Some(ClearAllCalls(EndedByNoAnswer))
  }

  // ---- Failure texts ----

  /** The reason OnRegistrationFailed shows: a total map; 401 and 403 read alike. */
  function RegistrationFailureReason(code: int): (r: string)
    ensures code == FailureUnAuthorised || code == FailureForbidden ==> r == "Forbidden"
    ensures r == "Forbidden" ==> code == FailureUnAuthorised || code == FailureForbidden
    ensures r == "Registration failed" <==>
      !(code in {FailureBadRequest, FailurePaymentRequired, FailureUnAuthorised, FailureForbidden,
                 FailureRequestTimeout, FailureConflict, FailureTemporarilyUnavailable, FailureNotAcceptable})
  {
    if code == FailureBadRequest then "Bad request"
    else if code == FailurePaymentRequired then "Payment required"
    else if code == FailureUnAuthorised || code == FailureForbidden then "Forbidden"
    else if code == FailureRequestTimeout then "Timeout"
    else if code == FailureConflict then "Conflict"
    else if code == FailureTemporarilyUnavailable then "Temporarily unavailable"
    else if code == FailureNotAcceptable then "Not Acceptable"
    else "Registration failed"
  }

  /** What the history and the accounts window are told of a registration result. */
  datatype RegistrationReport = RegistrationReport(message: string, accountState: string)

  /** OnRegistrationFailed: the message and the account state, chosen by was-registering. */
  function RegistrationFailed(aor: string, code: int, wasRegistering: bool): (r: RegistrationReport)
    ensures wasRegistering ==> r.accountState == "Registration failed"
    ensures !wasRegistering ==> r.accountState == "Unregistration failed"
    ensures r.message == (if wasRegistering then "Registration of " else "Unregistration of ")
                         + aor + " failed: " + RegistrationFailureReason(code)
  {
    var verb := if wasRegistering then "Registration of " else "Unregistration of ";
    RegistrationReport(verb + aor + " failed: " + RegistrationFailureReason(code),
                       if wasRegistering then "Registration failed" else "Unregistration failed")
  }

  /** OnMessageFailed: the chat-window error for a MESSAGE that was refused; a total map. */
  function MessageFailureText(code: int): (r: string)
    ensures code == FailureUnAuthorised || code == FailureForbidden ==> r == "Error: Forbidden"
    ensures r == "Error: Failed to transmit message" <==>
      !(code in {FailureNotFound, FailureTemporarilyUnavailable, FailureUnAuthorised, FailureForbidden,
                 FailureRequestTimeout})
  {
    if code == FailureNotFound then "Error: User not found"
    else if code == FailureTemporarilyUnavailable then "Error: User offline"
    else if code == FailureUnAuthorised || code == FailureForbidden then "Error: Forbidden"
    else if code == FailureRequestTimeout then "Error: Timeout"
    else "Error: Failed to transmit message"
  }

  // ---- Presence ----

  /** The PIDF document PublishPresence sends: the basic status (the source's `note`) and the note (its `status`), as SIPPublishHandler::BuildBody takes them. */
  datatype Presence = Presence(to: string, basic: string, note: string, expire: nat)

  /** PublishPresence: offline and invisible publish "closed", the other states "open". */
  function PublishPresence(to: string, state: ContactStatus): (r: Presence)
    ensures r.to == to && r.expire == 500
    ensures r.basic == "closed" <==> state == ContactOffline || state == ContactInvisible
    ensures r.basic == "open" <==> !state.ContactUnknown? && state != ContactOffline && state != ContactInvisible
    ensures state.ContactUnknown? ==> r.basic == "" && r.note == ""
  {
    match state
    case ContactOnline => Presence(to, "open", "Online", 500)
    case ContactOffline => Presence(to, "closed", "Offline", 500)
    case ContactInvisible => Presence(to, "closed", "Offline", 500)
    case ContactDnd => Presence(to, "open", "Do Not Disturb", 500)
    case ContactAway => Presence(to, "open", "Away", 500)
    case ContactFreeForChat => Presence(to, "open", "Free For Chat", 500)
    case ContactUnknown(_) => Presence(to, "", "", 500)
  }

  /** What OnRegistered does besides signalling OPAL and the engine. */
  datatype RegisteredActions = RegisteredActions(
    report: RegistrationReport,
    refreshAccountInfo: bool,
    published: Presence,
    mwiSubscription: Option<string>)

  /**
   * OnRegistered: `configured` is the personal-data status, `subscribed`
   * OPAL's IsSubscribed for the AOR's message summary, and `state` the
   * manager's calling state (the main window's account count is refreshed
   * only when idle).
   */
  function Registered(aor: string, wasRegistering: bool, configured: ContactStatus,
                      subscribed: bool, state: CallingState): (r: RegisteredActions)
    ensures r.report.accountState == (if wasRegistering then "Registered" else "Unregistered")
    ensures r.report.message == (if wasRegistering then "Registered " else "Unregistered ") + aor
    ensures r.refreshAccountInfo <==> state == Standby
    ensures r.published == PublishPresence(aor, if wasRegistering then configured else ContactOffline)
    ensures !wasRegistering ==> r.published.basic == "closed"
    ensures r.mwiSubscription.Some? <==> !subscribed
    ensures r.mwiSubscription.Some? ==> r.mwiSubscription.value == aor
  {
    RegisteredActions(
      RegistrationReport((if wasRegistering then "Registered " else "Unregistered ") + aor,
                         if wasRegistering then "Registered" else "Unregistered"),
      state == Standby,
      PublishPresence(aor, if wasRegistering then configured else ContactOffline),
      if subscribed then None else Some(aor))
  }

  // ---- DTMF ----

  /** SetUserInputMode: 0 sends tones, 1 RFC 2833; other values leave the mode alone. */
  function LegacyInputModeFor(mode: int, current: UserInputMode): (r: UserInputMode)
    ensures mode == 0 ==> r == SendAsTone
    ensures mode == 1 ==> r == SendAsInlineRFC2833
    ensures mode != 0 && mode != 1 ==> r == current
  {
    if mode == 0 then SendAsTone
    else if mode == 1 then SendAsInlineRFC2833
    else current
  }

  /** The two generations read the same configured value as opposite encodings. */
  lemma OppositeDtmfEncodings(mode: nat, current: UserInputMode)
    requires mode <= 1
    ensures LegacyInputModeFor(mode, current) != SipEndpoint.InputModeFor(mode, current)
    ensures LegacyInputModeFor(mode, current) == SipEndpoint.InputModeFor(1 - mode, current)
    ensures SipEndpoint.DtmfModeOf(LegacyInputModeFor(mode, current)) == 1 - mode
  {
  }

  // ---- Message de-duplication ----

  /** A MESSAGE is delivered unless the sender's last delivered Call-ID is this one. */
  predicate IsNewMessage(msgData: map<string, string>, sender: string, callId: string)
  {
    sender !in msgData || msgData[sender] != callId
  }

  /** Once delivered, a retransmission (same sender, same Call-ID) is not delivered again. */
  lemma RetransmissionSuppressed(msgData: map<string, string>, sender: string, callId: string)
    ensures !IsNewMessage(msgData[sender := callId], sender, callId)
  {
  }

  /** Delivering from one sender does not change what is new from another. */
  lemma OtherSendersUnaffected(msgData: map<string, string>, sender: string, callId: string,
                               other: string, otherId: string)
    requires other != sender
    ensures IsNewMessage(msgData[sender := callId], other, otherId) == IsNewMessage(msgData, other, otherId)
  {
  }

  /** A message handed to OnMessageReceived: the cleaned sender and the body. */
  datatype ReceivedMessage = ReceivedMessage(from: string, body: string)

  // ---- Party name ----

  /** An active REGISTER handler OPAL found for the host: its target's host name and address. */
  datatype Registration = Registration(hostName: string, address: string)

  /** The address of record an account gives: the user name if it names a domain, else user@host. */
  function AccountAor(a: Account): (r: string)
    ensures '@' in a.username.GetOr("") ==> r == a.username.GetOr("")
    ensures '@' !in a.username.GetOr("") ==> r == a.username.GetOr("") + "@" + a.host.GetOr("")
  {
    var user := a.username.GetOr("");
    FindCharIsFind(user, '@');
    if Text.Find(user, "@").None? then user + "@" + a.host.GetOr("") else user
  }

  /**
   * GetRegisteredPartyName: `info` is OPAL's REGISTER handler for the host,
   * `defaultAccount` the account store's default SIP account and
   * `fallback` OPAL's default party name.
   */
  function RegisteredPartyName(info: Option<Registration>, defaultAccount: Option<Account>,
                               fallback: string): (r: string)
    ensures defaultAccount.Some? && defaultAccount.value.enabled
            && (info.None? || info.value.hostName == defaultAccount.value.host.GetOr(""))
            ==> r == AccountAor(defaultAccount.value)
    ensures !(defaultAccount.Some? && defaultAccount.value.enabled) && info.Some? ==> r == info.value.address
    ensures defaultAccount.Some? && defaultAccount.value.enabled
            && info.Some? && info.value.hostName != defaultAccount.value.host.GetOr("")
            ==> r == info.value.address
    ensures info.None? && !(defaultAccount.Some? && defaultAccount.value.enabled) ==> r == fallback
  {
    if defaultAccount.Some? && defaultAccount.value.enabled
       && (info.None? || info.value.hostName == defaultAccount.value.host.GetOr("")) then
      AccountAor(defaultAccount.value)
    else if info.Some? then info.value.address
    else fallback
  }

  /**
   * The party name the legacy endpoint gives for its default account is
   * the address of record the newer endpoint registers, as long as the
   * host carries no port.
   */
  lemma PartyNameIsRegisteredAor(a: Account)
    requires ':' !in a.host.GetOr("")
    ensures AccountAor(a) == SipEndpoint.AddressOfRecord(a.username.GetOr(""), a.host.GetOr(""))
  {
  }

  // ---- Listening interface ----

  /** An entry of the interface table: its name and its address as text. */
  datatype Interface = Interface(name: string, address: string)

  /** How the preferences show an interface: "name [address]". */
  function InterfaceLabel(i: Interface): string
  {
    i.name + " [" + i.address + "]"
  }

  /** The listener specification for an address and port. */
  function UdpListener(address: string, port: nat): string
  {
    "udp$" + address + ":" + NatToString(port)
  }

  /** The name part of a configured interface: the text before its '[', trimmed; "" without a '['. */
  function InterfaceName(iface: string): string
  {
    match FindChar(iface, '[')
    case Some(pos) => Trim(Left(iface, pos))
    case None => ""
  }

  /** The index of the LAST interface whose label is the configured text (the first loop does not stop). */
  function LastLabelMatch(ifaces: seq<Interface>, iface: string): (r: Option<nat>)
    ensures r.Some? ==> r.value < |ifaces| && InterfaceLabel(ifaces[r.value]) == iface
    ensures r.Some? ==> forall k :: r.value < k < |ifaces| ==> InterfaceLabel(ifaces[k]) != iface
    ensures r.None? <==> forall k :: 0 <= k < |ifaces| ==> InterfaceLabel(ifaces[k]) != iface
  {
    if ifaces == [] then None
    else if InterfaceLabel(ifaces[|ifaces| - 1]) == iface then Some(|ifaces| - 1)
    else
      var front := ifaces[..|ifaces| - 1];
      assert forall k :: 0 <= k < |front| ==> front[k] == ifaces[k];
      LastLabelMatch(front, iface)
  }

  /** The index of the FIRST interface with that name (the second loop stops at it). */
  function FirstNameMatch(ifaces: seq<Interface>, name: string): (r: Option<nat>)
    ensures r.Some? ==> r.value < |ifaces| && ifaces[r.value].name == name
    ensures r.Some? ==> forall k :: 0 <= k < r.value ==> ifaces[k].name != name
    ensures r.None? <==> forall k :: 0 <= k < |ifaces| ==> ifaces[k].name != name
  {
    if ifaces == [] then None
    else if ifaces[0].name == name then Some(0)
    else match FirstNameMatch(ifaces[1..], name)
      case None => None
      case Some(k) => Some(k + 1)
  }

  /** The listener StartListener starts, if any: by full label first, else by name. */
  function ListenTarget(ifaces: seq<Interface>, iface: string, port: nat): (r: Option<string>)
  {
    match LastLabelMatch(ifaces, iface)
    case Some(i) => Some(UdpListener(ifaces[i].address, port))
    case None =>
      match FirstNameMatch(ifaces, InterfaceName(iface))
      case Some(i) => Some(UdpListener(ifaces[i].address, port))
      case None => None
  }

  /** Choosing an interface by its label listens on that interface's address, when no other interface has the same label. */
  lemma ListenOnLabelledInterface(ifaces: seq<Interface>, j: nat, port: nat)
    requires j < |ifaces|
    requires forall k :: 0 <= k < |ifaces| && k != j ==> InterfaceLabel(ifaces[k]) != InterfaceLabel(ifaces[j])
    ensures ListenTarget(ifaces, InterfaceLabel(ifaces[j]), port) == Some(UdpListener(ifaces[j].address, port))
  {
    var m := LastLabelMatch(ifaces, InterfaceLabel(ifaces[j]));
    assert m.Some?;
    assert m.value == j;
  }

  /** StartListener's first loop: it walks every interface and keeps the last whose label matches. */
  method ScanLabels(ifaces: seq<Interface>, iface: string) returns (m: Option<nat>)
    ensures m == LastLabelMatch(ifaces, iface)
  {
    m := None;
    var i := 0;
    while i < |ifaces|
      invariant 0 <= i <= |ifaces|
      invariant m == LastLabelMatch(ifaces[..i], iface)
    {
      assert ifaces[..i + 1][..i] == ifaces[..i];
      if InterfaceLabel(ifaces[i]) == iface {
        m := Some(i);
      }
      i := i + 1;
    }
    assert ifaces[..|ifaces|] == ifaces;
  }

  /** StartListener's second loop: it stops at the first interface with the name. */
  method ScanNames(ifaces: seq<Interface>, name: string) returns (m: Option<nat>)
    ensures m == FirstNameMatch(ifaces, name)
  {
    m := None;
    var i := 0;
    while i < |ifaces| && m.None?
      invariant 0 <= i <= |ifaces|
      invariant m.None? ==> forall k :: 0 <= k < i ==> ifaces[k].name != name
      invariant m.Some? ==> m == FirstNameMatch(ifaces, name)
    {
      if ifaces[i].name == name {
        m := Some(i);
      }
      i := i + 1;
    }
  }

  /** The two interface loops of StartListener. */
  method FindListenTarget(ifaces: seq<Interface>, iface: string, port: nat) returns (listenTo: Option<string>)
    ensures listenTo == ListenTarget(ifaces, iface, port)
  {
    listenTo := None;
    var byLabel := ScanLabels(ifaces, iface);
    if byLabel.Some? {
      listenTo := Some(UdpListener(ifaces[byLabel.value].address, port));
    } else {
      var byName := ScanNames(ifaces, InterfaceName(iface));
      if byName.Some? {
        listenTo := Some(UdpListener(ifaces[byName.value].address, port));
      }
    }
  }

  // ---- The endpoint's state ----

  class GMSIPEndpoint {
    /** The armed no-answer interval in seconds, None while stopped. */
    var noAnswerTimer: Option<int>
    /** Sender URI to the Call-ID of the last MESSAGE delivered from it. */
    var msgData: map<string, string>
    /** The message-waiting summary stored per account, as GetMWI/AddMWI keep it. */
    var mwi: map<string, string>
    var userInputMode: UserInputMode

    constructor (inputMode: UserInputMode)
      ensures noAnswerTimer.None? && msgData == map[] && mwi == map[] && userInputMode == inputMode
    {
      noAnswerTimer := None;
      msgData := map[];
      mwi := map[];
      userInputMode := inputMode;
    }

    /**
     * OnIncomingConnection: `isCurrentConnection` is whether the connection
     * is the current call's own; `managerAccepts` is what the manager's
     * OnIncomingConnection answers for the reason. Only asking the user arms
     * the no-answer timer.
     */
    method OnIncomingConnection(isCurrentConnection: bool, c: IncomingConfig, state: CallingState,
                                managerAccepts: bool)
      returns (res: bool, reason: Option<nat>)
      modifies this
      ensures isCurrentConnection ==> res && reason.None? && noAnswerTimer == old(noAnswerTimer)
      ensures !isCurrentConnection ==> res == managerAccepts && reason == Some(AdmissionReason(c, state))
      ensures noAnswerTimer == if reason == Some(AskUser) then Some(NoAnswerDelay(c.noAnswerTimeout))
                               else old(noAnswerTimer)
      ensures msgData == old(msgData) && mwi == old(mwi) && userInputMode == old(userInputMode)
    {
      if isCurrentConnection {
        return true, None;
      }
      var r: nat;
      if c.status == ContactDnd {
        r := RejectCall;
      } else if c.forwardHost.Some? && c.alwaysForward {
        r := ForwardCall;
      } else if state != Standby {
        if c.forwardHost.Some? && c.busyForward {
          r := ForwardCall;
        } else {
          r := RejectCall;
        }
      } else if c.status == ContactFreeForChat {
        r := AutoAnswerCall;
      } else {
        r := AskUser;
      }
      if r == AskUser {
        noAnswerTimer := Some(if c.noAnswerTimeout < MaxNoAnswerDelay then c.noAnswerTimeout else MaxNoAnswerDelay);
      }
      res, reason := managerAccepts, Some(r);
    }

    /** OnEstablished: the no-answer timer stops. */
    method OnEstablished()
      modifies this
      ensures noAnswerTimer.None?
      ensures msgData == old(msgData) && mwi == old(mwi) && userInputMode == old(userInputMode)
    {
      noAnswerTimer := None;
    }

    /** OnReleased: the no-answer timer stops. */
    method OnReleased()
      modifies this
      ensures noAnswerTimer.None?
      ensures msgData == old(msgData) && mwi == old(mwi) && userInputMode == old(userInputMode)
    {
      noAnswerTimer := None;
    }

    /** The no-answer timer fires (a one-shot timer is stopped once it has fired). */
    method OnNoAnswerTimeout(state: CallingState, forwardHost: Option<string>, forwardOnNoAnswer: bool)
      returns (action: Option<NoAnswerAction>)
      requires noAnswerTimer.Some?
      modifies this
      ensures action == NoAnswerTimeout(state, forwardHost, forwardOnNoAnswer)
      ensures noAnswerTimer.None?
      ensures msgData == old(msgData) && mwi == old(mwi) && userInputMode == old(userInputMode)
    {
      noAnswerTimer := None;
      if state == Called {
        if forwardHost.Some? && forwardOnNoAnswer {
          action := Some(ForwardTo(forwardHost.value));
        } else {
          action := Some(ClearAllCalls(EndedByNoAnswer));
        }
      } else {
        action := None;
      }
    }

    /**
     * OnReceivedMESSAGE: the From header is cleaned, `senderUri` is SIPURL's
     * rendering of the cleaned text (the dictionary's key), and the message is
     * delivered only when it is not a retransmission of the last one from that
     * sender (the Call-ID of section 20.8 of RFC 3261).
     */
    method OnReceivedMessage(from: string, callId: string, body: string, senderUri: string -> string)
      returns (delivered: Option<ReceivedMessage>)
      modifies this
      ensures delivered.Some? <==> IsNewMessage(old(msgData), senderUri(CleanFrom(from)), callId)
      ensures delivered.Some? ==> delivered.value == ReceivedMessage(CleanFrom(from), body)
      ensures msgData == if delivered.Some? then old(msgData)[senderUri(CleanFrom(from)) := callId]
                         else old(msgData)
      ensures noAnswerTimer == old(noAnswerTimer) && mwi == old(mwi) && userInputMode == old(userInputMode)
    {
      var cleaned := CleanFrom(from);
      var key := senderUri(cleaned);
      if key !in msgData || msgData[key] != callId {
        msgData := msgData[key := callId];
        delivered := Some(ReceivedMessage(cleaned, body));
      } else {
        delivered := None;
      }
    }

    /**
     * OnMWIReceived: a summary equal to the stored one changes nothing;
     * otherwise it is stored, the display is updated, and a sound is played
     * when the overall count (`total`, the manager's GetMWI read as a number)
     * goes up.
     */
    method OnMwiReceived(to: string, msgs: string, total: map<string, string> -> int)
      returns (updated: bool, playSound: bool)
      modifies this
      ensures updated <==> (if to in old(mwi) then old(mwi)[to] else "") != msgs
      ensures mwi == if updated then old(mwi)[to := msgs] else old(mwi)
      ensures playSound <==> updated && total(mwi) > total(old(mwi))
      ensures noAnswerTimer == old(noAnswerTimer) && msgData == old(msgData) && userInputMode == old(userInputMode)
    {
      var stored := if to in mwi then mwi[to] else "";
      if stored != msgs {
        var before := total(mwi);
        mwi := mwi[to := msgs];
        updated := true;
        playSound := total(mwi) > before;
      } else {
        updated, playSound := false, false;
      }
    }

    /** SetUserInputMode with the configured dtmf_mode value. */
    method SetUserInputMode(mode: int)
      modifies this
      ensures userInputMode == LegacyInputModeFor(mode, old(userInputMode))
      ensures noAnswerTimer == old(noAnswerTimer) && msgData == old(msgData) && mwi == old(mwi)
    {
      if mode == 0 {
        userInputMode := SendAsTone;
      } else if mode == 1 {
        userInputMode := SendAsInlineRFC2833;
      }
    }
  }

  /** StartListener: `listenersStart` is whether OPAL's StartListeners succeeds. */
  method StartListener(ifaces: seq<Interface>, iface: string, port: nat, listenersStart: bool)
    returns (ok: bool)
    requires port < 0x1_0000
    ensures ok <==> ListenTarget(ifaces, iface, port).Some? && listenersStart
  {
    var listenTo := FindListenTarget(ifaces, iface, port);
    if listenTo.None? {
      return false;
    }
    ok := listenersStart;
  }

}
