// GnomeMeeting, the process object (src/endpoints/ekiga.cpp): what
// Connect and Disconnect ask of the endpoint for each calling state, and
// the lists DetectDevices and DetectInterfaces keep after asking PTLib for
// plugins, devices and network interfaces. The tables PTLib returns are
// parameters.

module Process {
  import opened Base
  import opened Text
  import Url
  import LegacySip

  // ---- Connect / Disconnect ----

  /** What Connect starts: a URL handler that answers, one that calls `url`, or nothing. */
  datatype ConnectAction = AnswerCall | PlaceCall(url: string) | NoConnectAction

  /** GMURL(url).IsEmpty(): the address GMURL keeps from `url` is empty. */
  predicate BlankUrl(url: string)
  {
    Url.Construct(url).url == []
  }

  /** Connect: answer when called; call a non-blank URL when idle; otherwise nothing. */
  function Connect(state: CallingState, url: string): (r: ConnectAction)
    ensures r == AnswerCall <==> state == Called
    ensures r.PlaceCall? <==> state == Standby && !BlankUrl(url)
    ensures r.PlaceCall? ==> r.url == url
  {
    if state == Called then AnswerCall
    else if state == Standby && !BlankUrl(url) then PlaceCall(url)
    else NoConnectAction
  }

  /** An empty dial string never places a call. */
  lemma ConnectEmptyDoesNothing(state: CallingState)
    requires state != Called
    ensures Connect(state, "") == NoConnectAction
  {
    assert Url.Cleaned("") == [];
  }

  /**
   * The handler Connect starts decides as intended: in the called state the
   * handler with an empty URL answers, and a placed URL is dialled when its
   * kind is supported and reported invalid otherwise.
   */
  lemma ConnectStartsHandler(state: CallingState, url: string, cfg: Url.UrlConfig)
    ensures Connect(state, url) == AnswerCall ==> Url.Dispatch("", false, state, cfg) == Url.AcceptIncoming
    ensures Connect(state, url).PlaceCall? ==>
      (Url.Construct(url).supported ==> Url.Dispatch(url, false, state, cfg).PlaceCall?)
      && (!Url.Construct(url).supported ==> Url.Dispatch(url, false, state, cfg) == Url.InvalidUrl)
  {
  }

  /** What Disconnect asks of the endpoint. */
  datatype DisconnectAction =
    | ClearCall(token: string, reason: CallEndReason)
    | ClearAllCalls(reason: CallEndReason)

  /**
   * Disconnect: an outgoing call is cleared with the caller's reason, an
   * established one by clearing every call as the local user, and in any
   * other state the current call is refused.
   */
  function Disconnect(state: CallingState, currentToken: string, reason: CallEndReason): (r: DisconnectAction)
    ensures r.ClearAllCalls? <==> state == Connected
    ensures r.ClearAllCalls? ==> r.reason == EndedByLocalUser
    ensures r.ClearCall? ==> r.token == currentToken
    ensures state == Calling ==> r == ClearCall(currentToken, reason)
    ensures state == Standby || state == Called ==> r == ClearCall(currentToken, EndedByAnswerDenied)
  {
    match state
    case Calling => ClearCall(currentToken, reason)
    case Connected => ClearAllCalls(EndedByLocalUser)
    case Called => ClearCall(currentToken, EndedByAnswerDenied)
    case Standby => ClearCall(currentToken, EndedByAnswerDenied)
  }

  /** The reason given to Disconnect matters only while calling out. */
  lemma DisconnectReasonOnlyWhileCalling(state: CallingState, token: string, r1: CallEndReason, r2: CallEndReason)
    requires state != Calling
    ensures Disconnect(state, token, r1) == Disconnect(state, token, r2)
  {
  }

  // ---- Devices ----

  const FakeVideoPlugin := "FakeVideo"
  const PicturePlugin := "Picture"
  const NoDeviceFound := "No device found"

  /** PStringArray::GetValuesIndex: the first index holding `x`. */
  function IndexOf(s: seq<string>, x: string): (r: Option<nat>)
    ensures r.Some? ==> r.value < |s| && s[r.value] == x
    ensures r.Some? ==> forall j :: 0 <= j < r.value ==> s[j] != x
    ensures r.None? <==> x !in s
  {
    if s == [] then None
    else if s[0] == x then Some(0)
    else match IndexOf(s[1..], x)
      case Some(i) => Some(i + 1)
      case None => None
  }

  /** The list with the first `x` removed, if there is one. */
  function RemoveFirst(s: seq<string>, x: string): (r: seq<string>)
    ensures x !in s ==> r == s
    ensures x in s ==> multiset(r) + multiset{x} == multiset(s)
    ensures forall y :: y != x ==> (y in r <==> y in s)
  {
    match IndexOf(s, x)
    case None => s
    case Some(i) =>
      assert s == s[..i] + [s[i]] + s[i + 1..];
      s[..i] + s[i + 1..]
  }

  /** A device list, or "No device found" alone when it is empty. */
  function OrPlaceholder(devices: seq<string>): (r: seq<string>)
    ensures r != []
    ensures devices != [] ==> r == devices
    ensures devices == [] ==> r == [NoDeviceFound]
  {
    if devices == [] then [NoDeviceFound] else devices
  }

  /** Removing the fake plugin never hides the picture plugin. */
  lemma PictureSurvivesFakeRemoval(videoDrivers: seq<string>)
    ensures PicturePlugin in RemoveFirst(videoDrivers, FakeVideoPlugin) <==> PicturePlugin in videoDrivers
  {
  }

  /** A driver list that names the fake plugin once no longer names it. */
  lemma FakeVideoRemoved(videoDrivers: seq<string>)
    requires multiset(videoDrivers)[FakeVideoPlugin] <= 1
    ensures FakeVideoPlugin !in RemoveFirst(videoDrivers, FakeVideoPlugin)
  {
    var r := RemoveFirst(videoDrivers, FakeVideoPlugin);
    if FakeVideoPlugin in videoDrivers {
      assert multiset(r)[FakeVideoPlugin] + 1 == multiset(videoDrivers)[FakeVideoPlugin];
    }
  }

  // ---- Interfaces ----

  /** The address PTLib reports for an interface without one. */
  const NoAddress := "0.0.0.0"

  /**
   * The first interface that matches the configured one, by its label or by
   * the name before the configured '['; |ifaces| when none does.
   */
  function ConfiguredIndex(ifaces: seq<LegacySip.Interface>, config: string): (r: nat)
    ensures r <= |ifaces|
    ensures r < |ifaces| ==> MatchesConfig(ifaces[r], config)
    ensures forall k :: 0 <= k < r ==> !MatchesConfig(ifaces[k], config)
  {
    if ifaces == [] then 0
    else if MatchesConfig(ifaces[0], config) then 0
    else 1 + ConfiguredIndex(ifaces[1..], config)
  }

  predicate MatchesConfig(i: LegacySip.Interface, config: string)
  {
    LegacySip.InterfaceLabel(i) == config || i.name == LegacySip.InterfaceName(config)
  }

  /** A non-configured interface that is listed: it has an address and is a ppp link or not loopback. */
  predicate Admitted(i: LegacySip.Interface, isLoopback: string -> bool)
  {
    i.address != NoAddress && (Contains(i.name, "ppp") || !isLoopback(i.address))
  }

  /** PStringArray's operator[] on an empty array creates an empty entry first. */
  function WithSlot0(arr: seq<string>): (r: seq<string>)
    ensures r != []
    ensures arr != [] ==> r == arr
  {
    if arr == [] then [""] else arr
  }

  /** The interface list after entry `i` of the table is processed; `pos` is the configured index. */
  function ListStep(arr: seq<string>, ifaces: seq<LegacySip.Interface>, i: nat, pos: nat,
                    isLoopback: string -> bool): (r: seq<string>)
    requires i < |ifaces|
  {
    var entry := LegacySip.InterfaceLabel(ifaces[i]);
    if i != pos then
      if ifaces[i].address == NoAddress then arr
      else if Contains(ifaces[i].name, "ppp") then
        if i > 0 then
          var g := WithSlot0(arr);
          (g + [g[0]])[0 := entry]
        else arr + [entry]
      else if !isLoopback(ifaces[i].address) then arr + [entry]
      else arr
    else
      var g := WithSlot0(arr);
      (if g[0] != "" then g + [g[0]] else g)[0 := entry]
  }

  /** The interface list after the first `n` table entries. */
  function Listed(ifaces: seq<LegacySip.Interface>, pos: nat, n: nat, isLoopback: string -> bool): seq<string>
    requires n <= |ifaces|
  {
    if n == 0 then [] else ListStep(Listed(ifaces, pos, n - 1, isLoopback), ifaces, n - 1, pos, isLoopback)
  }

  /** The list DetectInterfaces builds. */
  function DetectedInterfaces(ifaces: seq<LegacySip.Interface>, config: string, isLoopback: string -> bool): seq<string>
  {
    Listed(ifaces, ConfiguredIndex(ifaces, config), |ifaces|, isLoopback)
  }

  lemma ListedNext(ifaces: seq<LegacySip.Interface>, pos: nat, i: nat, isLoopback: string -> bool)
    requires i < |ifaces|
    ensures Listed(ifaces, pos, i + 1, isLoopback) == ListStep(Listed(ifaces, pos, i, isLoopback), ifaces, i, pos, isLoopback)
  {
  }

  /** `e` is the label of one of the first `n` entries that is configured or admitted. */
  predicate ListableLabel(e: string, ifaces: seq<LegacySip.Interface>, pos: nat, n: nat, isLoopback: string -> bool)
    requires n <= |ifaces|
  {
    exists k :: 0 <= k < n && (k == pos || Admitted(ifaces[k], isLoopback)) && LegacySip.InterfaceLabel(ifaces[k]) == e
  }

  /**
   * Every listed entry is an empty placeholder or the label of the
   * configured interface or of an admitted one: a non-configured interface
   * without an address, or a loopback one that is not ppp, never shows.
   */
  lemma {:induction false} ListedSound(ifaces: seq<LegacySip.Interface>, pos: nat, n: nat, isLoopback: string -> bool)
    requires n <= |ifaces|
    ensures forall j :: 0 <= j < |Listed(ifaces, pos, n, isLoopback)| ==>
      Listed(ifaces, pos, n, isLoopback)[j] == "" || ListableLabel(Listed(ifaces, pos, n, isLoopback)[j], ifaces, pos, n, isLoopback)
  {
    if n > 0 {
      ListedSound(ifaces, pos, n - 1, isLoopback);
      var prev := Listed(ifaces, pos, n - 1, isLoopback);
      var i := n - 1;
      var r := Listed(ifaces, pos, n, isLoopback);
      assert r == ListStep(prev, ifaces, i, pos, isLoopback);
      forall e | e in prev && e != ""
        ensures ListableLabel(e, ifaces, pos, n, isLoopback)
      {
        var jj :| 0 <= jj < |prev| && prev[jj] == e;
        assert ListableLabel(e, ifaces, pos, n - 1, isLoopback);
        var k :| 0 <= k < n - 1 && (k == pos || Admitted(ifaces[k], isLoopback)) && LegacySip.InterfaceLabel(ifaces[k]) == e;
        assert 0 <= k < n;
      }
      forall j | 0 <= j < |r|
        ensures r[j] == "" || ListableLabel(r[j], ifaces, pos, n, isLoopback)
      {
        if r[j] != "" && r[j] !in prev {
          StepKeepsOrAdds(prev, ifaces, i, pos, isLoopback, j);
          StepAddsOnlyListable(prev, ifaces, i, pos, isLoopback);
          assert 0 <= i < n && LegacySip.InterfaceLabel(ifaces[i]) == r[j];
        }
      }
    }
  }

  /** An entry after a step is the new entry, a placeholder, or an entry from before. */
  lemma StepKeepsOrAdds(arr: seq<string>, ifaces: seq<LegacySip.Interface>, i: nat, pos: nat,
                        isLoopback: string -> bool, j: nat)
    requires i < |ifaces|
    requires j < |ListStep(arr, ifaces, i, pos, isLoopback)|
    ensures var e := ListStep(arr, ifaces, i, pos, isLoopback)[j];
      e == "" || e == LegacySip.InterfaceLabel(ifaces[i]) || e in arr
  {
  }

  /** A step writes the entry of entry `i` only when that entry is configured or admitted. */
  lemma StepAddsOnlyListable(arr: seq<string>, ifaces: seq<LegacySip.Interface>, i: nat, pos: nat,
                             isLoopback: string -> bool)
    requires i < |ifaces|
    requires LegacySip.InterfaceLabel(ifaces[i]) in ListStep(arr, ifaces, i, pos, isLoopback)
    requires LegacySip.InterfaceLabel(ifaces[i]) !in arr
    ensures i == pos || Admitted(ifaces[i], isLoopback)
  {
  }

  /** A step keeps every non-empty entry and adds the entry of an entry that is configured or admitted. */
  lemma StepKeeps(arr: seq<string>, ifaces: seq<LegacySip.Interface>, i: nat, pos: nat, isLoopback: string -> bool)
    requires i < |ifaces|
    ensures forall e :: e in arr && e != "" ==> e in ListStep(arr, ifaces, i, pos, isLoopback)
    ensures i == pos || Admitted(ifaces[i], isLoopback) ==>
      LegacySip.InterfaceLabel(ifaces[i]) in ListStep(arr, ifaces, i, pos, isLoopback)
  {
    var entry := LegacySip.InterfaceLabel(ifaces[i]);
    var r := ListStep(arr, ifaces, i, pos, isLoopback);
    var g := WithSlot0(arr);
    forall e | e in arr && e != ""
      ensures e in r
    {
      var j :| 0 <= j < |arr| && arr[j] == e;
      if j == 0 && ((i != pos && ifaces[i].address != NoAddress && Contains(ifaces[i].name, "ppp") && i > 0) || i == pos) {
        assert r[|g|] == e;
      } else if j > 0 && ((i != pos && ifaces[i].address != NoAddress && Contains(ifaces[i].name, "ppp") && i > 0) || i == pos) {
        assert r[j] == e;
      } else {
        assert r[j] == e;
      }
    }
    if i == pos || Admitted(ifaces[i], isLoopback) {
      if (i == pos) || (Contains(ifaces[i].name, "ppp") && i > 0) {
        assert r[0] == entry;
      } else {
        assert r[|arr|] == entry;
      }
    }
  }

  /** A configured or admitted interface among the first `n` is listed. */
  lemma {:induction false} ListedCompleteAt(ifaces: seq<LegacySip.Interface>, pos: nat, n: nat,
                                            isLoopback: string -> bool, k: nat)
    requires k < n <= |ifaces| && (k == pos || Admitted(ifaces[k], isLoopback))
    ensures LegacySip.InterfaceLabel(ifaces[k]) in Listed(ifaces, pos, n, isLoopback)
  {
    var prev := Listed(ifaces, pos, n - 1, isLoopback);
    assert Listed(ifaces, pos, n, isLoopback) == ListStep(prev, ifaces, n - 1, pos, isLoopback);
    StepKeeps(prev, ifaces, n - 1, pos, isLoopback);
    if k < n - 1 {
      ListedCompleteAt(ifaces, pos, n - 1, isLoopback, k);
      LabelNotEmpty(ifaces[k]);
    }
  }

  /** Every configured or admitted interface among the first `n` is listed. */
  lemma ListedComplete(ifaces: seq<LegacySip.Interface>, pos: nat, n: nat, isLoopback: string -> bool)
    requires n <= |ifaces|
    ensures forall k :: 0 <= k < n && (k == pos || Admitted(ifaces[k], isLoopback)) ==>
      LegacySip.InterfaceLabel(ifaces[k]) in Listed(ifaces, pos, n, isLoopback)
  {
    forall k | 0 <= k < n && (k == pos || Admitted(ifaces[k], isLoopback))
      ensures LegacySip.InterfaceLabel(ifaces[k]) in Listed(ifaces, pos, n, isLoopback)
    {
      ListedCompleteAt(ifaces, pos, n, isLoopback, k);
    }
  }

  lemma LabelNotEmpty(i: LegacySip.Interface)
    ensures LegacySip.InterfaceLabel(i) != ""
  {
  }

  /** A step that neither handles the configured interface nor moves a ppp one to the front keeps the front entry. */
  lemma {:induction false} ConfiguredStaysFirst(ifaces: seq<LegacySip.Interface>, pos: nat, n: nat, isLoopback: string -> bool)
    requires pos < n <= |ifaces|
    requires forall k :: pos < k < n ==> ifaces[k].address == NoAddress || !Contains(ifaces[k].name, "ppp")
    ensures Listed(ifaces, pos, n, isLoopback) != []
    ensures Listed(ifaces, pos, n, isLoopback)[0] == LegacySip.InterfaceLabel(ifaces[pos])
  {
    if n - 1 > pos {
      ConfiguredStaysFirst(ifaces, pos, n - 1, isLoopback);
    }
  }

  /** The process object's detected plugin, device and interface lists. */
  class GnomeMeeting {
    var audioManagers: seq<string>
    var videoManagers: seq<string>
    var audioInputDevices: seq<string>
    var audioOutputDevices: seq<string>
    var videoInputDevices: seq<string>
    var interfaces: seq<string>

    constructor ()
      ensures audioManagers == [] && videoManagers == []
      ensures audioInputDevices == [] && audioOutputDevices == [] && videoInputDevices == []
      ensures interfaces == []
    {
      audioManagers, videoManagers := [], [];
      audioInputDevices, audioOutputDevices, videoInputDevices := [], [], [];
      interfaces := [];
    }

    /**
     * DetectDevices: the driver names and, for the configured plugins, the
     * device names PTLib reports. The fake video plugin is dropped; without
     * the picture plugin or any audio plugin the device lists are left as
     * they were and the result is false.
     */
    method DetectDevices(audioDrivers: seq<string>, videoDrivers: seq<string>,
                         videoDevices: seq<string>, audioInputs: seq<string>, audioOutputs: seq<string>)
      returns (ok: bool)
      modifies this`audioManagers, this`videoManagers
      modifies this`audioInputDevices, this`audioOutputDevices, this`videoInputDevices
      ensures audioManagers == audioDrivers
      ensures videoManagers == RemoveFirst(videoDrivers, FakeVideoPlugin)
      ensures ok <==> PicturePlugin in videoDrivers && audioDrivers != []
      ensures ok ==> (audioInputDevices == OrPlaceholder(audioInputs)
                   && audioOutputDevices == OrPlaceholder(audioOutputs)
                   && videoInputDevices == OrPlaceholder(videoDevices))
      ensures !ok ==> (audioInputDevices == old(audioInputDevices)
                    && audioOutputDevices == old(audioOutputDevices)
                    && videoInputDevices == old(videoInputDevices))
    {
      audioManagers := audioDrivers;
      videoManagers := videoDrivers;
      var fakeIdx := IndexOf(videoManagers, FakeVideoPlugin);
      if fakeIdx.Some? {
        videoManagers := videoManagers[..fakeIdx.value] + videoManagers[fakeIdx.value + 1..];
      }
      PictureSurvivesFakeRemoval(videoDrivers);
      var pictureIdx := IndexOf(videoManagers, PicturePlugin);
      if pictureIdx.None? {
        return false;
      }
      if |audioManagers| == 0 {
        return false;
      }
      videoInputDevices := videoDevices;
      audioInputDevices := audioInputs;
      audioOutputDevices := audioOutputs;
      if |audioInputDevices| == 0 {
        audioInputDevices := audioInputDevices + [NoDeviceFound];
      }
      if |audioOutputDevices| == 0 {
        audioOutputDevices := audioOutputDevices + [NoDeviceFound];
      }
      if |videoInputDevices| == 0 {
        videoInputDevices := videoInputDevices + [NoDeviceFound];
      }
      ok := true;
    }

    /** One pass of the listing loop: entry `i` of the table, `pos` the configured index. */
    method AddInterface(ifaces: seq<LegacySip.Interface>, i: nat, pos: nat, isLoopback: string -> bool)
      requires i < |ifaces|
      modifies this`interfaces
      ensures interfaces == ListStep(old(interfaces), ifaces, i, pos, isLoopback)
    {
      var entry := LegacySip.InterfaceLabel(ifaces[i]);
      if i != pos {
        if ifaces[i].address != NoAddress {
          if Contains(ifaces[i].name, "ppp") {
            if i > 0 {
              interfaces := WithSlot0(interfaces);
              var first := interfaces[0];
              interfaces := interfaces + [first];
              interfaces := interfaces[0 := entry];
            } else {
              interfaces := interfaces + [entry];
            }
          } else if !isLoopback(ifaces[i].address) {
            interfaces := interfaces + [entry];
          }
        }
      } else {
        interfaces := WithSlot0(interfaces);
        if interfaces[0] != "" {
          var first := interfaces[0];
          interfaces := interfaces + [first];
        }
        interfaces := interfaces[0 := entry];
    }
    }

    /**
     * DetectInterfaces: `ifaces` and `tableRead` are PTLib's interface
     * table and whether reading it succeeded, `config` the configured
     * interface, `isLoopback` PTLib's loopback test on an address.
     */
    method DetectInterfaces(ifaces: seq<LegacySip.Interface>, tableRead: bool, config: string,
                            isLoopback: string -> bool)
      returns (res: bool)
      modifies this`interfaces
      ensures res == tableRead
      ensures interfaces == DetectedInterfaces(ifaces, config, isLoopback)
    {
      res := tableRead;
      interfaces := [];
      var pos := FindConfigured(ifaces, config);
      var i := 0;
      while i < |ifaces|
        invariant i <= |ifaces|
        invariant interfaces == Listed(ifaces, pos, i, isLoopback)
      {
        AddInterface(ifaces, i, pos, isLoopback);
        ListedNext(ifaces, pos, i, isLoopback);
        i := i + 1;
      }
    }
  }

  /** The first loop of DetectInterfaces: the index of the configured interface, |ifaces| when absent. */
  method FindConfigured(ifaces: seq<LegacySip.Interface>, config: string) returns (pos: nat)
    ensures pos == ConfiguredIndex(ifaces, config)
  {
    var ifaceNoIp := LegacySip.InterfaceName(config);
    pos := 0;
    while pos < |ifaces|
      invariant pos <= |ifaces|
      invariant forall k :: 0 <= k < pos ==> !MatchesConfig(ifaces[k], config)
    {
      if LegacySip.InterfaceLabel(ifaces[pos]) == config || ifaces[pos].name == ifaceNoIp {
        break;
      }
      pos := pos + 1;
    }
    ConfiguredIndexIsFirst(ifaces, config, pos);
  }

  lemma ConfiguredIndexIsFirst(ifaces: seq<LegacySip.Interface>, config: string, pos: nat)
    requires pos <= |ifaces|
    requires pos < |ifaces| ==> MatchesConfig(ifaces[pos], config)
    requires forall k :: 0 <= k < pos ==> !MatchesConfig(ifaces[k], config)
    ensures ConfiguredIndex(ifaces, config) == pos
  {
  }
}
