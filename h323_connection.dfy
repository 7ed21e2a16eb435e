// GMH323Connection (src/connection.cpp): the jitter-buffer bounds a new
// connection takes, the four flags that record which logical channels are
// open, the answer decision, and the parsing of text sent as user input
// (plain "MSG" text, or "MSG[name] text" relayed by an MCU).

module H323Connection {
  import opened Base
  import opened Text

  const MinJitterFloor := 20
  const MaxJitterCeiling := 1000

  /** The audio jitter delay, in milliseconds, the constructor sets. */
  datatype JitterDelay = JitterDelay(minDelay: int, maxDelay: int)

  /** The configured bounds, the lower raised to 20 ms and the upper capped at 1000 ms. */
  function ClampedJitter(minJitter: int, maxJitter: int): (r: JitterDelay)
    ensures r.minDelay >= MinJitterFloor && r.maxDelay <= MaxJitterCeiling
    ensures r.minDelay == minJitter || r.minDelay == MinJitterFloor
    ensures r.maxDelay == maxJitter || r.maxDelay == MaxJitterCeiling
    ensures minJitter >= MinJitterFloor ==> r.minDelay == minJitter
    ensures maxJitter <= MaxJitterCeiling ==> r.maxDelay == maxJitter
  {
    JitterDelay(if minJitter > MinJitterFloor then minJitter else MinJitterFloor,
                if maxJitter < MaxJitterCeiling then maxJitter else MaxJitterCeiling)
  }

  lemma ClampedJitterIdempotent(minJitter: int, maxJitter: int)
    ensures var r := ClampedJitter(minJitter, maxJitter);
            ClampedJitter(r.minDelay, r.maxDelay) == r
  {
  }

  // ---- Logical channels ----

  /** Which logical channels are open, one flag per (media, direction). */
  datatype ChannelFlags = ChannelFlags(
    transmittingVideo: bool,
    transmittingAudio: bool,
    receivingVideo: bool,
    receivingAudio: bool)
  {
    /** The flag for a video or audio channel that encodes (transmits) or decodes (receives). */
    function Get(isVideo: bool, isEncoding: bool): bool
    {
      if isVideo then (if isEncoding then transmittingVideo else receivingVideo)
      else (if isEncoding then transmittingAudio else receivingAudio)
    }

    /** The same flags with the selected one set to `b`. */
    function With(isVideo: bool, isEncoding: bool, b: bool): (r: ChannelFlags)
      ensures r.Get(isVideo, isEncoding) == b
      ensures forall v: bool, e: bool :: (v, e) != (isVideo, isEncoding) ==> r.Get(v, e) == Get(v, e)
    {
      if isVideo then
        (if isEncoding then this.(transmittingVideo := b) else this.(receivingVideo := b))
      else
        (if isEncoding then this.(transmittingAudio := b) else this.(receivingAudio := b))
    }
  }

  const NoChannels := ChannelFlags(false, false, false, false)

  /**
   * The duplicates OnLogicalChannel refuses: opening a transmitter that is
   * already transmitting, or closing a receiver that is not receiving.
   */
  predicate Refused(f: ChannelFlags, isVideo: bool, isEncoding: bool, isClosing: bool)
  {
    (isEncoding && !isClosing && f.Get(isVideo, isEncoding))
    || (!isEncoding && isClosing && !f.Get(isVideo, isEncoding))
  }

  /** The flags after a channel event: unchanged when refused, else the channel's flag is its new state. */
  function ChannelStep(f: ChannelFlags, isVideo: bool, isEncoding: bool, isClosing: bool): (r: ChannelFlags)
    ensures Refused(f, isVideo, isEncoding, isClosing) ==> r == f
    ensures !Refused(f, isVideo, isEncoding, isClosing) ==> r.Get(isVideo, isEncoding) == !isClosing
    ensures forall v: bool, e: bool :: (v, e) != (isVideo, isEncoding) ==> r.Get(v, e) == f.Get(v, e)
  {
    if Refused(f, isVideo, isEncoding, isClosing) then f else f.With(isVideo, isEncoding, !isClosing)
  }

  /** A transmitter opened once is refused a second time until it closes. */
  lemma SecondTransmitterOpenRefused(f: ChannelFlags, isVideo: bool)
    ensures Refused(ChannelStep(f, isVideo, true, false), isVideo, true, false)
    ensures ChannelStep(ChannelStep(f, isVideo, true, false), isVideo, true, false)
         == ChannelStep(f, isVideo, true, false)
  {
  }

  /** A receiver closed once is refused a second close until it reopens. */
  lemma SecondReceiverCloseRefused(f: ChannelFlags, isVideo: bool)
    ensures Refused(ChannelStep(f, isVideo, false, true), isVideo, false, true)
  {
  }

  /** Opening then closing a channel that was closed leaves every flag as it was. */
  lemma OpenThenCloseRestores(f: ChannelFlags, isVideo: bool, isEncoding: bool)
    requires !f.Get(isVideo, isEncoding)
    ensures ChannelStep(ChannelStep(f, isVideo, isEncoding, false), isVideo, isEncoding, true) == f
  {
    var g := ChannelStep(f, isVideo, isEncoding, false);
    var h := ChannelStep(g, isVideo, isEncoding, true);
    assert h.Get(isVideo, isEncoding) == f.Get(isVideo, isEncoding);
    assert h.Get(true, true) == f.Get(true, true) && h.Get(true, false) == f.Get(true, false);
    assert h.Get(false, true) == f.Get(false, true) && h.Get(false, false) == f.Get(false, false);
  }

  class Connection {
    var isTransmittingVideo: bool
    var isTransmittingAudio: bool
    var isReceivingVideo: bool
    var isReceivingAudio: bool
    var jitter: JitterDelay

    function Flags(): ChannelFlags
      reads this
    {
      ChannelFlags(isTransmittingVideo, isTransmittingAudio, isReceivingVideo, isReceivingAudio)
    }

    /** The constructor: no channel open, and the configured jitter bounds clamped. */
    constructor (minJitter: int, maxJitter: int)
      ensures Flags() == NoChannels
      ensures jitter == ClampedJitter(minJitter, maxJitter)
    {
      isTransmittingVideo, isTransmittingAudio := false, false;
      isReceivingVideo, isReceivingAudio := false, false;
      jitter := ClampedJitter(minJitter, maxJitter);
    }

    /**
     * OnLogicalChannel: `baseStarts` is whether H323Connection's own
     * OnStartLogicalChannel succeeds. The flag is updated before that call,
     * so a failed start leaves it set.
     */
    method OnLogicalChannel(isVideo: bool, isEncoding: bool, isClosing: bool, baseStarts: bool)
      returns (ok: bool)
      modifies this
      ensures Flags() == ChannelStep(old(Flags()), isVideo, isEncoding, isClosing)
      ensures ok <==> !Refused(old(Flags()), isVideo, isEncoding, isClosing) && (isClosing || baseStarts)
      ensures jitter == old(jitter)
    {
      if (isVideo && isTransmittingVideo && isEncoding && !isClosing)
         || (isVideo && !isReceivingVideo && !isEncoding && isClosing)
         || (!isVideo && isTransmittingAudio && isEncoding && !isClosing)
         || (!isVideo && !isReceivingAudio && !isEncoding && isClosing) {
        return false;
      }
      if isVideo {
        if isEncoding { isTransmittingVideo := !isClosing; } else { isReceivingVideo := !isClosing; }
      } else {
        if isEncoding { isTransmittingAudio := !isClosing; } else { isReceivingAudio := !isClosing; }
      }
      if !isClosing && !baseStarts {
        return false;
      }
      ok := true;
    }

    /** OnStartLogicalChannel: a channel opens. */
    method OnStartLogicalChannel(isVideo: bool, isEncoding: bool, baseStarts: bool) returns (ok: bool)
      modifies this
      ensures Flags() == ChannelStep(old(Flags()), isVideo, isEncoding, false)
      ensures ok <==> !Refused(old(Flags()), isVideo, isEncoding, false) && baseStarts
      ensures jitter == old(jitter)
    {
      ok := OnLogicalChannel(isVideo, isEncoding, false, baseStarts);
    }

    /** OnClosedLogicalChannel: a channel closes; the result is dropped. */
    method OnClosedLogicalChannel(isVideo: bool, isEncoding: bool)
      modifies this
      ensures Flags() == ChannelStep(old(Flags()), isVideo, isEncoding, true)
      ensures jitter == old(jitter)
    {
      var ignored := OnLogicalChannel(isVideo, isEncoding, true, true);
    }
  }

  // ---- Answering ----

  /** The incoming-call mode the answer decision compares with (position 1 of IncomingCallMode). */
  const FreeForChat := 1

  datatype AnswerCallResponse = AnswerCallNow | AnswerCallPending

  /** OnAnswerCall: answered at once exactly in free-for-chat mode. */
  function OnAnswerCall(incomingCallMode: int): (r: AnswerCallResponse)
    ensures r == AnswerCallNow <==> incomingCallMode == FreeForChat
  {
    if incomingCallMode == FreeForChat then AnswerCallNow else AnswerCallPending
  }

  // ---- User input as text ----

  /** A chat line received as user input: who sent it and its text. */
  datatype ChatLine = ChatLine(remote: string, text: string)

  /**
   * The sender and text OnUserInputString reads from `value`, before the
   * sender's name is cut and converted. `remoteParty` is the connection's
   * remote party name. With the first '[' at index 3 (an MCU's
   * "MSG[name] text") the sender is the bracketed name and the text is
   * everything after the ']' of the first "] "; otherwise any text
   * containing "MSG" is read from index 3 on, and other input is ignored.
   * Without a "] ", the name runs to the end and the text is empty.
   */
  function ParsedUserInput(value: string, remoteParty: string): (r: Option<ChatLine>)
    ensures FindChar(value, '[') == Some(3) ==> r.Some?
    ensures FindChar(value, '[') != Some(3) ==>
      (r.Some? <==> Contains(value, "MSG")) && (r.Some? ==> r.value == ChatLine(remoteParty, MidFrom(value, 3)))
  {
    FindCharIsFind(value, '[');
    var bracket := Text.Find(value, "[");
    if bracket == Some(3) then
      match Text.Find(value, "] ")
      case Some(close) => Some(ChatLine(Mid(value, 4, close - 4), MidFrom(value, close + 1)))
      case None => Some(ChatLine(MidFrom(value, 4), ""))
    else if Contains(value, "MSG") then Some(ChatLine(remoteParty, MidFrom(value, 3)))
    else None
  }

  /**
   * OnUserInputString: `display` stands for the cut of the sender's name
   * and its conversion to UTF-8. A chat line is inserted only when the
   * displayed name is not empty.
   */
  function UserInput(value: string, remoteParty: string, display: string -> string): (r: Option<ChatLine>)
    ensures r.Some? <==> ParsedUserInput(value, remoteParty).Some?
                         && display(ParsedUserInput(value, remoteParty).value.remote) != []
    ensures r.Some? ==> r.value.remote != []
                        && r.value.text == ParsedUserInput(value, remoteParty).value.text
                        && r.value.remote == display(ParsedUserInput(value, remoteParty).value.remote)
  {
    match ParsedUserInput(value, remoteParty)
    case None => None
    case Some(line) =>
      var name := display(line.remote);
      if name != [] then Some(ChatLine(name, line.text)) else None
  }

  /** The text an MCU relays from `name`. */
  function McuText(name: string, text: string): string
  {
    "MSG[" + name + "] " + text
  }

  lemma McuTextBracket(name: string, text: string)
    ensures FindChar(McuText(name, text), '[') == Some(3)
  {
    assert McuText(name, text) == "MSG" + ['['] + (name + "] " + text);
    FindCharOfConcat("MSG", '[', name + "] " + text);
  }

  lemma McuTextFields(name: string, text: string)
    ensures Mid(McuText(name, text), 4, |name|) == name
    ensures MidFrom(McuText(name, text), 4 + |name| + 1) == " " + text
  {
    var v := McuText(name, text);
    assert v == "MSG[" + name + "] " + text;
    assert v[4..4 + |name|] == name;
    assert v[4 + |name| + 1..] == " " + text;
  }

  /** "] " occurs at `j` exactly when those two characters are there. */
  lemma OccursCloseAt(s: string, j: nat)
    ensures OccursAt(s, "] ", j) <==> j + 2 <= |s| && s[j] == ']' && s[j + 1] == ' '
  {
    if j + 2 <= |s| && s[j] == ']' && s[j + 1] == ' ' {
      assert s[j..j + 2] == "] ";
    }
  }

  /** No "] " starts inside the "MSG[name" prefix of an MCU line. */
  lemma NoCloseBeforeName(name: string, text: string, j: nat)
    requires !Contains(name, "] ") && j < 4 + |name|
    ensures !OccursAt(McuText(name, text), "] ", j)
  {
    var v := McuText(name, text);
    assert v == "MSG[" + name + ("] " + text);
    assert |v| == 4 + |name| + 2 + |text|;
    OccursCloseAt(v, j);
    if j < 4 {
      assert v[j] == "MSG["[j];
    } else if j + 1 < 4 + |name| {
      assert v[j] == name[j - 4] && v[j + 1] == name[j - 3];
      OccursCloseAt(name, j - 4);
    } else {
      assert v[j + 1] == ']';
    }
  }

  /** The ']' closing the name is the first "] " of an MCU line. */
  lemma McuTextClose(name: string, text: string)
    requires !Contains(name, "] ")
    ensures Text.Find(McuText(name, text), "] ") == Some(4 + |name|)
  {
    var v := McuText(name, text);
    var close := 4 + |name|;
    assert v == "MSG[" + name + ("] " + text);
    assert v[close] == ']' && v[close + 1] == ' ';
    OccursCloseAt(v, close);
    forall j | 0 <= j < close
      ensures !OccursAt(v, "] ", j)
    {
      NoCloseBeforeName(name, text, j);
    }
    FindIsFirstOccurrence(v, "] ", close);
  }

  /**
   * An MCU line parses back into its sender and text (the text keeps the
   * space after the ']'), as long as the name holds no "] ".
   */
  lemma McuTextParses(name: string, text: string, remoteParty: string)
    requires !Contains(name, "] ")
    ensures ParsedUserInput(McuText(name, text), remoteParty) == Some(ChatLine(name, " " + text))
  {
    var v := McuText(name, text);
    var close := 4 + |name|;
    McuTextBracket(name, text);
    McuTextClose(name, text);
    assert Mid(v, 4, close - 4) == name && MidFrom(v, close + 1) == " " + text by {
      McuTextFields(name, text);
    }
    FindCharIsFind(v, '[');
  }

  /**
   * An MCU line from a non-empty name that the cut and conversion leave
   * as it is becomes a chat line from that name.
   */
  lemma McuTextRoundTrip(name: string, text: string, remoteParty: string, display: string -> string)
    requires !Contains(name, "] ") && name != [] && display(name) == name
    ensures UserInput(McuText(name, text), remoteParty, display) == Some(ChatLine(name, " " + text))
  {
    McuTextParses(name, text, remoteParty);
  }

  /** An MCU line with an empty bracketed name ("MSG[] text") inserts no chat line. */
  lemma McuTextEmptyNameIgnored(text: string, remoteParty: string, display: string -> string)
    requires display([]) == []
    ensures UserInput(McuText([], text), remoteParty, display) == None
  {
    McuTextParses([], text, remoteParty);
  }

  /** Plain "MSG" input from a remote party whose displayed name is empty inserts no chat line. */
  lemma EmptyRemotePartyIgnored(value: string, remoteParty: string, display: string -> string)
    requires FindChar(value, '[') != Some(3) && display(remoteParty) == []
    ensures UserInput(value, remoteParty, display) == None
  {
  }

}
