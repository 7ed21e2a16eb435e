// Types shared by every part of the model: an optional value (a C pointer
// that may be NULL, a lookup that may fail), the call-state machine of the
// manager and the reasons a call can be cleared with.

module Base {

  datatype Option<T> = None | Some(value: T)
  {
    /** The value, or `default` when there is none. */
    function GetOr(default: T): T
    {
      if Some? then value else default
    }
  }

  /** The calling state GMManager keeps for the single active call. */
  datatype CallingState = Standby | Calling | Connected | Called

  /** The OPAL call-end reasons the core clears calls with. */
  datatype CallEndReason =
    | EndedByLocalUser
    | EndedByAnswerDenied
    | EndedByLocalBusy
    | EndedByNoAnswer
    | OtherReason(code: int)

  /** OPAL's SendUserInputModes: how a connection sends DTMF digits. */
  datatype UserInputMode =
    | SendAsQ931
    | SendAsString
    | SendAsTone
    | SendAsInlineRFC2833
    | SendAsSeparateRFC2833
    | SendAsProtocolDefault

}
