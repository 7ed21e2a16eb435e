// The SIP status codes both SIP endpoints switch on (OPAL's
// SIP_PDU::StatusCodes: the response codes of section 21 of RFC 3261 plus
// OPAL's local pseudo-codes), and the cleaning of a MESSAGE request's From
// header that both endpoints perform before using it.

module SipStatus {
  import opened Text

  // OPAL's local pseudo-codes
  const IllegalStatusCode := 0
  const LocalTransportError := 1
  const LocalBadTransportAddress := 2
  const LocalTimeout := 3

  // 1xx
  const InformationTrying := 100
  const InformationRinging := 180
  const InformationCallForwarded := 181
  const InformationQueued := 182
  const InformationSessionProgress := 183

  // 2xx
  const SuccessfulOK := 200
  const SuccessfulAccepted := 202

  // 3xx
  const RedirectionMultipleChoices := 300
  const RedirectionMovedPermanently := 301
  const RedirectionMovedTemporarily := 302
  const RedirectionUseProxy := 305
  const RedirectionAlternativeService := 380

  // 4xx
  const FailureBadRequest := 400
  const FailureUnAuthorised := 401
  const FailurePaymentRequired := 402
  const FailureForbidden := 403
  const FailureNotFound := 404
  const FailureMethodNotAllowed := 405
  const FailureNotAcceptable := 406
  const FailureProxyAuthenticationRequired := 407
  const FailureRequestTimeout := 408
  const FailureConflict := 409
  const FailureGone := 410
  const FailureLengthRequired := 411
  const FailureRequestEntityTooLarge := 413
  const FailureRequestURITooLong := 414
  const FailureUnsupportedMediaType := 415
  const FailureUnsupportedURIScheme := 416
  const FailureBadExtension := 420
  const FailureExtensionRequired := 421
  const FailureIntervalTooBrief := 423
  const FailureTemporarilyUnavailable := 480
  const FailureTransactionDoesNotExist := 481
  const FailureLoopDetected := 482
  const FailureTooManyHops := 483
  const FailureAddressIncomplete := 484
  const FailureAmbiguous := 485
  const FailureBusyHere := 486
  const FailureRequestTerminated := 487
  const FailureNotAcceptableHere := 488
  const FailureBadEvent := 489
  const FailureRequestPending := 491
  const FailureUndecipherable := 493

  // 5xx
  const FailureInternalServerError := 500
  const FailureNotImplemented := 501
  const FailureBadGateway := 502
  const FailureServiceUnavailable := 503
  const FailureServerTimeout := 504
  const FailureSIPVersionNotSupported := 505
  const FailureMessageTooLarge := 513

  // 6xx
  const GlobalFailureBusyEverywhere := 600
  const GlobalFailureDecline := 603
  const GlobalFailureDoesNotExistAnywhere := 604
  const GlobalFailureNotAcceptable := 606

  // OPAL's upper bound, used as "no response at all"
  const MaxStatusCode := 699

  /**
   * The From header of an incoming MESSAGE with its parameters (from the
   * first ';') removed, and a closing '>' added when a '<' is left open.
   */
  function CleanFrom(from: string): (r: string)
    ensures ';' !in r
    ensures '<' in r ==> '>' in r
    ensures |r| <= |from| + 1
    ensures (|r| <= |from| && r == from[..|r|])
         || (0 < |r| && r == from[..|r| - 1] + ">" && '<' in r)
    ensures ';' !in from && ('<' in from ==> '>' in from) ==> r == from
  {
    var cut := match FindChar(from, ';')
      case Some(j) => Left(from, j)
      case None => from;
    assert ';' !in cut by {
      if ';' in from {
        var j := FindChar(from, ';').value;
        assert cut == from[..j];
      }
    }
    if '<' in cut && '>' !in cut then cut + ">" else cut
  }

  /**
   * Cleaning keeps the header up to its first ';' (all of it when there is
   * none), and closes a '<' left open there.
   */
  lemma CleanFromCutsAtFirstSemicolon(from: string, j: nat)
    requires j <= |from| && ';' !in from[..j] && (j == |from| || from[j] == ';')
    ensures CleanFrom(from) == if '<' in from[..j] && '>' !in from[..j] then from[..j] + ">" else from[..j]
  {
    if j < |from| {
      assert ';' in from;
      var k := FindChar(from, ';').value;
      assert forall i :: 0 <= i < j ==> from[i] == from[..j][i] != ';';
      assert k == j;
    } else {
      assert from[..j] == from;
    }
  }

  lemma CleanFromIdempotent(from: string)
    ensures CleanFrom(CleanFrom(from)) == CleanFrom(from)
  {
  }

}
