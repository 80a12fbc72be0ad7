/**
 * The front half of the report server's `GET /api/call-report/:callId`
 * handler: everything it decides before the transcript is handed to the
 * language model. The fetch of the call from the voice platform is a
 * parameter (its outcome), so "rejected before any fetch" reads as "the
 * outcome does not depend on what the fetch would have returned".
 */
module CallReport {
  import opened JsText
  import opened Transcript

  /** Longest normalised transcript, in UTF-16 code units, sent to the model. */
  const MaxTranscriptLength: nat := 12000

  /** One character of `/^[a-zA-Z0-9-_]+$/`. */
  predicate IsCallIdChar(c: char) {
    ('a' <= c <= 'z') || ('A' <= c <= 'Z') || ('0' <= c <= '9') || c == '-' || c == '_'
  }

  /** `callId && /^[a-zA-Z0-9-_]+$/.test(callId)`. */
  predicate IsValidCallId(callId: string) {
    callId != "" && forall i :: 0 <= i < |callId| ==> IsCallIdChar(callId[i])
  }

  /** What the voice platform answered to `GET /call/:callId`. */
  datatype FetchOutcome =
    | NotOk(status: int, body: string)  // a non-2xx answer, forwarded as is
    | Ok(data: CallData)

  /** How far the handler gets before the model call. */
  datatype Gate =
    | InvalidCallId                          // 400 "Invalid call ID format"
    | UpstreamError(status: int, body: string)
    | TranscriptTooLong                      // 413 "Transcript too long to process safely"
    | SendToModel(transcript: string)        // the transcript the model receives

  /** The HTTP status the handler answers with when it stops at `g`. */
  function StatusOf(g: Gate): (status: int)
    requires !g.SendToModel?
    ensures g.InvalidCallId? ==> status == 400
    ensures g.TranscriptTooLong? ==> status == 413
  {
    match g
    case InvalidCallId => 400
    case UpstreamError(s, _) => s
    case TranscriptTooLong => 413
  }

  /**
   * The handler up to the model call. It rejects a malformed call ID before
   * looking at the fetch, forwards an upstream failure, normalises the
   * transcript step by step, and refuses one longer than 12000 code units.
   */
  method PrepareCallReport(callId: string, fetched: FetchOutcome) returns (g: Gate)
    ensures g.InvalidCallId? <==> !IsValidCallId(callId)
    ensures IsValidCallId(callId) && fetched.NotOk? ==> g == UpstreamError(fetched.status, fetched.body)
    ensures IsValidCallId(callId) && fetched.Ok? ==>
              var t := Normalise(PickTranscript(fetched.data));
              g == if Utf16Length(t) > MaxTranscriptLength then TranscriptTooLong else SendToModel(t)
    ensures g.SendToModel? ==> Utf16Length(g.transcript) <= MaxTranscriptLength
    ensures g.SendToModel? ==> forall line :: line in OutputLines(g.transcript) ==> IsDialogueLine(line)
  {
    if !IsValidCallId(callId) {
      return InvalidCallId;
    }
    if fetched.NotOk? {
      return UpstreamError(fetched.status, fetched.body);
    }
    var raw := PickTranscript(fetched.data);
    // Drop the first surviving message, then keep the dialogue lines.
    var transcript := RemoveFirstMessage(raw);
    transcript := ExtractUserAIConversation(transcript);
    if Utf16Length(transcript) > MaxTranscriptLength {
      return TranscriptTooLong;
    }
    NormaliseOnlyDialogue(raw);
    return SendToModel(transcript);
  }

  /** Some examples of the call-ID check: path separators, spaces and dots are refused. */
  lemma CallIdExamples()
    ensures IsValidCallId("3f2a-9c_01")
    ensures !IsValidCallId("")
    ensures !IsValidCallId("abc/def")
    ensures !IsValidCallId("abc def")
    ensures !IsValidCallId("..")
  {
    assert !IsCallIdChar('/') && "abc/def"[3] == '/';
    assert "abc def"[3] == ' ';
    assert ".."[0] == '.';
  }
}
