/**
 * The checks the `POST /api/call` handler in server.js makes before it
 * places an outbound screening call: required body fields, required
 * environment variables, and the fallback for an unknown voice.
 */
module CallRequest {
  import opened JsText

  /** The voices a caller may choose. */
  const AllowedVoiceIds: seq<string> :=
    ["Elliot", "Kylie", "Rohan", "Lily", "Savannah", "Hana", "Neha", "Cole", "Harry", "Paige", "Spencer"]

  /** The voice used when the requested one is not allowed. */
  const DefaultVoiceId: string := "Rohan"

  /** `allowedVoiceIds.includes(voiceId) ? voiceId : "Rohan"`. */
  function SelectVoice(voiceId: string): (v: string)
    ensures v in AllowedVoiceIds
    ensures voiceId in AllowedVoiceIds ==> v == voiceId
    ensures voiceId !in AllowedVoiceIds ==> v == DefaultVoiceId
  {
    if voiceId in AllowedVoiceIds then voiceId else DefaultVoiceId
  }

  /** A string field of a JSON body or an environment variable is truthy: present and not empty. */
  predicate IsTruthy(v: Option<string>) {
    v.Some? && v.value != ""
  }

  /** The body fields the handler reads. */
  datatype CallBody = CallBody(candidateName: Option<string>, phoneNumber: Option<string>, voiceId: Option<string>)

  /** The environment variables the handler needs. */
  datatype Environment = Environment(
    vapiApiKey: Option<string>,
    vapiPhoneNumberId: Option<string>,
    serverUrl: Option<string>,
    recruiterAssistantId: Option<string>
  )

  /** How far the handler gets before it talks to the voice platform. */
  datatype Decision =
    | MissingFields                       // 400 "Missing required fields: ..."
    | MissingEnvironment                  // 500 "Missing environment variables. Check .env"
    | PlaceCall(candidateName: string, phoneNumber: string, voiceId: string)

  /** The HTTP status of a refusal. */
  function StatusOf(d: Decision): (status: int)
    requires !d.PlaceCall?
    ensures d.MissingFields? <==> status == 400
    ensures d.MissingEnvironment? <==> status == 500
  {
    if d.MissingFields? then 400 else 500
  }

  predicate HasRequiredFields(body: CallBody) {
    IsTruthy(body.candidateName) && IsTruthy(body.phoneNumber) && IsTruthy(body.voiceId)
  }

  predicate HasEnvironment(env: Environment) {
    && IsTruthy(env.vapiApiKey)
    && IsTruthy(env.vapiPhoneNumberId)
    && IsTruthy(env.serverUrl)
    && IsTruthy(env.recruiterAssistantId)
  }

  /**
   * The body check comes first, then the environment check, then the voice
   * fallback. A call is placed only with every field and variable present,
   * and always with an allowed voice.
   */
  function ValidateCallRequest(body: CallBody, env: Environment): (d: Decision)
    ensures d.MissingFields? <==> !HasRequiredFields(body)
    ensures d.MissingEnvironment? <==> HasRequiredFields(body) && !HasEnvironment(env)
    ensures d.PlaceCall? ==>
              && d.candidateName == body.candidateName.value
              && d.phoneNumber == body.phoneNumber.value
              && d.voiceId == SelectVoice(body.voiceId.value)
    ensures d.PlaceCall? ==> d.candidateName != "" && d.phoneNumber != "" && d.voiceId in AllowedVoiceIds
  {
    if !HasRequiredFields(body) then MissingFields
    else if !HasEnvironment(env) then MissingEnvironment
    else PlaceCall(body.candidateName.value, body.phoneNumber.value, SelectVoice(body.voiceId.value))
  }

  /** A request missing a field is refused with 400 whatever the environment holds. */
  lemma MissingFieldsIgnoreEnvironment(body: CallBody, env1: Environment, env2: Environment)
    requires !HasRequiredFields(body)
    ensures ValidateCallRequest(body, env1) == ValidateCallRequest(body, env2) == MissingFields
  {
  }

  /** Some examples: an unknown or wrongly cased voice falls back to Rohan. */
  lemma VoiceExamples()
    ensures SelectVoice("Paige") == "Paige"
    ensures SelectVoice("paige") == DefaultVoiceId
    ensures SelectVoice("") == DefaultVoiceId
  {
    assert AllowedVoiceIds[9] == "Paige";
    assert "paige"[0] == 'p';
    forall k | 0 <= k < |AllowedVoiceIds| ensures AllowedVoiceIds[k] != "paige" && AllowedVoiceIds[k] != "" {
      assert AllowedVoiceIds[k][0] != 'p';
    }
  }
}
