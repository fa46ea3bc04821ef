/** The closed vocabulary of tool capabilities and the validation every requested
    call passes before anything runs
    (crates/familiar-ai-agent/src/raw_runtime.rs, lines 41-323). */
module ToolCalls {
  import opened Wrappers
  import opened Transcript

  datatype CapabilityId =
    | ReadFile | SearchList | RunCommand | ApplyEdit | ReportProgress | SubmitEvidence | RequestEscalation

  datatype SideEffect = ReadOnly | IdempotentWrite | Destructive

  datatype Capability = Capability(
    id: CapabilityId, required: set<string>, optional: set<string>, effect: SideEffect, maxPayloadBytes: nat)

  function Name(id: CapabilityId): string {
    match id
    case ReadFile => "read-file"
    case SearchList => "search-list"
    case RunCommand => "run-command"
    case ApplyEdit => "apply-edit"
    case ReportProgress => "report-progress"
    case SubmitEvidence => "submit-evidence"
    case RequestEscalation => "request-escalation"
  }

  function ParseName(name: string): Option<CapabilityId> {
    if name == Name(ReadFile) then Some(ReadFile)
    else if name == Name(SearchList) then Some(SearchList)
    else if name == Name(RunCommand) then Some(RunCommand)
    else if name == Name(ApplyEdit) then Some(ApplyEdit)
    else if name == Name(ReportProgress) then Some(ReportProgress)
    else if name == Name(SubmitEvidence) then Some(SubmitEvidence)
    else if name == Name(RequestEscalation) then Some(RequestEscalation)
    else None
  }

  function Canonical(id: CapabilityId): Capability {
    match id
    case ReadFile => Capability(id, {"path"}, {"start_line", "end_line"}, ReadOnly, 1048576)
    case SearchList => Capability(id, {"query"}, {"path"}, ReadOnly, 1048576)
    case RunCommand => Capability(id, {"argv"}, {"working_directory"}, Destructive, 1048576)
    case ApplyEdit => Capability(id, {"path", "content"}, {"change_kind"}, IdempotentWrite, 4194304)
    case ReportProgress => Capability(id, {"message"}, {}, IdempotentWrite, 65536)
    case SubmitEvidence => Capability(id, {"summary"}, {"artifact_ref"}, IdempotentWrite, 65536)
    case RequestEscalation => Capability(id, {"reason"}, {"requested_capability"}, IdempotentWrite, 65536)
  }

  /** Running a command is the one destructive capability, reading and searching the only ones
      without an effect; each payload has a limit, which is widest for an edit. */
  lemma EffectsOfCapabilities(id: CapabilityId)
    ensures Canonical(id).id == id
    ensures Canonical(id).effect == Destructive <==> id == RunCommand
    ensures Canonical(id).effect == ReadOnly <==> id == ReadFile || id == SearchList
    ensures Canonical(id).required != {} && Canonical(id).required !! Canonical(id).optional
    ensures Canonical(ReportProgress).maxPayloadBytes <= Canonical(id).maxPayloadBytes
            <= Canonical(ApplyEdit).maxPayloadBytes == 4194304
  {
  }

  datatype ToolCallRequest = ToolCallRequest(callId: string, capabilityName: string, arguments: Json, malformed: bool)

  datatype ValidatedCall = ValidatedCall(callId: string, capability: CapabilityId, arguments: Json)

  datatype ValidationRefusal =
    | UnknownCapability(requested: string)
    | MalformedArguments
    | OversizedPayload(bytes: nat, limit: nat)

  /** Bytes of the UTF-8 encoding of a text, the length the payload limit is stated in. */
  function Utf8Length(text: string): nat {
    if text == "" then 0
    else
      var code := text[0] as int;
      (if code < 0x80 then 1 else if code < 0x800 then 2 else if code < 0x10000 then 3 else 4) + Utf8Length(text[1..])
  }

  /** How many characters of a text are at or above a code point. */
  function Above(text: string, code: int): nat {
    if text == "" then 0 else (if text[0] as int >= code then 1 else 0) + Above(text[1..], code)
  }

  /** One byte for each character, and one more from each of the three bounds of the encoding on. */
  lemma {:induction false} BytesAreCounted(text: string)
    ensures Utf8Length(text) == |text| + Above(text, 0x80) + Above(text, 0x800) + Above(text, 0x10000)
  {
    if text != "" {
      BytesAreCounted(text[1..]);
    }
  }

  /** The closed field-presence check: an object with every required key and no key
      outside the declared ones. */
  predicate ArgumentsFit(capability: Capability, arguments: Json) {
    arguments.keys.Some?
    && capability.required <= arguments.keys.value <= capability.required + capability.optional
  }

  function Validate(call: ToolCallRequest, offered: set<CapabilityId>): Result<ValidatedCall, ValidationRefusal> {
    if call.malformed then Failure(MalformedArguments)
    else
      var id := ParseName(call.capabilityName);
      if id.None? || id.value !in offered then Failure(UnknownCapability(call.capabilityName))
      else
        var capability := Canonical(id.value);
        var bytes := Utf8Length(call.arguments.text);
        if bytes > capability.maxPayloadBytes then Failure(OversizedPayload(bytes, capability.maxPayloadBytes))
        else if !ArgumentsFit(capability, call.arguments) then Failure(MalformedArguments)
        else Success(ValidatedCall(call.callId, capability.id, call.arguments))
  }

  /** Capability names are parsed back exactly, so a validated call names the
      capability whose schema it was checked against. */
  lemma NamesParseBack(name: string)
    ensures forall id :: ParseName(Name(id)) == Some(id)
    ensures ParseName(name).Some? ==> Name(ParseName(name).value) == name
  {
    forall id ensures ParseName(Name(id)) == Some(id) {
      assert |Name(RequestEscalation)| == 18;
    }
  }

  /** The call names an offered capability. */
  predicate Offers(offered: set<CapabilityId>, id: CapabilityId, name: string) {
    id in offered && Name(id) == name
  }

  /** Arguments are an object with every required key and none outside the declared ones. */
  ghost predicate Declared(capability: Capability, arguments: Json) {
    && arguments.keys.Some? && (forall key | key in capability.required :: key in arguments.keys.value)
    && (forall key | key in arguments.keys.value :: key in capability.required || key in capability.optional)
  }

  /** Validation accepts exactly the well-formed calls of an offered capability within its limit and
      its schema, as what they are, and tells apart why it refuses the others. */
  lemma ValidatesExactly(call: ToolCallRequest, offered: set<CapabilityId>, id: CapabilityId)
    requires Offers(offered, id, call.capabilityName)
    ensures var bytes, limit := Utf8Length(call.arguments.text), Canonical(id).maxPayloadBytes;
            var fits := Declared(Canonical(id), call.arguments);
            Validate(call, offered)
            == if call.malformed then Failure(MalformedArguments)
               else if bytes > limit then Failure(OversizedPayload(bytes, limit))
               else if !fits then Failure(MalformedArguments)
               else Success(ValidatedCall(call.callId, id, call.arguments))
  {
    NamesParseBack(call.capabilityName);
    assert ParseName(Name(id)) == Some(id) && Canonical(id).id == id;
  }

  lemma RefusesUnknown(call: ToolCallRequest, offered: set<CapabilityId>)
    requires forall id :: !Offers(offered, id, call.capabilityName)
    ensures Validate(call, offered)
            == Failure(if call.malformed then MalformedArguments else UnknownCapability(call.capabilityName))
  {
    NamesParseBack(call.capabilityName);
    var parsed := ParseName(call.capabilityName);
    assert parsed.Some? ==> !Offers(offered, parsed.value, call.capabilityName);
  }
}
