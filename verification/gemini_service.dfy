/** The generation client: the prompts it sends and how it turns the remote
    service's replies into a scenario or an image reference.  The remote calls
    themselves, `JSON.parse`, `crypto.randomUUID` and `Date.now` are inputs. */
module GeminiService {
  import opened Wrappers
  import opened Types
  import opened JsStrings

  // ---------------------------------------------------------------- text call

  const DefaultTarget := "A generic enterprise environment"
  const PromptHead := "Generate a CyberScript attack storyboard for:\nTarget Description: "
  const LevelHead := "\nDifficulty Level: "
  const PromptTail := "\n\nEnsure you strictly follow the 5-part structure defined in the system instructions."

  /** `customPrompt || 'A generic enterprise environment'`: undefined and the
      empty string are both falsy. */
  function TargetText(customPrompt: Option<string>): (r: string)
    ensures r != []
    ensures customPrompt.Some? && customPrompt.value != [] ==> r == customPrompt.value
    ensures customPrompt.None? || customPrompt.value == [] ==> r == DefaultTarget
  {
    if customPrompt.None? || customPrompt.value == "" then DefaultTarget else customPrompt.value
  }

  /** The user prompt sent with the scenario request: it decodes back to the
      difficulty and the target it was built from. */
  function UserPrompt(complexity: Complexity, customPrompt: Option<string>): (r: string)
    ensures DecodeUserPrompt(r) == Some((complexity, TargetText(customPrompt)))
  {
    var target := TargetText(customPrompt);
    Framed(PromptHead, target, LevelHead, complexity.Label(), PromptTail);
    DecodeLevelOf(target, complexity);
    PromptHead + target + LevelHead + complexity.Label() + PromptTail
  }

  /** Recovers the target description and difficulty from a user prompt:
      the inverse of UserPrompt. */
  function DecodeUserPrompt(prompt: string): (r: Option<(Complexity, string)>) {
    if |prompt| < |PromptHead| + |PromptTail| || !StartsWith(prompt, PromptHead) || !EndsWith(prompt, PromptTail)
    then None
    else DecodeLevel(prompt[|PromptHead|..|prompt| - |PromptTail|])
  }

  /** Splits `target + LevelHead + label` back into its parts. */
  function DecodeLevel(middle: string): (r: Option<(Complexity, string)>) {
    var level :=
      if EndsWith(middle, LevelHead + Beginner.Label()) then Some(Beginner)
      else if EndsWith(middle, LevelHead + Intermediate.Label()) then Some(Intermediate)
      else if EndsWith(middle, LevelHead + Advanced.Label()) then Some(Advanced)
      else None;
    match level
    case None => None
    case Some(c) => Some((c, middle[..|middle| - |LevelHead + c.Label()|]))
  }

  /** The three labels end in different letters, so the label a prompt ends
      with is determined. */
  lemma LabelSuffixDetermines(target: string, c: Complexity, d: Complexity)
    requires EndsWith(target + LevelHead + c.Label(), LevelHead + d.Label())
    ensures c == d
  {
    var s := target + LevelHead + c.Label();
    var suffix := LevelHead + d.Label();
    assert s[|s| - 1] == suffix[|suffix| - 1];
  }

  lemma DecodeLevelOf(target: string, c: Complexity)
    ensures DecodeLevel(target + LevelHead + c.Label()) == Some((c, target))
  {
    var middle := target + LevelHead + c.Label();
    var level := LevelHead + c.Label();
    assert middle == target + level;
    assert EndsWith(middle, level);
    forall d: Complexity | EndsWith(middle, LevelHead + d.Label())
      ensures d == c
    {
      LabelSuffixDetermines(target, c, d);
    }
    assert middle[..|middle| - |level|] == target;
  }

  /** The prompt carries the difficulty label and the target description, and
      the target falls back to the generic enterprise text exactly when the
      custom prompt is undefined or empty. */
  lemma UserPromptRoundTrip(complexity: Complexity, customPrompt: Option<string>)
    ensures DecodeUserPrompt(UserPrompt(complexity, customPrompt))
      == Some((complexity, if customPrompt.None? || customPrompt.value == [] then DefaultTarget else customPrompt.value))
  {
  }

  /** Head and tail around a three-part middle can be cut off again. */
  lemma Framed(head: string, a: string, b: string, c: string, tail: string)
    ensures var s := head + a + b + c + tail;
      && |s| >= |head| + |tail|
      && StartsWith(s, head) && EndsWith(s, tail)
      && s[|head|..|s| - |tail|] == a + b + c
  {
    var s := head + a + b + c + tail;
    assert s == head + (a + b + c) + tail;
  }


  /** One step as the model returned it.  Any field may be missing; the id and
      image fields are accepted but overridden by the mapping. */
  datatype RawStep = RawStep(
    id: Option<string>,
    phase: Option<string>,
    title: Option<string>,
    description: Option<string>,
    mitreTechnique: Option<string>,
    visualPrompt: Option<string>,
    imageUrl: Option<string>,
    isLoadingImage: Option<bool>)

  /** The parsed JSON object; `steps` is None when it is absent or not an array. */
  datatype RawData = RawData(
    attackVector: Option<string>,
    threatActor: Option<string>,
    summary: Option<string>,
    steps: Option<seq<RawStep>>,
    sampleLogs: Option<string>,
    attackFlowDiagram: Option<string>,
    mitigationLessons: Option<string>)

  /** What `JSON.parse('{}')` yields. */
  const EmptyRaw := RawData(None, None, None, None, None, None, None)

  /** The reply of the text call: the call threw, or it returned a response
      whose `text` may be undefined. */
  datatype TextReply = TextCallFailed | TextResponse(text: Option<string>)

  datatype ScenarioError =
    | RequestFailed     // the remote call threw
    | InvalidJson       // JSON.parse threw, or the value has no properties (null)
    | StepsMissing      // `rawData.steps.map` threw: steps absent or not an array

  /** `response.text || '{}'` */
  function ResponseBody(text: Option<string>): (r: string)
    ensures r != []
    ensures text.Some? && text.value != [] ==> r == text.value
    ensures text.None? || text.value == [] ==> r == "{}"
  {
    if text.None? || text.value == "" then "{}" else text.value
  }

  /** `{ ...step, id, imageUrl: undefined, isLoadingImage: false }` */
  function MapStep(raw: RawStep, id: string): (r: Step)
    ensures r.id == id && Carries(r, raw) && IsFresh(r)
  {
    Step(id, raw.phase, raw.title, raw.description, raw.mitreTechnique, raw.visualPrompt, None, Some(false))
  }

  /** A step as it leaves the mapping: no image and no request in flight. */
  predicate IsFresh(s: Step) {
    s.imageUrl.None? && s.isLoadingImage == Some(false)
  }

  /** The step keeps the raw step's five text fields. */
  predicate Carries(s: Step, raw: RawStep) {
    && s.phase == raw.phase
    && s.title == raw.title
    && s.description == raw.description
    && s.mitreTechnique == raw.mitreTechnique
    && s.visualPrompt == raw.visualPrompt
  }

  /** Builds the scenario from the parsed object.  `uuid(0)` is the scenario
      id and `uuid(k + 1)` the id of step k, in the order the source draws them. */
  function MapScenario(raw: RawData, uuid: nat -> string, now: int): (r: Result<Scenario, ScenarioError>)
    ensures r.Failure? <==> raw.steps.None?
    ensures r.Failure? ==> r.error == StepsMissing
    ensures r.Success? ==>
      var sc := r.value;
      && sc.id == uuid(0) && sc.timestamp == now
      && sc.attackVector == raw.attackVector && sc.threatActor == raw.threatActor
      && sc.summary == raw.summary && sc.sampleLogs == raw.sampleLogs
      && sc.attackFlowDiagram == raw.attackFlowDiagram
      && sc.mitigationLessons == raw.mitigationLessons
      && |sc.steps| == |raw.steps.value|
      && forall k :: 0 <= k < |sc.steps| ==>
           && sc.steps[k].id == uuid(k + 1)
           && Carries(sc.steps[k], raw.steps.value[k])
           && IsFresh(sc.steps[k])
  {
    match raw.steps
    case None => Failure(StepsMissing)
    case Some(rs) =>
      var steps := seq(|rs|, k requires 0 <= k < |rs| => MapStep(rs[k], uuid(k + 1)));
      Success(Scenario(uuid(0), raw.attackVector, raw.threatActor, raw.summary, steps, now,
                       raw.sampleLogs, raw.attackFlowDiagram, raw.mitigationLessons))
  }

  /** The scenario request's outcome: `parse` stands for `JSON.parse`. */
  function GenerateAttackScenario(reply: TextReply, parse: string -> Option<RawData>, uuid: nat -> string, now: int)
    : (r: Result<Scenario, ScenarioError>)
    ensures reply.TextCallFailed? ==> r == Failure(RequestFailed)
    ensures reply.TextResponse? && parse(ResponseBody(reply.text)).None? ==> r == Failure(InvalidJson)
    ensures reply.TextResponse? && parse(ResponseBody(reply.text)).Some? ==>
      r == MapScenario(parse(ResponseBody(reply.text)).value, uuid, now)
  {
    match reply
    case TextCallFailed => Failure(RequestFailed)
    case TextResponse(text) =>
      match parse(ResponseBody(text))
      case None => Failure(InvalidJson)
      case Some(raw) => MapScenario(raw, uuid, now)
  }

  /** An empty or missing response text parses as `{}`, which has no steps, so
      the request fails rather than producing an empty scenario. */
  lemma EmptyResponseFails(text: Option<string>, parse: string -> Option<RawData>, uuid: nat -> string, now: int)
    requires text.None? || text.value == ""
    requires parse("{}") == Some(EmptyRaw)
    ensures GenerateAttackScenario(TextResponse(text), parse, uuid, now) == Failure(StepsMissing)
  {
  }

  /** The same step with the fields the mapping overrides changed in any way. */
  predicate SameBarOverrides(a: RawStep, b: RawStep) {
    a.(id := b.id, imageUrl := b.imageUrl, isLoadingImage := b.isLoadingImage) == b
  }

  /** Raw `id`, `imageUrl` and `isLoadingImage` values never reach the scenario:
      the explicit fields come after the spread and win. */
  lemma MapIgnoresRawOverrides(a: RawData, b: RawData, uuid: nat -> string, now: int)
    requires a.(steps := b.steps) == b
    requires a.steps.Some? && b.steps.Some? && |a.steps.value| == |b.steps.value|
    requires forall k :: 0 <= k < |a.steps.value| ==> SameBarOverrides(a.steps.value[k], b.steps.value[k])
    ensures MapScenario(a, uuid, now) == MapScenario(b, uuid, now)
  {
    var ra := MapScenario(a, uuid, now).value;
    var rb := MapScenario(b, uuid, now).value;
    assert ra.steps == rb.steps;
  }

  /** With a stream of distinct UUIDs, the scenario and all its steps get
      distinct identifiers. */
  lemma MappedIdsDistinct(raw: RawData, uuid: nat -> string, now: int)
    requires forall m: nat, n: nat :: m != n ==> uuid(m) != uuid(n)
    requires raw.steps.Some?
    ensures var sc := MapScenario(raw, uuid, now).value;
      && (forall k :: 0 <= k < |sc.steps| ==> sc.steps[k].id != sc.id)
      && (forall j, k :: 0 <= j < k < |sc.steps| ==> sc.steps[j].id != sc.steps[k].id)
  {
  }

  // --------------------------------------------------------------- image call

  const ImagePreamble := "High quality, cinematic digital art, moody lighting, cybersecurity thriller aesthetic, professional training illustration: "
  const DataUriPrefix := "data:image/png;base64,"

  /** The text part of the image request: the fixed preamble followed directly
      by the visual prompt. */
  function ImagePrompt(visualPrompt: string): (r: string)
    ensures StartsWith(r, ImagePreamble)
    ensures r[|ImagePreamble|..] == visualPrompt
  {
    ImagePreamble + visualPrompt
  }

  datatype InlineData = InlineData(data: Option<string>)
  datatype Part = Part(inlineData: Option<InlineData>)

  /** The reply of the image call: the call threw (or the response has no first
      candidate), or the content parts of the first candidate. */
  datatype ImageReply = ImageCallFailed | ImageParts(parts: seq<Part>)

  datatype ImageError = ImageRequestFailed | NoInlineImage

  /** The index of the first part carrying inline data, or |parts| if none does. */
  function FirstInline(parts: seq<Part>): (k: nat)
    ensures k <= |parts|
    ensures forall j :: 0 <= j < k ==> parts[j].inlineData.None?
    ensures k < |parts| ==> parts[k].inlineData.Some?
  {
    if |parts| == 0 || parts[0].inlineData.Some? then 0 else 1 + FirstInline(parts[1..])
  }

  function DataUri(data: Option<string>): (r: string)
    ensures StartsWith(r, DataUriPrefix)
    ensures r[|DataUriPrefix|..] == Interpolate(data)
  {
    DataUriPrefix + Interpolate(data)
  }

  /** The image request's outcome: a data URI built from the first part with
      inline data, or an error when the call failed or no part has any. */
  function GenerateStepImage(reply: ImageReply): (r: Result<string, ImageError>)
    ensures reply.ImageCallFailed? ==> r == Failure(ImageRequestFailed)
    ensures reply.ImageParts? ==>
      (r.Failure? <==> forall j :: 0 <= j < |reply.parts| ==> reply.parts[j].inlineData.None?)
    ensures r.Failure? ==> reply.ImageCallFailed? || r.error == NoInlineImage
    ensures r.Success? ==> StartsWith(r.value, DataUriPrefix)
    ensures r.Success? ==>
      (exists k :: 0 <= k < |reply.parts|
        && (forall j :: 0 <= j < k ==> reply.parts[j].inlineData.None?)
        && reply.parts[k].inlineData.Some?
        && r.value == DataUri(reply.parts[k].inlineData.value.data))
  {
    match reply
    case ImageCallFailed => Failure(ImageRequestFailed)
    case ImageParts(parts) =>
      var k := FirstInline(parts);
      if k == |parts| then Failure(NoInlineImage)
      else Success(DataUri(parts[k].inlineData.value.data))
  }

  /** Parts after the first one with inline data do not affect the result. */
  lemma {:induction false} LaterPartsIgnored(parts: seq<Part>, later: seq<Part>)
    requires exists j :: 0 <= j < |parts| && parts[j].inlineData.Some?
    ensures GenerateStepImage(ImageParts(parts + later)) == GenerateStepImage(ImageParts(parts))
  {
    FirstInlineOfPrefix(parts, later);
  }

  lemma {:induction false} FirstInlineOfPrefix(parts: seq<Part>, later: seq<Part>)
    requires exists j :: 0 <= j < |parts| && parts[j].inlineData.Some?
    ensures FirstInline(parts + later) == FirstInline(parts)
    ensures FirstInline(parts) < |parts|
  {
    if parts[0].inlineData.None? {
      assert (parts + later)[1..] == parts[1..] + later;
      var j :| 0 <= j < |parts| && parts[j].inlineData.Some?;
      assert parts[1..][j - 1].inlineData.Some?;
      FirstInlineOfPrefix(parts[1..], later);
    }
  }
}
