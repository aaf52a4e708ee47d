/** The generate action of the application: input validation, the scenario
    request, and the sequential per-step image loop that patches one step of
    the current scenario at a time.  A run is modelled as one sequential pass;
    the remote replies are inputs and every outbound call is recorded together
    with the state set just before the call, which is what the page shows
    while the call is outstanding. */
module AppGenerate {
  import opened Wrappers
  import opened Types
  import opened JsStrings
  import opened GeminiService

  /** The controller's state: the generating flag and the current scenario. */
  datatype View = View(isGenerating: bool, current: Option<Scenario>)

  /** One outbound call with the prompt it sends and the state set just
      before it. */
  datatype Request =
    | TextRequest(prompt: string, seen: View)
    | ImageRequest(prompt: string, seen: View)

  /** The three single-step updates the loop applies. */
  datatype StepUpdate = BeginLoading | ImageLoaded(url: string) | ImageFailed

  /** `{ ...step, <fields of the update> }`: the text is kept, the step is
      loading exactly after `BeginLoading`, and only a loaded image replaces
      the step's image. */
  function ApplyUpdate(u: StepUpdate, s: Step): (r: Step)
    ensures SameText(r, s)
    ensures r.isLoadingImage == Some(u.BeginLoading?)
    ensures r.imageUrl == (if u.ImageLoaded? then Some(u.url) else s.imageUrl)
  {
    match u
    case BeginLoading => s.(isLoadingImage := Some(true))
    case ImageLoaded(url) => s.(imageUrl := Some(url), isLoadingImage := Some(false))
    case ImageFailed => s.(isLoadingImage := Some(false))
  }

  /** The update a settled image call applies: the returned URL is loaded,
      and a thrown call records a failure, which ends the step's loading. */
  function Resolution(outcome: Option<string>): (r: StepUpdate)
    ensures r.ImageLoaded? <==> outcome.Some?
    ensures outcome.Some? ==> r == ImageLoaded(outcome.value)
    ensures outcome.None? ==> r == ImageFailed
    ensures !r.BeginLoading?
  {
    match outcome
    case Some(url) => ImageLoaded(url)
    case None => ImageFailed
  }

  /** The functional state update `prev => ...` used for step `i`: a copy of
      the scenario whose step list is a copy with only entry `i` replaced. */
  function Patch(cur: Option<Scenario>, i: nat, u: StepUpdate): (r: Option<Scenario>)
    requires cur.Some? ==> i < |cur.value.steps|
    ensures cur.None? ==> r.None?
    ensures cur.Some? ==>
      && r.Some?
      && SameHeader(r.value, cur.value)
      && |r.value.steps| == |cur.value.steps|
      && r.value.steps[i] == ApplyUpdate(u, cur.value.steps[i])
      && forall j :: 0 <= j < |cur.value.steps| && j != i ==> r.value.steps[j] == cur.value.steps[j]
  {
    match cur
    case None => None
    case Some(sc) => Some(sc.(steps := sc.steps[i := ApplyUpdate(u, sc.steps[i])]))
  }

  /** Corollary of the contract of `ApplyUpdate`, stated in the terms the
      loop's reasoning uses: every update keeps a step's text and id, a failure
      keeps the image, and only the begin-loading update marks the step as
      loading. */
  lemma ApplyUpdateKeepsText(u: StepUpdate, s: Step)
    ensures SameText(ApplyUpdate(u, s), s)
    ensures u.ImageFailed? ==> ApplyUpdate(u, s).imageUrl == s.imageUrl
    ensures u.BeginLoading? <==> ApplyUpdate(u, s).isLoadingImage == Some(true)
  {
  }

  /** The steps once the first `k` image calls have settled. */
  function Settled(steps: seq<Step>, outcomes: seq<Option<string>>, k: nat): (r: seq<Step>)
    requires |outcomes| == |steps| && k <= |steps|
    ensures |r| == |steps|
  {
    seq(|steps|, j requires 0 <= j < |steps| =>
      if j < k then ApplyUpdate(Resolution(outcomes[j]), steps[j]) else steps[j])
  }

  /** Loading and then settling step `k` of the `k`-settled scenario gives the
      `k + 1`-settled one. */
  lemma SettleNext(sc: Scenario, outcomes: seq<Option<string>>, k: nat)
    requires |outcomes| == |sc.steps| && k < |sc.steps|
    ensures Patch(Patch(Some(sc.(steps := Settled(sc.steps, outcomes, k))), k, BeginLoading), k, Resolution(outcomes[k]))
      == Some(sc.(steps := Settled(sc.steps, outcomes, k + 1)))
  {
    var before := Settled(sc.steps, outcomes, k);
    var loading := before[k := ApplyUpdate(BeginLoading, before[k])];
    var after := loading[k := ApplyUpdate(Resolution(outcomes[k]), loading[k])];
    assert after == Settled(sc.steps, outcomes, k + 1);
  }

  /** The view the image request for step `k` is issued under: steps before
      `k` settled, step `k` loading, later steps as returned. */
  function SeenAtImage(sc: Scenario, outcomes: seq<Option<string>>, k: nat): (r: View)
    requires |outcomes| == |sc.steps| && k < |sc.steps|
  {
    var settled := Settled(sc.steps, outcomes, k);
    View(true, Some(sc.(steps := settled[k := ApplyUpdate(BeginLoading, settled[k])])))
  }

  /** The image loop of the generate action, over the settled outcome of each
      step's image call (Some(url) on success, None when the call threw). */
  method RunImageSteps(sc: Scenario, outcomes: seq<Option<string>>)
    returns (cur: Option<Scenario>, requests: seq<Request>)
    requires |outcomes| == |sc.steps|
    ensures cur == Some(sc.(steps := Settled(sc.steps, outcomes, |sc.steps|)))
    ensures |requests| == |sc.steps|
    ensures forall k :: 0 <= k < |sc.steps| ==>
      requests[k] == ImageRequest(ImagePrompt(Interpolate(sc.steps[k].visualPrompt)), SeenAtImage(sc, outcomes, k))
  {
    cur := Some(sc);
    requests := [];
    assert Settled(sc.steps, outcomes, 0) == sc.steps;
    var i := 0;
    while i < |sc.steps|
      invariant 0 <= i <= |sc.steps|
      invariant cur == Some(sc.(steps := Settled(sc.steps, outcomes, i)))
      invariant |requests| == i
      invariant forall k :: 0 <= k < i ==>
        requests[k] == ImageRequest(ImagePrompt(Interpolate(sc.steps[k].visualPrompt)), SeenAtImage(sc, outcomes, k))
    {
      var step := sc.steps[i];
      SettleNext(sc, outcomes, i);
      cur := Patch(cur, i, BeginLoading);
      requests := requests + [ImageRequest(ImagePrompt(Interpolate(step.visualPrompt)), View(true, cur))];
      match outcomes[i] {
        case Some(url) =>
          cur := Patch(cur, i, ImageLoaded(url));
        case None =>
          cur := Patch(cur, i, ImageFailed);
      }
      i := i + 1;
    }
  }

  /** Once every call has settled, in any mix of outcomes: same number of
      steps, same scenario fields, no step loading, each step's text intact,
      and a step's image is the returned URL when its call succeeded and is
      left as it was when it failed, whatever happened to the other steps. */
  lemma AllSettled(sc: Scenario, outcomes: seq<Option<string>>)
    requires |outcomes| == |sc.steps|
    ensures var done := Settled(sc.steps, outcomes, |sc.steps|);
      && |done| == |sc.steps|
      && forall k :: 0 <= k < |done| ==>
           && done[k].isLoadingImage == Some(false)
           && SameText(done[k], sc.steps[k])
           && done[k].imageUrl == (if outcomes[k].Some? then outcomes[k] else sc.steps[k].imageUrl)
  {
  }

  /** The settled outcome of each step's image call, in step order: the data
      URI, or None when the call failed. */
  function ImageOutcomes(n: nat, imageReply: nat -> ImageReply): (r: seq<Option<string>>)
    ensures |r| == n
  {
    seq(n, k requires 0 <= k < n => GenerateStepImage(imageReply(k)).ToOption())
  }

  /** The image phase of a run on scenario `sc`: one image request per step in
      step order, leaving every step settled by its call's outcome. */
  ghost predicate ImagesIssued(sc: Scenario, imageReply: nat -> ImageReply, cur: Option<Scenario>, requests: seq<Request>) {
    var outcomes := ImageOutcomes(|sc.steps|, imageReply);
    && |requests| == |sc.steps|
    && cur == Some(sc.(steps := Settled(sc.steps, outcomes, |sc.steps|)))
    && forall k :: 0 <= k < |sc.steps| ==>
         requests[k] == ImageRequest(ImagePrompt(Interpolate(sc.steps[k].visualPrompt)), SeenAtImage(sc, outcomes, k))
  }

  /** The outcome a user sees after the image phase on scenario `sc`: every
      step has stopped loading and holds exactly what its own image call
      returned. */
  predicate ImagesDelivered(sc: Scenario, imageReply: nat -> ImageReply, cur: Option<Scenario>) {
    && cur.Some?
    && |cur.value.steps| == |sc.steps|
    && forall k :: 0 <= k < |cur.value.steps| ==>
         && cur.value.steps[k].isLoadingImage == Some(false)
         && cur.value.steps[k].imageUrl == GenerateStepImage(imageReply(k)).ToOption()
  }

  /** `handleGenerate`: `parse` is `JSON.parse`, `uuid` the stream of
      `crypto.randomUUID` results, `now` the `Date.now()` value, `textReply`
      the scenario call's reply and `imageReply(k)` the reply of step k's image
      call. */
  method HandleGenerate(v: View, description: string, complexity: Complexity,
                        textReply: TextReply, parse: string -> Option<RawData>,
                        uuid: nat -> string, now: int, imageReply: nat -> ImageReply)
    returns (w: View, requests: seq<Request>)
    // a blank description is rejected before anything happens
    ensures IsBlank(description) ==> w == v && requests == []
    // otherwise the scenario request goes out first, with the old scenario
    // cleared and the flag set, and the flag is down whichever way it ends;
    // a failed scenario request leaves no scenario and issues no image call,
    // a successful one is followed by one image call per step, in step order
    ensures !IsBlank(description) ==>
      var generated := GenerateAttackScenario(textReply, parse, uuid, now);
      && |requests| >= 1
      && requests[0] == TextRequest(UserPrompt(complexity, Some(description)), View(true, None))
      && !w.isGenerating
      && (generated.Failure? ==> w.current.None? && |requests| == 1)
      && (generated.Success? ==> ImagesIssued(generated.value, imageReply, w.current, requests[1..]))
    // and after a successful run every step has stopped loading and holds
    // exactly what its own image call returned
    ensures !IsBlank(description) ==>
      var generated := GenerateAttackScenario(textReply, parse, uuid, now);
      generated.Success? ==> ImagesDelivered(generated.value, imageReply, w.current)
  {
    TrimEmptyIffBlank(description);
    if Trim(description) == "" {
      return v, [];
    }
    w := View(true, None);
    requests := [TextRequest(UserPrompt(complexity, Some(description)), w)];
    var generated := GenerateAttackScenario(textReply, parse, uuid, now);
    if generated.Failure? {
      w := w.(isGenerating := false);
      return;
    }
    GenerateEndState(generated.value, imageReply);
    var cur, imageRequests := RunImageSteps(generated.value, ImageOutcomes(|generated.value.steps|, imageReply));
    var head := requests;
    requests := head + imageRequests;
    assert requests[0] == head[0] && requests[1..] == imageRequests;
    w := View(false, cur);
  }

  /** The end state of a successful run: every step settled, and a step holds
      an image exactly when its call succeeded, the image being that call's
      data URI. */
  lemma GenerateEndState(sc: Scenario, imageReply: nat -> ImageReply)
    requires forall k :: 0 <= k < |sc.steps| ==> IsFresh(sc.steps[k])
    ensures var done := Settled(sc.steps, ImageOutcomes(|sc.steps|, imageReply), |sc.steps|);
      && |done| == |sc.steps|
      && forall k :: 0 <= k < |done| ==>
           && done[k].isLoadingImage == Some(false)
           && SameText(done[k], sc.steps[k])
           && done[k].imageUrl == GenerateStepImage(imageReply(k)).ToOption()
           && (done[k].imageUrl.Some? ==> StartsWith(done[k].imageUrl.value, DataUriPrefix))
  {
  }

  /** The description is sent as typed, so a run never uses the default target. */
  lemma ValidDescriptionIsTarget(complexity: Complexity, description: string)
    requires !IsBlank(description)
    ensures DecodeUserPrompt(UserPrompt(complexity, Some(description))) == Some((complexity, description))
  {
    UserPromptRoundTrip(complexity, Some(description));
  }
}
