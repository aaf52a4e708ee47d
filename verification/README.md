# CyberScript core, modelled in Dafny

CyberScript is a browser front end that asks a hosted text model for a
fictional cyber-attack storyboard (overview, phased steps, sample logs, a text
flow diagram, mitigations) and then asks a hosted image model for one
illustration per step. Its logic is small and sequential, and this project
models all of it:

- **the generate action** (`handleGenerate` in `App.tsx`). It validates the description
  with `trim`, clears the current scenario and raises the generating flag,
  requests the scenario, then walks the steps in order. For each step it marks
  the step as loading, requests its image, and patches that one step with the
  image URL, or on failure only clears its loading flag. The flag is lowered
  on every exit.
- **the copy-report action** (`copyToClipboard`). It is a fixed plain-text
  template over the current scenario, with one `Step k: title (phase) -
  description` line per step.
- **the generation client** (`services/geminiService.ts`). It covers the user
  prompt and its default target, the mapping from the parsed JSON to a
  scenario, the image-prompt preamble, and the search for the first reply
  part with inline data, which becomes a `data:image/png;base64,` URI.

Files:

| file | module | contents |
|---|---|---|
| `wrappers.dfy` | `Wrappers` | `Option` (a JavaScript value that may be undefined) and `Result` (an operation that may throw) |
| `types.dfy` | `Types` | `Complexity`, `Step`, `Scenario`, mirroring `types.ts` |
| `js_strings.dfy` | `JsStrings` | `trim`, template interpolation, decimal rendering, `join`, and an "occurs in order" predicate on text |
| `gemini_service.dfy` | `GeminiService` | prompts, response mapping, image-reply decoding |
| `app_generate.dfy` | `AppGenerate` | the single-step patch, the image loop, `handleGenerate` |
| `app_report.dfy` | `AppReport` | the report template and its ordering property |

Modelling choices:

- The remote calls, `JSON.parse`, `crypto.randomUUID` and `Date.now` are inputs:
  - the text call's reply is a `TextReply`;
  - `JSON.parse` is a function parameter `parse`;
  - the UUIDs are a stream `uuid: nat -> string`, where call 0 is the scenario id and call k+1 is step k's id, in the order the source draws them;
  - the timestamp is `now`;
  - the reply to step k's image call is `imageReply(k)`.
- The text fields of a step and of a scenario are `Option<string>`. The mapping
  copies them from the JSON without validating them, so at run time they can
  be undefined even though `types.ts` declares them as strings. Template
  literals then print `undefined` (`JsStrings.Interpolate`).
- A run of `handleGenerate` is one sequential pass. It returns the final view
  (generating flag and current scenario). It also returns the outbound requests in
  order, each with its prompt and the state set just before the call (what the
  page shows while the call is outstanding).
- The image loop runs over an outcome sequence `seq<Option<string>>` with one
  entry per step: the URL, or `None` when the call threw.

The model follows the code, including two behaviours a reader of the response schema might not expect:

- A reply missing any top-level field is not rejected. The field just becomes
  undefined, and only a missing (or non-array) `steps` makes the request fail.
- A "successful" image can be `data:image/png;base64,undefined` when the
  inline part carries no `data`. The prefix is always `image/png`, whatever
  MIME type the part declares.

## Model

| member | source | states |
|---|---|---|
| `JsStrings.TrimStart` | App.tsx:15 | the leading-whitespace cut of `trim` returns a suffix, removes only whitespace, and stops at a non-whitespace character |
| `JsStrings.TrimEnd` | App.tsx:15 | the trailing-whitespace cut of `trim` returns a prefix, removes only whitespace, and stops at a non-whitespace character |
| `JsStrings.Trim` | App.tsx:15 | `trim` returns a contiguous piece of its input with only whitespace cut away on either side, and the piece neither starts nor ends with whitespace |
| `JsStrings.TrimEmptyIffBlank` | App.tsx:15 | `description.trim()` is empty exactly when every character is ECMAScript whitespace or a line terminator |
| `JsStrings.Interpolate` | App.tsx:66-84 | a template-literal slot prints a defined text value unchanged and an undefined one as `undefined` |
| `JsStrings.NatToDecimal` | App.tsx:74 | the step number renders as a non-empty string of decimal digits without a leading zero |
| `JsStrings.DecimalRoundTrip` | App.tsx:74 | reading the rendered step number back gives the number |
| `JsStrings.DecimalInjective` | App.tsx:74 | different step numbers render differently |
| `JsStrings.Join` | App.tsx:74 | `join` of no parts is empty; otherwise its length is the offset of the last part plus that part's length |
| `JsStrings.JoinPlaces` | App.tsx:74 | in `parts.join(sep)` every part sits at its offset, and every part but the last is followed immediately by exactly one separator, so the step lines are separated by single newlines |
| `JsStrings.JoinThenInOrder` | App.tsx:74 | `join('\n')` keeps the step lines in step order, ahead of whatever follows |
| `GeminiService.TargetText` | services/geminiService.ts:30 | the target is never empty: the custom prompt when it is defined and non-empty, the default target otherwise |
| `GeminiService.UserPrompt` | services/geminiService.ts:29-33 | the prompt decodes back to exactly the difficulty and the target it was built from |
| `GeminiService.UserPromptRoundTrip` | services/geminiService.ts:29-33 | the user prompt can be decoded back to the difficulty label and the target. The target is `'A generic enterprise environment'` exactly when the custom prompt is undefined or empty, and the custom prompt otherwise |
| `GeminiService.ResponseBody` | services/geminiService.ts:71 | the text handed to the parser is never empty: the response text when it is defined and non-empty, `{}` otherwise |
| `GeminiService.MapStep` | services/geminiService.ts:82-87 | a mapped step carries the given id and every raw text field, and has no image and a loading flag of false |
| `GeminiService.MapScenario` | services/geminiService.ts:73-88 | fails exactly when `steps` is missing. Otherwise the scenario has the given id and timestamp and copies the top-level text fields verbatim. It has exactly as many steps as the raw data, in the same order. Each step keeps the raw text fields, gets the fresh id `uuid(k+1)`, and has no image and a loading flag of false |
| `GeminiService.GenerateAttackScenario` | services/geminiService.ts:71-88 | a thrown call fails with a request error and an unparsable body with a JSON error. Otherwise the result is the mapping of the parsed `response.text \|\| '{}'` |
| `GeminiService.EmptyResponseFails` | services/geminiService.ts:71-82 | an undefined or empty response text parses as `{}`, so the request fails at `steps.map` and never yields an empty scenario |
| `GeminiService.MapIgnoresRawOverrides` | services/geminiService.ts:82-87 | raw `id`, `imageUrl` and `isLoadingImage` values never reach the scenario, because the explicit fields come after the spread |
| `GeminiService.MappedIdsDistinct` | services/geminiService.ts:74-84 | with distinct UUIDs, the scenario id and all step ids are pairwise distinct |
| `GeminiService.ImagePrompt` | services/geminiService.ts:98 | the image request text is the fixed preamble followed directly by the visual prompt |
| `GeminiService.FirstInline` | services/geminiService.ts:108-112 | finds the first part with inline data: every earlier part has none, and the found part has some |
| `GeminiService.DataUri` | services/geminiService.ts:110 | the URI is the `data:image/png;base64,` prefix followed by the interpolated inline data, `undefined` included |
| `GeminiService.GenerateStepImage` | services/geminiService.ts:108-114 | fails when the call threw, and fails exactly when no part has inline data. On success the value is a `data:image/png;base64,` URI built from the first such part |
| `GeminiService.LaterPartsIgnored` | services/geminiService.ts:108-112 | once some part has inline data, parts appended after it do not change the result |
| `AppGenerate.ApplyUpdate` | App.tsx:30-53 | each of the three step updates keeps the step's id and text; the step is loading exactly after the begin-loading update; only a loaded image replaces `imageUrl` |
| `AppGenerate.Resolution` | App.tsx:37-53 | a settled image call loads exactly its URL when it returned one, and records a failure (`ImageFailed`, which ends loading) exactly when it threw; it never puts the step back into loading |
| `AppGenerate.Patch` | App.tsx:30-53 | a per-step update of a null scenario gives null. Otherwise the step count and all non-step fields stay the same, step `i` is updated, and every other step is unchanged |
| `AppGenerate.ApplyUpdateKeepsText` | App.tsx:30-53 | a corollary of `ApplyUpdate`'s contract: no update touches a step's id or text. A failure leaves `imageUrl` as it was, and only the begin-loading update sets the flag to true |
| `AppGenerate.SettleNext` | App.tsx:30-53 | marking step `k` as loading and then settling it advances the scenario from "first k steps settled" to "first k+1 steps settled" |
| `AppGenerate.RunImageSteps` | App.tsx:27-55 | one image request per step, for indices 0..n-1 in order, each with step i's original visual prompt. Each request is issued while step i is loading, earlier steps are settled, and later steps are untouched. The loop ends with every step settled by its own outcome |
| `AppGenerate.AllSettled` | App.tsx:27-55 | after the loop, with any mix of outcomes, no step is loading and every step's text is intact. A step's image is the returned URL when its call succeeded, and unchanged when it failed, whatever happened to other steps |
| `AppGenerate.GenerateEndState` | App.tsx:27-55 | starting from freshly mapped steps, a step ends with an image exactly when its call succeeded, and that image is the call's data URI |
| `AppGenerate.HandleGenerate` | App.tsx:14-62 | a blank description changes nothing and issues no request. Otherwise the text request goes out first, with the scenario cleared and the flag set. The flag is false on every exit. A failed scenario request leaves no scenario and issues no image request; a successful one is followed by the image phase of `RunImageSteps`, after which every step has stopped loading and its image is exactly the outcome of its own image call |
| `AppGenerate.ValidDescriptionIsTarget` | App.tsx:15-24 | a description that passes validation is sent as the target, so a run never falls back to the default target |
| `AppReport.StepLabel` | App.tsx:74 | the label of step `i` is `Step `, the decimal rendering of `i+1`, then `: ` |
| `AppReport.StepLine` | App.tsx:74 | the line of step `i` is exactly its label, the title, ` (`, the phase, `) - ` and the description: each piece sits at its place and the length leaves no room for anything else |
| `AppReport.StepLines` | App.tsx:74 | one report line per step, in step order; line `i` is the label of number `i+1`, step `i`'s title, its parenthesised phase and its description, with nothing else |
| `AppReport.DigitLabelsAgree` | App.tsx:74 | two digit strings whose `Step n: ` labels open the same line are equal |
| `AppReport.StepLinesDistinct` | App.tsx:74 | the lines of two different steps differ, whatever the steps' text |
| `AppReport.Report` | App.tsx:66-84 | the report begins with a newline and the storyboard header, and ends with a newline and four spaces |
| `AppReport.ReportInOrder` | App.tsx:66-84 | the report holds, in this order: the attack vector, the threat actor, the summary, the storyboard header, every step line in step order, then the sample logs, the flow diagram and the mitigation text, each directly after its header |
| `AppReport.ReportStoryboard` | App.tsx:73-74 | the storyboard header is followed directly by the step lines joined with single newlines, as one unbroken block of the report |
| `AppReport.CopyToClipboard` | App.tsx:64-87 | nothing is written when there is no scenario. Otherwise the written text opens with a newline and the storyboard title, ends with a newline and four spaces, holds the report's sections in order, and carries the storyboard header directly followed by the newline-joined step lines |

## Left out

- The remote calls themselves (`ai.models.generateContent`), the API key setup, the system instruction, the response schema sent to the service, the model names and the 16:9 aspect ratio. These belong to a foreign service. Its replies are inputs here.
- `JSON.parse`, `crypto.randomUUID` and `Date.now` are not modelled. They appear as the parameters `parse`, `uuid` and `now`.
- A JSON value of the wrong type, such as a number where a string is expected, is not modelled. The model only has a string or undefined.
- Extra fields a raw step carries through the spread are not modelled, since nothing reads them.
- A missing `response.candidates[0]` is folded into the failed-call case of `ImageReply`. The inline part's `mimeType` is not modelled, because the source ignores it.
- `alert`, `console.error` and `navigator.clipboard.writeText` are I/O. `CopyToClipboard` returns the text that would be written.
- All JSX rendering, and the step card component, are presentation only.
- Async interleaving of React state updates and the unguarded re-submission race are concurrency, so a run is one sequential pass. For the same reason, `Patch` requires the index to be in range whenever a scenario is present. Only a second run racing the first could break that.
- `GeminiService.UserPrompt` takes the difficulty as the closed `Complexity` type rather than a free string, because its only caller passes that enum.
