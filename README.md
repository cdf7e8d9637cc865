# Social-share transform planner

This is a Dafny model of the part of the image-post application that picks the canvas
for a social-media share image and builds the image host's transformation steps for it.

- **Planner** (`convex/lib/cloudinaryTransforms.ts`, module `CloudinaryTransforms`).
  - A table of five platform presets.
  - A parser for `"W:H"` aspect-ratio text.
  - `computeDimensions`, which uses the first sizing mode present, in this order:
    1. a preset;
    2. an explicit width and height, whose ratio is reduced by its gcd;
    3. an aspect ratio, scaled from a base width of 1080 by default.
  - `buildSocialShareTransforms`, which returns a preview pipeline and an export
    pipeline. Each pipeline is a padding step followed by an encoding step.
- **Action** (`convex/socialShare.ts`, module `SocialShare`).
  - It requires a publicId and exactly one sizing mode, and checks the preset name.
  - It fills in defaults for AI fill, format and quality, then calls the planner.
  - It turns both step lists into URLs.
  - Any failure is rethrown with the prefix
    `"Failed to generate social-share transforms: "`.

The model has six modules:

- `Wrappers`: `Option` and `Result`.
- `JsText`: JavaScript's `trim`, the `\d` and `\s` character classes, `parseInt` on
  digit strings, and decimal rendering of numbers.
- `Euclid`: the gcd recursion and what it computes.
- `CloudinaryTransforms`: the planner.
- `SocialShare`: the action.
- `PlannerExamples`: the planner's test scenarios, as lemmas.

Each thrown error becomes the `Err` case of a `Result`, with the exact message text of
the source.

How the JavaScript is modelled:

- **Numbers** are mathematical integers, so zero and negative inputs follow the
  rejection paths they follow in the source. `Math.round(a / b)` is modelled by
  `RoundDiv`, which is specified by `RoundsTo`: the nearest integer, with halves
  rounded up.
- **Options.** Optional fields are `Option`. JavaScript truthiness of an optional
  string ("present and non-empty") is `Truthy`.
- **Spread defaults.** The `{ defaults, ...options }` spread is `GetOr` on each field.
  The action does pass explicit `undefined` values. The planner reads the spread fields
  only through truthiness and `??`, and both treat `undefined` like a missing field, so
  `GetOr` is exact for every caller.
- **URL building.** The image host's URL builder is out of reach, so the action takes
  it as a function parameter `url(publicId, steps)`. That function is assumed never to
  throw. In the source, a throw from `cloudinary.url` would be caught and rethrown with
  the same prefix as any other failure.

## Model

| member | source | states |
|---|---|---|
| CloudinaryTransforms.Message | convex/lib/cloudinaryTransforms.ts:44-97 | every planner error has its non-empty message text |
| CloudinaryTransforms.SocialPresets | convex/lib/cloudinaryTransforms.ts:4-10 | the five presets with their width, height and ratio text, in declaration order |
| CloudinaryTransforms.AspectRatioMessages | convex/lib/cloudinaryTransforms.ts:44-48 | both aspect-ratio errors start with "Invalid aspect ratio", which is what the invalid-ratio test matches |
| CloudinaryTransforms.Lookup | convex/lib/cloudinaryTransforms.ts:55 | a found entry is in the table under that key; a miss means no entry has the key |
| CloudinaryTransforms.Keys | convex/socialShare.ts:50 | the table's keys in table order (`Object.keys`) |
| CloudinaryTransforms.PresetDimensions | convex/lib/cloudinaryTransforms.ts:54-58 | a known preset yields its table entry; an unknown one fails with UnknownPreset and has no entry |
| CloudinaryTransforms.IsPresetKey | convex/socialShare.ts:49 | the own-key test of the corrected preset check: the name is one of the five table keys |
| CloudinaryTransforms.PresetKeysDistinct | convex/lib/cloudinaryTransforms.ts:4-10 | the five preset names are pairwise distinct |
| CloudinaryTransforms.PresetsExact | convex/lib/cloudinaryTransforms.ts:4-10 | looking up the i-th preset's name gives back exactly the i-th entry |
| CloudinaryTransforms.RoundDiv | convex/lib/cloudinaryTransforms.ts:78 | the result is the nearest integer to a/b, with halves rounded up (`Math.round`) |
| CloudinaryTransforms.RoundsToUnique | convex/lib/cloudinaryTransforms.ts:78 | at most one integer is the rounded quotient |
| CloudinaryTransforms.RatioText | convex/lib/cloudinaryTransforms.ts:79 | the `${w}:${h}` text is two digit runs around one colon, which `parseInt` reads back as w and h |
| CloudinaryTransforms.RatioTextIsText | convex/lib/cloudinaryTransforms.ts:79 | the rendered ratio is a match of the pattern with empty gaps |
| CloudinaryTransforms.MatchDigitsTail | convex/lib/cloudinaryTransforms.ts:43 | a match takes apart the text into whitespace and a non-empty digit run ending the text |
| CloudinaryTransforms.MatchColonTail | convex/lib/cloudinaryTransforms.ts:43 | a match takes apart the text into whitespace, a colon, whitespace and a final digit run |
| CloudinaryTransforms.MatchRatio | convex/lib/cloudinaryTransforms.ts:43 | a match reads the whole text as `^(\d+)\s*:\s*(\d+)$` |
| CloudinaryTransforms.ReadsSplit | convex/lib/cloudinaryTransforms.ts:43 | a digit prefix followed by a matched `\s*:\s*\d+` tail is a match of the whole pattern |
| CloudinaryTransforms.DigitRunOf | convex/lib/cloudinaryTransforms.ts:43 | greedy `\d+` stops exactly where a digit string is followed by a non-digit |
| CloudinaryTransforms.WhiteSpaceRunOf | convex/lib/cloudinaryTransforms.ts:43 | greedy `\s*` stops exactly where a whitespace string is followed by a non-space |
| CloudinaryTransforms.MatchDigitsTailComplete | convex/lib/cloudinaryTransforms.ts:43 | every text of the shape "spaces, digits" is matched with those parts |
| CloudinaryTransforms.MatchColonTailComplete | convex/lib/cloudinaryTransforms.ts:43 | every text of the shape "spaces : spaces digits" is matched with those parts |
| CloudinaryTransforms.MatchRatioComplete | convex/lib/cloudinaryTransforms.ts:43 | every text the regex describes is matched, with those groups |
| CloudinaryTransforms.MatchRatioUnique | convex/lib/cloudinaryTransforms.ts:43 | every way of reading the text as the pattern is the one the matcher finds, so the groups are unique |
| CloudinaryTransforms.ParseAspectRatio | convex/lib/cloudinaryTransforms.ts:42-51 | text that does not match after trimming fails with InvalidAspectRatio; a match with a zero component fails with InvalidAspectRatioNumbers; otherwise the result is the two positive group values; no other error arises |
| CloudinaryTransforms.ParseMatched | convex/lib/cloudinaryTransforms.ts:42-51 | a text of the shape `digits spaces : spaces digits` parses to its two numbers, or to the numbers error when one is zero |
| CloudinaryTransforms.TextTrimmed | convex/lib/cloudinaryTransforms.ts:43 | `trim` leaves a matched text unchanged, since it begins and ends with a digit |
| CloudinaryTransforms.TextEnds | convex/lib/cloudinaryTransforms.ts:43 | a matched text has no whitespace at either end |
| CloudinaryTransforms.ParseTrimsTo | convex/lib/cloudinaryTransforms.ts:42-51 | an input that trims to a matched text parses to its numbers, or to the numbers error naming the original input |
| CloudinaryTransforms.ParsePadded | convex/lib/cloudinaryTransforms.ts:43 | surrounding whitespace does not change what is parsed |
| CloudinaryTransforms.ParseRatioText | convex/lib/cloudinaryTransforms.ts:42-51 | rendering a positive pair as "W:H" and parsing it gives back the pair |
| CloudinaryTransforms.ExplicitDimensions | convex/lib/cloudinaryTransforms.ts:60-69 | succeeds exactly for positive width and height and keeps them; the ratio text re-parses to a coprime pair with the same proportion as width:height |
| CloudinaryTransforms.RatioDimensions | convex/lib/cloudinaryTransforms.ts:71-80 | parse errors pass through; a non-positive base width fails; otherwise the width is the base width, the height is the rounded base width × h / w, and the ratio text re-parses to the parsed pair |
| CloudinaryTransforms.ComputeDimensions | convex/lib/cloudinaryTransforms.ts:53-83 | fails with MissingTarget exactly when no sizing mode is present; a canvas it returns has positive width and non-negative height |
| CloudinaryTransforms.Truthy | convex/lib/cloudinaryTransforms.ts:54 | string truthiness: present and not the empty string |
| CloudinaryTransforms.HasDimensions | convex/lib/cloudinaryTransforms.ts:60 | the `typeof ... === "number"` test: both width and height are given |
| CloudinaryTransforms.PresetTakesPriority | convex/lib/cloudinaryTransforms.ts:54-58 | with a preset present, the other sizing fields make no difference |
| CloudinaryTransforms.DimensionsTakePriority | convex/lib/cloudinaryTransforms.ts:60-69 | without a preset, explicit width and height win over an aspect ratio |
| CloudinaryTransforms.RatioModeUsed | convex/lib/cloudinaryTransforms.ts:71-73 | with only an aspect ratio present, it decides the canvas, with the base width defaulting to 1080 |
| CloudinaryTransforms.RatioHeightCanBeZero | convex/lib/cloudinaryTransforms.ts:77-79 | "3:1" on base width 1 gives a canvas of height 0 |
| CloudinaryTransforms.RoundsToZero | convex/lib/cloudinaryTransforms.ts:78 | a quotient rounds to 0 exactly when twice the dividend is below the divisor |
| CloudinaryTransforms.RatioHeightZero | convex/lib/cloudinaryTransforms.ts:71-80 | the ratio mode's height is 0 exactly when 2 × base width × h < w |
| CloudinaryTransforms.BaseStep | convex/lib/cloudinaryTransforms.ts:102-108 | the base step pads to the canvas with automatic gravity, and uses a generative background with AI fill and the predominant colour otherwise |
| CloudinaryTransforms.BuildSocialShareTransforms | convex/lib/cloudinaryTransforms.ts:85-125 | sizing errors pass through; with AI fill on, a side below 10 fails with FillTooSmall; otherwise the canvas is the computed one and both pipelines are the base step plus an encoding step, preview defaulting to auto/auto and export to png/auto:best |
| CloudinaryTransforms.RatioTextRefused | convex/lib/cloudinaryTransforms.ts:71-72 | in aspect-ratio mode the planner fails with exactly the ratio reader's error |
| CloudinaryTransforms.AiFillNeedsRoom | convex/lib/cloudinaryTransforms.ts:96-98 | a successful plan with AI fill has both sides at least 10 |
| CloudinaryTransforms.CallerEncodingUnifiesPipelines | convex/lib/cloudinaryTransforms.ts:111-122 | when the caller gives both format and quality, preview and export are the same |
| CloudinaryTransforms.DefaultEncodingsDiffer | convex/lib/cloudinaryTransforms.ts:111-122 | when the caller gives neither, export encodes as png/auto:best and differs from preview |
| Euclid.GcdDivides | convex/lib/cloudinaryTransforms.ts:65 | the gcd recursion's result divides both arguments |
| Euclid.Gcd | convex/lib/cloudinaryTransforms.ts:65 | the inner gcd recursion; its result is positive whenever one argument is |
| Euclid.GcdGreatest | convex/lib/cloudinaryTransforms.ts:65 | every common divisor divides the gcd recursion's result |
| Euclid.Reduced | convex/lib/cloudinaryTransforms.ts:65-67 | for positive sides, dividing by the gcd gives positive coprime quotients with the original proportion |
| Wrappers.Option.GetOr | convex/lib/cloudinaryTransforms.ts:73 | `??`: the value when present, otherwise the default |
| JsText.TrimStart | convex/lib/cloudinaryTransforms.ts:43 | removes exactly the leading whitespace |
| JsText.IsWhiteSpace | convex/lib/cloudinaryTransforms.ts:43 | the `\s` class and the characters `trim` removes: exactly ECMAScript WhiteSpace plus LineTerminator |
| JsText.IsDigit | convex/lib/cloudinaryTransforms.ts:43 | `\d`: an ASCII decimal digit |
| JsText.TrimEnd | convex/lib/cloudinaryTransforms.ts:43 | removes exactly the trailing whitespace |
| JsText.Trim | convex/lib/cloudinaryTransforms.ts:43 | the result has no whitespace at either end and is no longer than the input |
| JsText.TrimPadded | convex/lib/cloudinaryTransforms.ts:43 | trimming whitespace-padded trimmed text gives back that text |
| JsText.TrimStartOf | convex/lib/cloudinaryTransforms.ts:43 | leading whitespace before a non-space start is what trimming removes |
| JsText.TrimEndOf | convex/lib/cloudinaryTransforms.ts:43 | trailing whitespace after a non-space end is what trimming removes |
| JsText.DigitRun | convex/lib/cloudinaryTransforms.ts:43 | the length of the longest all-digit prefix |
| JsText.WhiteSpaceRun | convex/lib/cloudinaryTransforms.ts:43 | the length of the longest all-whitespace prefix |
| JsText.DecimalValue | convex/lib/cloudinaryTransforms.ts:45-46 | `parseInt` of a digit string; it is 0 exactly when every digit is 0 |
| JsText.Decimal | convex/lib/cloudinaryTransforms.ts:67 | renders a number as non-empty digits that `parseInt` reads back as the number; a leading zero only in "0" itself |
| PlannerExamples.InstagramSquarePlan | convex/__tests__/cloudinaryTransforms.test.ts:5-24 | the square preset plans 1080×1080 "1:1" with a predominant-colour pad and auto/auto preview |
| PlannerExamples.FourByFivePlan | convex/__tests__/cloudinaryTransforms.test.ts:26-44 | "4:5" plans 1080×1350 and exports as png/auto:best |
| PlannerExamples.FourByFiveCanvas | convex/lib/cloudinaryTransforms.ts:71-80 | "4:5" on base width 1080 gives 1080×1350 |
| PlannerExamples.FourByFiveRead | convex/lib/cloudinaryTransforms.ts:42-51 | "4:5" parses to (4, 5) |
| PlannerExamples.TwitterPostAiPlan | convex/__tests__/cloudinaryTransforms.test.ts:46-55 | the Twitter post preset with AI fill plans 1200×675 "16:9" with a generative pad |
| PlannerExamples.NonRatioRefused | convex/__tests__/cloudinaryTransforms.test.ts:57-59 | "abc" is refused with an "Invalid aspect ratio" error |
| PlannerExamples.NonRatioRead | convex/lib/cloudinaryTransforms.ts:43-44 | "abc" does not match the pattern |
| PlannerExamples.ZeroComponentRefused | convex/lib/cloudinaryTransforms.ts:47-49 | "0:5" is refused with the numbers error, which also starts "Invalid aspect ratio" |
| PlannerExamples.ZeroComponentRead | convex/lib/cloudinaryTransforms.ts:45-49 | "0:5" matches but is refused for its zero width |
| PlannerExamples.ExplicitAs | convex/lib/cloudinaryTransforms.ts:60-69 | a positive width and height whose gcd is g get the ratio text of their quotients by g |
| PlannerExamples.SquareReduced | convex/lib/cloudinaryTransforms.ts:5 | 1080×1080 reduces to "1:1" |
| PlannerExamples.PortraitReduced | convex/lib/cloudinaryTransforms.ts:6 | 1080×1350 reduces to "4:5" |
| PlannerExamples.PostReduced | convex/lib/cloudinaryTransforms.ts:7 | 1200×675 reduces to "16:9" |
| PlannerExamples.HeaderReduced | convex/lib/cloudinaryTransforms.ts:8 | 1500×500 reduces to "3:1" |
| PlannerExamples.CoverReduced | convex/lib/cloudinaryTransforms.ts:9 | 820×312 reduces to "205:78" |
| PlannerExamples.CoverRatioText | convex/lib/cloudinaryTransforms.ts:9 | 205 and 78 render as "205:78" |
| PlannerExamples.PresetRatiosReduced | convex/lib/cloudinaryTransforms.ts:4-10 | every preset's ratio text is what explicit sizing with the preset's width and height computes |
| SocialShare.ValidationMessage | convex/socialShare.ts:33-51 | every validation error has its non-empty message text |
| SocialShare.ValidPresetList | convex/socialShare.ts:50 | the five preset names in table order, separated by ", " |
| SocialShare.UnknownPresetMessageListsPresets | convex/socialShare.ts:49-51 | `Object.keys(...).join(", ")` is the constant list of all five presets in table order, and the unknown-preset message ends with it |
| JsText.Join | convex/socialShare.ts:50 | `join(", ")`: empty for no parts, starting with the first part and its separator, ending with the last part |
| SocialShare.ModeCount | convex/socialShare.ts:35-39 | the count is 0 exactly when no mode is present, 1 exactly when one is, and 3 exactly when all are |
| SocialShare.SumOfThree | convex/socialShare.ts:39 | the reduce over three flags is their sum |
| SocialShare.Sum | convex/socialShare.ts:35-39 | the `reduce` sum is 0 exactly when every flag is 0, and at most the number of 0/1 flags |
| SocialShare.Flag | convex/socialShare.ts:36-38 | a flag is 1 exactly when its test holds, else 0 |
| SocialShare.PlannerOptions | convex/socialShare.ts:54-63 | the sizing fields go through unchanged; AI fill, format and quality are always given, taking the caller's value or false, "auto", "auto" |
| SocialShare.CheckArgs | convex/socialShare.ts:32-52 | the checks in the source's order for any preset test: missing publicId, no mode, several modes, refused preset with its own error; what passes is the planner options |
| SocialShare.Validate | convex/socialShare.ts:32-63 | a missing publicId fails first; then no mode and several modes fail; a preset outside the table fails with UnknownPresetKey naming it; passes exactly with one mode and, when a preset is given, a known one; what passes has exactly one mode, a preset the planner resolves, the sizing fields unchanged and the defaults filled in |
| SocialShare.GenerateSocialShareTransforms | convex/socialShare.ts:28-88 | fails exactly when validation or the planner fails, with the prefixed message; otherwise returns both URLs built from the planner's step lists and its canvas |
| SocialShare.FailureMessage | convex/socialShare.ts:84-88 | the message of what the body throws is non-empty exactly when validation or the planner fails |
| SocialShare.UnknownPresetRefused | convex/socialShare.ts:48-52 | a request with one mode and a preset outside the table fails with the prefixed message listing the five presets |
| SocialShare.FailureMessageKept | convex/socialShare.ts:84-88 | the message behind the prefix is the original, non-empty message |
| SocialShare.ExportEncodingThroughHandler | convex/socialShare.ts:54-75 | through the action, export encodes as the caller's format and quality or auto/auto, so preview and export URLs are always equal |
| SocialShare.ValidatedModeIsUsed | convex/socialShare.ts:35-63 | after validation the planner uses the single mode present |
| SocialShare.SquarePresetRequest | convex/socialShare.ts:28-83 | a square-preset request returns a 1080×1080 "1:1" canvas |
| SocialShare.TwoModesRefused | convex/socialShare.ts:44-46 | a preset with an aspect ratio is refused with the several-modes message |
| SocialShare.ValidateAsWritten | convex/socialShare.ts:48-52 | whatever the own-key check accepts, the inherited-key check accepts the same way |
| SocialShare.InPresetsObject | convex/socialShare.ts:49 | the `in` test holds for every table key and every `Object.prototype` name, and for nothing else |
| SocialShare.InheritedPresetNameAccepted | convex/socialShare.ts:49 | "toString" passes the check as written but is no preset |

## Left out

- Floating point: fractional widths, `NaN`, `Infinity`, and precision above 2^53 in
  `parseInt` are not modelled, because numbers are integers here. So `Math.round(width)`
  in explicit sizing is the identity. The `Number.isFinite` tests reduce to the sign
  tests.
- Exponent notation: numbers of 10^21 and more, which JavaScript renders in exponent
  notation inside the ratio text, are not modelled.
- CloudinaryTransforms.PresetDimensions: looks up own table keys only. The source's
  `SOCIAL_PRESETS[key]` also finds `Object.prototype` members, and would return a
  canvas with undefined sides for such a key. The action's corrected check keeps these
  keys away from the planner (see Findings).
- Argument types: the TypeScript and Convex types are taken as given. A width given
  without a height, or a value of the wrong type, is only a missing mode here.
- SocialShare.GenerateSocialShareTransforms: is built on the corrected own-key check.
  For an `Object.prototype` name such as "toString" the model fails with the
  unknown-preset message. The source instead returns a result whose width, height and
  aspect ratio are undefined.
- The image host's `cloudinary.url` is a parameter, assumed never to throw. Its `secure`
  and `sign_url` options, the `cloudinary.config` call and the environment variables are
  not modelled.
- `console.error` logging in the action's catch block is not modelled. A thrown value
  that is not an `Error` cannot arise from the modelled code.
- The Convex `action` wrapper, argument validators and asynchrony are not modelled.
- `convex/media.ts` and the user-interface files are not part of this model.

## Findings

| source | as written | input that shows it | evidently intended | confidence | as-written member | corrected member |
|---|---|---|---|---|---|---|
| convex/socialShare.ts:49 | `args.preset in SOCIAL_PRESETS` also holds for names inherited from `Object.prototype` | preset "toString" | only the five table keys pass (own-property test) | high, not executed | SocialShare.InheritedPresetNameAccepted | SocialShare.Validate |
