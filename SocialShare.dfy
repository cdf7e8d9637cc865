/**
 * The `generateSocialShareTransforms` action: the checks it makes before calling the
 * planner, the defaults it fills in, its error wrapping, and how it hands the two step
 * lists to the image host's URL builder.
 */
module SocialShare {
  import opened Wrappers
  import opened JsText
  import opened CloudinaryTransforms

  /** The action's arguments. */
  datatype ShareArgs = ShareArgs(
    publicId: string,
    preset: Option<string>,
    width: Option<int>,
    height: Option<int>,
    aspectRatio: Option<string>,
    baseWidth: Option<int>,
    aiBackgroundFill: Option<bool>,
    format: Option<string>,
    quality: Option<string>)

  /** What the handler itself throws before the planner runs. */
  datatype ValidationError =
    | MissingPublicId
    | NoSizingMode
    | SeveralSizingModes
    | UnknownPresetKey(key: string)

  function ValidationMessage(e: ValidationError): (m: string)
    ensures |m| > 0
  {
    match e
    case MissingPublicId => "Missing required 'publicId'."
    case NoSizingMode => "Provide either 'preset', 'width & height', or 'aspectRatio'."
    case SeveralSizingModes =>
      "Provide only one of 'preset', 'width & height', or 'aspectRatio' (not multiple at once)."
    case UnknownPresetKey(key) =>
      "Unknown preset '" + key + "'. Valid presets: " + Join(Keys(SocialPresets), ", ")
  }

  /** The five preset names in table order, separated by ", ". */
  const ValidPresetList: string :=
    "instagramSquare" + (", " + ("instagramPortrait" + (", " + ("twitterPost"
    + (", " + ("twitterHeader" + (", " + "facebookCover")))))))

  /** The unknown-preset message names every preset, in table order, separated by ", ". */
  lemma UnknownPresetMessageListsPresets(key: string)
    ensures Join(Keys(SocialPresets), ", ") == ValidPresetList
    ensures ValidationMessage(UnknownPresetKey(key))
      == "Unknown preset '" + key + "'. Valid presets: " + ValidPresetList
  {
    var ks := Keys(SocialPresets);
    assert ks == ["instagramSquare", "instagramPortrait", "twitterPost", "twitterHeader", "facebookCover"];
    assert Join(ks[3..], ", ") == ks[3] + (", " + ks[4]) by { assert ks[3..][1..] == ks[4..]; }
    assert Join(ks[2..], ", ") == ks[2] + (", " + Join(ks[3..], ", ")) by { assert ks[2..][1..] == ks[3..]; }
    assert Join(ks[1..], ", ") == ks[1] + (", " + Join(ks[2..], ", ")) by { assert ks[1..][1..] == ks[2..]; }
    assert Join(ks, ", ")
      == ks[0] + (", " + (ks[1] + (", " + (ks[2] + (", " + (ks[3] + (", " + ks[4])))))));
  }

  // ---------------------------------------------------------------------------------
  // Counting the sizing modes

  /** `reduce((a, b) => a + b, 0)`. */
  function Sum(xs: seq<nat>): (n: nat)
    ensures n == 0 <==> forall i :: 0 <= i < |xs| ==> xs[i] == 0
    ensures (forall i :: 0 <= i < |xs| ==> xs[i] <= 1) ==> n <= |xs|
  {
    if xs == [] then 0 else Sum(xs[..|xs| - 1]) + xs[|xs| - 1]
  }

  /** `b ? 1 : 0`. */
  function Flag(b: bool): (n: nat)
    ensures n <= 1 && (n == 1 <==> b)
  {
    if b then 1 else 0
  }

  /** The number of sizing modes supplied: a truthy preset, both width and height, a
    * truthy aspect ratio. */
  function ModeCount(args: ShareArgs): (n: nat)
    ensures n <= 3
    ensures var p, d, a := Truthy(args.preset), args.width.Some? && args.height.Some?, Truthy(args.aspectRatio);
      && (n == 0 <==> !p && !d && !a)
      && (n == 1 <==> (p && !d && !a) || (!p && d && !a) || (!p && !d && a))
      && (n == 3 <==> p && d && a)
  {
    var flags := [
      Flag(Truthy(args.preset)),
      Flag(args.width.Some? && args.height.Some?),
      Flag(Truthy(args.aspectRatio))];
    SumOfThree(flags[0], flags[1], flags[2]);
    Sum(flags)
  }

  lemma SumOfThree(a: nat, b: nat, c: nat)
    ensures Sum([a, b, c]) == a + b + c
  {
    assert Sum([a]) == a by { assert [a][..0] == []; }
    assert Sum([a, b]) == a + b by { assert [a, b][..1] == [a]; }
    assert [a, b, c][..2] == [a, b];
  }

  /** Exactly one of the planner's three sizing modes is present. */
  predicate ExactlyOneMode(o: BuildOptions)
  {
    || (HasPreset(o) && !HasDimensions(o) && !HasAspectRatio(o))
    || (!HasPreset(o) && HasDimensions(o) && !HasAspectRatio(o))
    || (!HasPreset(o) && !HasDimensions(o) && HasAspectRatio(o))
  }

  // ---------------------------------------------------------------------------------
  // Validation

  /** The options passed on to the planner: the sizing fields as given, and the
    * defaults false, "auto" and "auto" for aiBackgroundFill, format and quality. */
  function PlannerOptions(args: ShareArgs): (o: BuildOptions)
    ensures o.preset == args.preset && o.width == args.width && o.height == args.height
    ensures o.aspectRatio == args.aspectRatio && o.baseWidth == args.baseWidth
    ensures o.aiBackgroundFill.Some? && o.format.Some? && o.quality.Some?
    ensures (o.aiBackgroundFill == Some(true)) == (args.aiBackgroundFill == Some(true))
    ensures args.format.Some? ==> o.format == args.format
    ensures args.quality.Some? ==> o.quality == args.quality
    ensures args.format.None? ==> o.format == Some("auto")
    ensures args.quality.None? ==> o.quality == Some("auto")
  {
    BuildOptions(
      args.preset, args.width, args.height, args.aspectRatio, args.baseWidth,
      Some(args.aiBackgroundFill.GetOr(false)),
      Some(args.format.GetOr("auto")),
      Some(args.quality.GetOr("auto")))
  }

  /** The checks of the handler in their order, with `known` deciding whether a preset
    * name is accepted. */
  function CheckArgs(args: ShareArgs, known: string -> bool): (r: Result<BuildOptions, ValidationError>)
    ensures args.publicId == "" ==> r == Err(MissingPublicId)
    ensures args.publicId != "" && ModeCount(args) == 0 ==> r == Err(NoSizingMode)
    ensures args.publicId != "" && ModeCount(args) > 1 ==> r == Err(SeveralSizingModes)
    ensures args.publicId != "" && ModeCount(args) == 1 && Truthy(args.preset) && !known(args.preset.value)
      ==> r == Err(UnknownPresetKey(args.preset.value))
    ensures r.Ok? <==>
      && args.publicId != "" && ModeCount(args) == 1
      && (Truthy(args.preset) ==> known(args.preset.value))
    ensures r.Ok? ==> r.value == PlannerOptions(args)
  {
    if args.publicId == "" then Err(MissingPublicId)
    else if ModeCount(args) == 0 then Err(NoSizingMode)
    else if ModeCount(args) > 1 then Err(SeveralSizingModes)
    else if Truthy(args.preset) && !known(args.preset.value) then Err(UnknownPresetKey(args.preset.value))
    else Ok(PlannerOptions(args))
  }

  /** The validation part of the handler. A missing publicId is reported before anything
    * else; then the request must name exactly one sizing mode, and a preset must be in
    * the table. What passes reaches the planner with exactly one mode, the sizing fields
    * unchanged, and aiBackgroundFill, format and quality filled in. */
  function Validate(args: ShareArgs): (r: Result<BuildOptions, ValidationError>)
    ensures args.publicId == "" ==> r == Err(MissingPublicId)
    ensures args.publicId != "" && ModeCount(args) == 0 ==> r == Err(NoSizingMode)
    ensures args.publicId != "" && ModeCount(args) > 1 ==> r == Err(SeveralSizingModes)
    ensures args.publicId != "" && ModeCount(args) == 1 && Truthy(args.preset) && !IsPresetKey(args.preset.value)
      ==> r == Err(UnknownPresetKey(args.preset.value))
    ensures r.Ok? <==>
      && args.publicId != "" && ModeCount(args) == 1
      && (Truthy(args.preset) ==> IsPresetKey(args.preset.value))
    ensures r.Ok? ==> ExactlyOneMode(r.value)
    ensures r.Ok? && HasPreset(r.value) ==> PresetDimensions(r.value.preset.value).Ok?
    ensures r.Ok? ==>
      && r.value.preset == args.preset && r.value.width == args.width && r.value.height == args.height
      && r.value.aspectRatio == args.aspectRatio && r.value.baseWidth == args.baseWidth
      && r.value.aiBackgroundFill == Some(args.aiBackgroundFill.GetOr(false))
      && r.value.format == Some(args.format.GetOr("auto"))
      && r.value.quality == Some(args.quality.GetOr("auto"))
  {
    CheckArgs(args, IsPresetKey)
  }

  // ---------------------------------------------------------------------------------
  // The handler

  const FailurePrefix := "Failed to generate social-share transforms: "

  /** What the action returns. */
  datatype ShareUrls = ShareUrls(
    previewUrl: string, exportUrl: string, width: int, height: int, aspectRatio: string)

  /** The `message` of whatever the handler's body throws. */
  function FailureMessage(args: ShareArgs): (m: string)
    ensures |m| > 0 <==> Validate(args).Err? || BuildSocialShareTransforms(Validate(args).value).Err?
  {
    match Validate(args)
    case Err(e) => ValidationMessage(e)
    case Ok(options) =>
      match BuildSocialShareTransforms(options)
      case Err(e) => Message(e)
      case Ok(_) => ""
  }

  /** generateSocialShareTransforms.handler. `url(publicId, steps)` stands for
    * `cloudinary.url(publicId, { transformation: steps, ... })`. Fails exactly when
    * validation or the planner fails, always with the prefixed original message;
    * otherwise the URLs are built from the planner's step lists as they are. */
  function GenerateSocialShareTransforms(args: ShareArgs, url: (string, seq<Step>) -> string)
    : (r: Result<ShareUrls, string>)
    ensures r.Err? <==> Validate(args).Err? || BuildSocialShareTransforms(Validate(args).value).Err?
    ensures r.Err? ==> r.error == FailurePrefix + FailureMessage(args)
    ensures r.Ok? ==> var t := BuildSocialShareTransforms(Validate(args).value).value;
      && r.value.previewUrl == url(args.publicId, t.preview)
      && r.value.exportUrl == url(args.publicId, t.exportSteps)
      && r.value.width == t.width && r.value.height == t.height && r.value.aspectRatio == t.aspectRatio
  {
    match Validate(args)
    case Err(e) => Err(FailurePrefix + ValidationMessage(e))
    case Ok(options) =>
      match BuildSocialShareTransforms(options)
      case Err(e) => Err(FailurePrefix + Message(e))
      case Ok(t) =>
        Ok(ShareUrls(url(args.publicId, t.preview), url(args.publicId, t.exportSteps),
                     t.width, t.height, t.aspectRatio))
  }

  /** No failure is swallowed: the message behind the prefix is never empty. */
  lemma FailureMessageKept(args: ShareArgs, url: (string, seq<Step>) -> string)
    requires GenerateSocialShareTransforms(args, url).Err?
    ensures var m := GenerateSocialShareTransforms(args, url).error;
      FailurePrefix <= m && |m| > |FailurePrefix| && m[|FailurePrefix|..] == FailureMessage(args)
  {
  }

  /** Because the handler always passes a format and a quality, export gets "auto"/"auto"
    * like preview unless the caller says otherwise; the two step lists, and so the two
    * URLs, are then always the same. */
  lemma ExportEncodingThroughHandler(args: ShareArgs, url: (string, seq<Step>) -> string)
    requires GenerateSocialShareTransforms(args, url).Ok?
    ensures var t := BuildSocialShareTransforms(Validate(args).value).value;
      && t.exportSteps[1] == Encoding(args.format.GetOr("auto"), args.quality.GetOr("auto"))
      && t.exportSteps == t.preview
    ensures GenerateSocialShareTransforms(args, url).value.previewUrl
      == GenerateSocialShareTransforms(args, url).value.exportUrl
  {
  }

  /** With exactly one mode present after validation, the planner's priority order never
    * decides anything: the single mode present is the one used. */
  lemma ValidatedModeIsUsed(args: ShareArgs)
    requires Validate(args).Ok?
    ensures var o := Validate(args).value;
      && (HasPreset(o) ==> ComputeDimensions(o) == PresetDimensions(o.preset.value))
      && (HasDimensions(o) ==> ComputeDimensions(o) == ExplicitDimensions(o.width.value, o.height.value))
      && (HasAspectRatio(o) ==>
            ComputeDimensions(o) == RatioDimensions(o.aspectRatio.value, o.baseWidth.GetOr(DefaultBaseWidth)))
  {
  }

  /** A request for the square preset yields the preset's canvas. */
  lemma SquarePresetRequest(url: (string, seq<Step>) -> string)
    ensures var r := GenerateSocialShareTransforms(
      ShareArgs("sample", Some("instagramSquare"), None, None, None, None, None, None, None), url);
      r.Ok? && r.value.width == 1080 && r.value.height == 1080 && r.value.aspectRatio == "1:1"
  {
    var args := ShareArgs("sample", Some("instagramSquare"), None, None, None, None, None, None, None);
    assert ModeCount(args) == 1;
    assert IsPresetKey("instagramSquare");
  }

  /** A preset together with an aspect ratio is refused before the planner runs. */
  lemma TwoModesRefused(url: (string, seq<Step>) -> string)
    ensures GenerateSocialShareTransforms(
      ShareArgs("sample", Some("twitterPost"), None, None, Some("4:5"), None, None, None, None), url)
      == Err(FailurePrefix + ValidationMessage(SeveralSizingModes))
  {
    var args := ShareArgs("sample", Some("twitterPost"), None, None, Some("4:5"), None, None, None, None);
    assert ModeCount(args) == 2;
  }

  /** A request naming a preset outside the table fails with the message that lists
    * the five valid presets. */
  lemma UnknownPresetRefused(args: ShareArgs, url: (string, seq<Step>) -> string)
    requires args.publicId != "" && ModeCount(args) == 1
    requires Truthy(args.preset) && !IsPresetKey(args.preset.value)
    ensures GenerateSocialShareTransforms(args, url)
      == Err(FailurePrefix + ("Unknown preset '" + args.preset.value + "'. Valid presets: " + ValidPresetList))
  {
    UnknownPresetMessageListsPresets(args.preset.value);
  }

  // ---------------------------------------------------------------------------------
  // The preset check as written

  /** The property names every plain object inherits from `Object.prototype`. */
  const ObjectPrototypeKeys: set<string> := {
    "constructor", "hasOwnProperty", "isPrototypeOf", "propertyIsEnumerable",
    "toLocaleString", "toString", "valueOf", "__proto__",
    "__defineGetter__", "__defineSetter__", "__lookupGetter__", "__lookupSetter__"
  }

  /** `key in SOCIAL_PRESETS`: the `in` operator also sees inherited properties. */
  predicate InPresetsObject(key: string): (b: bool)
    ensures IsPresetKey(key) ==> b
    ensures b && !IsPresetKey(key) ==> key in ObjectPrototypeKeys
    ensures key in ObjectPrototypeKeys ==> b
  {
    IsPresetKey(key) || key in ObjectPrototypeKeys
  }

  /** The validation with the membership test the handler actually uses. */
  function ValidateAsWritten(args: ShareArgs): (r: Result<BuildOptions, ValidationError>)
    ensures Validate(args).Ok? ==> r == Validate(args)
  {
    CheckArgs(args, InPresetsObject)
  }

  /** A request for the preset "toString" passes the check as written, although no such
    * preset exists: the planner then has no table entry to size the canvas from. */
  lemma InheritedPresetNameAccepted()
    ensures var args := ShareArgs("sample", Some("toString"), None, None, None, None, None, None, None);
      && ValidateAsWritten(args).Ok?
      && Validate(args) == Err(UnknownPresetKey("toString"))
      && PresetDimensions("toString") == Err(UnknownPreset("toString"))
  {
    var args := ShareArgs("sample", Some("toString"), None, None, None, None, None, None, None);
    assert ModeCount(args) == 1;
    assert !IsPresetKey("toString");
  }
}
