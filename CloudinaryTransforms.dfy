/**
 * The social-share transform planner: the closed table of social presets, the
 * "W:H" aspect-ratio reader, the three ways of sizing the target canvas, and the
 * preview and export step lists handed to the image host.
 */
module CloudinaryTransforms {
  import opened Wrappers
  import opened JsText
  import opened Euclid

  /** A target canvas: width and height in pixels and the aspect ratio as "W:H" text. */
  datatype FormatSpec = FormatSpec(width: int, height: int, aspectRatio: string)

  /** SOCIAL_PRESETS, in declaration order (the order `Object.keys` lists them in). */
  const SocialPresets: seq<(string, FormatSpec)> := [
    ("instagramSquare", FormatSpec(1080, 1080, "1:1")),
    ("instagramPortrait", FormatSpec(1080, 1350, "4:5")),
    ("twitterPost", FormatSpec(1200, 675, "16:9")),
    ("twitterHeader", FormatSpec(1500, 500, "3:1")),
    ("facebookCover", FormatSpec(820, 312, "205:78"))
  ]

  /** Width assumed in aspect-ratio mode when no baseWidth is given. */
  const DefaultBaseWidth := 1080

  /** Smallest width and height for which generative background fill is allowed. */
  const MinFillSize := 10

  /** Everything computeDimensions and buildSocialShareTransforms throw. */
  datatype Error =
    | UnknownPreset(key: string)
    | InvalidDimensions
    | InvalidAspectRatio(input: string)
    | InvalidAspectRatioNumbers(input: string)
    | InvalidBaseWidth
    | MissingTarget
    | FillTooSmall

  /** The `message` of the thrown `Error`. */
  function Message(e: Error): (m: string)
    ensures |m| > 0
  {
    match e
    case UnknownPreset(key) => "Unknown preset: " + key
    case InvalidDimensions => "Width and height must be positive numbers."
    case InvalidAspectRatio(input) =>
      "Invalid aspect ratio: \"" + input + "\". Expected \"W:H\" (e.g. 4:5)."
    case InvalidAspectRatioNumbers(input) =>
      "Invalid aspect ratio numbers in \"" + input + "\". Width and height must be positive integers."
    case InvalidBaseWidth => "baseWidth must be a positive number when using aspectRatio."
    case MissingTarget => "Provide either a preset, width & height, or an aspectRatio."
    case FillTooSmall => "AI background fill is not supported for very small dimensions (<10px)."
  }

  /** Both aspect-ratio messages begin with the words "Invalid aspect ratio". */
  lemma AspectRatioMessages(input: string)
    ensures "Invalid aspect ratio" <= Message(InvalidAspectRatio(input))
    ensures "Invalid aspect ratio" <= Message(InvalidAspectRatioNumbers(input))
  {
    var p := "Invalid aspect ratio";
    var a, b := "Invalid aspect ratio: \"", "Invalid aspect ratio numbers in \"";
    assert a[..|p|] == p && b[..|p|] == p;
    var ma, mb := Message(InvalidAspectRatio(input)), Message(InvalidAspectRatioNumbers(input));
    assert ma[..|p|] == a[..|p|];
    assert mb[..|p|] == b[..|p|];
  }

  /** BuildOptions: every field is optional. */
  datatype BuildOptions = BuildOptions(
    preset: Option<string>,
    width: Option<int>,
    height: Option<int>,
    aspectRatio: Option<string>,
    baseWidth: Option<int>,
    aiBackgroundFill: Option<bool>,
    format: Option<string>,
    quality: Option<string>)

  /** A transformation step. `Geometry` is the record with the keys width, height, crop,
    * gravity and background; `Encoding` the one with the keys fetch_format and quality. */
  datatype Step =
    | Geometry(width: int, height: int, crop: string, gravity: string, background: string)
    | Encoding(fetchFormat: string, quality: string)

  /** BuiltTransforms: the resolved canvas and the two step lists. */
  datatype Transforms = Transforms(
    width: int, height: int, aspectRatio: string, preview: seq<Step>, exportSteps: seq<Step>)

  // ---------------------------------------------------------------------------------
  // Presets

  /** `table[key]` on a table of distinct keys. */
  function Lookup(table: seq<(string, FormatSpec)>, key: string): (r: Option<FormatSpec>)
    ensures r.Some? ==> (key, r.value) in table
    ensures r.None? <==> forall i :: 0 <= i < |table| ==> table[i].0 != key
  {
    if table == [] then None
    else if table[0].0 == key then Some(table[0].1)
    else Lookup(table[1..], key)
  }

  /** The keys of a table, in order: `Object.keys`. */
  function Keys(table: seq<(string, FormatSpec)>): (ks: seq<string>)
    ensures |ks| == |table|
    ensures forall i :: 0 <= i < |table| ==> ks[i] == table[i].0
  {
    if table == [] then [] else [table[0].0] + Keys(table[1..])
  }

  /** `key` names one of the social presets. */
  predicate IsPresetKey(key: string)
  {
    Lookup(SocialPresets, key).Some?
  }

  /** Preset mode: exactly the table entry, or UnknownPreset for a name not in the table. */
  function PresetDimensions(key: string): (r: Result<FormatSpec, Error>)
    ensures r.Ok? ==> (key, r.value) in SocialPresets
    ensures r.Err? ==> r.error == UnknownPreset(key)
    ensures r.Err? ==> forall i :: 0 <= i < |SocialPresets| ==> SocialPresets[i].0 != key
    ensures r.Ok? ==> r.value.width > 0 && r.value.height > 0
  {
    match Lookup(SocialPresets, key)
    case Some(spec) => Ok(FormatSpec(spec.width, spec.height, spec.aspectRatio))
    case None => Err(UnknownPreset(key))
  }

  /** No two presets share a name, so each name selects one entry. */
  lemma PresetKeysDistinct()
    ensures forall i, j :: 0 <= i < j < |SocialPresets| ==> SocialPresets[i].0 != SocialPresets[j].0
  {
  }

  /** Every preset name yields its own table entry. */
  lemma PresetsExact(i: nat)
    requires i < |SocialPresets|
    ensures PresetDimensions(SocialPresets[i].0) == Ok(SocialPresets[i].1)
  {
    PresetKeysDistinct();
    var key := SocialPresets[i].0;
    var r := PresetDimensions(key);
    assert r.Ok?;
    assert (key, r.value) in SocialPresets;
  }

  // ---------------------------------------------------------------------------------
  // Math.round and number rendering

  /** `n` is `Math.round(a / b)`: the integer nearest to a / b, a half rounding up. */
  predicate RoundsTo(a: int, b: int, n: int)
  {
    b * (2 * n - 1) <= 2 * a < b * (2 * n + 1)
  }

  /** `Math.round(a / b)` for a non-negative `a` and a positive `b`. */
  function RoundDiv(a: nat, b: int): (n: nat)
    requires b > 0
    ensures RoundsTo(a, b, n)
  {
    var n := (2 * a + b) / (2 * b);
    assert 2 * a + b == (2 * b) * n + (2 * a + b) % (2 * b);
    assert b * (2 * n - 1) == (2 * b) * n - b && b * (2 * n + 1) == (2 * b) * n + b;
    n
  }

  /** Math.round picks exactly one integer. */
  lemma RoundsToUnique(a: int, b: int, m: int, n: int)
    requires b > 0 && RoundsTo(a, b, m) && RoundsTo(a, b, n)
    ensures m == n
  {
    assert b * (2 * n - 1) < b * (2 * m + 1);
    assert b * (2 * m - 1) < b * (2 * n + 1);
    assert b * (2 * (n - m) - 2) < 0 by {
      assert b * (2 * (n - m) - 2) == b * (2 * n - 1) - b * (2 * m + 1);
    }
    assert b * (2 * (m - n) - 2) < 0 by {
      assert b * (2 * (m - n) - 2) == b * (2 * m - 1) - b * (2 * n + 1);
    }
    ProductSign(b, 2 * (n - m) - 2);
    ProductSign(b, 2 * (m - n) - 2);
  }

  /** The text `${w}:${h}`: two runs of digits around one colon, which `parseInt`
    * reads back as `w` and `h`. */
  function RatioText(w: nat, h: nat): (s: string)
    ensures var k := |Decimal(w)|;
      && 0 < k < |s| - 1 && s[k] == ':'
      && AllDigits(s[..k]) && DecimalValue(s[..k]) == w
      && AllDigits(s[k + 1..]) && DecimalValue(s[k + 1..]) == h
  {
    var s := Decimal(w) + ":" + Decimal(h);
    assert s[..|Decimal(w)|] == Decimal(w);
    assert s[|Decimal(w)| + 1..] == Decimal(h);
    s
  }

  // ---------------------------------------------------------------------------------
  // parseAspectRatio

  /** The capture groups, and the whitespace between them, of `^(\d+)\s*:\s*(\d+)$`. */
  datatype RatioMatch = RatioMatch(w: string, gap1: string, gap2: string, h: string)

  /** The text `gap1 + ":" + gap2 + h`. */
  function ColonTail(gap1: string, gap2: string, h: string): string
  {
    gap1 + ([':'] + (gap2 + h))
  }

  /** The text a match covers. */
  function Text(m: RatioMatch): string
  {
    m.w + ColonTail(m.gap1, m.gap2, m.h)
  }

  /** `m` is a way of matching `t` against `^(\d+)\s*:\s*(\d+)$`. */
  predicate Reads(t: string, m: RatioMatch)
  {
    && t == Text(m)
    && |m.w| > 0 && AllDigits(m.w)
    && AllWhiteSpace(m.gap1) && AllWhiteSpace(m.gap2)
    && |m.h| > 0 && AllDigits(m.h)
  }

  /** The end of the pattern, `\s*(\d+)$`: whitespace, then digits up to the end. */
  function MatchDigitsTail(v: string): (r: Option<(string, string)>)
    ensures r.Some? ==> var (gap, h) := r.value;
      v == gap + h && AllWhiteSpace(gap) && |h| > 0 && AllDigits(h)
  {
    var k := WhiteSpaceRun(v);
    if k < |v| && AllDigits(v[k..]) then
      assert v == v[..k] + v[k..];
      Some((v[..k], v[k..]))
    else None
  }

  /** The middle of the pattern, `\s*:\s*(\d+)$`. */
  function MatchColonTail(u: string): (r: Option<(string, string, string)>)
    ensures r.Some? ==> var (gap1, gap2, h) := r.value;
      u == ColonTail(gap1, gap2, h) && AllWhiteSpace(gap1) && AllWhiteSpace(gap2)
      && |h| > 0 && AllDigits(h)
  {
    var j := WhiteSpaceRun(u);
    if j == |u| || u[j] != ':' then None
    else
      match MatchDigitsTail(u[j + 1..])
      case None => None
      case Some((gap2, h)) =>
        assert u == u[..j] + ([u[j]] + u[j + 1..]);
        Some((u[..j], gap2, h))
  }

  /** The regular-expression match: a greedy digit run, then the rest of the pattern. */
  function MatchRatio(t: string): (r: Option<RatioMatch>)
    ensures r.Some? ==> Reads(t, r.value)
  {
    var i := DigitRun(t);
    if i == 0 then None
    else
      match MatchColonTail(t[i..])
      case None => None
      case Some((gap1, gap2, h)) =>
        ReadsSplit(t, i, RatioMatch(t[..i], gap1, gap2, h));
        Some(RatioMatch(t[..i], gap1, gap2, h))
  }

  /** A digit prefix followed by a matched tail is a match of the whole text. */
  lemma ReadsSplit(t: string, i: nat, m: RatioMatch)
    requires 0 < i <= |t| && m.w == t[..i] && AllDigits(m.w)
    requires t[i..] == ColonTail(m.gap1, m.gap2, m.h)
    requires AllWhiteSpace(m.gap1) && AllWhiteSpace(m.gap2) && |m.h| > 0 && AllDigits(m.h)
    ensures Reads(t, m)
  {
    assert t == t[..i] + t[i..];
  }

  lemma {:induction false} DigitRunOf(a: string, rest: string)
    requires AllDigits(a) && (rest == [] || !IsDigit(rest[0]))
    ensures DigitRun(a + rest) == |a|
    decreases |a|
  {
    if a == [] {
      assert a + rest == rest;
    } else {
      assert (a + rest)[1..] == a[1..] + rest;
      DigitRunOf(a[1..], rest);
    }
  }

  lemma {:induction false} WhiteSpaceRunOf(a: string, rest: string)
    requires AllWhiteSpace(a) && (rest == [] || !IsWhiteSpace(rest[0]))
    ensures WhiteSpaceRun(a + rest) == |a|
    decreases |a|
  {
    if a == [] {
      assert a + rest == rest;
    } else {
      assert (a + rest)[1..] == a[1..] + rest;
      WhiteSpaceRunOf(a[1..], rest);
    }
  }

  lemma MatchDigitsTailComplete(gap: string, h: string)
    requires AllWhiteSpace(gap) && |h| > 0 && AllDigits(h)
    ensures MatchDigitsTail(gap + h) == Some((gap, h))
  {
    assert IsDigit(h[0]);
    WhiteSpaceRunOf(gap, h);
    var v := gap + h;
    assert v[..|gap|] == gap && v[|gap|..] == h;
  }

  lemma MatchColonTailComplete(gap1: string, gap2: string, h: string)
    requires AllWhiteSpace(gap1) && AllWhiteSpace(gap2) && |h| > 0 && AllDigits(h)
    ensures MatchColonTail(ColonTail(gap1, gap2, h)) == Some((gap1, gap2, h))
  {
    var u := ColonTail(gap1, gap2, h);
    WhiteSpaceRunOf(gap1, [':'] + (gap2 + h));
    var j := |gap1|;
    assert u[j] == ':';
    assert u[j + 1..] == gap2 + h;
    assert u[..j] == gap1;
    MatchDigitsTailComplete(gap2, h);
  }

  /** The match is unique: every way of matching `t` is the one MatchRatio finds. */
  lemma MatchRatioComplete(t: string, m: RatioMatch)
    requires Reads(t, m)
    ensures MatchRatio(t) == Some(m)
  {
    var tail := ColonTail(m.gap1, m.gap2, m.h);
    DigitRunOf(m.w, tail);
    assert t[..|m.w|] == m.w && t[|m.w|..] == tail;
    MatchColonTailComplete(m.gap1, m.gap2, m.h);
  }

  lemma MatchRatioUnique(t: string)
    ensures forall m :: Reads(t, m) ==> MatchRatio(t) == Some(m)
  {
    forall m | Reads(t, m) ensures MatchRatio(t) == Some(m) {
      MatchRatioComplete(t, m);
    }
  }

  /** parseAspectRatio: the trimmed input must match `^(\d+)\s*:\s*(\d+)$`, and both
    * numbers must be positive. Accepted exactly when some match has positive numbers,
    * which are then the result; an input that matches with a zero number is reported as
    * InvalidAspectRatioNumbers, one that does not match as InvalidAspectRatio. */
  function ParseAspectRatio(input: string): (r: Result<(int, int), Error>)
    ensures r.Ok? ==> r.value.0 > 0 && r.value.1 > 0
    ensures r.Ok? ==> exists m :: (Reads(Trim(input), m)
      && DecimalValue(m.w) == r.value.0 && DecimalValue(m.h) == r.value.1)
    ensures forall m :: Reads(Trim(input), m) ==>
      r == (if DecimalValue(m.w) > 0 && DecimalValue(m.h) > 0
            then Ok((DecimalValue(m.w), DecimalValue(m.h)))
            else Err(InvalidAspectRatioNumbers(input)))
    ensures (forall m :: !Reads(Trim(input), m)) ==> r == Err(InvalidAspectRatio(input))
    ensures r.Err? ==> r.error == InvalidAspectRatio(input) || r.error == InvalidAspectRatioNumbers(input)
  {
    MatchRatioUnique(Trim(input));
    match MatchRatio(Trim(input))
    case None => Err(InvalidAspectRatio(input))
    case Some(m) =>
      var w, h := DecimalValue(m.w), DecimalValue(m.h);
      if w <= 0 || h <= 0 then Err(InvalidAspectRatioNumbers(input)) else Ok((w, h))
  }

  /** A trimmed text of the form `digits ws* : ws* digits` is read as its two numbers. */
  lemma ParseMatched(m: RatioMatch)
    requires Reads(Text(m), m)
    ensures ParseAspectRatio(Text(m))
      == if DecimalValue(m.w) > 0 && DecimalValue(m.h) > 0
         then Ok((DecimalValue(m.w), DecimalValue(m.h)))
         else Err(InvalidAspectRatioNumbers(Text(m)))
  {
    TextTrimmed(m);
    ParseTrimsTo(Text(m), m);
  }

  /** An input that trims to a matched text is read as that text's two numbers. */
  lemma ParseTrimsTo(input: string, m: RatioMatch)
    requires Trim(input) == Text(m) && Reads(Text(m), m)
    ensures ParseAspectRatio(input)
      == if DecimalValue(m.w) > 0 && DecimalValue(m.h) > 0
         then Ok((DecimalValue(m.w), DecimalValue(m.h)))
         else Err(InvalidAspectRatioNumbers(input))
  {
    assert Reads(Trim(input), m);
  }

  /** A matched text begins and ends with a digit, so `trim` leaves it alone. */
  lemma TextTrimmed(m: RatioMatch)
    requires |m.w| > 0 && AllDigits(m.w) && |m.h| > 0 && AllDigits(m.h)
    ensures Trim(Text(m)) == Text(m)
  {
    TextEnds(m);
    TrimOfTrimmed(Text(m));
  }

  lemma TextEnds(m: RatioMatch)
    requires |m.w| > 0 && AllDigits(m.w) && |m.h| > 0 && AllDigits(m.h)
    ensures Trimmed(Text(m))
  {
    var core := Text(m);
    assert core[0] == m.w[0];
    assert core[|core| - 1] == m.h[|m.h| - 1];
    assert IsDigit(m.w[0]) && IsDigit(m.h[|m.h| - 1]);
  }

  /** Whitespace around such a text is ignored. */
  lemma ParsePadded(lead: string, m: RatioMatch, trail: string)
    requires AllWhiteSpace(lead) && AllWhiteSpace(trail)
    requires Reads(Text(m), m)
    ensures var input := lead + Text(m) + trail;
      ParseAspectRatio(input)
        == if DecimalValue(m.w) > 0 && DecimalValue(m.h) > 0
           then Ok((DecimalValue(m.w), DecimalValue(m.h)))
           else Err(InvalidAspectRatioNumbers(input))
  {
    var core := Text(m);
    assert core[0] == m.w[0] && core[|core| - 1] == m.h[|m.h| - 1];
    TrimPadded(lead, core, trail);
  }

  /** Reading back the text `${w}:${h}` of two positive numbers gives those numbers. */
  lemma ParseRatioText(w: nat, h: nat)
    requires w > 0 && h > 0
    ensures ParseAspectRatio(RatioText(w, h)) == Ok((w, h))
  {
    var m := RatioMatch(Decimal(w), "", "", Decimal(h));
    RatioTextIsText(w, h);
    ParseMatched(m);
  }

  lemma RatioTextIsText(w: nat, h: nat)
    ensures RatioText(w, h) == Text(RatioMatch(Decimal(w), "", "", Decimal(h)))
  {
  }

  // ---------------------------------------------------------------------------------
  // computeDimensions

  /** Explicit width and height: both must be positive; the aspect ratio is the
    * canonical text of the fraction W/H in lowest terms. */
  function ExplicitDimensions(width: int, height: int): (r: Result<FormatSpec, Error>)
    ensures r.Ok? <==> width > 0 && height > 0
    ensures r.Err? ==> r.error == InvalidDimensions
    ensures r.Ok? ==> r.value.width == width && r.value.height == height
    ensures r.Ok? ==> var ratio := ParseAspectRatio(r.value.aspectRatio);
      && ratio.Ok?
      && r.value.aspectRatio == RatioText(ratio.value.0, ratio.value.1)
      && ratio.value.0 * height == ratio.value.1 * width
      && Coprime(ratio.value.0, ratio.value.1)
  {
    if width <= 0 || height <= 0 then Err(InvalidDimensions)
    else
      var g := Gcd(width, height);
      Reduced(width, height);
      ParseRatioText(width / g, height / g);
      Ok(FormatSpec(width, height, RatioText(width / g, height / g)))
  }

  /** Aspect-ratio mode: the ratio is read first, then `baseWidth` must be positive. The
    * width is `baseWidth`, the height `Math.round(baseWidth * rh / rw)`, and the ratio is
    * written back as `${rw}:${rh}`, unreduced. */
  function RatioDimensions(input: string, baseWidth: int): (r: Result<FormatSpec, Error>)
    ensures ParseAspectRatio(input).Err? ==> r == Err(ParseAspectRatio(input).error)
    ensures ParseAspectRatio(input).Ok? ==> (r.Ok? <==> baseWidth > 0)
    ensures ParseAspectRatio(input).Ok? && r.Err? ==> r.error == InvalidBaseWidth
    ensures r.Ok? ==> var (rw, rh) := ParseAspectRatio(input).value;
      && r.value.width == baseWidth && r.value.height >= 0
      && RoundsTo(baseWidth * rh, rw, r.value.height)
      && r.value.aspectRatio == RatioText(rw, rh)
      && ParseAspectRatio(r.value.aspectRatio) == Ok((rw, rh))
  {
    match ParseAspectRatio(input)
    case Err(e) => Err(e)
    case Ok((rw, rh)) =>
      if baseWidth <= 0 then Err(InvalidBaseWidth)
      else
        ParseRatioText(rw, rh);
        ProductSign(baseWidth, rh);
        Ok(FormatSpec(baseWidth, RoundDiv(baseWidth * rh, rw), RatioText(rw, rh)))
  }

  /** A truthy string: present and not empty. */
  predicate Truthy(s: Option<string>)
  {
    s.Some? && s.value != ""
  }

  predicate HasPreset(o: BuildOptions)
  {
    Truthy(o.preset)
  }

  /** `typeof width === "number" && typeof height === "number"`. */
  predicate HasDimensions(o: BuildOptions)
  {
    o.width.Some? && o.height.Some?
  }

  predicate HasAspectRatio(o: BuildOptions)
  {
    Truthy(o.aspectRatio)
  }

  /** computeDimensions: the first sizing mode present, in the order preset, explicit
    * width and height, aspect ratio, decides; with none, MissingTarget. A computed canvas
    * always has a positive width. */
  function ComputeDimensions(o: BuildOptions): (r: Result<FormatSpec, Error>)
    ensures (r == Err(MissingTarget)) <==> !HasPreset(o) && !HasDimensions(o) && !HasAspectRatio(o)
    ensures r.Ok? ==> r.value.width > 0 && r.value.height >= 0
  {
    if HasPreset(o) then PresetDimensions(o.preset.value)
    else if HasDimensions(o) then ExplicitDimensions(o.width.value, o.height.value)
    else if HasAspectRatio(o) then RatioDimensions(o.aspectRatio.value, o.baseWidth.GetOr(DefaultBaseWidth))
    else Err(MissingTarget)
  }

  /** A preset makes every other sizing field irrelevant. */
  lemma PresetTakesPriority(o: BuildOptions)
    requires HasPreset(o)
    ensures ComputeDimensions(o) == PresetDimensions(o.preset.value)
    ensures ComputeDimensions(o)
      == ComputeDimensions(o.(width := None, height := None, aspectRatio := None, baseWidth := None))
  {
  }

  /** Without a preset, explicit width and height make the aspect-ratio fields irrelevant. */
  lemma DimensionsTakePriority(o: BuildOptions)
    requires !HasPreset(o) && HasDimensions(o)
    ensures ComputeDimensions(o) == ExplicitDimensions(o.width.value, o.height.value)
    ensures ComputeDimensions(o) == ComputeDimensions(o.(aspectRatio := None, baseWidth := None))
  {
  }

  /** With only an aspect ratio given, it decides the canvas, from baseWidth or 1080. */
  lemma RatioModeUsed(o: BuildOptions)
    requires !HasPreset(o) && !HasDimensions(o) && HasAspectRatio(o)
    ensures ComputeDimensions(o) == RatioDimensions(o.aspectRatio.value, o.baseWidth.GetOr(DefaultBaseWidth))
    ensures o.baseWidth.None? ==> ComputeDimensions(o) == RatioDimensions(o.aspectRatio.value, 1080)
  {
  }

  /** In aspect-ratio mode the height can round down to zero: baseWidth 1 with "3:1". */
  lemma RatioHeightCanBeZero()
    ensures RatioDimensions("3:1", 1) == Ok(FormatSpec(1, 0, "3:1"))
  {
    assert Decimal(3) == "3" && Decimal(1) == "1";
    assert RatioText(3, 1) == "3:1";
    ParseRatioText(3, 1);
    assert ParseAspectRatio("3:1") == Ok((3, 1));
    assert RoundDiv(1, 3) == 0;
  }

  /** Math.round(a / b) is zero exactly when a / b is below one half. */
  lemma RoundsToZero(a: int, b: int, n: int)
    requires a >= 0 && b > 0 && RoundsTo(a, b, n)
    ensures n == 0 <==> 2 * a < b
  {
    ProductSign(b, 2 * n - 1);
    ProductSign(b, 2 * n + 1);
    assert n == 0 ==> b * (2 * n + 1) == b;
  }

  /** In aspect-ratio mode the height is zero exactly when baseWidth * rh / rw < 1/2. */
  lemma RatioHeightZero(input: string, baseWidth: int)
    requires RatioDimensions(input, baseWidth).Ok?
    ensures var (rw, rh) := ParseAspectRatio(input).value;
      RatioDimensions(input, baseWidth).value.height == 0 <==> 2 * (baseWidth * rh) < rw
  {
    var (rw, rh) := ParseAspectRatio(input).value;
    ProductSign(baseWidth, rh);
    RoundsToZero(baseWidth * rh, rw, RatioDimensions(input, baseWidth).value.height);
  }

  // ---------------------------------------------------------------------------------
  // buildSocialShareTransforms

  /** The first step of both pipelines: pad into the canvas, auto gravity, and generative
    * fill or the predominant colour for the padding. */
  function BaseStep(width: int, height: int, aiFill: bool): (s: Step)
    ensures s.Geometry? && s.crop == "pad" && s.gravity == "auto"
    ensures s.width == width && s.height == height
    ensures s.background == (if aiFill then "gen_fill" else "auto:predominant")
  {
    Geometry(width, height, "pad", "auto", if aiFill then "gen_fill" else "auto:predominant")
  }

  /** buildSocialShareTransforms: the canvas of computeDimensions, refused for AI fill
    * below 10 pixels in either direction; then two step lists of two steps that share the
    * geometry step and differ only in the defaults of format and quality. */
  function BuildSocialShareTransforms(options: BuildOptions): (r: Result<Transforms, Error>)
    ensures ComputeDimensions(options).Err? ==> r == Err(ComputeDimensions(options).error)
    ensures ComputeDimensions(options).Ok? ==>
      var d := ComputeDimensions(options).value;
      && (r.Err? <==> options.aiBackgroundFill == Some(true) && (d.width < MinFillSize || d.height < MinFillSize))
      && (r.Err? ==> r.error == FillTooSmall)
      && (r.Ok? ==> r.value.width == d.width && r.value.height == d.height && r.value.aspectRatio == d.aspectRatio)
    ensures r.Ok? ==>
      && |r.value.preview| == 2 && |r.value.exportSteps| == 2
      && r.value.preview[0] == r.value.exportSteps[0]
      && r.value.preview[0] == BaseStep(r.value.width, r.value.height, options.aiBackgroundFill == Some(true))
      && r.value.preview[1] == Encoding(options.format.GetOr("auto"), options.quality.GetOr("auto"))
      && r.value.exportSteps[1] == Encoding(options.format.GetOr("png"), options.quality.GetOr("auto:best"))
  {
    // `{ aiBackgroundFill: false, format: "auto", quality: "auto", ...options }`: a field
    // that is missing or undefined in `options` ends up false or "auto".
    var aiFill := options.aiBackgroundFill.GetOr(false);
    match ComputeDimensions(options)
    case Err(e) => Err(e)
    case Ok(d) =>
      if aiFill && (d.width < MinFillSize || d.height < MinFillSize) then Err(FillTooSmall)
      else
        var base := BaseStep(d.width, d.height, aiFill);
        var preview := [base, Encoding(options.format.GetOr("auto"), options.quality.GetOr("auto"))];
        var exportSteps := [base, Encoding(options.format.GetOr("png"), options.quality.GetOr("auto:best"))];
        Ok(Transforms(d.width, d.height, d.aspectRatio, preview, exportSteps))
  }

  /** In aspect-ratio mode, text the ratio reader refuses is what the planner reports. */
  lemma RatioTextRefused(options: BuildOptions)
    requires !HasPreset(options) && !HasDimensions(options) && HasAspectRatio(options)
    requires ParseAspectRatio(options.aspectRatio.value).Err?
    ensures BuildSocialShareTransforms(options) == Err(ParseAspectRatio(options.aspectRatio.value).error)
  {
  }

  /** AI fill is only ever planned for a canvas of at least 10 by 10 pixels. */
  lemma AiFillNeedsRoom(options: BuildOptions)
    requires options.aiBackgroundFill == Some(true) && BuildSocialShareTransforms(options).Ok?
    ensures var t := BuildSocialShareTransforms(options).value;
      t.width >= MinFillSize && t.height >= MinFillSize && t.preview[0].background == "gen_fill"
  {
  }

  /** When the caller fixes both format and quality the two pipelines are identical. */
  lemma CallerEncodingUnifiesPipelines(options: BuildOptions)
    requires options.format.Some? && options.quality.Some?
    requires BuildSocialShareTransforms(options).Ok?
    ensures BuildSocialShareTransforms(options).value.preview == BuildSocialShareTransforms(options).value.exportSteps
  {
  }

  /** When the caller fixes neither, preview asks for "auto"/"auto" and export for
    * "png"/"auto:best": the pipelines differ only in their encoding step. */
  lemma DefaultEncodingsDiffer(options: BuildOptions)
    requires options.format.None? && options.quality.None?
    requires BuildSocialShareTransforms(options).Ok?
    ensures var t := BuildSocialShareTransforms(options).value;
      && t.preview[0] == t.exportSteps[0]
      && t.preview[1] == Encoding("auto", "auto")
      && t.exportSteps[1] == Encoding("png", "auto:best")
      && t.preview != t.exportSteps
  {
  }
}
