/**
 * The concrete cases the planner's unit tests pin down, proved of the model, and the
 * agreement between the preset table and the gcd reduction of explicit sizes.
 */
module PlannerExamples {
  import opened Wrappers
  import opened JsText
  import opened Euclid
  import opened CloudinaryTransforms

  const NoOptions := BuildOptions(None, None, None, None, None, None, None, None)

  /** `{ preset: "instagramSquare" }`: 1080 by 1080, "1:1", pad with the predominant
    * colour, and "auto"/"auto" encoding for the preview. */
  lemma InstagramSquarePlan()
    ensures BuildSocialShareTransforms(NoOptions.(preset := Some("instagramSquare")))
      == Ok(Transforms(1080, 1080, "1:1",
              [Geometry(1080, 1080, "pad", "auto", "auto:predominant"), Encoding("auto", "auto")],
              [Geometry(1080, 1080, "pad", "auto", "auto:predominant"), Encoding("png", "auto:best")]))
  {
  }

  /** `{ aspectRatio: "4:5" }`: the default baseWidth gives 1080 by 1350, and export
    * defaults to "png"/"auto:best". */
  lemma FourByFivePlan()
    ensures BuildSocialShareTransforms(NoOptions.(aspectRatio := Some("4:5")))
      == Ok(Transforms(1080, 1350, "4:5",
              [Geometry(1080, 1350, "pad", "auto", "auto:predominant"), Encoding("auto", "auto")],
              [Geometry(1080, 1350, "pad", "auto", "auto:predominant"), Encoding("png", "auto:best")]))
  {
    FourByFiveCanvas();
    assert ComputeDimensions(NoOptions.(aspectRatio := Some("4:5"))) == Ok(FormatSpec(1080, 1350, "4:5"));
  }

  lemma FourByFiveCanvas()
    ensures RatioDimensions("4:5", 1080) == Ok(FormatSpec(1080, 1350, "4:5"))
  {
    FourByFiveRead();
    var r := RatioDimensions("4:5", 1080);
    assert r.Ok? && r.value.width == 1080 && r.value.aspectRatio == "4:5";
    assert RoundsTo(1080 * 5, 4, 1350);
    RoundsToUnique(1080 * 5, 4, r.value.height, 1350);
  }

  lemma FourByFiveRead()
    ensures ParseAspectRatio("4:5") == Ok((4, 5)) && RatioText(4, 5) == "4:5"
  {
    assert Decimal(4) == "4" && Decimal(5) == "5";
    assert RatioText(4, 5) == "4:5";
    ParseRatioText(4, 5);
  }

  /** `{ preset: "twitterPost", aiBackgroundFill: true }`: 1200 by 675, "16:9", padded with
    * generative fill. */
  lemma TwitterPostAiPlan()
    ensures var r := BuildSocialShareTransforms(NoOptions.(preset := Some("twitterPost"), aiBackgroundFill := Some(true)));
      && r.Ok?
      && r.value.width == 1200 && r.value.height == 675 && r.value.aspectRatio == "16:9"
      && r.value.preview[0].background == "gen_fill" && r.value.preview[0].crop == "pad"
  {
  }

  /** `{ aspectRatio: "abc" }` is refused with a message that starts "Invalid aspect ratio". */
  lemma NonRatioRefused()
    ensures BuildSocialShareTransforms(NoOptions.(aspectRatio := Some("abc"))) == Err(InvalidAspectRatio("abc"))
    ensures "Invalid aspect ratio" <= Message(InvalidAspectRatio("abc"))
  {
    NonRatioRead();
    AspectRatioMessages("abc");
    var o := NoOptions.(aspectRatio := Some("abc"));
    assert !HasPreset(o) && !HasDimensions(o) && HasAspectRatio(o);
    RatioTextRefused(o);
  }

  lemma NonRatioRead()
    ensures ParseAspectRatio("abc") == Err(InvalidAspectRatio("abc"))
  {
    TrimOfTrimmed("abc");
    assert DigitRun("abc") == 0;
  }

  /** `{ aspectRatio: "0:5" }` matches the pattern but is refused for its zero width. */
  lemma ZeroComponentRefused()
    ensures BuildSocialShareTransforms(NoOptions.(aspectRatio := Some("0:5"))) == Err(InvalidAspectRatioNumbers("0:5"))
    ensures "Invalid aspect ratio" <= Message(InvalidAspectRatioNumbers("0:5"))
  {
    ZeroComponentRead();
    AspectRatioMessages("0:5");
    var o := NoOptions.(aspectRatio := Some("0:5"));
    assert !HasPreset(o) && !HasDimensions(o) && HasAspectRatio(o);
    RatioTextRefused(o);
  }

  lemma ZeroComponentRead()
    ensures ParseAspectRatio("0:5") == Err(InvalidAspectRatioNumbers("0:5"))
  {
    var m := RatioMatch("0", "", "", "5");
    assert Text(m) == "0:5";
    assert Reads(Text(m), m);
    assert DecimalValue("0") == 0;
    ParseMatched(m);
  }

  lemma ExplicitAs(w: int, h: int, g: nat, text: string)
    requires w > 0 && h > 0 && Gcd(w, h) == g && g > 0
    requires RatioText(w / g, h / g) == text
    ensures ExplicitDimensions(w, h) == Ok(FormatSpec(w, h, text))
  {
  }

  lemma SquareReduced()
    ensures ExplicitDimensions(1080, 1080) == Ok(FormatSpec(1080, 1080, "1:1"))
  {
    assert Gcd(1080, 1080) == 1080;
    assert Decimal(1) == "1";
    ExplicitAs(1080, 1080, 1080, "1:1");
  }

  lemma PortraitReduced()
    ensures ExplicitDimensions(1080, 1350) == Ok(FormatSpec(1080, 1350, "4:5"))
  {
    assert Gcd(1080, 1350) == 270;
    assert Decimal(4) == "4" && Decimal(5) == "5";
    ExplicitAs(1080, 1350, 270, "4:5");
  }

  lemma PostReduced()
    ensures ExplicitDimensions(1200, 675) == Ok(FormatSpec(1200, 675, "16:9"))
  {
    assert Gcd(1200, 675) == 75;
    assert Decimal(16) == "16" && Decimal(9) == "9";
    ExplicitAs(1200, 675, 75, "16:9");
  }

  lemma HeaderReduced()
    ensures ExplicitDimensions(1500, 500) == Ok(FormatSpec(1500, 500, "3:1"))
  {
    assert Gcd(1500, 500) == 500;
    assert Decimal(3) == "3" && Decimal(1) == "1";
    ExplicitAs(1500, 500, 500, "3:1");
  }

  lemma CoverReduced()
    ensures ExplicitDimensions(820, 312) == Ok(FormatSpec(820, 312, "205:78"))
  {
    assert Gcd(820, 312) == 4;
    CoverRatioText();
    ExplicitAs(820, 312, 4, "205:78");
  }

  lemma CoverRatioText()
    ensures RatioText(205, 78) == "205:78"
  {
    assert Decimal(2) == "2" && Decimal(7) == "7";
    assert Decimal(20) == "20";
    assert Decimal(205) == "205";
    assert Decimal(78) == "78";
  }

  /** Every preset's aspect ratio is the gcd-reduced ratio of its own width and height, so
    * a preset and the same size given explicitly plan the same canvas. */
  lemma PresetRatiosReduced(i: nat)
    requires i < |SocialPresets|
    ensures ExplicitDimensions(SocialPresets[i].1.width, SocialPresets[i].1.height) == Ok(SocialPresets[i].1)
  {
    var presets := SocialPresets;
    if i == 0 {
      assert presets[0].1 == FormatSpec(1080, 1080, "1:1");
      SquareReduced();
    } else if i == 1 {
      assert presets[1].1 == FormatSpec(1080, 1350, "4:5");
      PortraitReduced();
    } else if i == 2 {
      assert presets[2].1 == FormatSpec(1200, 675, "16:9");
      PostReduced();
    } else if i == 3 {
      assert presets[3].1 == FormatSpec(1500, 500, "3:1");
      HeaderReduced();
    } else {
      assert presets[4].1 == FormatSpec(820, 312, "205:78");
      CoverReduced();
    }
  }
}
