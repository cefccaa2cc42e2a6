/**
  * The Cloudinary URL rewriting of src/components/OptimizedImage.tsx: a delivery URL gets a
  * transformation segment (format, quality, size and crop) inserted after `/upload/`, and
  * `srcset` lists the same image at five widths.
  */
module OptimizedImage {
  import opened Common
  import opened JsText

  /** A numeric prop that may be missing: `width?: number`, `height?: number`. Whole numbers only;
      `if (width)` is TruthyInt. */
  type Dimension = Option<int>

  predicate StartsWith(s: string, p: string) {
    |p| <= |s| && s[..|p|] == p
  }

  /** Some token of the list begins with `p`. */
  predicate HasToken(t: seq<string>, p: string) {
    exists k :: 0 <= k < |t| && StartsWith(t[k], p)
  }

  const Upload: string := "/upload/"

  /** The quality both helpers and the component fall back to when none is given. */
  const DefaultQuality: string := "auto:good"

  /** The tokens the crop rule adds: `c_fill,g_auto` for both sizes, `c_scale` for one, none for neither. */
  function Crop(width: Dimension, height: Dimension): (c: seq<string>)
    ensures TruthyInt(width) && TruthyInt(height) ==> c == ["c_fill", "g_auto"]
    ensures TruthyInt(width) != TruthyInt(height) ==> c == ["c_scale"]
    ensures !TruthyInt(width) && !TruthyInt(height) ==> c == []
  {
    if TruthyInt(width) && TruthyInt(height) then ["c_fill", "g_auto"]
    else if TruthyInt(width) || TruthyInt(height) then ["c_scale"]
    else []
  }

  function WidthToken(width: Dimension): seq<string> {
    if TruthyInt(width) then ["w_" + IntToString(width.value)] else []
  }

  function HeightToken(height: Dimension): seq<string> {
    if TruthyInt(height) then ["h_" + IntToString(height.value)] else []
  }

  /** The transformation list: format and quality first, then width, then height, then the crop mode. */
  function Transformations(quality: string, width: Dimension, height: Dimension): seq<string> {
    ["f_auto", "q_" + quality] + WidthToken(width) + HeightToken(height) + Crop(width, height)
  }

  /** The transformation list, built as the component builds it: two entries, then pushes. */
  method BuildTransformations(quality: string, width: Dimension, height: Dimension) returns (t: seq<string>)
    ensures t == Transformations(quality, width, height)
  {
    t := ["f_auto", "q_" + quality];
    if TruthyInt(width) {
      t := t + ["w_" + IntToString(width.value)];
    }
    if TruthyInt(height) {
      t := t + ["h_" + IntToString(height.value)];
    }
    if TruthyInt(width) && TruthyInt(height) {
      t := t + ["c_fill"];
      t := t + ["g_auto"];
    } else if TruthyInt(width) || TruthyInt(height) {
      t := t + ["c_scale"];
    }
  }

  /**
    * What the list holds: it opens with `f_auto` and `q_<quality>`; a `w_` token is there exactly
    * when the width is truthy and an `h_` token exactly when the height is, the width's first;
    * the crop tokens close it.
    */
  lemma TransformationsShape(quality: string, width: Dimension, height: Dimension)
    ensures var t := Transformations(quality, width, height);
            && |t| >= 2 && t[0] == "f_auto" && t[1] == "q_" + quality
            && (HasToken(t, "w_") <==> TruthyInt(width))
            && (HasToken(t, "h_") <==> TruthyInt(height))
            && (TruthyInt(width) ==> t[2] == "w_" + IntToString(width.value))
            && (TruthyInt(height) ==> t[if TruthyInt(width) then 3 else 2] == "h_" + IntToString(height.value))
            && t[|t| - |Crop(width, height)|..] == Crop(width, height)
            && |t| == 2 + |WidthToken(width)| + |HeightToken(height)| + |Crop(width, height)|
  {
    var t := Transformations(quality, width, height);
    var w := WidthToken(width);
    forall k | 0 <= k < |t|
      ensures StartsWith(t[k], "w_") <==> TruthyInt(width) && k == 2
      ensures StartsWith(t[k], "h_") <==> TruthyInt(height) && k == 2 + |w|
    {
      TokenAt(quality, width, height, k);
    }
    if TruthyInt(width) {
      TokenAt(quality, width, height, 2);
    }
    if TruthyInt(height) {
      TokenAt(quality, width, height, 2 + |w|);
    }
  }

  /** Which token sits at position `k` of the list: only the width's starts with `w_`, and only
      the height's with `h_`. */
  lemma TokenAt(quality: string, width: Dimension, height: Dimension, k: nat)
    requires k < |Transformations(quality, width, height)|
    ensures var t := Transformations(quality, width, height);
            var w := WidthToken(width);
            && (StartsWith(t[k], "w_") <==> TruthyInt(width) && k == 2)
            && (StartsWith(t[k], "h_") <==> TruthyInt(height) && k == 2 + |w|)
  {
    var t := Transformations(quality, width, height);
    var w := WidthToken(width);
    var h := HeightToken(height);
    var c := Crop(width, height);
    assert t == ["f_auto", "q_" + quality] + w + h + c;
    if k == 0 {
      assert t[k][..2] == "f_";
    } else if k == 1 {
      assert t[k][..2] == "q_";
    } else if k < 2 + |w| {
      assert t[k] == "w_" + IntToString(width.value);
      assert t[k][..2] == "w_";
    } else if k < 2 + |w| + |h| {
      assert t[k] == "h_" + IntToString(height.value);
      assert t[k][..2] == "h_";
    } else {
      assert t[k] == c[k - 2 - |w| - |h|];
      assert t[k][..2] == "c_" || t[k][..2] == "g_";
    }
  }

  /** `getOptimizedUrl(url, width, height, quality)`. */
  function GetOptimizedUrl(url: string, width: Dimension, height: Dimension, quality: string): (r: string)
    ensures !Includes(url, "cloudinary.com") ==> r == url
    ensures |Split(url, Upload)| != 2 ==> r == url
  {
    SecondHostTestRedundant(url);
    if !Includes(url, "cloudinary.com") && !Includes(url, "res.cloudinary.com") then url
    else
      var parts := Split(url, Upload);
      if |parts| != 2 then url
      else parts[0] + Upload + Join(Transformations(quality, width, height), ",") + "/" + parts[1]
  }

  /** The second test of the guard adds nothing: a URL that mentions `res.cloudinary.com`
      mentions `cloudinary.com`. */
  lemma SecondHostTestRedundant(url: string)
    ensures Includes(url, "res.cloudinary.com") ==> Includes(url, "cloudinary.com")
  {
    if Includes(url, "res.cloudinary.com") {
      assert "res.cloudinary.com"[4..] == "cloudinary.com";
      IncludesIff("res.cloudinary.com", "cloudinary.com", 4);
      IncludesTransitive(url, "res.cloudinary.com", "cloudinary.com");
    }
  }

  /**
    * A rewritten URL keeps the original around the insertion point: the URL is some prefix,
    * `/upload/` and a suffix, neither holding `/upload/`, and the result is that prefix,
    * `/upload/`, the comma-joined transformations, a slash and that suffix. Taking the
    * inserted segment out again gives the original URL back.
    */
  lemma OptimizedShape(url: string, width: Dimension, height: Dimension, quality: string)
    requires Includes(url, "cloudinary.com") && |Split(url, Upload)| == 2
    ensures exists prefix, suffix ::
              && url == prefix + Upload + suffix
              && !Includes(prefix, Upload) && !Includes(suffix, Upload)
              && GetOptimizedUrl(url, width, height, quality)
                 == prefix + Upload + Join(Transformations(quality, width, height), ",") + "/" + suffix
  {
    var parts := Split(url, Upload);
    SplitTwo(url, Upload);
    assert url == parts[0] + Upload + parts[1];
  }

  /** The widths of the `srcset`, ascending. */
  const SrcSetWidths: seq<int> := [320, 640, 960, 1280, 1920]

  /** One `srcset` entry: the URL at width `w` with no height, then ` <w>w`. */
  function SrcSetEntry(url: string, w: int, quality: string): string {
    GetOptimizedUrl(url, Some(w), None, quality) + " " + IntToString(w) + "w"
  }

  function SrcSetEntries(url: string, quality: string): (es: seq<string>)
    ensures |es| == |SrcSetWidths|
    ensures forall k :: 0 <= k < |es| ==> es[k] == SrcSetEntry(url, SrcSetWidths[k], quality)
  {
    seq(|SrcSetWidths|, k requires 0 <= k < |SrcSetWidths| => SrcSetEntry(url, SrcSetWidths[k], quality))
  }

  /** `getSrcSet(url, quality)`. */
  function GetSrcSet(url: string, quality: string): (r: string)
    ensures !Includes(url, "cloudinary.com") <==> r == ""
  {
    if !Includes(url, "cloudinary.com") then ""
    else Join(SrcSetEntries(url, quality), ", ")
  }

  /** For a Cloudinary URL the `srcset` joins five entries, one per width of the list, and the
      URL of each is scaled to its width alone. */
  lemma SrcSetShape(url: string, quality: string)
    requires Includes(url, "cloudinary.com")
    ensures GetSrcSet(url, quality) == Join(SrcSetEntries(url, quality), ", ")
    ensures |SrcSetEntries(url, quality)| == 5
    ensures forall k :: 0 <= k < 5 ==>
              Transformations(quality, Some(SrcSetWidths[k]), None)
              == ["f_auto", "q_" + quality, "w_" + IntToString(SrcSetWidths[k]), "c_scale"]
  {
    forall k | 0 <= k < 5
      ensures Transformations(quality, Some(SrcSetWidths[k]), None)
              == ["f_auto", "q_" + quality, "w_" + IntToString(SrcSetWidths[k]), "c_scale"]
    {
      WidthOnly(quality, SrcSetWidths[k]);
    }
  }

  /** A width without a height scales the image: format, quality, the width, then `c_scale`. */
  lemma WidthOnly(quality: string, w: int)
    requires w != 0
    ensures Transformations(quality, Some(w), None) == ["f_auto", "q_" + quality, "w_" + IntToString(w), "c_scale"]
  {
    assert WidthToken(Some(w)) == ["w_" + IntToString(w)];
  }
}
