/**
 * `getCloudinaryUrl` of lib/cloudinary.ts: the delivery URL of an uploaded
 * image, with an optional resize transform in front of the public id.
 */
module Cloudinary {
  import opened Wrappers
  import opened Text

  datatype Crop = Fill | Fit | Scale

  function CropName(c: Crop): string {
    match c
    case Fill => "fill"
    case Fit => "fit"
    case Scale => "scale"
  }

  /** The `options` argument; every field may be left out. Dimensions are whole numbers. */
  datatype UrlOptions = UrlOptions(width: Option<int>, height: Option<int>, crop: Option<Crop>)

  /** A dimension counts only when it is truthy: given and not zero. */
  predicate Given(d: Option<int>) {
    d.Some? && d.value != 0
  }

  /** `transforms`: width, height, then the crop (default `fill`) when a dimension is given. */
  function Transforms(o: UrlOptions): (ts: seq<string>)
    ensures |ts| == 0 <==> !Given(o.width) && !Given(o.height)
    ensures |ts| > 0 ==> |ts| == (if Given(o.width) then 1 else 0) + (if Given(o.height) then 1 else 0) + 1
    ensures Given(o.width) ==> ts[0] == "w_" + IntToDecimal(o.width.value)
    ensures Given(o.height) ==> ts[if Given(o.width) then 1 else 0] == "h_" + IntToDecimal(o.height.value)
    ensures |ts| > 0 ==> ts[|ts| - 1] == "c_" + CropName(if o.crop.Some? then o.crop.value else Fill)
  {
    var crop := if o.crop.Some? then o.crop.value else Fill;
    (if Given(o.width) then ["w_" + IntToDecimal(o.width.value)] else [])
    + (if Given(o.height) then ["h_" + IntToDecimal(o.height.value)] else [])
    + (if Given(o.width) || Given(o.height) then ["c_" + CropName(crop)] else [])
  }

  /** `parts.join(sep)`. */
  function Join(parts: seq<string>, sep: char): string {
    if |parts| == 0 then ""
    else if |parts| == 1 then parts[0]
    else parts[0] + [sep] + Join(parts[1..], sep)
  }

  /** `s.split(sep)`: the pieces between separators, one more than there are separators. */
  function Split(s: string, sep: char): (r: seq<string>)
    ensures |r| > 0
    decreases |s|
  {
    var k := SkipWhile(s, c => c != sep, 0);
    if k == |s| then [s] else [s[..k]] + Split(s[k + 1..], sep)
  }

  /** Splitting a join gives the parts back when no part holds the separator. */
  lemma {:induction false} SplitJoin(parts: seq<string>, sep: char)
    requires |parts| > 0
    requires forall i :: 0 <= i < |parts| ==> sep !in parts[i]
    ensures Split(Join(parts, sep), sep) == parts
    decreases |parts|
  {
    var s := Join(parts, sep);
    var k := SkipWhile(s, c => c != sep, 0);
    if |parts| == 1 {
      assert forall i :: 0 <= i < |s| ==> s[i] in parts[0];
    } else {
      var p := parts[0];
      var rest := Join(parts[1..], sep);
      assert s == p + [sep] + rest;
      assert forall i :: 0 <= i < |p| ==> s[i] == p[i] && s[i] != sep;
      assert s[|p|] == sep;
      assert k == |p|;
      assert s[..k] == p;
      assert s[k + 1..] == rest;
      SplitJoin(parts[1..], sep);
    }
  }

  /** The transform segment: the joined transforms and a `/`, or nothing. */
  function Segment(o: UrlOptions): (seg: string)
    ensures seg == "" <==> !Given(o.width) && !Given(o.height)
    ensures seg != "" ==> seg[|seg| - 1] == '/'
  {
    var ts := Transforms(o);
    if |ts| > 0 then Join(ts, ',') + "/" else ""
  }

  const Prefix := "https://res.cloudinary.com/"
  const UploadPath := "/image/upload/"

  /** The cloud name from the environment; an unset variable is written `undefined`. */
  function CloudName(env: Option<string>): string {
    if env.Some? then env.value else "undefined"
  }

  /** `getCloudinaryUrl(publicId, options)`; `None` options behave like `{}`. */
  function Url(env: Option<string>, publicId: string, options: Option<UrlOptions>): (url: string)
    ensures var head := Prefix + CloudName(env) + UploadPath;
      && StartsWith(url, head)
      && |url| >= |head| + |publicId|
      && url[|url| - |publicId|..] == publicId
      && url[|head|..|url| - |publicId|] == Segment(options.GetOr(UrlOptions(None, None, None)))
  {
    var o := options.GetOr(UrlOptions(None, None, None));
    var head := Prefix + CloudName(env) + UploadPath;
    var url := head + Segment(o) + publicId;
    assert url[..|head|] == head;
    assert url[|head|..|url| - |publicId|] == Segment(o);
    url
  }

  /** No transform contains a comma: digits, a sign, letters and `_` only. */
  lemma TransformsCommaFree(o: UrlOptions)
    ensures forall i :: 0 <= i < |Transforms(o)| ==> ',' !in Transforms(o)[i]
  {
    var ts := Transforms(o);
    forall i | 0 <= i < |ts| ensures ',' !in ts[i] {
      if Given(o.width) && i == 0 {
        TaggedCommaFree("w_", o.width.value);
      } else if Given(o.height) && i == (if Given(o.width) then 1 else 0) {
        TaggedCommaFree("h_", o.height.value);
      } else {
        CropCommaFree(if o.crop.Some? then o.crop.value else Fill);
      }
    }
  }

  lemma CropCommaFree(crop: Crop)
    ensures ',' !in "c_" + CropName(crop)
  {
  }

  lemma TaggedCommaFree(tag: string, n: int)
    requires ',' !in tag
    ensures ',' !in tag + IntToDecimal(n)
  {
    DecimalCommaFree(n);
  }

  lemma DecimalCommaFree(i: int)
    ensures ',' !in IntToDecimal(i)
  {
    var s := IntToDecimal(i);
    var d := NatToDecimal(if i < 0 then -i else i);
    assert forall j :: 0 <= j < |d| ==> IsAsciiDigit(d[j]);
    if i < 0 {
      assert forall j :: 1 <= j < |s| ==> s[j] == d[j - 1];
    }
  }

  /**
   * The segment reads back as the transforms: drop the final `/` and split on
   * commas.
   */
  lemma SegmentRoundTrip(o: UrlOptions)
    requires Given(o.width) || Given(o.height)
    ensures var seg := Segment(o);
      Split(seg[..|seg| - 1], ',') == Transforms(o)
  {
    TransformsCommaFree(o);
    var ts := Transforms(o);
    assert (Join(ts, ',') + "/")[..|Join(ts, ',') + "/"| - 1] == Join(ts, ',');
    SplitJoin(ts, ',');
  }

  /** A zero width or height is the same as none, and a crop alone changes nothing. */
  lemma ZeroAndCropAloneIgnored(env: Option<string>, publicId: string, crop: Option<Crop>)
    ensures Url(env, publicId, Some(UrlOptions(Some(0), Some(0), crop))) == Url(env, publicId, None)
    ensures Url(env, publicId, Some(UrlOptions(None, None, crop))) == Prefix + CloudName(env) + UploadPath + publicId
  {
  }
}
