/**
 * Colour preparation of a result image for display: which conversion the declared
 * colour space selects, the in-place red/blue swap for RGB images, and the
 * diagnostic branch for an image whose channel count does not fit its space.
 * OpenCV's `cvtColor` is not part of this model: it is the parameter `cvt`.
 */
module Colors {
  import opened Options

  /** The colour spaces a stage can declare for its image. */
  datatype ColorSpace = Gray | Bgr | Rgb | Hls | HlsFull | Hsv | HsvFull

  /** The OpenCV conversion codes the panel uses, all towards BGR. */
  datatype ColorCode = Hls2Bgr | Hls2BgrFull | Hsv2Bgr | Hsv2BgrFull

  /** What the panel does to the copy of a result image before showing it. */
  datatype Conversion =
    | Unchanged        // shown as it is
    | SwapRedBlue      // channels 0 and 2 exchanged in place
    | CvtColor(code: ColorCode)
    | ChannelMismatch  // shown as it is, and the error log branch runs

  /** An OpenCV Mat: its channel count and its channel values, interleaved pixel by pixel. */
  datatype Image = Image(channels: nat, data: seq<int>)

  /** The colour switch of `updateAllEverything`. */
  function ConversionFor(trueColors: bool, space: Option<ColorSpace>, channels: nat): Conversion {
    if !trueColors || space.None? then Unchanged
    else if channels == 3 || space.value == Gray then
      match space.value
      case Gray => Unchanged
      case Bgr => Unchanged
      case Rgb => SwapRedBlue
      case Hls => CvtColor(Hls2Bgr)
      case HlsFull => CvtColor(Hls2BgrFull)
      case Hsv => CvtColor(Hsv2Bgr)
      case HsvFull => CvtColor(Hsv2BgrFull)
    else ChannelMismatch
  }

  /**
   * The channel values of a three-channel image with channels 0 and 2 of every pixel
   * exchanged and channel 1 kept. The swap is applied only to three-channel Mats,
   * whose data is whole pixels; the guard `i + 2 < |s|` only keeps the function
   * defined on every sequence.
   */
  function SwappedRedBlue(s: seq<int>): (r: seq<int>)
    ensures |r| == |s|
  {
    seq(|s|, i requires 0 <= i < |s| =>
      if i % 3 == 0 && i + 2 < |s| then s[i + 2]
      else if i % 3 == 2 then s[i - 2]
      else s[i])
  }

  /** The image shown for a conversion; a foreign conversion's pixels are whatever `cvt` yields. */
  function Normalized(img: Image, conv: Conversion, cvt: (ColorCode, seq<int>) -> seq<int>): Image {
    match conv
    case Unchanged => img
    case ChannelMismatch => img
    case SwapRedBlue => Image(img.channels, SwappedRedBlue(img.data))
    case CvtColor(code) => Image(img.channels, cvt(code, img.data))
  }

  /** `Core.extractChannel`/`insertChannel` on channels 0 and 2, in place. */
  method SwapChannels(a: array<int>)
    modifies a
    ensures a[..] == SwappedRedBlue(old(a[..]))
  {
    var i := 0;
    while i + 2 < a.Length
      invariant 0 <= i <= a.Length && i % 3 == 0
      invariant forall k :: 0 <= k < i ==> a[k] == SwappedRedBlue(old(a[..]))[k]
      invariant forall k :: i <= k < a.Length ==> a[k] == old(a[k])
      decreases a.Length - i
    {
      a[i], a[i + 2] := a[i + 2], a[i];
      i := i + 3;
    }
  }

  /**
   * The image preparation of `updateAllEverything`: clone the result image, then
   * convert the clone in place as its declared colour space asks. Reports whether
   * the channel-mismatch diagnostic is logged.
   */
  method PrepareImage(src: Image, trueColors: bool, space: Option<ColorSpace>,
                      cvt: (ColorCode, seq<int>) -> seq<int>)
    returns (shown: Image, mismatch: bool)
    ensures shown == Normalized(src, ConversionFor(trueColors, space, src.channels), cvt)
    ensures mismatch <==> ConversionFor(trueColors, space, src.channels) == ChannelMismatch
  {
    var image := new int[|src.data|](i requires 0 <= i < |src.data| => src.data[i]);
    assert image[..] == src.data;
    mismatch := false;
    if trueColors && space.Some? {
      if src.channels == 3 || space.value == Gray {
        match space.value
        case Gray =>
        case Bgr =>
        case Rgb =>
          SwapChannels(image);
        case Hls =>
          image := Converted(image, Hls2Bgr, cvt);
        case HlsFull =>
          image := Converted(image, Hls2BgrFull, cvt);
        case Hsv =>
          image := Converted(image, Hsv2Bgr, cvt);
        case HsvFull =>
          image := Converted(image, Hsv2BgrFull, cvt);
      } else {
        mismatch := true;
      }
    }
    shown := Image(src.channels, image[..]);
  }

  /**
   * `Imgproc.cvtColor(image, image, code)`: OpenCV replaces the Mat's buffer by the
   * conversion's output, so the result is a new buffer that the caller binds in place
   * of the old one.
   */
  method Converted(image: array<int>, code: ColorCode, cvt: (ColorCode, seq<int>) -> seq<int>)
    returns (converted: array<int>)
    ensures converted[..] == cvt(code, image[..])
  {
    var out := cvt(code, image[..]);
    converted := new int[|out|](i requires 0 <= i < |out| => out[i]);
  }

  // ---------------------------------------------------------------------------
  // Properties of the dispatch

  /** With true colours off or no declared space, nothing is converted. */
  lemma NoConversionWithoutTrueColors(trueColors: bool, space: Option<ColorSpace>, channels: nat)
    requires !trueColors || space.None?
    ensures ConversionFor(trueColors, space, channels) == Unchanged
  {
  }

  /**
   * The diagnostic branch runs exactly for a declared space other than Gray on an
   * image that does not have three channels.
   */
  lemma MismatchExactly(trueColors: bool, space: Option<ColorSpace>, channels: nat)
    ensures ConversionFor(trueColors, space, channels) == ChannelMismatch <==>
      trueColors && space.Some? && space.value != Gray && channels != 3
  {
  }

  /** Pixels are transformed only in three-channel images, by the conversion the space names. */
  lemma TransformsNeedThreeChannels(trueColors: bool, space: Option<ColorSpace>, channels: nat)
    ensures var c := ConversionFor(trueColors, space, channels);
      (c == SwapRedBlue <==> trueColors && space == Some(Rgb) && channels == 3) &&
      (c.CvtColor? ==> trueColors && channels == 3) &&
      (c == CvtColor(Hls2Bgr) <==> trueColors && space == Some(Hls) && channels == 3) &&
      (c == CvtColor(Hls2BgrFull) <==> trueColors && space == Some(HlsFull) && channels == 3) &&
      (c == CvtColor(Hsv2Bgr) <==> trueColors && space == Some(Hsv) && channels == 3) &&
      (c == CvtColor(Hsv2BgrFull) <==> trueColors && space == Some(HsvFull) && channels == 3)
  {
  }

  /** Gray (with any channel count) and BGR leave the shown image equal to the result image. */
  lemma GrayAndBgrAreIdentity(img: Image, trueColors: bool, space: Option<ColorSpace>,
                              cvt: (ColorCode, seq<int>) -> seq<int>)
    requires space == Some(Gray) || space == Some(Bgr)
    ensures Normalized(img, ConversionFor(trueColors, space, img.channels), cvt) == img
  {
  }

  /** An image in the diagnostic branch is shown as it is. */
  lemma MismatchLeavesImage(img: Image, trueColors: bool, space: Option<ColorSpace>,
                            cvt: (ColorCode, seq<int>) -> seq<int>)
    requires ConversionFor(trueColors, space, img.channels) == ChannelMismatch
    ensures Normalized(img, ConversionFor(trueColors, space, img.channels), cvt) == img
  {
  }

  // ---------------------------------------------------------------------------
  // Properties of the red/blue swap

  /** Pixel `k` of a three-channel buffer has its channels 0 and 2 exchanged and channel 1 kept. */
  lemma SwapPerPixel(s: seq<int>, k: nat)
    requires 3 * k + 2 < |s|
    ensures var r := SwappedRedBlue(s);
      r[3 * k] == s[3 * k + 2] && r[3 * k + 1] == s[3 * k + 1] && r[3 * k + 2] == s[3 * k]
  {
    assert (3 * k) % 3 == 0;
    assert (3 * k + 1) % 3 == 1;
    assert (3 * k + 2) % 3 == 2;
  }

  /** Swapping twice restores the buffer. */
  lemma SwapTwice(s: seq<int>)
    ensures SwappedRedBlue(SwappedRedBlue(s)) == s
  {
    var r := SwappedRedBlue(s);
    var rr := SwappedRedBlue(r);
    forall i | 0 <= i < |s|
      ensures rr[i] == s[i]
    {
      if i % 3 == 0 && i + 2 < |s| {
        assert (i + 2) % 3 == 2;
      } else if i % 3 == 2 {
        assert (i - 2) % 3 == 0;
      }
    }
  }
}
