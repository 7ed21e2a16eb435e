// PVideoInputDevice_Picture (src/devices/fakevideoinput.cpp): the video
// input that shows a still picture, or the program's logo bouncing up and
// down, when no camera is used. Pixel work (loading, filling, scaling,
// copying, colour conversion) is outside the model; what remains is which
// picture is open, where it is drawn and how the logo moves.

module FakeVideo {
  import opened Base

  const StaticPictureName := "StaticPicture"
  const MovingLogoName := "MovingLogo"
  const OnlyColourFormat := "RGB32"

  /** The side of the logo drawn in place of a missing picture, in pixels. */
  const LogoSize := 72
  /** How far from the top and bottom edges the logo turns, in pixels. */
  const BounceMargin := 10

  const MovingFrameRate := 12
  const StaticFrameRate := 1

  /** The loaded picture's size: what the model keeps of the pixbuf. */
  datatype Picture = Picture(width: nat, height: nat)

  const Logo := Picture(LogoSize, LogoSize)

  /** Where a frame draws the picture. */
  datatype Placement =
    | Centred(x: int, y: int)   // a still picture that fits
    | ScaledToFit               // a still picture shrunk to fit (floating point, not modelled)
    | LogoAt(x: int, y: int)    // the moving logo

  // ---- Fixed answers ----

  /** GetInputDeviceNames: the two pseudo-devices. */
  function InputDeviceNames(): (r: seq<string>)
    ensures |r| == 2 && r[0] == StaticPictureName && r[1] == MovingLogoName && r[0] != MovingLogoName
  {
    [StaticPictureName, MovingLogoName]
  }

  datatype SizeLimits = SizeLimits(minWidth: nat, minHeight: nat, maxWidth: nat, maxHeight: nat)

  /** GetFrameSizeLimits: from 10x10 to 1000x800. */
  function FrameSizeLimits(): (r: SizeLimits)
    ensures 0 < r.minWidth <= r.maxWidth && 0 < r.minHeight <= r.maxHeight
    ensures r.minWidth == 10 && r.minHeight == 10 && r.maxWidth == 1000 && r.maxHeight == 800
  {
    SizeLimits(10, 10, 1000, 800)
  }

  datatype PictureParameters = PictureParameters(whiteness: int, brightness: int, colour: int, contrast: int, hue: int)

  /** GetParameters: every picture parameter reads 0. */
  function Parameters(): (r: PictureParameters)
    ensures r.whiteness == 0 && r.brightness == 0 && r.colour == 0 && r.contrast == 0 && r.hue == 0
  {
    PictureParameters(0, 0, 0, 0, 0)
  }

  /** GetNumChannels: a single channel. */
  function NumChannels(): (r: int)
    ensures r == 1
  {
    1
  }

  /** SetChannel: every channel number is accepted. */
  function SetChannel(newChannel: int): (r: bool)
    ensures r
  {
    true
  }

  // ---- Placement ----

  /** `a - b` on 32-bit unsigned operands, as the C++ computes `width - orig_width`. */
  function UnsignedDiff(a: nat, b: nat): (r: nat)
    ensures r < 0x1_0000_0000
    ensures b <= a < 0x1_0000_0000 ==> r == a - b
  {
    (a - b) % 0x1_0000_0000
  }

  /** The offset that centres `inner` pixels in `outer`. */
  function CentreOffset(outer: nat, inner: nat): (r: int)
    ensures 0 <= r < 0x8000_0000
    ensures inner <= outer < 0x1_0000_0000 ==> 2 * r <= outer - inner <= 2 * r + 1
  {
    UnsignedDiff(outer, inner) / 2
  }

  /** Where a still picture goes in a frame of the given size. */
  function StaticPlacement(p: Picture, width: nat, height: nat): (r: Placement)
    ensures r.Centred? <==> p.width <= width && p.height <= height
    ensures r.Centred? && width < 0x1_0000_0000 && height < 0x1_0000_0000 ==>
      0 <= r.x && r.x + p.width <= width && 0 <= r.y && r.y + p.height <= height
  {
    if p.width <= width && p.height <= height then Centred(CentreOffset(width, p.width), CentreOffset(height, p.height))
    else ScaledToFit
  }

  // ---- The bounce ----

  /** The logo's vertical position and direction. */
  datatype Motion = Motion(pos: int, increment: int)

  /**
   * One frame of the moving logo in a frame `height` pixels high: the
   * position advances by the increment, which turns down past the lower
   * turning point and up above the upper one, the upper test winning.
   */
  function Bounce(m: Motion, height: int, logoHeight: int): (r: Motion)
    ensures r.pos == m.pos + m.increment
    ensures r.pos < BounceMargin ==> r.increment == 1
    ensures BounceMargin <= r.pos && r.pos > height - logoHeight - BounceMargin ==> r.increment == -1
    ensures BounceMargin <= r.pos <= height - logoHeight - BounceMargin ==> r.increment == m.increment
  {
    var pos := m.pos + m.increment;
    var inc := if pos > height - logoHeight - BounceMargin then -1 else m.increment;
    Motion(pos, if pos < BounceMargin then 1 else inc)
  }

  /** What the motion keeps: it moves one pixel a frame and never leaves the top, so the unsigned position never wraps. */
  predicate SaneMotion(m: Motion)
  {
    0 <= m.pos && (m.increment == 1 || m.increment == -1) && (m.increment == -1 ==> m.pos >= BounceMargin)
  }

  lemma BounceKeepsSane(m: Motion, height: int, logoHeight: int)
    requires SaneMotion(m)
    ensures SaneMotion(Bounce(m, height, logoHeight))
  {
  }

  /** The lowest position reached in frames whose lower turning point is `limit`. */
  function Lowest(limit: int): int
  {
    if limit + 1 > BounceMargin then limit + 1 else BounceMargin
  }

  /** For a fixed frame, the logo never goes more than one pixel past the lower turning point. */
  predicate WithinFrame(m: Motion, limit: int)
  {
    m.pos <= Lowest(limit) && (m.increment == 1 ==> m.pos <= Lowest(limit) - 1)
  }

  lemma BounceStaysWithinFrame(m: Motion, height: int, logoHeight: int)
    requires SaneMotion(m)
    requires WithinFrame(m, height - logoHeight - BounceMargin)
    ensures WithinFrame(Bounce(m, height, logoHeight), height - logoHeight - BounceMargin)
  {
  }

  /** The motion a new device starts with. */
  const StartMotion := Motion(0, 1)

  lemma StartMotionSane(height: int, logoHeight: int)
    ensures SaneMotion(StartMotion) && WithinFrame(StartMotion, height - logoHeight - BounceMargin)
  {
  }

  /** From a sane motion and a fixed frame, every later frame stays sane and in the frame. */
  lemma {:induction false} BounceForever(m: Motion, height: int, logoHeight: int, frames: nat)
    requires SaneMotion(m) && WithinFrame(m, height - logoHeight - BounceMargin)
    ensures SaneMotion(Bounced(m, height, logoHeight, frames))
    ensures WithinFrame(Bounced(m, height, logoHeight, frames), height - logoHeight - BounceMargin)
  {
    if frames > 0 {
      BounceForever(m, height, logoHeight, frames - 1);
      BounceKeepsSane(Bounced(m, height, logoHeight, frames - 1), height, logoHeight);
      BounceStaysWithinFrame(Bounced(m, height, logoHeight, frames - 1), height, logoHeight);
    }
  }

  /** The motion after `frames` frames of the same size. */
  function Bounced(m: Motion, height: int, logoHeight: int, frames: nat): Motion
  {
    if frames == 0 then m else Bounce(Bounced(m, height, logoHeight, frames - 1), height, logoHeight)
  }

  // ---- The device ----

  class PictureDevice {
    /** The original pixbuf; the device is open exactly when it is loaded. */
    var picture: Option<Picture>
    /** Whether the frame buffer has been created. */
    var cached: bool
    var moving: bool
    var pos: int
    var increment: int
    var frameRate: nat
    var colourFormat: string

    function CurrentMotion(): Motion
      reads this
    {
      Motion(pos, increment)
    }

    /** IsOpen. */
    predicate IsOpen()
      reads this
    {
      picture.Some?
    }

    /**
     * The constructor: nothing loaded, logo at the top moving down, still.
     * Its SetFrameRate(12) runs while `moving` is false, so the rate is 1.
     */
    constructor (colourFormat: string)
      ensures !IsOpen() && !cached && !moving
      ensures CurrentMotion() == StartMotion
      ensures frameRate == StaticFrameRate
      ensures this.colourFormat == colourFormat
    {
      picture := None;
      cached := false;
      pos, increment := 0, 1;
      moving := false;
      this.colourFormat := colourFormat;
      frameRate := 0;
      new;
      var accepted := SetFrameRate(12);
    }

    /**
     * Open: `image` is the configured picture file as loaded (None when it
     * cannot be read), `iconLoads` whether the theme's logo loads. The
     * moving logo reports success even when its icon does not load.
     */
    method Open(name: string, image: Option<Picture>, iconLoads: bool) returns (ok: bool)
      modifies this`picture, this`moving
      ensures old(IsOpen()) ==> !ok && picture == old(picture) && moving == old(moving)
      ensures !old(IsOpen()) ==> moving == (name == MovingLogoName)
      ensures !old(IsOpen()) && name == MovingLogoName ==>
        ok && picture == (if iconLoads then Some(Logo) else None)
      ensures !old(IsOpen()) && name != MovingLogoName ==>
        picture == (if image.Some? then image else if iconLoads then Some(Logo) else None)
        && (ok <==> IsOpen())
    {
      if IsOpen() {
        return false;
      }
      if name == MovingLogoName {
        moving := true;
        if iconLoads {
          picture := Some(Logo);
        }
        return true;
      }
      moving := false;
      picture := None;
      picture := image;
      if picture.None? && iconLoads {
        picture := Some(Logo);
      }
      ok := picture.Some?;
    }

    /** Close: both pixbufs released. */
    method Close() returns (ok: bool)
      modifies this`picture, this`cached
      ensures ok && !IsOpen() && !cached
    {
      picture := None;
      cached := false;
      ok := true;
    }

    /** SetFrameRate: the requested rate is ignored — 12 frames a second for the logo, 1 for a picture. */
    method SetFrameRate(rate: nat) returns (ok: bool)
      modifies this`frameRate
      ensures ok
      ensures frameRate == (if moving then MovingFrameRate else StaticFrameRate)
    {
      if moving {
        frameRate := MovingFrameRate;
      } else {
        frameRate := StaticFrameRate;
      }
      ok := true;
    }

    /** SetColourFormat: only "RGB32"; `baseAccepts` is PVideoDevice's own answer for it. */
    method SetColourFormat(newFormat: string, baseAccepts: bool) returns (ok: bool)
      modifies this`colourFormat
      ensures ok <==> newFormat == OnlyColourFormat && baseAccepts
      ensures newFormat != OnlyColourFormat ==> colourFormat == old(colourFormat)
      ensures ok ==> colourFormat == OnlyColourFormat
    {
      if newFormat == OnlyColourFormat {
        if baseAccepts {
          colourFormat := newFormat;
        }
        return baseAccepts;
      }
      ok := false;
    }

    /**
     * GetFrameDataNoDelay for a frame of `width` x `height` pixels: nothing
     * without a picture; otherwise the frame buffer exists afterwards, a
     * still picture is centred (or scaled), and the logo is drawn
     * horizontally centred at the current position before it moves on.
     */
    method GetFrameDataNoDelay(width: nat, height: nat) returns (ok: bool, placed: Option<Placement>)
      modifies this`cached, this`pos, this`increment
      ensures ok <==> old(IsOpen())
      ensures !ok ==> placed == None && cached == old(cached) && CurrentMotion() == old(CurrentMotion())
      ensures ok ==> cached
      ensures ok && !moving ==> placed == Some(StaticPlacement(picture.value, width, height)) && CurrentMotion() == old(CurrentMotion())
      ensures ok && moving ==> (placed == Some(LogoAt(CentreOffset(width, picture.value.width), old(pos)))
                                && CurrentMotion() == Bounce(old(CurrentMotion()), height, picture.value.height))
    {
      if picture.None? {
        return false, None;
      }
      cached := true;
      var orig := picture.value;
      if !moving {
        if orig.width <= width && orig.height <= height {
          placed := Some(Centred(CentreOffset(width, orig.width), CentreOffset(height, orig.height)));
        } else {
          placed := Some(ScaledToFit);
        }
      } else {
        placed := Some(LogoAt(CentreOffset(width, orig.width), pos));
        pos := pos + increment;
        if pos > height - orig.height - BounceMargin {
          increment := -1;
        }
        if pos < BounceMargin {
          increment := 1;
        }
      }
      ok := true;
    }
  }
}
