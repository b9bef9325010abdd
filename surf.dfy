/** The two pieces of SDLSurf that compute something: the pixel format it
    reports and the arguments Clear passes to SDL_FillRect and SDL_MapRGBA. */
module Surf {

  /** SDL_SRCALPHA (SDL 1.2). */
  const SdlSrcAlpha: bv32 := 0x0001_0000

  datatype PixelFormat = PfXRGB | PfARGB

  /** SDLSurf::Format: ARGB exactly when the surface has per-pixel alpha. */
  function Format(surfaceFlags: bv32): (f: PixelFormat)
    ensures f == PfARGB <==> surfaceFlags & SdlSrcAlpha != 0
    ensures f == PfXRGB <==> surfaceFlags & SdlSrcAlpha == 0
  {
    if surfaceFlags & SdlSrcAlpha != 0 then PfARGB else PfXRGB
  }

  type Sint16 = x: int | -0x8000 <= x < 0x8000
  type Uint16 = x: int | 0 <= x < 0x1_0000

  /** C's conversion of an int to Sint16 (two's complement wrap-around). */
  function ToSint16(v: int): (r: Sint16)
    ensures -0x8000 <= v < 0x8000 ==> r == v
    ensures (r - v) % 0x1_0000 == 0
  {
    (v + 0x8000) % 0x1_0000 - 0x8000
  }

  /** C's conversion of an int to Uint16 (reduction modulo 2^16). */
  function ToUint16(v: int): (r: Uint16)
    ensures 0 <= v < 0x1_0000 ==> r == v
    ensures (r - v) % 0x1_0000 == 0
  {
    v % 0x1_0000
  }

  /** The application's rectangle, with int fields. */
  datatype Rect = Rect(x: int, y: int, w: int, h: int)

  /** SDL_Rect: Sint16 position, Uint16 extent. */
  datatype SdlRect = SdlRect(x: Sint16, y: Sint16, w: Uint16, h: Uint16)

  datatype Option<T> = None | Some(value: T)

  /** The arguments of SDL_FillRect and SDL_MapRGBA: the rectangle (None for
      the whole surface) and the colour's four Uint8 channels. */
  datatype FillArgs = FillArgs(rect: Option<SdlRect>, r: Uint8, g: Uint8, b: Uint8, a: Uint8)

  /** The field-by-field copy of a Rect into an SDL_Rect. */
  function ToSdlRect(rect: Rect): (sr: SdlRect)
    ensures -0x8000 <= rect.x < 0x8000 ==> sr.x == rect.x
    ensures -0x8000 <= rect.y < 0x8000 ==> sr.y == rect.y
    ensures 0 <= rect.w < 0x1_0000 ==> sr.w == rect.w
    ensures 0 <= rect.h < 0x1_0000 ==> sr.h == rect.h
  {
    SdlRect(ToSint16(rect.x), ToSint16(rect.y), ToUint16(rect.w), ToUint16(rect.h))
  }

  type Uint8 = x: int | 0 <= x < 0x100
  type Uint32 = x: int | 0 <= x < 0x1_0000_0000

  /** C's conversion of an unsigned value to a Uint8 parameter. */
  function ToUint8(v: nat): (b: Uint8)
    ensures v < 0x100 ==> b == v
    ensures (b - v) % 0x100 == 0
  {
    v % 0x100
  }

  /** SDLSurf::Clear's argument packing: a null rect selects the whole
      surface, and the 0xAARRGGBB colour is split into its channels, each
      shifted down and cut to its low byte as the Uint8 parameters of
      SDL_MapRGBA receive it. */
  function Clear(inColour: Uint32, inRect: Option<Rect>): (args: FillArgs)
    ensures args.rect.None? <==> inRect.None?
    ensures inRect.Some? ==> args.rect == Some(ToSdlRect(inRect.value))
    ensures args.r == (inColour / 0x1_0000) % 0x100
    ensures args.g == (inColour / 0x100) % 0x100
    ensures args.b == inColour % 0x100
    ensures args.a == inColour / 0x100_0000
  {
    var rect := match inRect
      case None => None
      case Some(r) => Some(ToSdlRect(r));
    FillArgs(rect, ToUint8(inColour / 0x1_0000), ToUint8(inColour / 0x100), ToUint8(inColour), ToUint8(inColour / 0x100_0000))
  }

  /** The 0xAARRGGBB colour made of four channels. */
  function PackArgb(r: Uint8, g: Uint8, b: Uint8, a: Uint8): (c: Uint32)
  {
    a * 0x100_0000 + r * 0x1_0000 + g * 0x100 + b
  }

  /** Clear loses nothing of the colour: its four channels make it up again. */
  lemma ClearChannelsRoundTrip(inColour: Uint32, inRect: Option<Rect>)
    ensures var args := Clear(inColour, inRect);
      PackArgb(args.r, args.g, args.b, args.a) == inColour
  {
    var args := Clear(inColour, inRect);
    var c := inColour;
    assert c == (c / 0x100) * 0x100 + args.b;
    assert c / 0x100 == (c / 0x1_0000) * 0x100 + args.g;
    assert c / 0x1_0000 == (c / 0x100_0000) * 0x100 + args.r;
    assert c / 0x1_0000 / 0x100 == c / 0x100_0000;
  }
}
