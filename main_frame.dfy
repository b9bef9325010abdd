/** The decisions CreateMainFrame makes: which subsystems to initialise, the
    video-mode flags and size it asks SDL for, whether it uses OpenGL, and
    when it gives up and returns null.  SDL's answers are parameters. */
module MainFrame {

  // Window flags requested by the application.  Display.h, which defines
  // them, is not part of this model: these are distinct single bits, which
  // is all the decisions below depend on.
  const WfFullScreen: bv32 := 0x01
  const WfResizable: bv32 := 0x04
  const WfHardware: bv32 := 0x08
  const WfVSync: bv32 := 0x10

  // SDL_Init subsystem flags (SDL 1.2).
  const SdlInitTimer: bv32 := 0x0000_0001
  const SdlInitAudio: bv32 := 0x0000_0010
  const SdlInitVideo: bv32 := 0x0000_0020
  const SdlInitJoystick: bv32 := 0x0000_0200

  // SDL_SetVideoMode flags (SDL 1.2).
  const SdlHwSurface: bv32 := 0x0000_0001
  const SdlOpenGL: bv32 := 0x0000_0002
  const SdlResizable: bv32 := 0x0000_0010
  const SdlDoubleBuf: bv32 := 0x4000_0000
  const SdlFullScreen: bv32 := 0x8000_0000

  /** The subsystems always initialised. */
  const BaseInit: bv32 := SdlInitVideo | SdlInitAudio | SdlInitTimer | SdlInitJoystick

  datatype GlAttribute = GlRedSize | GlGreenSize | GlBlueSize | GlDepthSize | GlDoubleBuffer | GlSwapControl

  /** One SDL_GL_SetAttribute call. */
  datatype GlSetting = GlSetting(attribute: GlAttribute, value: int)

  /** One SDL_SetVideoMode call. */
  datatype ModeRequest = ModeRequest(width: int, height: int, bpp: int, flags: bv32)

  /** What CreateMainFrame returns: null, in which case sgSDLFrame is left
      as it was, or a frame over the screen, also stored in sgSDLFrame, with
      its OpenGL flag, its final flags and the size requested for it. */
  datatype Frame = NoFrame | SdlFrame(isOpenGL: bool, flags: bv32, width: int, height: int)

  /** The SDL calls CreateMainFrame makes and what it returns. */
  datatype Creation = Creation(
    initFlags: bv32,            // the argument of SDL_Init
    glSettings: seq<GlSetting>, // SDL_GL_SetAttribute calls, in order
    modeCalls: seq<ModeRequest>,// SDL_SetVideoMode calls, in order
    frame: Frame)

  /** The attributes set before the OpenGL attempt, swap control only when
      vsync was requested. */
  function GlAttributes(vsync: bool): (gs: seq<GlSetting>)
    ensures (GlSetting(GlSwapControl, 1) in gs) <==> vsync
    ensures GlSetting(GlDoubleBuffer, 1) in gs && GlSetting(GlDepthSize, 32) in gs
  {
    [GlSetting(GlRedSize, 8), GlSetting(GlGreenSize, 8), GlSetting(GlBlueSize, 8),
     GlSetting(GlDepthSize, 32), GlSetting(GlDoubleBuffer, 1)]
    + (if vsync then [GlSetting(GlSwapControl, 1)] else [])
  }

  /** CreateMainFrame for the requested size and window flags, given whether
      SDL_Init succeeded, whether the OpenGL video mode was granted, and
      whether the fallback video mode was granted. */
  function CreateMainFrame(inWidth: int, inHeight: int, inFlags: bv32,
                           initOk: bool, glModeOk: bool, fallbackOk: bool): (c: Creation)
    // SDL_Init: the four subsystems, and SDL_OPENGL when hardware was asked for
    ensures c.initFlags == BaseInit | (if inFlags & WfHardware != 0 then SdlOpenGL else 0)
    ensures c.initFlags & BaseInit == BaseInit
    ensures (c.initFlags & SdlOpenGL != 0) <==> (inFlags & WfHardware != 0)
    // a failed SDL_Init returns null before any other call
    ensures !initOk ==> c.glSettings == [] && c.modeCalls == [] && c.frame == NoFrame
    ensures initOk ==> 1 <= |c.modeCalls| <= 2
  {
    var fullscreen := inFlags & WfFullScreen != 0;
    var opengl := inFlags & WfHardware != 0;
    var resizable := inFlags & WfResizable != 0;
    var initFlags := SdlInitVideo | SdlInitAudio | SdlInitTimer | (if opengl then SdlOpenGL else 0) | SdlInitJoystick;
    if !initOk then Creation(initFlags, [], [], NoFrame)
    else
      var flags := SdlHwSurface;
      var flags := if resizable then flags | SdlResizable else flags;
      var flags := if fullscreen then flags | SdlFullScreen else flags;
      var useW := if fullscreen then 0 else inWidth;
      var useH := if fullscreen then 0 else inHeight;
      if !opengl then
        var flags := flags | SdlDoubleBuf;
        Creation(initFlags, [], [ModeRequest(useW, useH, 32, flags)],
                 if fallbackOk then SdlFrame(false, flags, useW, useH) else NoFrame)
      else
        var gl := GlAttributes(inFlags & WfVSync != 0);
        var flags := flags | SdlOpenGL;
        var glCall := ModeRequest(useW, useH, 32, flags | SdlOpenGL);
        if glModeOk then
          Creation(initFlags, gl, [glCall], SdlFrame(true, flags, useW, useH))
        else
          var flags := (flags & !SdlOpenGL) | SdlDoubleBuf;
          Creation(initFlags, gl, [glCall, ModeRequest(useW, useH, 32, flags)],
                   if fallbackOk then SdlFrame(false, flags, useW, useH) else NoFrame)
  }

  /** Every video mode asked for is 0x0 when full screen and the requested
      size otherwise, 32 bits deep, a hardware surface, and resizable and
      full screen exactly as requested. */
  lemma RequestedModes(inWidth: int, inHeight: int, inFlags: bv32,
                       initOk: bool, glModeOk: bool, fallbackOk: bool)
    ensures forall call | call in CreateMainFrame(inWidth, inHeight, inFlags, initOk, glModeOk, fallbackOk).modeCalls ::
      && call.width == (if inFlags & WfFullScreen != 0 then 0 else inWidth)
      && call.height == (if inFlags & WfFullScreen != 0 then 0 else inHeight)
      && call.bpp == 32
      && call.flags & SdlHwSurface != 0
      && ((call.flags & SdlResizable != 0) <==> (inFlags & WfResizable != 0))
      && ((call.flags & SdlFullScreen != 0) <==> (inFlags & WfFullScreen != 0))
  {
  }

  /** With hardware requested, the GL attributes are set (swap control only
      for vsync) and the OpenGL mode is tried first; when it is refused the
      mode is asked for again without SDL_OPENGL and with SDL_DOUBLEBUF. */
  lemma HardwareFallback(inWidth: int, inHeight: int, inFlags: bv32,
                         initOk: bool, glModeOk: bool, fallbackOk: bool)
    requires initOk
    ensures var c := CreateMainFrame(inWidth, inHeight, inFlags, initOk, glModeOk, fallbackOk);
      && ((c.modeCalls[0].flags & SdlOpenGL != 0) <==> (inFlags & WfHardware != 0))
      && ((c.glSettings != []) <==> (inFlags & WfHardware != 0))
      && ((GlSetting(GlSwapControl, 1) in c.glSettings) <==>
          inFlags & WfHardware != 0 && inFlags & WfVSync != 0)
      && ((|c.modeCalls| == 2) <==> inFlags & WfHardware != 0 && !glModeOk)
      && (|c.modeCalls| == 2 ==>
          c.modeCalls[1].flags == (c.modeCalls[0].flags & !SdlOpenGL) | SdlDoubleBuf)
  {
  }

  /** A frame is made (and stored in sgSDLFrame) exactly when SDL_Init and one
      of the video modes succeed; it uses OpenGL exactly when hardware was
      asked for and the OpenGL mode was granted, and carries the flags of the
      mode that was granted and the size that was requested. */
  lemma FrameOutcome(inWidth: int, inHeight: int, inFlags: bv32,
                     initOk: bool, glModeOk: bool, fallbackOk: bool)
    ensures var c := CreateMainFrame(inWidth, inHeight, inFlags, initOk, glModeOk, fallbackOk);
      && (c.frame.SdlFrame? <==> initOk && ((inFlags & WfHardware != 0 && glModeOk) || fallbackOk))
      && (c.frame.SdlFrame? ==>
          && (c.frame.isOpenGL <==> inFlags & WfHardware != 0 && glModeOk)
          && c.modeCalls != []
          && c.frame.flags == c.modeCalls[|c.modeCalls| - 1].flags
          && c.frame.width == c.modeCalls[0].width && c.frame.height == c.modeCalls[0].height
          && (c.frame.isOpenGL <==> c.frame.flags & SdlOpenGL != 0)
          && (c.frame.isOpenGL <==> c.frame.flags & SdlDoubleBuf == 0))
  {
  }
}
