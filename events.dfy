/** Events seen by the SDL main loop: the native SDL events it reads from
    SDL's queue and the application events it hands to the frame. */
module Events {

  /** The native event types the loop distinguishes.  SdlUserEvent is what the
      poll timer's callback pushes; SdlOther stands for every type the switch
      in ProcessEvent has no case for (keys, buttons, joystick, ...). */
  datatype NativeEvent =
    | SdlQuit
    | SdlMouseMotion(x: int, y: int)
    | SdlVideoResize(w: int, h: int)
    | SdlUserEvent
    | SdlOther(kind: nat)

  /** The application events this adapter ever delivers to the frame. */
  datatype Event = Quit | MouseMove(x: int, y: int) | Poll | DestroyHandler

  /** The events ProcessEvent delivers for one native event: a quit becomes
      one Quit, a mouse motion one MouseMove with the same coordinates, and
      every other type (a resize, the timer's user event, anything unlisted)
      is dropped. */
  function Translate(ne: NativeEvent): (r: seq<Event>)
    ensures |r| <= 1
    ensures r == [Quit] <==> ne.SdlQuit?
    ensures ne.SdlMouseMotion? ==> r == [MouseMove(ne.x, ne.y)]
    ensures |r| == 1 && r[0].MouseMove? ==> ne == SdlMouseMotion(r[0].x, r[0].y)
    ensures r == [] <==> !(ne.SdlQuit? || ne.SdlMouseMotion?)
    ensures Poll !in r && DestroyHandler !in r
  {
    match ne
    case SdlQuit => [Quit]
    case SdlMouseMotion(x, y) => [MouseMove(x, y)]
    case SdlVideoResize(_, _) => []
    case _ => []
  }

  /** The events delivered for a sequence of native events, in order. */
  function TranslateAll(es: seq<NativeEvent>): (r: seq<Event>)
    ensures |r| <= |es|
    ensures Poll !in r && DestroyHandler !in r
  {
    if es == [] then [] else Translate(es[0]) + TranslateAll(es[1..])
  }

  /** Translation distributes over concatenation of event sequences. */
  lemma {:induction false} TranslateAllAppend(a: seq<NativeEvent>, b: seq<NativeEvent>)
    ensures TranslateAll(a + b) == TranslateAll(a) + TranslateAll(b)
  {
    if a != [] {
      assert (a + b)[0] == a[0];
      assert (a + b)[1..] == a[1..] + b;
      TranslateAllAppend(a[1..], b);
    } else {
      assert a + b == b;
    }
  }

  /** Number of occurrences of an event in a delivery record. */
  function Count(e: Event, es: seq<Event>): nat
  {
    multiset(es)[e]
  }
}
