/**
 * The touch panel: the gesture byte of a touch report, the 12-bit touch
 * coordinates, and how an interrupt reaches the installed event handler
 * through the handler's chain of default methods.
 */
module TouchPanel {
  import opened Bits
  import opened Wrappers

  datatype Gesture =
    | NoGesture
    | SlideDown
    | SlideUp
    | SlideLeft
    | SlideRight
    | ClickSingle
    | ClickDouble
    | ClickLong

  /** The byte the panel reports for each gesture. */
  function GestureCode(g: Gesture): u8
  {
    match g
    case NoGesture => 0x00
    case SlideDown => 0x01
    case SlideUp => 0x02
    case SlideLeft => 0x03
    case SlideRight => 0x04
    case ClickSingle => 0x05
    case ClickDouble => 0x0B
    case ClickLong => 0x0C
  }

  /** The gesture for a reported byte; `None` where the conversion panics. */
  function GestureFromByte(b: u8): (g: Option<Gesture>)
    ensures g.Some? ==> GestureCode(g.value) == b
  {
    if b == 0x00 then Some(NoGesture)
    else if b == 0x01 then Some(SlideDown)
    else if b == 0x02 then Some(SlideUp)
    else if b == 0x03 then Some(SlideLeft)
    else if b == 0x04 then Some(SlideRight)
    else if b == 0x05 then Some(ClickSingle)
    else if b == 0x0B then Some(ClickDouble)
    else if b == 0x0C then Some(ClickLong)
    else None
  }

  /** Exactly the eight gesture codes are accepted, and each decodes to its own gesture. */
  lemma GestureBytes(b: u8, g: Gesture)
    ensures GestureFromByte(GestureCode(g)) == Some(g)
    ensures GestureFromByte(b).Some? <==> b <= 0x05 || b == 0x0B || b == 0x0C
  {
  }

  datatype TouchPoint = TouchPoint(x: u16, y: u16)

  /** A coordinate: the low nibble of the high byte shifted up by eight, OR-ed with the low byte. */
  function Coordinate(hi: u8, lo: u8): (v: u16)
    ensures v < 0x1000
    ensures v / 0x100 == hi % 0x10 && v % 0x100 == lo
  {
    assert Pow2(8) == 0x100 by {
      assert Pow2(4) == 0x10;
    }
    OrDisjoint(hi % 0x10, lo, 8);
    ByteSplit(lo, hi % 0x10);
    Or((hi % 0x10) * 0x100, lo)
  }

  /** The size of the report read from the panel. */
  const ReportSize := 63

  /** The touch point of a report: x from bytes 3 and 4, y from bytes 5 and 6. */
  function ReportPoint(report: seq<u8>): (p: TouchPoint)
    requires |report| == ReportSize
    ensures p.x < 0x1000 && p.y < 0x1000
  {
    TouchPoint(Coordinate(report[3], report[4]), Coordinate(report[5], report[6]))
  }

  /** The touch point depends on the low nibbles of bytes 3 and 5 and on bytes 4 and 6 only. */
  lemma ReportPointBytes(r1: seq<u8>, r2: seq<u8>)
    requires |r1| == ReportSize && |r2| == ReportSize
    ensures ReportPoint(r1) == ReportPoint(r2) <==>
      r1[3] % 0x10 == r2[3] % 0x10 && r1[4] == r2[4] && r1[5] % 0x10 == r2[5] % 0x10 && r1[6] == r2[6]
  {
    var p1, p2 := ReportPoint(r1), ReportPoint(r2);
    if p1 == p2 {
      assert p1.x / 0x100 == p2.x / 0x100 && p1.x % 0x100 == p2.x % 0x100;
      assert p1.y / 0x100 == p2.y / 0x100 && p1.y % 0x100 == p2.y % 0x100;
    }
    if r1[3] % 0x10 == r2[3] % 0x10 && r1[4] == r2[4] && r1[5] % 0x10 == r2[5] % 0x10 && r1[6] == r2[6] {
      assert p1.x == p1.x / 0x100 * 0x100 + p1.x % 0x100;
      assert p2.x == p2.x / 0x100 * 0x100 + p2.x % 0x100;
      assert p1.y == p1.y / 0x100 * 0x100 + p1.y % 0x100;
      assert p2.y == p2.y / 0x100 * 0x100 + p2.y % 0x100;
    }
  }

  /** The methods of an event handler. */
  datatype HandlerMethod =
    | OnSlideDown
    | OnSlideUp
    | OnSlideLeft
    | OnSlideRight
    | OnClickSingle
    | OnClickDouble
    | OnClickLong
    | OnSlide
    | OnClick
    | OnEvent

  /**
   * An event handler, given by the methods it implements itself; every
   * other method keeps its default body.
   */
  datatype Handler = Handler(overrides: set<HandlerMethod>)

  /** The method a default body forwards the touch point to; the default `on_event` does nothing. */
  function DefaultNext(m: HandlerMethod): Option<HandlerMethod>
  {
    match m
    case OnSlideDown => Some(OnSlide)
    case OnSlideUp => Some(OnSlide)
    case OnSlideLeft => Some(OnSlide)
    case OnSlideRight => Some(OnSlide)
    case OnClickSingle => Some(OnClick)
    case OnClickDouble => Some(OnSlide)
    case OnClickLong => Some(OnSlide)
    case OnSlide => Some(OnEvent)
    case OnClick => Some(OnEvent)
    case OnEvent => None
  }

  /** How far a method is from `on_event` along the default bodies. */
  function Depth(m: HandlerMethod): nat
  {
    if m == OnEvent then 0 else if m == OnSlide || m == OnClick then 1 else 2
  }

  /**
   * The handler methods entered when `m` is called, in order: default
   * bodies forward to the next method until one the handler implements,
   * or the default `on_event`, is reached.
   */
  function Chain(h: Handler, m: HandlerMethod): (cs: seq<HandlerMethod>)
    ensures 1 <= |cs| <= Depth(m) + 1 && cs[0] == m
    ensures cs[|cs| - 1] in h.overrides || cs[|cs| - 1] == OnEvent
    decreases Depth(m)
  {
    if m in h.overrides then [m]
    else
      match DefaultNext(m)
      case None => [m]
      case Some(next) => [m] + Chain(h, next)
  }

  /** Every method entered before the last keeps its default body and forwards to the next one. */
  lemma {:induction false} ChainLinks(h: Handler, m: HandlerMethod)
    ensures var cs := Chain(h, m);
      forall i :: 0 <= i < |cs| - 1 ==> cs[i] !in h.overrides && DefaultNext(cs[i]) == Some(cs[i + 1])
    decreases Depth(m)
  {
    var cs := Chain(h, m);
    if m !in h.overrides && DefaultNext(m).Some? {
      var next := DefaultNext(m).value;
      ChainLinks(h, next);
      assert cs == [m] + Chain(h, next);
    }
  }

  /** The handler method each gesture calls; no gesture calls `on_event` directly. */
  function GestureMethod(g: Gesture): HandlerMethod
  {
    match g
    case NoGesture => OnEvent
    case SlideDown => OnSlideDown
    case SlideUp => OnSlideUp
    case SlideLeft => OnSlideLeft
    case SlideRight => OnSlideRight
    case ClickSingle => OnClickSingle
    case ClickDouble => OnClickDouble
    case ClickLong => OnClickLong
  }

  /** A handler that implements nothing. */
  const NoOverrides := Handler({})

  /** A default body that forwards to `on_slide` ends, through it, at the default `on_event`. */
  lemma SlideRoute(m: HandlerMethod)
    requires DefaultNext(m) == Some(OnSlide)
    ensures Chain(NoOverrides, m) == [m, OnSlide, OnEvent]
  {
    assert Chain(NoOverrides, OnSlide) == [OnSlide] + Chain(NoOverrides, OnEvent);
    assert Chain(NoOverrides, m) == [m] + Chain(NoOverrides, OnSlide);
  }

  /** With only default bodies, every gesture ends at the default `on_event`, by the documented routes. */
  lemma DefaultChains()
    ensures Chain(NoOverrides, OnEvent) == [OnEvent]
    ensures Chain(NoOverrides, OnSlide) == [OnSlide, OnEvent]
    ensures Chain(NoOverrides, OnClick) == [OnClick, OnEvent]
    ensures Chain(NoOverrides, OnClickSingle) == [OnClickSingle, OnClick, OnEvent]
    ensures forall m :: m in {OnSlideDown, OnSlideUp, OnSlideLeft, OnSlideRight, OnClickDouble, OnClickLong} ==>
      Chain(NoOverrides, m) == [m, OnSlide, OnEvent]
  {
    assert Chain(NoOverrides, OnSlide) == [OnSlide] + Chain(NoOverrides, OnEvent);
    assert Chain(NoOverrides, OnClickSingle) == [OnClickSingle, OnClick, OnEvent] by {
      assert Chain(NoOverrides, OnClick) == [OnClick] + Chain(NoOverrides, OnEvent);
      assert Chain(NoOverrides, OnClickSingle) == [OnClickSingle] + Chain(NoOverrides, OnClick);
    }
    forall m | m in {OnSlideDown, OnSlideUp, OnSlideLeft, OnSlideRight, OnClickDouble, OnClickLong}
      ensures Chain(NoOverrides, m) == [m, OnSlide, OnEvent]
    {
      SlideRoute(m);
    }
  }

  /**
   * The most precise implemented method receives the point: the methods
   * entered are the start of the default route, cut at the first method the
   * handler implements (by the ensures of `Chain`, no earlier one is).
   */
  lemma {:induction false} ChainFollowsDefaultRoute(h: Handler, m: HandlerMethod)
    ensures |Chain(h, m)| <= |Chain(NoOverrides, m)|
    ensures Chain(h, m) == Chain(NoOverrides, m)[..|Chain(h, m)|]
    decreases Depth(m)
  {
    var c, d := Chain(h, m), Chain(NoOverrides, m);
    if m !in h.overrides && DefaultNext(m).Some? {
      var next := DefaultNext(m).value;
      ChainFollowsDefaultRoute(h, next);
      assert c == [m] + Chain(h, next);
      assert d == [m] + Chain(NoOverrides, next);
    }
  }

  /** What one interrupt does: the touch point read, and the handler methods entered, in order. */
  datatype Interrupt = Interrupt(point: TouchPoint, calls: seq<HandlerMethod>)

  /**
   * `handle_interrupt` on the 63-byte report read from the panel. An unknown
   * gesture byte panics (`Failure` with the byte), whether or not a handler
   * is installed; without a handler nothing is called.
   */
  function HandleInterrupt(handler: Option<Handler>, report: seq<u8>): (r: Result<Interrupt, u8>)
    requires |report| == ReportSize
    ensures r.Failure? <==> GestureFromByte(report[1]).None?
    ensures r.Failure? ==> r.error == report[1]
    ensures r.Success? ==> r.value.point == ReportPoint(report)
    ensures r.Success? ==> (r.value.calls == [] <==> handler.None?)
    ensures r.Success? && handler.Some? ==> r.value.calls[0] == GestureMethod(GestureFromByte(report[1]).value)
  {
    match GestureFromByte(report[1])
    case None => Failure(report[1])
    case Some(g) =>
      var point := ReportPoint(report);
      match handler
      case None => Success(Interrupt(point, []))
      case Some(h) => Success(Interrupt(point, Chain(h, GestureMethod(g))))
  }
}
