/** Screen and window size normalization: pages see one of five common display
    configurations, and window sizes derived from it. */
module Screen {
  import opened Ints

  datatype ScreenBucket = ScreenBucket(width: u32, height: u32, colorDepth: u8, devicePixelRatio: u8)

  /** The buckets, most common first: Full HD, HD, WXGA+, Full HD at 125% and a
      MacBook-like display. */
  const BUCKETS: seq<ScreenBucket> := [
    ScreenBucket(1920, 1080, 24, 1),
    ScreenBucket(1366, 768, 24, 1),
    ScreenBucket(1440, 900, 24, 1),
    ScreenBucket(1536, 864, 24, 1),
    ScreenBucket(1280, 800, 24, 2)]

  const I32_MAX: int := 0x7FFF_FFFF

  /** `ScreenBucket::random`: any bucket of the table. */
  method Random() returns (b: ScreenBucket)
    ensures b in BUCKETS
  {
    var idx :| 0 <= idx < |BUCKETS|;
    b := BUCKETS[idx];
  }

  function Abs(x: int): nat
  {
    if x < 0 then -x else x
  }

  /** The key of `nearest`: the L1 distance between a bucket and the actual size. */
  function Distance(b: ScreenBucket, w: int, h: int): nat
  {
    Abs(b.width - w) + Abs(b.height - h)
  }

  /** The key is computed in `i32`: the actual size must convert without wrapping
      and no distance may exceed `i32::MAX`. */
  predicate KeyFits(w: u32, h: u32)
  {
    w <= I32_MAX && h <= I32_MAX && forall b :: b in BUCKETS ==> Distance(b, w, h) <= I32_MAX
  }

  /** `min_by_key`: the index of the first element with the least key. The fold
      replaces its candidate only by a strictly smaller key. */
  function ArgMin(bs: seq<ScreenBucket>, w: int, h: int): (i: nat)
    requires |bs| > 0
    ensures i < |bs|
    ensures forall j :: 0 <= j < |bs| ==> Distance(bs[i], w, h) <= Distance(bs[j], w, h)
    ensures forall j :: 0 <= j < i ==> Distance(bs[i], w, h) < Distance(bs[j], w, h)
  {
    if |bs| == 1 then 0
    else
      var k := ArgMin(bs[..|bs| - 1], w, h);
      if Distance(bs[|bs| - 1], w, h) < Distance(bs[k], w, h) then |bs| - 1 else k
  }

  /** `ScreenBucket::nearest`: the bucket closest to the actual size. The table is
      never empty, so the fallback to the first bucket is never taken. */
  function Nearest(w: u32, h: u32): (b: ScreenBucket)
    requires KeyFits(w, h)
    ensures b in BUCKETS
  {
    BUCKETS[ArgMin(BUCKETS, w, h)]
  }

  /** The nearest bucket is a bucket of the table, no other bucket is closer, and
      every bucket listed before it is farther away. */
  lemma NearestIsFirstClosest(w: u32, h: u32)
    requires KeyFits(w, h)
    ensures Nearest(w, h) in BUCKETS
    ensures forall b :: b in BUCKETS ==> Distance(Nearest(w, h), w, h) <= Distance(b, w, h)
    ensures exists i ::
      && 0 <= i < |BUCKETS| && BUCKETS[i] == Nearest(w, h)
      && (forall j :: 0 <= j < i ==> Distance(BUCKETS[j], w, h) > Distance(Nearest(w, h), w, h))
  {
    var i := ArgMin(BUCKETS, w, h);
    forall b | b in BUCKETS
      ensures Distance(Nearest(w, h), w, h) <= Distance(b, w, h)
    {
      var j :| 0 <= j < |BUCKETS| && BUCKETS[j] == b;
    }
  }

  /** The first index with the least key is unique: any index that is a minimum
      and beats every earlier index is the one `min_by_key` picks. */
  lemma ArgMinUnique(bs: seq<ScreenBucket>, w: int, h: int, i: nat)
    requires i < |bs|
    requires forall j :: 0 <= j < |bs| ==> Distance(bs[i], w, h) <= Distance(bs[j], w, h)
    requires forall j :: 0 <= j < i ==> Distance(bs[i], w, h) < Distance(bs[j], w, h)
    ensures ArgMin(bs, w, h) == i
  {
  }

  /** A size at which the first bucket is no farther than any other is mapped to
      the first bucket. */
  lemma NearestFirst(w: u32, h: u32)
    requires KeyFits(w, h)
    requires forall b :: b in BUCKETS ==> Distance(BUCKETS[0], w, h) <= Distance(b, w, h)
    ensures Nearest(w, h) == BUCKETS[0]
  {
    forall j | 0 <= j < |BUCKETS|
      ensures Distance(BUCKETS[0], w, h) <= Distance(BUCKETS[j], w, h)
    {
      assert BUCKETS[j] in BUCKETS;
    }
    ArgMinUnique(BUCKETS, w, h, 0);
  }

  /** The examples of the source's tests: an exact size gives its own bucket. */
  lemma NearestExactExample()
    ensures KeyFits(1920, 1080) && Nearest(1920, 1080) == BUCKETS[0]
  {
    NearestFirst(1920, 1080);
  }

  /** 1900 by 1000 is closest to Full HD. */
  lemma NearestCloseExample()
    ensures KeyFits(1900, 1000) && Nearest(1900, 1000).width == 1920
  {
    NearestFirst(1900, 1000);
  }

  // ---------------------------------------------------------------- screen defense

  datatype ScreenDefense = ScreenDefense(bucket: ScreenBucket)

  /** The taskbar and browser chrome heights the getters subtract. */
  const TASKBAR_HEIGHT: nat := 40
  const CHROME_HEIGHT: nat := 100

  /** A bucket the height getters can handle: `u32` subtraction would underflow
      (a panic) below the browser chrome height. */
  predicate TallEnough(d: ScreenDefense)
  {
    d.bucket.height >= CHROME_HEIGHT
  }

  /** Every bucket of the table is tall enough. */
  lemma BucketsTallEnough()
    ensures forall b :: b in BUCKETS ==> TallEnough(ScreenDefense(b))
  {
  }

  datatype ScreenProperties = ScreenProperties(
    width: u32, height: u32, availWidth: u32, availHeight: u32,
    colorDepth: u8, pixelDepth: u8, orientationType: string, orientationAngle: u16)

  /** `device_pixel_ratio` is an `f64` made from the bucket's integer ratio; the
      model keeps the integer. */
  datatype WindowProperties = WindowProperties(
    innerWidth: u32, innerHeight: u32, outerWidth: u32, outerHeight: u32,
    screenX: i32, screenY: i32, devicePixelRatio: nat)

  function ScreenWidth(d: ScreenDefense): u32 { d.bucket.width }
  function ScreenHeight(d: ScreenDefense): u32 { d.bucket.height }
  function AvailWidth(d: ScreenDefense): u32 { d.bucket.width }
  function ColorDepth(d: ScreenDefense): u8 { d.bucket.colorDepth }
  function PixelDepth(d: ScreenDefense): u8 { d.bucket.colorDepth }
  function InnerWidth(d: ScreenDefense): u32 { d.bucket.width }
  function OuterWidth(d: ScreenDefense): u32 { d.bucket.width }
  function OuterHeight(d: ScreenDefense): u32 { d.bucket.height }
  function ScreenX(d: ScreenDefense): i32 { 0 }
  function ScreenY(d: ScreenDefense): i32 { 0 }

  /** `avail_height`: the screen height less a standard taskbar. */
  function AvailHeight(d: ScreenDefense): (r: u32)
    requires d.bucket.height >= TASKBAR_HEIGHT
    ensures r < ScreenHeight(d) && ScreenHeight(d) - r == TASKBAR_HEIGHT
  {
    d.bucket.height - TASKBAR_HEIGHT
  }

  /** `inner_height`: the window height less the browser chrome. */
  function InnerHeight(d: ScreenDefense): (r: u32)
    requires TallEnough(d)
    ensures r < OuterHeight(d) && OuterHeight(d) - r == CHROME_HEIGHT
  {
    d.bucket.height - CHROME_HEIGHT
  }

  /** `avail_height` as a release build computes it for any bucket, including one
      a caller builds and hands to `ScreenDefense::new`: the `u32` subtraction
      wraps below the taskbar height (a debug build panics there). */
  function AvailHeightWrapping(d: ScreenDefense): (r: u32)
    ensures d.bucket.height >= TASKBAR_HEIGHT ==> r == AvailHeight(d)
    ensures d.bucket.height < TASKBAR_HEIGHT ==> r > ScreenHeight(d)
  {
    (d.bucket.height - TASKBAR_HEIGHT) % U32_LIMIT
  }

  /** `inner_height` as a release build computes it for any bucket: the `u32`
      subtraction wraps below the chrome height. */
  function InnerHeightWrapping(d: ScreenDefense): (r: u32)
    ensures TallEnough(d) ==> r == InnerHeight(d)
    ensures !TallEnough(d) ==> r > OuterHeight(d)
  {
    (d.bucket.height - CHROME_HEIGHT) % U32_LIMIT
  }

  /** A caller-built bucket 30 pixels tall: the window reports heights far above
      the screen's. */
  lemma ShortBucketWraps()
    ensures var d := ScreenDefense(ScreenBucket(1920, 30, 24, 1));
      AvailHeightWrapping(d) == 4294967286 && InnerHeightWrapping(d) == 4294967226
  {
  }

  /** `get_screen_properties`: the screen is the bucket, with its full width
      available, the taskbar's height less available, pixel depth equal to color
      depth and a primary landscape orientation at angle 0. */
  function GetScreenProperties(d: ScreenDefense): (p: ScreenProperties)
    requires d.bucket.height >= TASKBAR_HEIGHT
    ensures p.width == p.availWidth == d.bucket.width
    ensures p.height == d.bucket.height && p.availHeight < p.height
    ensures p.availHeight == AvailHeight(d)
    ensures p.pixelDepth == p.colorDepth == d.bucket.colorDepth
    ensures p.orientationType == "landscape-primary" && p.orientationAngle == 0
  {
    ScreenProperties(ScreenWidth(d), ScreenHeight(d), AvailWidth(d), AvailHeight(d),
      ColorDepth(d), PixelDepth(d), "landscape-primary", 0)
  }

  /** `get_window_properties`: the window fills the bucket's width, sits at the
      origin, has the bucket's pixel ratio, and its inner height is the browser
      chrome's height below its outer height, the screen height. */
  function GetWindowProperties(d: ScreenDefense): (p: WindowProperties)
    requires TallEnough(d)
    ensures p.innerWidth == p.outerWidth == ScreenWidth(d)
    ensures p.outerHeight == ScreenHeight(d) && p.innerHeight < p.outerHeight
    ensures p.innerHeight == InnerHeight(d)
    ensures p.devicePixelRatio == d.bucket.devicePixelRatio
    ensures p.screenX == 0 && p.screenY == 0
  {
    WindowProperties(InnerWidth(d), InnerHeight(d), OuterWidth(d), OuterHeight(d),
      ScreenX(d), ScreenY(d), d.bucket.devicePixelRatio)
  }

  /** The example of the source's tests: the Full HD defense. */
  lemma FullHdDefenseExample()
    ensures var d := ScreenDefense(BUCKETS[0]);
      ScreenWidth(d) == 1920 && ScreenHeight(d) == 1080 && ColorDepth(d) == 24
      && AvailHeight(d) < ScreenHeight(d)
  {
  }
}
