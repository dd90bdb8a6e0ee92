/** frontend/src/ui/screens/MapScreen.tsx: the campus map image in a frame of fixed aspect
    ratio, with one pressable region per catalog lot, placed by percentages of the frame. */
module MapScreen {
  import opened CampusLots

  /** A rendered `Pressable`: its React key, accessibility label and the four style
      percentages (`left`, `top`, `width`, `height`, without the trailing '%'). */
  datatype Region = Region(key: int, accessibilityLabel: string,
                           left: real, top: real, width: real, height: real)

  /** The navigation a press triggers: `navigate('LotDetails', { lotId })`. */
  datatype Navigation = Navigate(screen: string, lotId: int)

  /** The region drawn for one block. */
  function RegionOf(b: LotBlock): (r: Region)
    ensures r.key == b.id && r.accessibilityLabel == b.name
    ensures r.left == 100.0 * b.x && r.top == 100.0 * b.y
    ensures r.width == 100.0 * b.w && r.height == 100.0 * b.h
  {
    Region(b.id, b.name, b.x * 100.0, b.y * 100.0, b.w * 100.0, b.h * 100.0)
  }

  /** `LOTS.map(...)`: one region per block, in catalog order. */
  function Regions(lots: seq<LotBlock>): (r: seq<Region>)
    ensures |r| == |lots|
    ensures forall i :: 0 <= i < |lots| ==> r[i] == RegionOf(lots[i])
  {
    seq(|lots|, i requires 0 <= i < |lots| => RegionOf(lots[i]))
  }

  /** `onPress` of a region. */
  function OnPress(r: Region): (n: Navigation)
    ensures n.screen == "LotDetails" && n.lotId == r.key
  {
    Navigate("LotDetails", r.key)
  }

  /** The map renders exactly one region per catalog lot, keyed by distinct ids in catalog order,
      each labelled with its lot's name and opening that lot's details when pressed. */
  lemma MapRegions()
    ensures var rs := Regions(LOTS);
      && |rs| == |LOTS|
      && (forall i, j :: 0 <= i < j < |rs| ==> rs[i].key < rs[j].key)
      && (forall i :: 0 <= i < |rs| ==>
            rs[i].accessibilityLabel == LOTS[i].name && OnPress(rs[i]) == Navigate("LotDetails", LOTS[i].id))
  {
    CatalogInvariants();
  }

  /** `aspectRatio: 1692 / 1306` of the frame (width over height). */
  const AspectRatio: real := 1692.0 / 1306.0

  /** The height React Native gives a frame of the given width. */
  function FrameHeight(frameWidth: real): (h: real)
    ensures h * AspectRatio == frameWidth
  {
    frameWidth * 1306.0 / 1692.0
  }

  /** A region's box in pixels within a frame of the given width. */
  datatype PixelRect = PixelRect(left: real, top: real, width: real, height: real)

  /** Percentages of the frame's width (left, width) and height (top, height). */
  function Pixels(r: Region, frameWidth: real): PixelRect
  {
    var fh := FrameHeight(frameWidth);
    PixelRect(r.left * frameWidth / 100.0, r.top * fh / 100.0,
              r.width * frameWidth / 100.0, r.height * fh / 100.0)
  }

  /** A region's pixel box is its block's normalised rectangle times the frame's width and
      height. */
  lemma PixelsAreFractions(b: LotBlock, frameWidth: real)
    ensures var p := Pixels(RegionOf(b), frameWidth);
      && p.left == b.x * frameWidth && p.width == b.w * frameWidth
      && p.top == b.y * FrameHeight(frameWidth) && p.height == b.h * FrameHeight(frameWidth)
  {
  }

  /** Resizing the frame by a factor `k` scales every pixel box by `k`. */
  lemma PixelsScale(r: Region, frameWidth: real, k: real)
    ensures var p, q := Pixels(r, frameWidth), Pixels(r, k * frameWidth);
      && q.left == k * p.left && q.top == k * p.top
      && q.width == k * p.width && q.height == k * p.height
  {
  }

  /** A valid rectangle's box lies inside a frame of any non-negative width. */
  lemma {:induction false} RegionInsideFrame(b: LotBlock, frameWidth: real)
    requires ValidRect(b) && frameWidth >= 0.0
    ensures var p := Pixels(RegionOf(b), frameWidth);
      && 0.0 <= p.left && p.left + p.width <= frameWidth
      && 0.0 <= p.top && p.top + p.height <= FrameHeight(frameWidth)
  {
    PixelsAreFractions(b, frameWidth);
    var fh := FrameHeight(frameWidth);
    ScaledWithin(b.x, b.w, frameWidth);
    ScaledWithin(b.y, b.h, fh);
  }

  lemma ScaledWithin(a: real, d: real, k: real)
    requires 0.0 <= a && 0.0 <= d && a + d <= 1.0 && k >= 0.0
    ensures 0.0 <= a * k && a * k + d * k <= k
  {
    assert a * k + d * k == (a + d) * k;
    assert k - (a + d) * k == (1.0 - (a + d)) * k;
  }

  /** Every region of the catalog lies inside the frame, whatever its width. */
  lemma AllRegionsInsideFrame(frameWidth: real)
    requires frameWidth >= 0.0
    ensures forall i :: 0 <= i < |LOTS| ==>
      var p := Pixels(Regions(LOTS)[i], frameWidth);
      0.0 <= p.left && p.left + p.width <= frameWidth &&
      0.0 <= p.top && p.top + p.height <= FrameHeight(frameWidth)
  {
    CatalogInvariants();
    forall i | 0 <= i < |LOTS|
      ensures var p := Pixels(Regions(LOTS)[i], frameWidth);
        0.0 <= p.left && p.left + p.width <= frameWidth &&
        0.0 <= p.top && p.top + p.height <= FrameHeight(frameWidth)
    {
      RegionInsideFrame(LOTS[i], frameWidth);
    }
  }
}
