/** frontend/src/ui/MapboxView.web.tsx: the web map component. The mapbox-gl map itself is
    opaque: the model records only whether it exists (`mapRef.current != null`), the bounds and
    the camera request last handed to it, and the markers placed on it with their tooltips.
    React's effects become methods the caller invokes in the order React runs them. */
module MapboxWeb {
  import opened Wrappers

  /** [longitude, latitude]. */
  type Coord = (real, real)

  /** The `bounds` prop. */
  datatype Bounds = Bounds(ne: Coord, sw: Coord)

  /** `MapboxMarker`, one entry of the `markers` prop. */
  datatype MarkerSpec = MarkerSpec(id: int, name: string, coordinate: Coord, detail: Option<string>)

  /** A marker's tooltip: its two lines of text, its opacity and its vertical offset in pixels
      (`translateY`). */
  datatype Tooltip = Tooltip(title: string, detail: string, opacity: int, translateY: int)

  /** A marker placed on the map: the button's `aria-label`, the position and the tooltip. The
      click handler reports `id`. */
  datatype PlacedMarker = PlacedMarker(id: int, ariaLabel: string, lngLat: Coord, tooltip: Tooltip)

  /** The argument of `easeTo`. */
  datatype EaseOptions = EaseOptions(center: Coord, zoom: real, bearing: real, pitch: real, duration: int)

  /** The options `new mapboxgl.Map` is given besides its container, style and attribution. */
  datatype MapOptions = MapOptions(center: Coord, zoom: real, interactive: bool)

  /** The events the marker's wrapper element listens to. */
  datatype WrapperEvent = MouseEnter | MouseLeave | FocusIn | FocusOut

  /** `process.env.EXPO_PUBLIC_MAPBOX_ACCESS_TOKEN ?? process.env.EXPO_PUBLIC_MAPBOX_TOKEN`:
      the fallback is used only when the first variable is unset, not when it is empty. */
  function ResolveToken(accessToken: Option<string>, fallbackToken: Option<string>): (t: Option<string>)
    ensures accessToken.Some? ==> t == accessToken
    ensures accessToken.None? ==> t == fallbackToken
  {
    if accessToken.Some? then accessToken else fallbackToken
  }

  /** An empty first variable is kept by `??`, so it hides a usable fallback and no map is made. */
  lemma EmptyTokenShadowsFallback(fallbackToken: Option<string>)
    ensures !Truthy(ResolveToken(Some(""), fallbackToken))
    ensures Truthy(fallbackToken) ==> Truthy(ResolveToken(None, fallbackToken))
  {
  }

  /** JavaScript truthiness of an optional string. */
  predicate Truthy(s: Option<string>)
  {
    s.Some? && |s.value| > 0
  }

  /** The shown style (`opacity: 1`, `translateY(0)`) and the hidden style (`opacity: 0`,
      `translateY(6px)`). */
  function Show(t: Tooltip): (u: Tooltip)
    ensures IsShown(u) && !IsHidden(u)
    ensures u.title == t.title && u.detail == t.detail
  {
    t.(opacity := 1, translateY := 0)
  }

  function Hide(t: Tooltip): (u: Tooltip)
    ensures IsHidden(u) && !IsShown(u)
    ensures u.title == t.title && u.detail == t.detail
  {
    t.(opacity := 0, translateY := 6)
  }

  predicate IsShown(t: Tooltip)
  {
    t.opacity == 1 && t.translateY == 0
  }

  predicate IsHidden(t: Tooltip)
  {
    t.opacity == 0 && t.translateY == 6
  }

  /** mouseenter and focusin run `showTooltip`; mouseleave and focusout run `hideTooltip`. */
  function OnEvent(t: Tooltip, e: WrapperEvent): (u: Tooltip)
    ensures u.title == t.title && u.detail == t.detail
    ensures (e == MouseEnter || e == FocusIn) <==> IsShown(u)
    ensures (e == MouseLeave || e == FocusOut) <==> IsHidden(u)
  {
    match e
    case MouseEnter => Show(t)
    case FocusIn => Show(t)
    case MouseLeave => Hide(t)
    case FocusOut => Hide(t)
  }

  /** Only the last event matters: the style a tooltip shows depends on the last event alone. */
  lemma LastEventWins(t: Tooltip, first: WrapperEvent, second: WrapperEvent)
    ensures OnEvent(OnEvent(t, first), second) == OnEvent(t, second)
  {
  }

  /** The marker `markers.map` builds for one entry; its tooltip reads the name and the detail,
      or "Loading…" when there is none (`m.detail ?? "Loading…"`), and starts hidden. */
  function Place(m: MarkerSpec): (p: PlacedMarker)
    ensures p.id == m.id && p.ariaLabel == m.name && p.lngLat == m.coordinate
    ensures p.tooltip.title == m.name
    ensures m.detail.Some? ==> p.tooltip.detail == m.detail.value
    ensures m.detail.None? ==> p.tooltip.detail == "Loading…"
    ensures IsHidden(p.tooltip)
  {
    PlacedMarker(m.id, m.name, m.coordinate, Tooltip(m.name, GetOr(m.detail, "Loading…"), 0, 6))
  }

  /** The markers on the map after a sync with the `markers` prop `input`. */
  function PlaceAll(input: Option<seq<MarkerSpec>>): (r: seq<PlacedMarker>)
    ensures input.None? ==> r == []
    ensures input.Some? ==> |r| == |input.value| &&
                            forall i :: 0 <= i < |r| ==> r[i] == Place(input.value[i])
  {
    if input.None? || |input.value| == 0 then []
    else seq(|input.value|, i requires 0 <= i < |input.value| => Place(input.value[i]))
  }

  /** After a sync every tooltip is hidden, whatever was shown before, and the markers carry the
      input's ids in input order. */
  lemma PlaceAllFresh(input: Option<seq<MarkerSpec>>)
    ensures forall i :: 0 <= i < |PlaceAll(input)| ==> IsHidden(PlaceAll(input)[i].tooltip)
    ensures forall i :: 0 <= i < |PlaceAll(input)| ==> PlaceAll(input)[i].id == input.value[i].id
  {
  }

  class MapboxView {
    /** The props the effects read. */
    const centerCoordinate: Coord
    const zoomLevel: real
    const interactive: bool
    const bounds: Option<Bounds>

    /** `mapRef.current != null`. */
    var mapMounted: bool
    /** The options the current map was created with. */
    var mapOptions: Option<MapOptions>
    /** The `mapReady` state. */
    var mapReady: bool
    /** The last `setMaxBounds` argument of the current map, [sw, ne]. */
    var maxBounds: Option<(Coord, Coord)>
    /** The last `easeTo` request made of the current map. */
    var lastEase: Option<EaseOptions>
    /** `markersRef.current`. */
    var markers: seq<PlacedMarker>

    /** The map is ready exactly while it exists, camera requests and bounds belong to an
        existing map, and every tooltip is either shown or hidden. */
    ghost predicate Valid()
      reads this
    {
      && mapReady == mapMounted
      && (mapMounted <==> mapOptions.Some?)
      && (!mapMounted ==> lastEase.None? && maxBounds.None?)
      && forall i :: 0 <= i < |markers| ==> IsShown(markers[i].tooltip) || IsHidden(markers[i].tooltip)
    }

    /** The first render, with the props' defaults: no `bounds`, and `interactive = false`. */
    constructor (centerCoordinate: Coord, zoomLevel: real, bounds: Option<Bounds> := None, interactive: bool := false)
      ensures Valid()
      ensures this.centerCoordinate == centerCoordinate && this.zoomLevel == zoomLevel
      ensures this.interactive == interactive && this.bounds == bounds
      ensures !mapMounted && mapOptions.None? && markers == []
    {
      this.centerCoordinate := centerCoordinate;
      this.zoomLevel := zoomLevel;
      this.interactive := interactive;
      this.bounds := bounds;
      mapMounted := false;
      mapOptions := None;
      mapReady := false;
      maxBounds := None;
      lastEase := None;
      markers := [];
    }

    /** The camera `reset` asks for: the configured center and zoom, facing north, flat, 300 ms. */
    function ResetTarget(): (e: EaseOptions)
      ensures e.center == centerCoordinate && e.zoom == zoomLevel
      ensures e.bearing == 0.0 && e.pitch == 0.0 && e.duration == 300
    {
      EaseOptions(centerCoordinate, zoomLevel, 0.0, 0.0, 300)
    }

    /** The `reset` handle: nothing before the map exists, otherwise an `easeTo(ResetTarget())`. */
    method Reset()
      requires Valid()
      modifies this
      ensures Valid()
      ensures lastEase == if mapMounted then Some(ResetTarget()) else old(lastEase)
      ensures mapMounted == old(mapMounted) && mapReady == old(mapReady) && mapOptions == old(mapOptions)
      ensures maxBounds == old(maxBounds) && markers == old(markers)
    {
      if mapMounted {
        lastEase := Some(ResetTarget());
      }
    }

    /** The mount effect, with `hasContainer` for `containerRef.current` and `token` the resolved
        access token. It reports whether a map was created. */
    method Mount(hasContainer: bool, token: Option<string>) returns (mounted: bool)
      requires Valid() && !mapMounted
      modifies this
      ensures Valid()
      ensures mounted == (hasContainer && Truthy(token))
      ensures mapMounted == mounted && mapReady == mounted
      ensures mounted ==> mapOptions == Some(MapOptions(centerCoordinate, zoomLevel, interactive))
      ensures mounted ==> maxBounds == if bounds.Some? then Some((bounds.value.sw, bounds.value.ne)) else None
      ensures !mounted ==> maxBounds == old(maxBounds) && mapOptions == old(mapOptions)
      ensures lastEase == old(lastEase) && markers == old(markers)
    {
      if !hasContainer || !Truthy(token) {
        return false;
      }
      mapMounted := true;
      mapOptions := Some(MapOptions(centerCoordinate, zoomLevel, interactive));
      maxBounds := None;
      if bounds.Some? {
        maxBounds := Some((bounds.value.sw, bounds.value.ne));
      }
      mapReady := true;
      return true;
    }

    /** The mount effect's cleanup: the map is removed, `mapRef` nulled and `mapReady` cleared. */
    method Unmount()
      requires Valid() && mapMounted
      modifies this
      ensures Valid()
      ensures !mapMounted && !mapReady && mapOptions.None? && maxBounds.None? && lastEase.None?
      ensures markers == old(markers)
    {
      mapMounted := false;
      mapOptions := None;
      maxBounds := None;
      lastEase := None;
      mapReady := false;
    }

    /** The marker effect with the `markers` prop `input`: nothing unless the map is ready and
        exists; otherwise every old marker is removed and one marker per entry is placed, in
        order. */
    method SyncMarkers(input: Option<seq<MarkerSpec>>)
      requires Valid()
      modifies this
      ensures Valid()
      ensures markers == if mapReady && mapMounted then PlaceAll(input) else old(markers)
      ensures mapMounted == old(mapMounted) && mapReady == old(mapReady) && mapOptions == old(mapOptions)
      ensures maxBounds == old(maxBounds) && lastEase == old(lastEase)
    {
      if !mapReady || !mapMounted {
        return;
      }
      markers := [];
      if input.None? || |input.value| == 0 {
        return;
      }
      markers := seq(|input.value|, i requires 0 <= i < |input.value| => Place(input.value[i]));
    }

    /** The marker effect's cleanup: every marker is removed. */
    method CleanupMarkers()
      requires Valid()
      modifies this
      ensures Valid()
      ensures markers == []
      ensures mapMounted == old(mapMounted) && mapReady == old(mapReady) && mapOptions == old(mapOptions)
      ensures maxBounds == old(maxBounds) && lastEase == old(lastEase)
    {
      markers := [];
    }

    /** An event on marker `i`'s wrapper restyles that marker's tooltip and nothing else. */
    method HandleWrapperEvent(i: nat, e: WrapperEvent)
      requires Valid() && i < |markers|
      modifies this
      ensures Valid()
      ensures markers == old(markers)[i := old(markers)[i].(tooltip := OnEvent(old(markers)[i].tooltip, e))]
      ensures mapMounted == old(mapMounted) && mapReady == old(mapReady) && mapOptions == old(mapOptions)
      ensures maxBounds == old(maxBounds) && lastEase == old(lastEase)
    {
      var m := markers[i];
      markers := markers[i := m.(tooltip := OnEvent(m.tooltip, e))];
    }

    /** A click on marker `i`'s button: `onMarkerPress?.(marker.id)`, reported as the id passed
        to the handler (None without a handler). Clicking changes nothing. */
    method Click(i: nat, hasPressHandler: bool) returns (pressed: Option<int>)
      requires i < |markers|
      ensures pressed.Some? <==> hasPressHandler
      ensures pressed.Some? ==> pressed.value == markers[i].id
    {
      if hasPressHandler {
        pressed := Some(markers[i].id);
      } else {
        pressed := None;
      }
    }
  }
}
