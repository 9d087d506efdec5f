/**
 * `PerformanceMap`, the zip-code map with zoom, fullscreen, an exclusive
 * region selection with its detail panel, and a buybox filter.
 *
 * Zoom is kept in tenths: the factor 1 is 10, the step 0.2 is 2 and the
 * bounds 0.5 and 2 are 5 and 20. Every handler is a transition of the pure
 * `Step` function on `MapState`; the class `PerformanceMap` holds the same state
 * in fields and each of its handlers is proved to perform one `Step`.
 */
module ZipCodeMap {
  import opened Options

  const MinZoom: int := 5
  const MaxZoom: int := 20
  const ZoomStep: int := 2
  const InitialZoom: int := 10

  predicate ZoomInRange(z: int) {
    MinZoom <= z <= MaxZoom
  }

  /** `Math.min(prev + 0.2, 2)`. */
  function ZoomedIn(z: int): (r: int)
    ensures r <= MaxZoom && r <= z + ZoomStep
    ensures r == z + ZoomStep || r == MaxZoom
    ensures ZoomInRange(z) ==> ZoomInRange(r) && z <= r
    ensures z == MaxZoom ==> r == z
  {
    if z + ZoomStep < MaxZoom then z + ZoomStep else MaxZoom
  }

  /** `Math.max(prev - 0.2, 0.5)`. */
  function ZoomedOut(z: int): (r: int)
    ensures r >= MinZoom && r >= z - ZoomStep
    ensures r == z - ZoomStep || r == MinZoom
    ensures ZoomInRange(z) ==> ZoomInRange(r) && r <= z
    ensures z == MinZoom ==> r == z
  {
    if z - ZoomStep > MinZoom then z - ZoomStep else MinZoom
  }

  /** Away from the bounds, zooming in and out undo each other. */
  lemma ZoomInOutInverse(z: int)
    ensures MinZoom <= z <= MaxZoom - ZoomStep ==> ZoomedOut(ZoomedIn(z)) == z
    ensures MinZoom + ZoomStep <= z <= MaxZoom ==> ZoomedIn(ZoomedOut(z)) == z
  {
  }

  /** Next to a bound they do not: 1.9 zooms in to 2 and back out to 1.8,
      0.6 zooms out to 0.5 and back in to 0.7. */
  lemma ZoomClampIsNotInvertible()
    ensures ZoomedOut(ZoomedIn(19)) == 18
    ensures ZoomedIn(ZoomedOut(6)) == 7
  {
  }

  /** One record of the zip table behind the detail panel. */
  datatype ZipRecord = ZipRecord(
    zipCode: string,
    properties: string,
    county: string,
    clientDeals: string,
    marketDeals: string,
    clientDealsConcentration: string,
    marketDealsConcentration: string,
    clientAvgProfit: string,
    marketAvgProfit: string,
    clientTotalProfit: string,
    marketTotalProfit: string,
    sales: string,
    performance: string)

  /** The zip table the page ships with. */
  const SampleZipData: map<string, ZipRecord> := map[
    "99504" := ZipRecord("99504", "12.5K (30%)", "Navajo, AZ", "6 (5.2%)", "90 (1.6%)",
                         "2.1K (0.9x)", "138.5 (1.3x)", "$14K", "$70K", "$85K (34%)",
                         "$6.3M (35%)", "459 (34%)", "outperforming")]

  /** The zip each of the six map regions selects when clicked, in drawing
      order. Only the first region has a click handler. */
  const RegionZips: seq<Option<string>> := [Some("99504"), None, None, None, None, None]

  /** The component state. */
  datatype MapState = MapState(
    selectedZip: Option<string>,
    buyboxFilter: string,
    isFullscreen: bool,
    zoom: int)

  const InitialState: MapState := MapState(None, "all", false, InitialZoom)

  /** The input events the component handles. */
  datatype MapEvent =
    | KeyDown(key: string)       // any key pressed while the map card has focus
    | ZoomInButton
    | ZoomOutButton
    | FullscreenButton
    | RegionClick(region: nat)   // a click on the region with this drawing index
    | CloseButton                // the close button of the detail panel
    | FilterChange(value: string)

  /** `handleKeyDown`: three independent tests of the key, applied in turn. */
  function HandleKey(s: MapState, key: string): (r: MapState)
    ensures key == "+" || key == "=" ==> r == s.(zoom := ZoomedIn(s.zoom))
    ensures key == "-" ==> r == s.(zoom := ZoomedOut(s.zoom))
    ensures key == "f" || key == "F" ==> r == s.(isFullscreen := !s.isFullscreen)
    ensures key !in {"+", "=", "-", "f", "F"} ==> r == s
  {
    var s1 := if key == "+" || key == "=" then s.(zoom := ZoomedIn(s.zoom)) else s;
    var s2 := if key == "-" then s1.(zoom := ZoomedOut(s1.zoom)) else s1;
    if key == "f" || key == "F" then s2.(isFullscreen := !s2.isFullscreen) else s2
  }

  /** The state after one event. */
  function Step(s: MapState, e: MapEvent): (r: MapState)
    ensures ZoomInRange(s.zoom) ==> ZoomInRange(r.zoom)
    ensures !e.FilterChange? ==> r.buyboxFilter == s.buyboxFilter
    ensures r.selectedZip != s.selectedZip ==> e.CloseButton? || e.RegionClick?
    ensures e.ZoomInButton? ==> r == s.(zoom := ZoomedIn(s.zoom))
    ensures e.ZoomOutButton? ==> r == s.(zoom := ZoomedOut(s.zoom))
  {
    match e
    case KeyDown(key) => HandleKey(s, key)
    case ZoomInButton => s.(zoom := ZoomedIn(s.zoom))
    case ZoomOutButton => s.(zoom := ZoomedOut(s.zoom))
    case FullscreenButton => s.(isFullscreen := !s.isFullscreen)
    case RegionClick(i) =>
      if i < |RegionZips| && RegionZips[i].Some? then s.(selectedZip := RegionZips[i]) else s
    case CloseButton => s.(selectedZip := None)
    case FilterChange(v) => s.(buyboxFilter := v)
  }

  /** The state after a sequence of events, in order. */
  function Run(s: MapState, es: seq<MapEvent>): MapState
    decreases |es|
  {
    if es == [] then s else Run(Step(s, es[0]), es[1..])
  }

  /** Whatever the events, zoom never leaves [0.5, 2]. */
  lemma {:induction false} RunKeepsZoomInRange(s: MapState, es: seq<MapEvent>)
    requires ZoomInRange(s.zoom)
    ensures ZoomInRange(Run(s, es).zoom)
    decreases |es|
  {
    if es != [] {
      RunKeepsZoomInRange(Step(s, es[0]), es[1..]);
    }
  }

  /** In particular from the initial state. */
  lemma ZoomAlwaysInRange(es: seq<MapEvent>)
    ensures ZoomInRange(Run(InitialState, es).zoom)
  {
    RunKeepsZoomInRange(InitialState, es);
  }

  /** Events that only touch zoom and fullscreen, however many, keep the
      selection and the filter. */
  predicate IsViewportEvent(e: MapEvent) {
    e.KeyDown? || e.ZoomInButton? || e.ZoomOutButton? || e.FullscreenButton?
  }

  lemma {:induction false} ViewportEventsKeepSelection(s: MapState, es: seq<MapEvent>)
    requires forall i :: 0 <= i < |es| ==> IsViewportEvent(es[i])
    ensures Run(s, es).selectedZip == s.selectedZip
    ensures Run(s, es).buyboxFilter == s.buyboxFilter
    decreases |es|
  {
    if es != [] {
      ViewportEventsKeepSelection(Step(s, es[0]), es[1..]);
    }
  }

  /** The fullscreen key (either case) and button flip only the flag, and two
      flips restore it. */
  predicate IsFullscreenToggle(e: MapEvent) {
    e == KeyDown("f") || e == KeyDown("F") || e == FullscreenButton
  }

  lemma FullscreenFlip(s: MapState, e: MapEvent)
    requires IsFullscreenToggle(e)
    ensures Step(s, e) == s.(isFullscreen := !s.isFullscreen)
  {
  }

  lemma FullscreenTwice(s: MapState, e1: MapEvent, e2: MapEvent)
    requires IsFullscreenToggle(e1) && IsFullscreenToggle(e2)
    ensures Step(Step(s, e1), e2) == s
  {
    FullscreenFlip(s, e1);
    FullscreenFlip(Step(s, e1), e2);
  }

  /** The zoom buttons do what the `+`, `=` and `-` keys do, and neither moves
      the zoom past a bound: at 2 zooming in, and at 0.5 zooming out, changes
      nothing. */
  lemma ButtonsMatchKeys(s: MapState)
    ensures Step(s, ZoomInButton) == Step(s, KeyDown("+")) == Step(s, KeyDown("="))
    ensures Step(s, ZoomOutButton) == Step(s, KeyDown("-"))
    ensures s.zoom == MaxZoom ==> Step(s, ZoomInButton) == s && Step(s, KeyDown("+")) == s
    ensures s.zoom == MinZoom ==> Step(s, ZoomOutButton) == s && Step(s, KeyDown("-")) == s
  {
  }

  /** Clicking the clickable region selects its zip, replacing any selection;
      clicking any other region changes nothing. */
  lemma RegionClickSelects(s: MapState, i: nat)
    ensures i == 0 ==> Step(s, RegionClick(i)) == s.(selectedZip := Some("99504"))
    ensures i != 0 ==> Step(s, RegionClick(i)) == s
  {
  }

  /** Close clears the selection, and closing again changes nothing. */
  lemma CloseClears(s: MapState)
    ensures Step(s, CloseButton) == s.(selectedZip := None)
    ensures Step(Step(s, CloseButton), CloseButton) == Step(s, CloseButton)
  {
  }

  /** The filter is written by its select and read by nothing: changing it
      keeps selection, zoom and fullscreen, and no other event's effect
      depends on it. */
  lemma FilterIsIndependent(s: MapState, v: string, e: MapEvent)
    ensures Step(s, FilterChange(v)) == s.(buyboxFilter := v)
    ensures !e.FilterChange? ==> Step(s.(buyboxFilter := v), e) == Step(s, e).(buyboxFilter := v)
  {
  }

  /** The badge of a record: the source compares the performance text with
      `'outperforming'` and shows every other value as underperforming. */
  function BadgeLabel(performance: string): (badge: string)
    ensures badge == "Outperforming" <==> performance == "outperforming"
    ensures badge != "Outperforming" ==> badge == "Underperforming"
  {
    if performance == "outperforming" then "Outperforming" else "Underperforming"
  }

  lemma NeutralReadsUnderperforming()
    ensures BadgeLabel("neutral") == "Underperforming"
    ensures BadgeLabel("underperforming") == "Underperforming"
  {
  }

  /** What the detail panel shows: the zip heading, the badge and the record. */
  datatype Panel = Panel(zip: string, badge: string, info: ZipRecord)

  /** `selectedZip && zipData[selectedZip]`: the panel is drawn for a non-null,
      non-empty selection that has a record; anything else draws no panel. */
  function DetailPanel(selected: Option<string>, zipData: map<string, ZipRecord>): (p: Option<Panel>)
    ensures p.Some? <==> selected.Some? && selected.value != "" && selected.value in zipData
    ensures p.Some? ==> (&& p.value.info == zipData[selected.value]
                         && p.value.zip == zipData[selected.value].zipCode
                         && p.value.badge == BadgeLabel(zipData[selected.value].performance))
  {
    match selected
    case None => None
    case Some(z) =>
      if z != "" && z in zipData then
        var rec := zipData[z];
        Some(Panel(rec.zipCode, BadgeLabel(rec.performance), rec))
      else None
  }

  /** A selected zip without a record shows no panel, rather than failing. */
  lemma NoPanelWithoutData(z: string, zipData: map<string, ZipRecord>)
    requires z !in zipData
    ensures DetailPanel(Some(z), zipData) == None
  {
  }

  /** The panel follows the selection only: the filter, zoom and fullscreen
      do not enter it. */
  lemma PanelIgnoresViewport(s: MapState, e: MapEvent, zipData: map<string, ZipRecord>)
    requires !e.RegionClick? && !e.CloseButton?
    ensures DetailPanel(Step(s, e).selectedZip, zipData) == DetailPanel(s.selectedZip, zipData)
  {
  }

  /** The walk-through of a session: press `+` five times, click the first
      region, click the second, press `f` twice. Zoom stops at 2, the
      clickable region's panel is open with the outperforming badge, the
      second region's click is ignored, and fullscreen is back off. */
  lemma ExampleSession()
    ensures var s := Run(InitialState, [KeyDown("+"), KeyDown("+"), KeyDown("+"), KeyDown("+"), KeyDown("+"),
                                        RegionClick(0), RegionClick(1), KeyDown("f"), KeyDown("f")]);
            && s.zoom == MaxZoom && !s.isFullscreen && s.selectedZip == Some("99504")
            && DetailPanel(s.selectedZip, SampleZipData).Some?
            && DetailPanel(s.selectedZip, SampleZipData).value.badge == "Outperforming"
  {
    var presses := [KeyDown("+"), KeyDown("+"), KeyDown("+"), KeyDown("+"), KeyDown("+")];
    var clicks := [RegionClick(0), RegionClick(1)];
    var flips := [KeyDown("f"), KeyDown("f")];
    assert presses + clicks + flips == [KeyDown("+"), KeyDown("+"), KeyDown("+"), KeyDown("+"), KeyDown("+"),
                                        RegionClick(0), RegionClick(1), KeyDown("f"), KeyDown("f")];
    RunAppend(InitialState, presses + clicks, flips);
    RunAppend(InitialState, presses, clicks);
    FivePressesReachMax();
    var zoomed := InitialState.(zoom := MaxZoom);
    ClicksSelectFirstRegion(zoomed);
    var selected := zoomed.(selectedZip := Some("99504"));
    FullscreenKeyTwice(selected);
    assert DetailPanel(Some("99504"), SampleZipData).Some?;
  }

  /** Running two sequences of events one after the other. */
  lemma {:induction false} RunAppend(s: MapState, a: seq<MapEvent>, b: seq<MapEvent>)
    ensures Run(s, a + b) == Run(Run(s, a), b)
    decreases |a|
  {
    if a != [] {
      assert (a + b)[0] == a[0] && (a + b)[1..] == a[1..] + b;
      RunAppend(Step(s, a[0]), a[1..], b);
    } else {
      assert a + b == b;
    }
  }

  /** From 1, five presses of `+` reach 2: 1.2, 1.4, 1.6, 1.8, 2. */
  lemma FivePressesReachMax()
    ensures Run(InitialState, [KeyDown("+"), KeyDown("+"), KeyDown("+"), KeyDown("+"), KeyDown("+")])
         == InitialState.(zoom := MaxZoom)
  {
    var plus := KeyDown("+");
    assert Step(InitialState, plus) == InitialState.(zoom := 12);
    assert Step(InitialState.(zoom := 12), plus) == InitialState.(zoom := 14);
    assert Step(InitialState.(zoom := 14), plus) == InitialState.(zoom := 16);
    assert Step(InitialState.(zoom := 16), plus) == InitialState.(zoom := 18);
    assert Step(InitialState.(zoom := 18), plus) == InitialState.(zoom := 20);
  }

  /** Clicking the first region, then the second, selects the first region's zip. */
  lemma ClicksSelectFirstRegion(s: MapState)
    ensures Run(s, [RegionClick(0), RegionClick(1)]) == s.(selectedZip := Some("99504"))
  {
    assert Step(s, RegionClick(0)) == s.(selectedZip := Some("99504"));
  }

  /** Pressing `f` twice leaves the state as it was. */
  lemma FullscreenKeyTwice(s: MapState)
    ensures Run(s, [KeyDown("f"), KeyDown("f")]) == s
  {
    FullscreenTwice(s, KeyDown("f"), KeyDown("f"));
  }

  /** The component instance: the same state in fields, and the zip table it
      looks records up in. */
  class PerformanceMap {
    var selectedZip: Option<string>
    var buyboxFilter: string
    var isFullscreen: bool
    var zoom: int
    const zipData: map<string, ZipRecord>

    function State(): MapState
      reads this
    {
      MapState(selectedZip, buyboxFilter, isFullscreen, zoom)
    }

    ghost predicate Valid()
      reads this
    {
      ZoomInRange(zoom)
    }

    /** Mounting: nothing selected, filter "all", not fullscreen, zoom 1. */
    constructor (zipData: map<string, ZipRecord>)
      ensures Valid() && State() == InitialState && this.zipData == zipData
    {
      selectedZip := None;
      buyboxFilter := "all";
      isFullscreen := false;
      zoom := InitialZoom;
      this.zipData := zipData;
    }

    method ZoomIn()
      requires Valid()
      modifies this
      ensures Valid() && State() == Step(old(State()), ZoomInButton)
    {
      zoom := ZoomedIn(zoom);
    }

    method ZoomOut()
      requires Valid()
      modifies this
      ensures Valid() && State() == Step(old(State()), ZoomOutButton)
    {
      zoom := ZoomedOut(zoom);
    }

    method ToggleFullscreen()
      requires Valid()
      modifies this
      ensures Valid() && State() == Step(old(State()), FullscreenButton)
    {
      isFullscreen := !isFullscreen;
    }

    method HandleKeyDown(key: string)
      requires Valid()
      modifies this
      ensures Valid() && State() == Step(old(State()), KeyDown(key))
    {
      if key == "+" || key == "=" {
        ZoomIn();
      }
      if key == "-" {
        ZoomOut();
      }
      if key == "f" || key == "F" {
        ToggleFullscreen();
      }
    }

    method ClickRegion(region: nat)
      requires Valid()
      requires region < |RegionZips|
      modifies this
      ensures Valid() && State() == Step(old(State()), RegionClick(region))
    {
      var zip := RegionZips[region];
      if zip.Some? {
        selectedZip := zip;
      }
    }

    method CloseDetail()
      requires Valid()
      modifies this
      ensures Valid() && State() == Step(old(State()), CloseButton)
    {
      selectedZip := None;
    }

    method ChangeFilter(value: string)
      requires Valid()
      modifies this
      ensures Valid() && State() == Step(old(State()), FilterChange(value))
    {
      buyboxFilter := value;
    }

    /** What the detail panel currently shows. */
    function Detail(): (p: Option<Panel>)
      reads this
      ensures p.Some? <==> selectedZip.Some? && selectedZip.value != "" && selectedZip.value in zipData
    {
      DetailPanel(selectedZip, zipData)
    }
  }
}
