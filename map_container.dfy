/** The map component's layer lifecycle: on a topic change or a refresh request the current data
    layers are torn down, the active topic's pipeline builds a fresh list of layers from the
    datasets and the control options, and the new layers are added to the map. */
module Layers {
  import opened Features
  import opened Dedup
  import opened Sites
  import opened Eras

  /** The map topics the component draws; any other label draws nothing. */
  datatype Topic = Isis | Christrome | Mithorig | OtherTopic(name: string)

  /** `appState.controlOptions` as far as the pipelines read it. */
  datatype IsisOptions = IsisOptions(templeDistance: int, artefactDistance: int, circleStep: int)
  datatype ChristromeOptions = ChristromeOptions(mode: string, churchRadius: real)
  /** `gridSize` and the per-category switches of the mithraea (`controlOptions.mithorig[c]`). */
  datatype MithorigOptions = MithorigOptions(gridSize: int, flags: map<string, bool>)
  datatype ControlOptions = ControlOptions(isis: IsisOptions, christrome: ChristromeOptions, mithorig: MithorigOptions)

  /** The datasets the pipelines only read. */
  datatype Dataset = Dataset(
    isisArtefacts: seq<Feature<IsisProps>>,
    isisTemples: seq<Feature<IsisProps>>,
    forts: seq<Feature<FortProps>>,
    mithraea: seq<Feature<MithraeumProps>>)

  /** The options object handed to a grid cluster layer: which parts it shows, its cell size and
      which rule set (none, the fort cell rules or the mithraeum marker rules) it applies. */
  datatype GridRules = FortRules | MithraeaRules
  datatype GridOptions = GridOptions(showCells: bool, showMarkers: bool, zoneSize: int, rules: Option<GridRules>)

  /** A data layer, described by what the pipeline put into it. */
  datatype Layer =
    | SegmentGroup(kind: SiteKind, maxDist: int, noSteps: Option<int>, sites: seq<Feature<IsisProps>>)
    | Markers(className: string, points: seq<Coord>)
    | RegionLayer(regions: seq<Region>, colors: seq<string>)
    | BufferLayer(id: nat, color: string, pieces: seq<Shape>)
    | GridLayer(options: GridOptions, markers: seq<GridPoint>)

  /** Whether a layer has an `unregister` method, and whether calling it throws. */
  datatype Hook = NoUnregister | Unregisters | UnregisterThrows

  /** The calls the component makes on layers and the map, in the order it makes them; `Logged`
      is the console report of an exception thrown by `unregister`. */
  datatype Effect =
    | Unregistered(layer: Layer)
    | Logged(layer: Layer)
    | Cleared(layer: Layer)
    | Removed(layer: Layer)
    | Added(layer: Layer)

  // ---------------------------------------------------------------------------------------------
  // Teardown and drawing

  /** The calls `clearDataLayer` makes for one layer. */
  function LayerTeardown(l: Layer, hook: Layer -> Hook): seq<Effect> {
    (if hook(l) == NoUnregister then [] else [Unregistered(l)] + (if hook(l) == UnregisterThrows then [Logged(l)] else []))
    + [Cleared(l), Removed(l)]
  }

  /** The calls `clearDataLayer` makes for a list of layers, layer after layer. */
  function Teardown(ls: seq<Layer>, hook: Layer -> Hook): seq<Effect> {
    if ls == [] then [] else Teardown(ls[..|ls| - 1], hook) + LayerTeardown(ls[|ls| - 1], hook)
  }

  /** The calls `drawLayers` makes: every layer is added to the map, in list order. */
  function Draw(ls: seq<Layer>): (r: seq<Effect>)
    ensures |r| == |ls|
  {
    seq(|ls|, i requires 0 <= i < |ls| => Added(ls[i]))
  }

  /** Tearing down two lists one after the other is tearing down their concatenation: one
      layer's failure does not cut short the teardown of the layers after it. */
  lemma {:induction false} TeardownConcat(a: seq<Layer>, b: seq<Layer>, hook: Layer -> Hook)
    ensures Teardown(a + b, hook) == Teardown(a, hook) + Teardown(b, hook)
    decreases |b|
  {
    if b == [] {
      assert a + b == a;
    } else {
      var b' := b[..|b| - 1];
      assert (a + b)[..|a + b| - 1] == a + b';
      assert (a + b)[|a + b| - 1] == b[|b| - 1];
      TeardownConcat(a, b', hook);
    }
  }

  /** A call is in the teardown of a list exactly when it is in the teardown of one of its
      layers. */
  lemma {:induction false} InTeardown(ls: seq<Layer>, hook: Layer -> Hook, e: Effect)
    ensures e in Teardown(ls, hook) <==> exists l :: l in ls && e in LayerTeardown(l, hook)
    decreases |ls|
  {
    if ls != [] {
      var pre := ls[..|ls| - 1];
      InTeardown(pre, hook, e);
      assert forall l :: l in ls <==> l in pre || l == ls[|ls| - 1];
    }
  }

  /** Every torn-down layer is cleared and removed from the map, and unregistered when it has an
      `unregister`; an exception from it is logged; nothing is added, and every call concerns one
      of the layers. */
  lemma TeardownEffects(ls: seq<Layer>, hook: Layer -> Hook)
    ensures forall l :: l in ls ==> Cleared(l) in Teardown(ls, hook) && Removed(l) in Teardown(ls, hook)
    ensures forall l :: l in ls ==> (Unregistered(l) in Teardown(ls, hook) <==> hook(l) != NoUnregister)
    ensures forall l :: l in ls ==> (Logged(l) in Teardown(ls, hook) <==> hook(l) == UnregisterThrows)
    ensures forall e :: e in Teardown(ls, hook) ==> !e.Added? && e.layer in ls
  {
    var t := Teardown(ls, hook);
    forall l | l in ls ensures Cleared(l) in t && Removed(l) in t {
      InTeardown(ls, hook, Cleared(l));
      InTeardown(ls, hook, Removed(l));
    }
    forall l | l in ls ensures Unregistered(l) in t <==> hook(l) != NoUnregister {
      InTeardown(ls, hook, Unregistered(l));
      LayerTeardownShape(l, hook);
      if Unregistered(l) in t {
        var l' :| l' in ls && Unregistered(l) in LayerTeardown(l', hook);
        LayerTeardownShape(l', hook);
      }
    }
    forall l | l in ls ensures Logged(l) in t <==> hook(l) == UnregisterThrows {
      InTeardown(ls, hook, Logged(l));
      LayerTeardownShape(l, hook);
      if Logged(l) in t {
        var l' :| l' in ls && Logged(l) in LayerTeardown(l', hook);
        LayerTeardownShape(l', hook);
      }
    }
    forall e | e in t ensures !e.Added? && e.layer in ls {
      InTeardown(ls, hook, e);
      var l' :| l' in ls && e in LayerTeardown(l', hook);
      LayerTeardownShape(l', hook);
    }
  }

  /** The calls for one layer all concern that layer, and say what its hook does. */
  lemma LayerTeardownShape(l: Layer, hook: Layer -> Hook)
    ensures Cleared(l) in LayerTeardown(l, hook) && Removed(l) in LayerTeardown(l, hook)
    ensures Unregistered(l) in LayerTeardown(l, hook) <==> hook(l) != NoUnregister
    ensures Logged(l) in LayerTeardown(l, hook) <==> hook(l) == UnregisterThrows
    ensures forall e :: e in LayerTeardown(l, hook) ==> !e.Added? && e.layer == l
  {
  }

  // ---------------------------------------------------------------------------------------------
  // ISIS

  /** The ISIS topic's layers: the artefact and the temple segment groups, the auxiliary circles
      and the site markers. */
  function IsisLayers(opts: IsisOptions, data: Dataset): seq<Layer> {
    var unique := UniqueIsis(data.isisArtefacts, data.isisTemples);
    [SegmentGroup(ArtefactSite, opts.artefactDistance, NoSteps(opts.artefactDistance, opts.circleStep), data.isisArtefacts),
     SegmentGroup(TempleSite, opts.templeDistance, NoSteps(opts.templeDistance, opts.circleStep), data.isisTemples),
     Markers("map-aux", AuxMarkers(unique)),
     Markers("map-isis", RepsOf(unique))]
  }

  // ---------------------------------------------------------------------------------------------
  // CHRISTROME

  /** Two church lists that agree on everything the classification reads. */
  ghost predicate SameSites(a: seq<Feature<ChurchProps>>, b: seq<Feature<ChurchProps>>) {
    |a| == |b| &&
    forall i :: 0 <= i < |a| ==> a[i].geometry == b[i].geometry && a[i].properties.date == b[i].properties.date
  }

  /** The churches with their era written into `time`. */
  function ClassifiedChurches(cs: seq<Feature<ChurchProps>>): (r: seq<Feature<ChurchProps>>)
    ensures |r| == |cs|
  {
    seq(|cs|, i requires 0 <= i < |cs| => WithTime(cs[i], EraOf(ChurchesGroups, cs[i].properties.date)))
  }

  /** The group table once every church is classified. */
  function GroupTable(cs: seq<Feature<ChurchProps>>): (r: seq<EraGroup>)
    ensures |r| == |ChurchesGroups|
  {
    seq(|ChurchesGroups|, k requires 0 <= k < |ChurchesGroups| => ChurchesGroups[k].(items := Members(cs, ChurchesGroups[k], |cs|)))
  }

  /** The group table with the buffered outlines. */
  function BufferedTable(cs: seq<Feature<ChurchProps>>, radius: real, geo: Geo): (r: seq<EraGroup>)
    ensures |r| == |ChurchesGroups|
    ensures forall k :: 0 <= k < |r| ==> r[k].id == ChurchesGroups[k].id && r[k].color == ChurchesGroups[k].color
  {
    WithBuffers(GroupTable(cs), cs, radius, geo)
  }

  /** The regions with their era written into `time`. */
  function PaintedRegions(rs: seq<Region>, groups: seq<EraGroup>, geo: Geo): (r: seq<Region>)
    ensures |r| == |rs|
  {
    seq(|rs|, i requires 0 <= i < |rs| => rs[i].(time := RegionEra(groups, rs[i].shape, geo)))
  }

  /** The fill colour the region style picks for every region. */
  function RegionColors(rs: seq<Region>, groups: seq<EraGroup>): (colors: seq<string>)
    requires forall i :: 0 <= i < |rs| ==> ColorOf(groups, rs[i].time).Some?
    ensures |colors| == |rs|
  {
    seq(|rs|, i requires 0 <= i < |rs| => ColorOf(groups, rs[i].time).value)
  }

  /** After painting with the topic's table, the colour lookup finds a group for every region. */
  lemma PaintedColorsFound(rs: seq<Region>, groups: seq<EraGroup>, geo: Geo)
    requires |groups| == |ChurchesGroups|
    requires forall k :: 0 <= k < |groups| ==> groups[k].id == ChurchesGroups[k].id
    ensures forall i :: 0 <= i < |rs| ==> ColorOf(groups, PaintedRegions(rs, groups, geo)[i].time).Some?
  {
    forall i | 0 <= i < |rs| ensures ColorOf(groups, PaintedRegions(rs, groups, geo)[i].time).Some? {
      RegionEraInTable(groups, rs[i].shape, geo);
    }
  }

  /** `churchesGroups.filter(g => g.id !== 0).reverse()`, one buffer layer per group. */
  function RadiiLayers(groups: seq<EraGroup>): seq<Layer> {
    if groups == [] then []
    else RadiiLayers(groups[1..]) + (if groups[0].id != 0 then [BufferLayer(groups[0].id, groups[0].color, groups[0].buffer)] else [])
  }

  /** The CHRISTROME topic's layers: the painted regions or the era outlines, depending on the
      mode, then the auxiliary circles and the church markers. */
  function ChristromeLayers(cs: seq<Feature<ChurchProps>>, rs: seq<Region>, opts: ChristromeOptions, geo: Geo): seq<Layer> {
    var groups := BufferedTable(cs, opts.churchRadius, geo);
    var unique := UniqueChurches(ClassifiedChurches(cs));
    var churchLayers := [Markers("map-aux", AuxMarkers(unique)), Markers("map-churches", RepsOf(unique))];
    if opts.mode == "regions" then
      var painted := PaintedRegions(rs, groups, geo);
      PaintedColorsFound(rs, groups, geo);
      [RegionLayer(painted, RegionColors(painted, groups))] + churchLayers
    else if opts.mode == "radii" then
      RadiiLayers(groups) + churchLayers
    else
      churchLayers
  }

  /** The outlines are drawn from the latest era to the earliest: ids 1, 2, 3. */
  lemma RadiiOrder(cs: seq<Feature<ChurchProps>>, radius: real, geo: Geo)
    ensures var t := BufferedTable(cs, radius, geo);
            RadiiLayers(t) == [BufferLayer(1, t[2].color, t[2].buffer), BufferLayer(2, t[1].color, t[1].buffer), BufferLayer(3, t[0].color, t[0].buffer)]
  {
    var t := BufferedTable(cs, radius, geo);
    assert t[3..][1..] == [];
    assert RadiiLayers(t[3..]) == [];
    assert t[2..][1..] == t[3..];
    assert RadiiLayers(t[2..]) == [BufferLayer(1, t[2].color, t[2].buffer)];
    assert t[1..][1..] == t[2..];
    assert RadiiLayers(t[1..]) == [BufferLayer(1, t[2].color, t[2].buffer), BufferLayer(2, t[1].color, t[1].buffer)];
  }

  // ---------------------------------------------------------------------------------------------
  // MITHORIG

  /** The MITHORIG topic's layers. One options object serves both grids and is extended in place,
      so the mithraea grid keeps the `showCells` the fort grid switched on; the mithraea grid is
      pushed twice. */
  function MithorigLayers(opts: MithorigOptions, data: Dataset, geo: Geo): seq<Layer> {
    var forts := UniqueForts(data.forts, geo);
    var mithraea := UniqueMithraea(data.mithraea, opts.flags, geo);
    MithraeumClusters(data.mithraea, opts.flags, geo);
    var mithraeaGrid := GridLayer(GridOptions(true, true, opts.gridSize, Some(MithraeaRules)), MithraeaPoints(mithraea));
    [GridLayer(GridOptions(true, false, opts.gridSize, Some(FortRules)), FortPoints(forts)), mithraeaGrid, mithraeaGrid]
  }

  // ---------------------------------------------------------------------------------------------
  // Topics

  function TopicLayers(topic: Topic, options: ControlOptions, data: Dataset, cs: seq<Feature<ChurchProps>>, rs: seq<Region>, geo: Geo): seq<Layer> {
    match topic
    case Isis => IsisLayers(options.isis, data)
    case Christrome => ChristromeLayers(cs, rs, options.christrome, geo)
    case Mithorig => MithorigLayers(options.mithorig, data, geo)
    case OtherTopic(_) => []
  }

  /** The churches after a topic has been drawn: only CHRISTROME classifies them. */
  function ChurchesAfter(topic: Topic, cs: seq<Feature<ChurchProps>>): seq<Feature<ChurchProps>> {
    if topic == Christrome then ClassifiedChurches(cs) else cs
  }

  /** The regions after a topic has been drawn: only CHRISTROME in "regions" mode paints them. */
  function RegionsAfter(topic: Topic, opts: ChristromeOptions, cs: seq<Feature<ChurchProps>>, rs: seq<Region>, geo: Geo): seq<Region> {
    if topic == Christrome && opts.mode == "regions" then PaintedRegions(rs, BufferedTable(cs, opts.churchRadius, geo), geo) else rs
  }

  /** The layers each topic draws: none for an unknown topic, four for ISIS, two, three or five
      for CHRISTROME depending on the mode, and three for MITHORIG, the last two being the same
      mithraea grid. */
  lemma TopicLayerCounts(topic: Topic, options: ControlOptions, data: Dataset, cs: seq<Feature<ChurchProps>>, rs: seq<Region>, geo: Geo)
    ensures topic.OtherTopic? ==> TopicLayers(topic, options, data, cs, rs, geo) == []
    ensures topic == Isis ==> |TopicLayers(topic, options, data, cs, rs, geo)| == 4
    ensures topic == Christrome ==>
              |TopicLayers(topic, options, data, cs, rs, geo)| ==
              (if options.christrome.mode == "regions" then 3 else if options.christrome.mode == "radii" then 5 else 2)
    ensures topic == Mithorig ==>
              |TopicLayers(topic, options, data, cs, rs, geo)| == 3 &&
              TopicLayers(topic, options, data, cs, rs, geo)[1] == TopicLayers(topic, options, data, cs, rs, geo)[2]
  {
    if topic == Christrome && options.christrome.mode == "radii" {
      RadiiOrder(cs, options.christrome.churchRadius, geo);
    }
  }

  // ---------------------------------------------------------------------------------------------
  // Drawing a topic twice

  lemma {:induction false} MembersIgnoreTimes(a: seq<Feature<ChurchProps>>, b: seq<Feature<ChurchProps>>, g: EraGroup, n: nat)
    requires SameSites(a, b) && n <= |a|
    ensures Members(a, g, n) == Members(b, g, n)
  {
    if n > 0 {
      MembersIgnoreTimes(a, b, g, n - 1);
    }
  }

  lemma {:induction false} ItemPositionsIgnoreTimes(a: seq<Feature<ChurchProps>>, b: seq<Feature<ChurchProps>>, items: seq<nat>)
    requires SameSites(a, b)
    ensures ItemPositions(a, items) == ItemPositions(b, items)
    decreases |items|
  {
    if items != [] {
      ItemPositionsIgnoreTimes(a, b, items[..|items| - 1]);
    }
  }

  /** The group table, with its outlines, depends only on the churches' positions and dates. */
  lemma BufferedTableIgnoresTimes(a: seq<Feature<ChurchProps>>, b: seq<Feature<ChurchProps>>, radius: real, geo: Geo)
    requires SameSites(a, b)
    ensures GroupTable(a) == GroupTable(b)
    ensures BufferedTable(a, radius, geo) == BufferedTable(b, radius, geo)
  {
    forall k | 0 <= k < |ChurchesGroups| ensures GroupTable(a)[k] == GroupTable(b)[k] {
      MembersIgnoreTimes(a, b, ChurchesGroups[k], |a|);
    }
    forall k | 0 <= k < |ChurchesGroups| ensures BufferedTable(a, radius, geo)[k] == BufferedTable(b, radius, geo)[k] {
      ItemPositionsIgnoreTimes(a, b, GroupTable(a)[k].items);
    }
  }

  /** Classifying classified churches changes nothing, and so does painting painted regions: the
      era is recomputed from scratch and does not read the old `time`. */
  lemma ClassifyIdempotent(cs: seq<Feature<ChurchProps>>)
    ensures SameSites(ClassifiedChurches(cs), cs)
    ensures ClassifiedChurches(ClassifiedChurches(cs)) == ClassifiedChurches(cs)
  {
  }

  lemma PaintIdempotent(rs: seq<Region>, groups: seq<EraGroup>, geo: Geo)
    ensures PaintedRegions(PaintedRegions(rs, groups, geo), groups, geo) == PaintedRegions(rs, groups, geo)
  {
  }

  /** Drawing a topic again on the data its first drawing left behind yields the same layers and
      leaves the data as the first drawing did. */
  lemma Redraw(topic: Topic, options: ControlOptions, data: Dataset, cs: seq<Feature<ChurchProps>>, rs: seq<Region>, geo: Geo)
    ensures var cs', rs' := ChurchesAfter(topic, cs), RegionsAfter(topic, options.christrome, cs, rs, geo);
            TopicLayers(topic, options, data, cs', rs', geo) == TopicLayers(topic, options, data, cs, rs, geo) &&
            ChurchesAfter(topic, cs') == cs' &&
            RegionsAfter(topic, options.christrome, cs', rs', geo) == rs'
  {
    if topic == Christrome {
      var opts := options.christrome;
      var cs' := ClassifiedChurches(cs);
      ClassifyIdempotent(cs);
      BufferedTableIgnoresTimes(cs', cs, opts.churchRadius, geo);
      PaintIdempotent(rs, BufferedTable(cs, opts.churchRadius, geo), geo);
    }
  }

  // ---------------------------------------------------------------------------------------------
  // The component and the globals it reads

  /** `appState`, `data` and `window` as the component sees them: the active topic, the control
      options, the datasets, the church and region features it rewrites in place, and the
      `newwRefreshMap` flag. */
  class Globals {
    var activeMapTopic: Topic
    var options: ControlOptions
    var data: Dataset
    var churches: array<Feature<ChurchProps>>
    var regions: array<Region>
    var refreshMap: bool

    constructor (topic: Topic, options: ControlOptions, data: Dataset,
                 churches: array<Feature<ChurchProps>>, regions: array<Region>)
      ensures activeMapTopic == topic && this.options == options && this.data == data
      ensures this.churches == churches && this.regions == regions && !refreshMap
    {
      activeMapTopic := topic;
      this.options := options;
      this.data := data;
      this.churches := churches;
      this.regions := regions;
      refreshMap := false;
    }
  }

  class MapContainer {
    var lastTopic: Topic
    var dataLayers: seq<Layer>
    var effects: seq<Effect>

    /** The state `componentDidMount` sets up before drawing. */
    constructor (topic: Topic)
      ensures lastTopic == topic && dataLayers == [] && effects == []
    {
      lastTopic := topic;
      dataLayers := [];
      effects := [];
    }

    /** `drawLayers`. */
    method DrawLayers()
      modifies this`effects
      ensures effects == old(effects) + Draw(dataLayers)
    {
      var i := 0;
      while i < |dataLayers|
        invariant 0 <= i <= |dataLayers|
        invariant effects == old(effects) + Draw(dataLayers[..i])
      {
        effects := effects + [Added(dataLayers[i])];
        i := i + 1;
      }
    }

    /** `clearDataLayer`: every layer is unregistered when it can be (an exception is logged and
        the loop goes on), cleared and removed from the map; then the list is emptied. */
    method ClearDataLayer(hook: Layer -> Hook)
      modifies this`dataLayers, this`effects
      ensures dataLayers == []
      ensures effects == old(effects) + Teardown(old(dataLayers), hook)
    {
      var layers := dataLayers;
      var i := 0;
      while i < |layers|
        invariant 0 <= i <= |layers|
        invariant effects == old(effects) + Teardown(layers[..i], hook)
      {
        var layer := layers[i];
        if hook(layer) != NoUnregister {
          effects := effects + [Unregistered(layer)];
          if hook(layer) == UnregisterThrows {
            effects := effects + [Logged(layer)];
          }
        }
        effects := effects + [Cleared(layer)];
        effects := effects + [Removed(layer)];
        assert layers[..i + 1][..i] == layers[..i];
        i := i + 1;
      }
      assert layers[..i] == layers;
      dataLayers := [];
    }

    /** `visualiseIsis`. */
    method VisualiseIsis(opts: IsisOptions, data: Dataset)
      modifies this`dataLayers
      ensures dataLayers == old(dataLayers) + IsisLayers(opts, data)
    {
      var temples := SegmentGroup(TempleSite, opts.templeDistance, NoSteps(opts.templeDistance, opts.circleStep), data.isisTemples);
      var artefacts := SegmentGroup(ArtefactSite, opts.artefactDistance, NoSteps(opts.artefactDistance, opts.circleStep), data.isisArtefacts);
      dataLayers := dataLayers + [artefacts];
      dataLayers := dataLayers + [temples];
      var unique := DedupIsis(data.isisArtefacts, data.isisTemples);
      dataLayers := dataLayers + [Markers("map-aux", AuxMarkers(unique))];
      dataLayers := dataLayers + [Markers("map-isis", RepsOf(unique))];
    }

    /** `visualiseChristrome`: classify the churches in place, buffer the groups, then paint the
        regions in place or draw the outlines, then the church markers. */
    method VisualiseChristrome(opts: ChristromeOptions, churches: array<Feature<ChurchProps>>, regions: array<Region>, geo: Geo)
      modifies this`dataLayers, churches, regions
      ensures dataLayers == old(dataLayers) + ChristromeLayers(old(churches[..]), old(regions[..]), opts, geo)
      ensures churches[..] == ClassifiedChurches(old(churches[..]))
      ensures regions[..] == RegionsAfter(Christrome, opts, old(churches[..]), old(regions[..]), geo)
    {
      ghost var cs := churches[..];
      ghost var rs := regions[..];
      var groups := ClassifyChurches(churches);
      assert churches[..] == ClassifiedChurches(cs);
      assert groups == GroupTable(cs);
      ClassifyIdempotent(cs);
      forall k | 0 <= k < |groups| ensures ItemPositions(churches[..], groups[k].items) == ItemPositions(cs, groups[k].items) {
        ItemPositionsIgnoreTimes(churches[..], cs, groups[k].items);
      }
      groups := WithBuffers(groups, churches[..], opts.churchRadius, geo);
      assert groups == BufferedTable(cs, opts.churchRadius, geo);
      if opts.mode == "regions" {
        AssignRegionEras(regions, groups, geo);
        assert regions[..] == PaintedRegions(rs, groups, geo);
        PaintedColorsFound(rs, groups, geo);
        dataLayers := dataLayers + [RegionLayer(regions[..], RegionColors(regions[..], groups))];
      }
      if opts.mode == "radii" {
        dataLayers := dataLayers + RadiiLayers(groups);
      }
      var unique := DedupChurches(churches[..]);
      dataLayers := dataLayers + [Markers("map-aux", AuxMarkers(unique)), Markers("map-churches", RepsOf(unique))];
    }

    /** `visualiseMithorig`. The grid options object is extended in place for each grid. */
    method VisualiseMithorig(opts: MithorigOptions, data: Dataset, geo: Geo)
      modifies this`dataLayers
      ensures dataLayers == old(dataLayers) + MithorigLayers(opts, data, geo)
    {
      var gridOptions := GridOptions(false, false, opts.gridSize, None);
      gridOptions := gridOptions.(showCells := true, rules := Some(FortRules));
      var fortOptions := gridOptions;
      var forts := DedupForts(data.forts, geo);
      dataLayers := dataLayers + [GridLayer(fortOptions, FortPoints(forts))];
      gridOptions := gridOptions.(showMarkers := true, rules := Some(MithraeaRules));
      var mithraea := DedupMithraea(data.mithraea, opts.flags, geo);
      MithraeumClusters(data.mithraea, opts.flags, geo);
      var mithraeaGrid := GridLayer(gridOptions, MithraeaPoints(mithraea));
      dataLayers := dataLayers + [mithraeaGrid];
      dataLayers := dataLayers + [mithraeaGrid];
    }

    /** `visualiseTopic`: tear the old layers down, run the active topic's pipeline (none for an
        unknown topic) and add the new layers to the map. */
    method VisualiseTopic(g: Globals, geo: Geo, hook: Layer -> Hook)
      modifies this`dataLayers, this`effects, g.churches, g.regions
      ensures dataLayers == TopicLayers(g.activeMapTopic, g.options, g.data, old(g.churches[..]), old(g.regions[..]), geo)
      ensures effects == old(effects) + Teardown(old(dataLayers), hook) + Draw(dataLayers)
      ensures g.churches[..] == ChurchesAfter(g.activeMapTopic, old(g.churches[..]))
      ensures g.regions[..] == RegionsAfter(g.activeMapTopic, g.options.christrome, old(g.churches[..]), old(g.regions[..]), geo)
    {
      var topic := g.activeMapTopic;
      ClearDataLayer(hook);
      match topic {
        case Isis => VisualiseIsis(g.options.isis, g.data);
        case Christrome => VisualiseChristrome(g.options.christrome, g.churches, g.regions, geo);
        case Mithorig => VisualiseMithorig(g.options.mithorig, g.data, geo);
        case OtherTopic(_) =>
      }
      DrawLayers();
    }

    /** `afterRender`: the topic is drawn once when it differs from the last one drawn, and once
        more when the refresh flag is set, which is then cleared. Returns how many times it was
        drawn. */
    method AfterRender(g: Globals, geo: Geo, hook: Layer -> Hook) returns (runs: nat)
      modifies this, g`refreshMap, g.churches, g.regions
      ensures runs == (if old(lastTopic) != g.activeMapTopic then 1 else 0) + (if old(g.refreshMap) then 1 else 0)
      ensures lastTopic == g.activeMapTopic && !g.refreshMap
      ensures runs == 0 ==> dataLayers == old(dataLayers) && effects == old(effects)
      ensures runs == 0 ==> g.churches[..] == old(g.churches[..]) && g.regions[..] == old(g.regions[..])
      ensures runs > 0 ==> dataLayers == TopicLayers(g.activeMapTopic, g.options, g.data, old(g.churches[..]), old(g.regions[..]), geo)
      ensures runs > 0 ==> g.churches[..] == ChurchesAfter(g.activeMapTopic, old(g.churches[..]))
      ensures runs > 0 ==> g.regions[..] == RegionsAfter(g.activeMapTopic, g.options.christrome, old(g.churches[..]), old(g.regions[..]), geo)
      ensures runs == 1 ==> effects == old(effects) + Teardown(old(dataLayers), hook) + Draw(dataLayers)
      ensures runs == 2 ==> effects == old(effects) + Teardown(old(dataLayers), hook) + Draw(dataLayers) + Teardown(dataLayers, hook) + Draw(dataLayers)
    {
      runs := 0;
      if lastTopic != g.activeMapTopic {
        lastTopic := g.activeMapTopic;
        VisualiseTopic(g, geo, hook);
        runs := runs + 1;
      }
      if g.refreshMap {
        Redraw(g.activeMapTopic, g.options, g.data, old(g.churches[..]), old(g.regions[..]), geo);
        VisualiseTopic(g, geo, hook);
        g.refreshMap := false;
        runs := runs + 1;
      }
    }
  }
}
