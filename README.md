# gehir-mapapp map topics, modelled in Dafny

This project models the data side of the map component of gehir-mapapp. The component is
`MapContainer` in `app/components/map.jsx`. The model also covers the pending-change buffer of the
control panel (`InfoLegend` in `app/components/info/control.jsx`).

- **Point de-duplication** (`dedup.dfy`, `sites.dfy`). Each pipeline walks its feature list in
  order. A feature joins the first cluster whose representative matches it, or else opens a new
  cluster at its own position. There are four pipelines:
  - ISIS artefacts, then temples, with the longitude-only key `cs[0] ===`;
  - dated churches, with the same key;
  - forts, matched within 10000 m;
  - mithraea whose category switch is on, matched within 10000 m.

  The loop (`Dedup.Deduplicate`) is proved against a fold (`DedupFrom`). The fold is proved equal
  to an independent description (`Reference`) and to keep counts, non-empty clusters and
  representatives apart.
- **Markers** (`sites.dfy`, `probability.dfy`):
  - auxiliary circles at clusters with more than one item;
  - the fort radius rule;
  - the mithraeum weight average and its colour band;
  - the `noSteps` ring count, with `parseInt` as truncation toward zero.
- **Church eras and regions** (`eras.dfy`). Each church's `time` and each group's `items` are
  rewritten in place over an array of churches. Each region's `time` is rewritten in place over an
  array of regions, taking the highest era whose buffered outline it meets.
- **Layer lifecycle** (`map_container.dfy`). These are `afterRender`, `clearDataLayer`,
  `visualiseTopic`, the three topic pipelines and `drawLayers`, on a `MapContainer` class. Its
  `dataLayers` field is the layer list. A log of the calls made on layers and on the map stands
  for Leaflet. The globals `appState`, `data` and `window.newwRefreshMap` are a `Globals` object.
- **Pending changes** (`control.dfy`). These are `_getActualOptionValue`,
  `_addNewPosponedChange`, `handleChange` and `handleRunChange`, on an `InfoLegend` class. It
  holds `postponedChanges` and a log of dispatched `CONTROL_CHANGE` actions.

Some operations are foreign: geometry (`distanceTo`, `bounds.intersects`, `turf.intersect`, and
turf buffer, dissolve and simplify), and whether a layer has an `unregister` that throws. These
reach the model as function-valued parameters (`Features.Geo`, a `hook`). The model assumes
nothing about them beyond what a lemma states in its `requires`: a symmetric distance, or a zero
distance from a point to itself.

Three behaviours of the code worth knowing:
- **Era groups are cumulative.** A church is pushed into every bounded group whose bound exceeds its
  date (`map.jsx:378-387`). A church dated 320 is therefore in both the 350 group and the 800
  group, not only in the 350 group, and its `time` is 2. Not every dated church lands in exactly
  one group: group 0 never receives anything (`Eras.GroupsNested`). A church dated 800 or later
  is in no group.
- **Region eras take the largest group id** (`map.jsx:427-431`). Ids grow toward earlier eras
  (id 3 is the 313 group). A region that meets the outlines of the 313 group and the 800 group
  therefore gets era 3, the 313 group, not the 800 group.
- **Bound comparison.** `group.time > date` compares a one-element array with a number. The model
  follows JavaScript's coercion (`Eras.LooseGreater`). For the topic's table, this is the numeric
  comparison (`Eras.BoundComparison`).

## Model

| member | source | states |
|---|---|---|
| `Dedup.FirstMatch` | app/components/map.jsx:279-281 | `find` over the representatives: the result is the first representative that matches the key, or the list length when none matches |
| `Dedup.Deduplicate` | app/components/map.jsx:274-292 | the find-then-push loop yields exactly the clusters of the fold `DedupFrom` from the clusters it started with |
| `Dedup.DedupCount` | app/components/map.jsx:273-309 | after the loop the clusters hold as many items as before plus one per candidate: nothing is lost or duplicated |
| `Dedup.DedupNonEmpty` | app/components/map.jsx:287-291 | every cluster the loop leaves has at least one item |
| `Dedup.DedupKeepsApart` | app/components/map.jsx:279-291 | if no representative matched an earlier one before the loop, none does after it |
| `Dedup.DedupConcat` | app/components/map.jsx:274-309 | running the loop over one list and then another is running it over their concatenation |
| `Dedup.DedupIsReference` | app/components/map.jsx:273-309 | with a reflexive match rule, the loop from no clusters gives the reference description: representatives are the candidates that matched no earlier one, and each cluster holds the candidates whose first match it is, in input order |
| `Dedup.RepIsFirstSeen` | app/components/map.jsx:289-291 | each representative is the position of the first candidate that landed in its cluster |
| `Dedup.RepsApart` | app/components/map.jsx:279-281 | no representative of the reference description matches an earlier one |
| `Dedup.ItemsAtConcat` | app/components/map.jsx:274-309 | a cluster's items over two input lists are its items from the first list followed by its items from the second |
| `Sites.Candidates` | app/components/map.jsx:273-277 | the filter keeps exactly the features with a position that pass the pipeline's test, as many candidates as such features, each keyed by the feature's position |
| `Sites.CandidatesConcat` | app/components/map.jsx:273-277 | the filter keeps input order: the candidates of a concatenation are those of its parts, one after the other |
| `Sites.CandidatesSingle` | app/components/map.jsx:273-277 | one feature gives exactly one candidate, keyed by its position, when it has a position and passes the test, and none otherwise |
| `Sites.DedupIsis` | app/components/map.jsx:273-309 | the two ISIS loops, artefacts then temples over the same cluster list, give `UniqueIsis` |
| `Sites.IsisClusters` | app/components/map.jsx:273-309 | the ISIS clusters count every kept artefact and temple once, no two share a longitude, none is empty, and they match the reference description over artefacts followed by temples |
| `Sites.IsisArtefactsFirst` | app/components/map.jsx:274-309 | inside an ISIS cluster no artefact comes after a temple |
| `Sites.DedupChurches` | app/components/map.jsx:465-475 | the church loop gives `UniqueChurches` |
| `Sites.ChurchClusters` | app/components/map.jsx:465-475 | the church clusters count every dated church with a position once, no two share a longitude, none is empty, and they match the reference description |
| `Sites.DedupForts` | app/components/map.jsx:564-580 | the fort loop gives `UniqueForts` |
| `Sites.DedupMithraea` | app/components/map.jsx:620-637 | the mithraeum loop gives `UniqueMithraea` |
| `Sites.ThresholdClusters` | app/components/map.jsx:564-580 | under a distance threshold, every candidate is counted once, no cluster is empty, and a representative lies at least the threshold from every earlier one (every other one when the distance is symmetric); the clusters match the reference description when a point is at distance zero from itself |
| `Sites.FortClusters` | app/components/map.jsx:564-580 | every fort with a position is counted once and fort representatives lie at least 10000 m apart |
| `Sites.MithraeumClusters` | app/components/map.jsx:620-637 | every enabled mithraeum with a position is counted once, no mithraeum whose category is off appears, clusters are non-empty, and representatives lie at least 10000 m apart |
| `Sites.AuxMarkers` | app/components/map.jsx:333-337 | an auxiliary circle is drawn at a position exactly when it is the representative of a cluster with more than one item |
| `Sites.AuxMarkersConcat` | app/components/map.jsx:333-337 | the circles keep cluster order: the circles of a concatenation are those of its parts, one after the other |
| `Sites.AuxMarkersSingle` | app/components/map.jsx:333-337 | one cluster gives exactly one circle, at its representative, when it has more than one item, and none otherwise |
| `Sites.FortPoints` | app/components/map.jsx:582-593 | one fort marker per cluster at its representative, radius 5 exactly when the cluster has more than one fort and 3 otherwise |
| `Sites.MithraeaPoints` | app/components/map.jsx:639-652 | one mithraeum marker per cluster at its representative; its weight is the average label weight of the cluster's items, in [0, 1], 1 exactly when every item is "definitive" and 0 exactly when none is "definitive" or "probable"; its colour is the band of that weight |
| `Sites.TruncDiv` | app/components/map.jsx:251 | `parseInt` of a quotient truncates toward zero: the magnitude is the floor of the magnitudes' quotient and the sign follows the operands' signs |
| `Sites.NoSteps` | app/components/map.jsx:251 | the ring count is missing exactly when the step is 0; for a non-negative distance and a positive step it is the integer part of distance / step plus one |
| `Probability.WeightSumBounds` | app/components/map.jsx:603-608 | summed label weights lie between 0 and the label count, reach the count exactly when every label is "definitive", and are 0 exactly when no label is "definitive" or "probable" |
| `Probability.WeightProbability` | app/components/map.jsx:602-611 | the average weight of a non-empty label list is in [0, 1]; it is 1 exactly when all labels are "definitive" and 0 exactly when none is "definitive" or "probable" |
| `Probability.ColorIndexMonotone` | app/components/map.jsx:612-617 | a larger average never selects a lower colour band |
| `Probability.ColorProbability` | app/components/map.jsx:612-617 | the colour is one of the three mithraic colours: the most certain one when all labels are "definitive", the least certain one when none is "definitive" or "probable" |
| `Eras.MaxHitIdIsMaximum` | app/components/map.jsx:378-387 | the `Math.max` fold over the groups other than 0 that pass a test is the largest such id, and 0 when there is none |
| `Eras.ClassifyChurches` | app/components/map.jsx:374-389 | every church's `time` is rewritten to its era and nothing else in it changes; each group's items are the positions, in order, of the churches that join it |
| `Eras.StampChurch` | app/components/map.jsx:375-388 | one church's turn: its `time` becomes its era, it is pushed onto the groups it joins, and no other church changes |
| `Eras.MembersIff` | app/components/map.jsx:378-386 | a church is in a group's items exactly when the group is not group 0, the church's date is truthy and below the group's bound, and the church has a position; the items are in church order |
| `Eras.BoundComparison` | app/components/map.jsx:381 | for the table's one-element bounds, JavaScript's array-to-number comparison is the numeric comparison |
| `Eras.EraOfDate` | app/components/map.jsx:374-389 | a church's era is 3 below 313, 2 below 350, 1 below 800, and 0 for a falsy date or a date of 800 or later |
| `Eras.MembersByEra` | app/components/map.jsx:378-386 | a church with a position is in a bounded group exactly when its era is at least the group's id |
| `Eras.GroupsNested` | app/components/map.jsx:346-389 | the groups are cumulative: the items of the 313 group are among those of the 350 group, which are among those of the 800 group; group 0 receives nothing |
| `Eras.NoMembersInGroupZero` | app/components/map.jsx:378-379 | nothing is ever pushed into a group with id 0 |
| `Eras.WithBuffers` | app/components/map.jsx:392-410 | every group other than 0 gets the outline pieces drawn around its churches' positions; group 0 and every other field are unchanged |
| `Eras.FindPiece` | app/components/map.jsx:421-426 | a piece is found exactly when some piece passes both the bounding-box test and the exact test, and the piece found passes both |
| `Eras.AssignRegionEras` | app/components/map.jsx:414-433 | every region's `time` becomes the fold over the groups it overlaps, and nothing else changes |
| `Eras.RegionEraIsMaximum` | app/components/map.jsx:414-441 | a region's era is the largest id among the groups other than 0 whose outline it meets, 0 when it meets none, and always an id the colour lookup can find when the table has a group 0 |
| `Eras.RegionEraInTable` | app/components/map.jsx:436-441 | with the topic's table a region's era is between 0 and 3 and its colour lookup never fails |
| `Eras.ColorOfFound` | app/components/map.jsx:438-440 | `find` by id succeeds for every id in the table |
| `Layers.TeardownConcat` | app/components/map.jsx:191-203 | the teardown calls for a list are those for each part in order: one layer's exception does not cut the loop short |
| `Layers.InTeardown` | app/components/map.jsx:191-203 | a call is in a list's teardown exactly when it is in the teardown of one of its layers |
| `Layers.TeardownEffects` | app/components/map.jsx:191-203 | every torn-down layer is cleared and removed from the map; it is unregistered exactly when it has `unregister`; an exception is logged exactly when `unregister` throws; nothing is added; every call concerns one of the layers |
| `Layers.LayerTeardownShape` | app/components/map.jsx:192-202 | the calls for one layer concern only that layer and follow its hook |
| `Layers.PaintedColorsFound` | app/components/map.jsx:436-441 | after regions are painted with the topic's table, the style's colour lookup succeeds for every region |
| `Layers.RadiiOrder` | app/components/map.jsx:453-462 | in "radii" mode the outlines of ids 1, 2 and 3 are pushed in that order, each with its group's colour and pieces |
| `Layers.TopicLayerCounts` | app/components/map.jsx:207-233 | an unknown topic draws no layer, ISIS four, CHRISTROME three, five or two by mode, MITHORIG three whose last two are the same mithraea grid |
| `Layers.MembersIgnoreTimes` | app/components/map.jsx:375-386 | group membership depends only on the churches' positions and dates, not on a previous `time` |
| `Layers.BufferedTableIgnoresTimes` | app/components/map.jsx:374-410 | the group table and its outlines depend only on the churches' positions and dates |
| `Layers.ClassifyIdempotent` | app/components/map.jsx:374-389 | classification keeps positions and dates, and classifying classified churches changes nothing |
| `Layers.PaintIdempotent` | app/components/map.jsx:414-433 | painting painted regions changes nothing |
| `Layers.Redraw` | app/components/map.jsx:47-56 | drawing a topic again on the data its first drawing left gives the same layers and leaves the data as it was |
| `Layers.MapContainer.DrawLayers` | app/components/map.jsx:187-189 | every layer is added to the map, in list order |
| `Layers.MapContainer.ClearDataLayer` | app/components/map.jsx:191-205 | the calls made are the teardown of the old list, layer by layer, and the list is then empty |
| `Layers.MapContainer.VisualiseIsis` | app/components/map.jsx:238-340 | pushes the artefact and temple segment groups, the auxiliary circles and the site markers, in that order |
| `Layers.MapContainer.VisualiseChristrome` | app/components/map.jsx:345-502 | pushes the region layer or the outlines by mode, then the church layers; the churches are classified in place and, in "regions" mode, the regions are painted in place |
| `Layers.MapContainer.VisualiseMithorig` | app/components/map.jsx:507-657 | pushes the fort grid and then the mithraea grid twice; the grid options object is extended in place, so the mithraea grid also shows cells |
| `Layers.MapContainer.VisualiseTopic` | app/components/map.jsx:207-233 | the old layers are torn down, the list becomes the active topic's layers, and these are added to the map; only CHRISTROME rewrites churches and regions |
| `Layers.MapContainer.AfterRender` | app/components/map.jsx:47-56 | draws once when the topic changed and once more when the refresh flag was set; clears the flag and records the topic; with no draw nothing changes; drawing twice gives the same layers as drawing once |
| `Control.FindChange` | app/components/info/control.jsx:20 | `find` on the pending list: the first entry for the (topic, option) pair, or the list length when there is none |
| `Control.GetActualOptionValue` | app/components/info/control.jsx:19-22 | the first pending entry for the pair wins, whatever its value, even a falsy one; otherwise the committed option, `undefined` for a missing option, a TypeError for a missing topic |
| `Control.WithoutMembers` | app/components/info/control.jsx:26 | the filter keeps exactly the entries for other pairs |
| `Control.WithoutConcat` | app/components/info/control.jsx:26 | the filter keeps the relative order of the entries it keeps |
| `Control.FirstPendingIsFound` | app/components/info/control.jsx:20-21 | the value of the first pending entry for the pair is the value at the position `find` returns, and absent when `find` finds nothing |
| `Control.FindWithout` | app/components/info/control.jsx:20-26 | filtering one pair out does not change the first pending value for any other pair |
| `Control.FindAppend` | app/components/info/control.jsx:20-28 | appending an entry for one pair does not change the first pending value for any other pair |
| `Control.AddedChange` | app/components/info/control.jsx:24-29 | after an edit there is exactly one entry for the pair, the last one, holding the new value, and the other entries are exactly those for other pairs |
| `Control.ReadBack` | app/components/info/control.jsx:19-29 | after an edit, reading the pair gives the new value and reading any other pair gives what it gave before |
| `Control.InfoLegend.AddNewPostponedChange` | app/components/info/control.jsx:24-29 | the pending list is replaced by its filtered copy with the new entry appended |
| `Control.InfoLegend.HandleChange` | app/components/info/control.jsx:31-33 | records the edit and dispatches nothing |
| `Control.InfoLegend.HandleRunChange` | app/components/info/control.jsx:40-47 | dispatches every pending change once, in list order, and leaves the pending list empty |

## Left out

- Geometry is not modelled. This covers turf `buffer`, `dissolve`, `simplify` and `intersect`,
  Leaflet `getBounds`, `bounds.intersects` and `distanceTo`, and their floating-point arithmetic.
  They enter as function-valued parameters with no properties beyond those a lemma requires.
- The grid binning and scales live inside the `leaflet-regular-grid-cluster` and
  `leaflet-segment-charts` plugins, which are not part of this model. A grid layer is modelled by
  its options and its markers; a segment group by its options and its features.
- The plugins are assumed to copy their options object when a layer is built. The ISIS temple group
  therefore keeps the temple distance, although `isisOptions` is later extended for the artefacts.
- Rendering is not modelled: fractional marker radii (`1.2 + n * 0.1`, `3 + n * 0.1`,
  `3 + n * 0.3`), tooltip and popup HTML, style objects beyond the fill colour, and the empty-cell
  style.
- `Base.average` is not part of this model. It is taken to be the arithmetic mean; every caller
  passes a non-empty list, because clusters are never empty. `Base.now` and the console timing
  in `visualiseTopic` are left out.
- `Sites.NoSteps` does not model `parseInt` on a quotient whose decimal form uses exponent
  notation (values of 1e21 and above, or below 1e-6). There `parseInt` reads only the leading
  digits.
- Features without a geometry are kept in a segment group's feature list. Leaflet's `geoJSON`
  skipping them happens inside Leaflet.
- `handleChangeAndRun` is left out. It records the edit like `handleChange` and schedules
  `handleRunChange` 100 ms later through `setTimeout`, and timers are not modelled.
- React's `setState` is modelled as an immediate assignment. Its asynchronous batching and the
  dispatcher's handling of `CONTROL_CHANGE` are not modelled.
- `componentDidMount` is modelled only as the starting state (`Layers.MapContainer.constructor`),
  not its first drawing. Also left out: `render`, the base layers, overlays, tiles, the zoom and
  move handlers, and the JSX of the control panel.
- Church group items are the churches' positions in the church array, where the source pushes
  the church objects themselves. Because the objects are shared, later writes to a church's
  `time` are visible through a group. The model reads a group's churches through the array, so
  it sees the same values.
