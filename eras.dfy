/** The church topic's era groups: every church is stamped with an era id and pushed into the
    groups whose bound exceeds its date; each group other than 0 gets a buffered outline around
    its churches; every region is stamped with the highest era whose outline it overlaps. */
module Eras {
  import opened Features

  /** An era group `{id, time, items, color}` and the `buffer` the buffering step attaches.
      `bound` is the group's `time` property, a JavaScript array: `[313]`, `[350]`, `[800]`, or
      `[]` for the undated group 0. `items` holds the positions in the church array of the
      churches pushed into the group (the source pushes the church objects themselves). */
  datatype EraGroup = EraGroup(id: nat, bound: seq<int>, items: seq<nat>, color: string, buffer: seq<Shape>)

  /** `churchesGroups` as the topic builds it, colours from the christrome style table. */
  const ChurchesGroups: seq<EraGroup> := [
    EraGroup(3, [313], [], "#f03b20", []),
    EraGroup(2, [350], [], "#feb24c", []),
    EraGroup(1, [800], [], "#ffeda0", []),
    EraGroup(0, [], [], "lightgrey", [])
  ]

  /** A region polygon: its name `n`, its outline and the era id written into `time`. */
  datatype Region = Region(n: string, shape: Shape, time: int)

  function Max(a: int, b: int): int {
    if a < b then b else a
  }

  // ---------------------------------------------------------------------------------------------
  // The era fold shared by churches and regions

  /** `time` after the loop over `groups[..n]`: it starts at 0 and becomes `max(time, id)` for
      every group other than 0 that `hit` accepts. */
  function MaxHitId(groups: seq<EraGroup>, hit: EraGroup -> bool, n: nat): int
    requires n <= |groups|
  {
    if n == 0 then 0
    else
      var t := MaxHitId(groups, hit, n - 1);
      var g := groups[n - 1];
      if g.id != 0 && hit(g) then Max(t, g.id) else t
  }

  /** The fold computes the largest id among the accepted groups other than 0, and 0 when there
      is none. */
  lemma {:induction false} MaxHitIdIsMaximum(groups: seq<EraGroup>, hit: EraGroup -> bool, n: nat)
    requires n <= |groups|
    ensures MaxHitId(groups, hit, n) >= 0
    ensures forall k :: 0 <= k < n && groups[k].id != 0 && hit(groups[k]) ==> groups[k].id <= MaxHitId(groups, hit, n)
    ensures MaxHitId(groups, hit, n) != 0 ==>
              exists k :: 0 <= k < n && groups[k].id != 0 && hit(groups[k]) && groups[k].id == MaxHitId(groups, hit, n)
    ensures (forall k :: 0 <= k < n ==> groups[k].id == 0 || !hit(groups[k])) ==> MaxHitId(groups, hit, n) == 0
  {
    if n > 0 {
      MaxHitIdIsMaximum(groups, hit, n - 1);
    }
  }

  // ---------------------------------------------------------------------------------------------
  // Churches

  /** `group.time > date` as JavaScript evaluates it: the array is turned into the string of its
      elements joined by commas and then into a number, so `[]` counts as 0, `[b]` as b, and a
      longer array as NaN, which is greater than nothing. */
  function LooseGreater(arr: seq<int>, date: int): bool {
    if |arr| == 0 then 0 > date
    else if |arr| == 1 then arr[0] > date
    else false
  }

  function ExceedsDate(date: int): EraGroup -> bool {
    (g: EraGroup) => LooseGreater(g.bound, date)
  }

  /** The era id the classification writes into a church: 0 for a falsy date, else the fold. */
  function EraOf(groups: seq<EraGroup>, date: Option<int>): int
  {
    if Truthy(date) then MaxHitId(groups, ExceedsDate(date.value), |groups|) else 0
  }

  /** The church is pushed into group `g`. */
  predicate Joins(c: Feature<ChurchProps>, g: EraGroup) {
    g.id != 0 && Truthy(c.properties.date) && LooseGreater(g.bound, c.properties.date.value) && c.geometry.Some?
  }

  /** The positions, in church order, of the churches among the first `n` pushed into `g`. */
  function Members(cs: seq<Feature<ChurchProps>>, g: EraGroup, n: nat): seq<nat>
    requires n <= |cs|
  {
    if n == 0 then [] else Members(cs, g, n - 1) + (if Joins(cs[n - 1], g) then [n - 1] else [])
  }

  function WithTime(c: Feature<ChurchProps>, t: int): Feature<ChurchProps> {
    c.(properties := c.properties.(time := t))
  }

  /** The group table after the first `n` churches of `cs` have been classified. */
  ghost predicate GroupsAfter(groups: seq<EraGroup>, cs: seq<Feature<ChurchProps>>, n: nat) {
    n <= |cs| && |groups| == |ChurchesGroups| &&
    forall k :: 0 <= k < |groups| ==> groups[k] == ChurchesGroups[k].(items := Members(cs, ChurchesGroups[k], n))
  }

  /** The classification loop (`data.churches.features.map(church => ...)`). */
  method ClassifyChurches(churches: array<Feature<ChurchProps>>) returns (groups: seq<EraGroup>)
    modifies churches
    ensures GroupsAfter(groups, old(churches[..]), churches.Length)
    ensures forall i :: 0 <= i < churches.Length ==>
              churches[i] == WithTime(old(churches[i]), EraOf(ChurchesGroups, old(churches[i]).properties.date))
  {
    ghost var orig := churches[..];
    groups := ChurchesGroups;
    var i := 0;
    while i < churches.Length
      invariant 0 <= i <= churches.Length
      invariant GroupsAfter(groups, orig, i)
      invariant forall j :: 0 <= j < i ==> churches[j] == WithTime(orig[j], EraOf(ChurchesGroups, orig[j].properties.date))
      invariant forall j :: i <= j < churches.Length ==> churches[j] == orig[j]
    {
      groups := StampChurch(churches, i, groups, orig);
      i := i + 1;
    }
  }

  /** The loop body for church `i`: `time` is reset to 0 and, when the date is truthy, raised to
      the id of each group other than 0 whose bound exceeds the date; a church with a position
      is pushed into each such group. */
  method StampChurch(churches: array<Feature<ChurchProps>>, i: nat, groups: seq<EraGroup>, ghost orig: seq<Feature<ChurchProps>>)
    returns (groups': seq<EraGroup>)
    requires i < churches.Length == |orig| && churches[i] == orig[i]
    requires GroupsAfter(groups, orig, i)
    modifies churches
    ensures GroupsAfter(groups', orig, i + 1)
    ensures churches[i] == WithTime(orig[i], EraOf(ChurchesGroups, orig[i].properties.date))
    ensures forall j :: 0 <= j < churches.Length && j != i ==> churches[j] == old(churches[j])
  {
    groups' := groups;
    var date := churches[i].properties.date;
    churches[i] := WithTime(churches[i], 0);
    if Truthy(date) {
      var g := 0;
      while g < |groups'|
        invariant 0 <= g <= |groups'| == |ChurchesGroups|
        invariant churches[i] == WithTime(orig[i], MaxHitId(ChurchesGroups, ExceedsDate(date.value), g))
        invariant forall k :: 0 <= k < g ==> groups'[k] == ChurchesGroups[k].(items := Members(orig, ChurchesGroups[k], i + 1))
        invariant forall k :: g <= k < |groups'| ==> groups'[k] == ChurchesGroups[k].(items := Members(orig, ChurchesGroups[k], i))
        invariant forall j :: 0 <= j < churches.Length && j != i ==> churches[j] == old(churches[j])
      {
        if groups'[g].id != 0 && LooseGreater(groups'[g].bound, date.value) {
          churches[i] := WithTime(churches[i], Max(churches[i].properties.time, groups'[g].id));
          if churches[i].geometry.Some? {
            groups' := groups'[g := groups'[g].(items := groups'[g].items + [i])];
          }
        }
        g := g + 1;
      }
    }
  }

  /** Group membership, stated per church: a church is in a group's items exactly when it has a
      position, a truthy date, the group is not group 0 and its bound exceeds the date; the items
      are in church order. */
  lemma {:induction false} MembersIff(cs: seq<Feature<ChurchProps>>, g: EraGroup, n: nat)
    requires n <= |cs|
    ensures forall i :: i in Members(cs, g, n) <==> 0 <= i < n && Joins(cs[i], g)
    ensures forall a, b :: 0 <= a < b < |Members(cs, g, n)| ==> Members(cs, g, n)[a] < Members(cs, g, n)[b]
  {
    if n > 0 {
      MembersIff(cs, g, n - 1);
      var m := Members(cs, g, n - 1);
      assert forall a :: 0 <= a < |m| ==> m[a] in m;
    }
  }

  /** For the topic's group table, the JavaScript comparison of the one-element array with the
      date is the numeric comparison of the bound with the date. */
  lemma BoundComparison(d: int)
    ensures LooseGreater(ChurchesGroups[0].bound, d) == (313 > d)
    ensures LooseGreater(ChurchesGroups[1].bound, d) == (350 > d)
    ensures LooseGreater(ChurchesGroups[2].bound, d) == (800 > d)
  {
  }

  /** The era of a church: 0 for a falsy date or a date of 800 or later, otherwise the id of the
      group with the smallest bound above the date (3 below 313, 2 below 350, 1 below 800). */
  lemma EraOfDate(date: Option<int>)
    ensures !Truthy(date) ==> EraOf(ChurchesGroups, date) == 0
    ensures Truthy(date) ==>
              EraOf(ChurchesGroups, date) == (if date.value < 313 then 3 else if date.value < 350 then 2 else if date.value < 800 then 1 else 0)
    ensures EraOf(ChurchesGroups, date) == 0 <==> !Truthy(date) || date.value >= 800
  {
    if Truthy(date) {
      var d := date.value;
      var hit := ExceedsDate(d);
      assert MaxHitId(ChurchesGroups, hit, 1) == if d < 313 then 3 else 0;
      assert MaxHitId(ChurchesGroups, hit, 2) == if d < 313 then 3 else if d < 350 then 2 else 0;
      assert MaxHitId(ChurchesGroups, hit, 3) == if d < 313 then 3 else if d < 350 then 2 else if d < 800 then 1 else 0;
      assert MaxHitId(ChurchesGroups, hit, 4) == MaxHitId(ChurchesGroups, hit, 3);
    }
  }

  /** The groups are cumulative rather than exclusive: a church with a position is in a bounded
      group's items exactly when its era is at least that group's id. */
  lemma MembersByEra(cs: seq<Feature<ChurchProps>>, k: nat, i: nat)
    requires k < 3 && i < |cs|
    ensures i in Members(cs, ChurchesGroups[k], |cs|) <==>
              cs[i].geometry.Some? && ChurchesGroups[k].id <= EraOf(ChurchesGroups, cs[i].properties.date)
  {
    MembersIff(cs, ChurchesGroups[k], |cs|);
    EraOfDate(cs[i].properties.date);
  }

  /** So the items of the 313 group are among those of the 350 group, which are among those of
      the 800 group, and group 0 receives nothing. */
  lemma GroupsNested(cs: seq<Feature<ChurchProps>>)
    ensures forall i :: i in Members(cs, ChurchesGroups[0], |cs|) ==> i in Members(cs, ChurchesGroups[1], |cs|)
    ensures forall i :: i in Members(cs, ChurchesGroups[1], |cs|) ==> i in Members(cs, ChurchesGroups[2], |cs|)
    ensures Members(cs, ChurchesGroups[3], |cs|) == []
  {
    forall i | i in Members(cs, ChurchesGroups[0], |cs|) ensures i in Members(cs, ChurchesGroups[1], |cs|) {
      MembersIff(cs, ChurchesGroups[0], |cs|);
      MembersByEra(cs, 0, i);
      MembersByEra(cs, 1, i);
    }
    forall i | i in Members(cs, ChurchesGroups[1], |cs|) ensures i in Members(cs, ChurchesGroups[2], |cs|) {
      MembersIff(cs, ChurchesGroups[1], |cs|);
      MembersByEra(cs, 1, i);
      MembersByEra(cs, 2, i);
    }
    NoMembersInGroupZero(cs, ChurchesGroups[3], |cs|);
  }

  /** Nothing is ever pushed into group 0. */
  lemma {:induction false} NoMembersInGroupZero(cs: seq<Feature<ChurchProps>>, g: EraGroup, n: nat)
    requires n <= |cs| && g.id == 0
    ensures Members(cs, g, n) == []
  {
    if n > 0 {
      NoMembersInGroupZero(cs, g, n - 1);
    }
  }

  // ---------------------------------------------------------------------------------------------
  // Buffering

  /** The positions of the churches listed in `items`. */
  function ItemPositions(cs: seq<Feature<ChurchProps>>, items: seq<nat>): seq<Coord>
  {
    if items == [] then []
    else
      var i := items[|items| - 1];
      ItemPositions(cs, items[..|items| - 1]) + (if i < |cs| && cs[i].geometry.Some? then [cs[i].geometry.value] else [])
  }

  /** The buffering step: every group other than 0 gets the pieces of the outline drawn at
      `radius` km around its churches; nothing else in the table changes. */
  function WithBuffers(groups: seq<EraGroup>, cs: seq<Feature<ChurchProps>>, radius: real, geo: Geo): (r: seq<EraGroup>)
    ensures |r| == |groups|
    ensures forall k :: 0 <= k < |groups| ==> r[k] == groups[k].(buffer := r[k].buffer)
    ensures forall k :: 0 <= k < |groups| && groups[k].id != 0 ==> r[k].buffer == geo.footprint(ItemPositions(cs, groups[k].items), radius)
    ensures forall k :: 0 <= k < |groups| && groups[k].id == 0 ==> r[k] == groups[k]
  {
    seq(|groups|, k requires 0 <= k < |groups| =>
      if groups[k].id != 0 then groups[k].(buffer := geo.footprint(ItemPositions(cs, groups[k].items), radius)) else groups[k])
  }

  // ---------------------------------------------------------------------------------------------
  // Regions

  /** `group.buffer.features.find(buffer => buffer.bounds.intersects(regionBbox) && !!turf.intersect(buffer, region))`:
      the first piece that passes the bounding-box test and then the exact test. */
  function FindPiece(pieces: seq<Shape>, region: Shape, geo: Geo): (r: Option<Shape>)
    ensures r.Some? <==> exists k :: 0 <= k < |pieces| && geo.boxesMeet(pieces[k], region) && geo.shapesMeet(pieces[k], region)
    ensures r.Some? ==> r.value in pieces && geo.boxesMeet(r.value, region) && geo.shapesMeet(r.value, region)
  {
    if pieces == [] then None
    else if geo.boxesMeet(pieces[0], region) && geo.shapesMeet(pieces[0], region) then Some(pieces[0])
    else
      var r := FindPiece(pieces[1..], region, geo);
      assert forall k :: 1 <= k < |pieces| ==> pieces[k] == pieces[1..][k - 1];
      r
  }

  function Overlaps(region: Shape, geo: Geo): EraGroup -> bool {
    (g: EraGroup) => FindPiece(g.buffer, region, geo).Some?
  }

  /** The era a region is stamped with: the fold over the groups it overlaps. */
  function RegionEra(groups: seq<EraGroup>, region: Shape, geo: Geo): int
  {
    MaxHitId(groups, Overlaps(region, geo), |groups|)
  }

  /** The region loop: every region gets `time` reset to 0 and raised to the id of each group
      other than 0 one of whose buffer pieces it meets. */
  method AssignRegionEras(regions: array<Region>, groups: seq<EraGroup>, geo: Geo)
    modifies regions
    ensures forall r :: 0 <= r < regions.Length ==>
              regions[r] == old(regions[r]).(time := RegionEra(groups, old(regions[r]).shape, geo))
  {
    var r := 0;
    while r < regions.Length
      invariant 0 <= r <= regions.Length
      invariant forall j :: 0 <= j < r ==> regions[j] == old(regions[j]).(time := RegionEra(groups, old(regions[j]).shape, geo))
      invariant forall j :: r <= j < regions.Length ==> regions[j] == old(regions[j])
    {
      regions[r] := regions[r].(time := 0);
      var shape := regions[r].shape;
      var g := 0;
      while g < |groups|
        invariant 0 <= g <= |groups|
        invariant regions[r] == old(regions[r]).(time := MaxHitId(groups, Overlaps(shape, geo), g))
        invariant forall j :: 0 <= j < r ==> regions[j] == old(regions[j]).(time := RegionEra(groups, old(regions[j]).shape, geo))
        invariant forall j :: r < j < regions.Length ==> regions[j] == old(regions[j])
      {
        if groups[g].id != 0 {
          var intersects := FindPiece(groups[g].buffer, shape, geo);
          if intersects.Some? {
            regions[r] := regions[r].(time := Max(regions[r].time, groups[g].id));
          }
        }
        g := g + 1;
      }
      r := r + 1;
    }
  }

  /** `churchesGroups.find(g => g.id === time).color`. */
  function ColorOf(groups: seq<EraGroup>, id: int): Option<string>
  {
    if groups == [] then None
    else if groups[0].id == id then Some(groups[0].color)
    else ColorOf(groups[1..], id)
  }

  lemma {:induction false} ColorOfFound(groups: seq<EraGroup>, k: nat)
    requires k < |groups|
    ensures ColorOf(groups, groups[k].id).Some?
  {
    if groups[0].id != groups[k].id {
      ColorOfFound(groups[1..], k - 1);
    }
  }

  /** A region's era is the largest id among the groups other than 0 that it overlaps (0 when
      there is none); it is therefore an id of the table or 0, and the colour lookup by id never
      fails when the table has a group 0. */
  lemma RegionEraIsMaximum(groups: seq<EraGroup>, region: Shape, geo: Geo)
    ensures forall k :: 0 <= k < |groups| && groups[k].id != 0 && FindPiece(groups[k].buffer, region, geo).Some? ==>
              groups[k].id <= RegionEra(groups, region, geo)
    ensures RegionEra(groups, region, geo) != 0 ==>
              exists k :: 0 <= k < |groups| && groups[k].id != 0 && FindPiece(groups[k].buffer, region, geo).Some? &&
                          groups[k].id == RegionEra(groups, region, geo)
    ensures (forall k :: 0 <= k < |groups| ==> groups[k].id == 0 || FindPiece(groups[k].buffer, region, geo).None?) ==>
              RegionEra(groups, region, geo) == 0
    ensures (exists k :: 0 <= k < |groups| && groups[k].id == 0) ==> ColorOf(groups, RegionEra(groups, region, geo)).Some?
  {
    MaxHitIdIsMaximum(groups, Overlaps(region, geo), |groups|);
    var e := RegionEra(groups, region, geo);
    if exists k :: 0 <= k < |groups| && groups[k].id == 0 {
      var k :| 0 <= k < |groups| && groups[k].id == (if e != 0 then e else 0);
      ColorOfFound(groups, k);
    }
  }

  /** For the topic's table, with any buffers: a region's era is one of 0, 1, 2, 3 and its colour
      is found. */
  lemma RegionEraInTable(groups: seq<EraGroup>, region: Shape, geo: Geo)
    requires |groups| == |ChurchesGroups|
    requires forall k :: 0 <= k < |groups| ==> groups[k].id == ChurchesGroups[k].id
    ensures 0 <= RegionEra(groups, region, geo) <= 3
    ensures ColorOf(groups, RegionEra(groups, region, geo)).Some?
  {
    RegionEraIsMaximum(groups, region, geo);
    assert groups[3].id == 0;
    assert forall k :: 0 <= k < |groups| ==> groups[k].id <= 3;
  }
}
