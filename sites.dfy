/** The four point pipelines of the map: which features each keeps, the key and the match rule
    its de-duplication uses, and the markers drawn from the resulting clusters. */
module Sites {
  import opened Features
  import opened Dedup
  import Probability

  // ---------------------------------------------------------------------------------------------
  // Filtering

  /** A feature goes into de-duplication when it has a geometry and passes its pipeline's test. */
  predicate Kept<P>(f: Feature<P>, keep: P -> bool) {
    f.geometry.Some? && keep(f.properties)
  }

  function CountKept<P>(fs: seq<Feature<P>>, keep: P -> bool): nat
  {
    if fs == [] then 0 else CountKept(fs[..|fs| - 1], keep) + (if Kept(fs[|fs| - 1], keep) then 1 else 0)
  }

  /** `features.filter(...).map(...)`: the kept features, in input order, as candidates keyed by
      their own position and carrying the pipeline's descriptor. */
  function Candidates<P, I>(fs: seq<Feature<P>>, keep: P -> bool, describe: P -> I): (r: seq<Candidate<Coord, I>>)
    ensures |r| == CountKept(fs, keep)
    ensures forall i :: 0 <= i < |fs| && Kept(fs[i], keep) ==>
              Candidate(fs[i].geometry.value, describe(fs[i].properties)) in r
    ensures forall x :: x in r ==>
              exists i :: 0 <= i < |fs| && Kept(fs[i], keep) && x == Candidate(fs[i].geometry.value, describe(fs[i].properties))
    decreases |fs|
  {
    if fs == [] then []
    else
      var pre, f := fs[..|fs| - 1], fs[|fs| - 1];
      assert forall i :: 0 <= i < |pre| ==> pre[i] == fs[i];
      Candidates(pre, keep, describe) + (if Kept(f, keep) then [Candidate(f.geometry.value, describe(f.properties))] else [])
  }

  /** The filter keeps input order: the candidates of a concatenation are the candidates of its
      parts, one after the other. */
  lemma {:induction false} CandidatesConcat<P, I>(a: seq<Feature<P>>, b: seq<Feature<P>>, keep: P -> bool, describe: P -> I)
    ensures Candidates(a + b, keep, describe) == Candidates(a, keep, describe) + Candidates(b, keep, describe)
    decreases |b|
  {
    if b == [] {
      assert a + b == a;
    } else {
      var pre := b[..|b| - 1];
      assert (a + b)[..|a + b| - 1] == a + pre;
      assert (a + b)[|a + b| - 1] == b[|b| - 1];
      CandidatesConcat(a, pre, keep, describe);
    }
  }

  /** One feature gives one candidate, keyed by its position, when it is kept, and none otherwise. */
  lemma CandidatesSingle<P, I>(f: Feature<P>, keep: P -> bool, describe: P -> I)
    ensures Candidates([f], keep, describe) == if Kept(f, keep) then [Candidate(f.geometry.value, describe(f.properties))] else []
  {
    assert [f][..0] == [];
  }

  // ---------------------------------------------------------------------------------------------
  // Match rules

  /** The Isis and church loops compare longitudes only (`point.cs[0] === coordinates[0]`). */
  function SameLng(a: Coord, b: Coord): bool {
    a.lng == b.lng
  }

  lemma SameLngReflexive()
    ensures Reflexive(SameLng)
  {
  }

  /** The fort and mithraeum loops: the representative lies closer than `threshold` metres
      (`uf.cs.distanceTo(cs) < threshold`). */
  function Near(geo: Geo, threshold: real): (Coord, Coord) -> bool {
    (a: Coord, b: Coord) => geo.distance(a, b) < threshold
  }

  const FortDistanceThreshold: real := 10000.0
  const MithraeaDistanceThreshold: real := 10000.0

  lemma NearReflexive(geo: Geo, threshold: real)
    requires ZeroSelfDistance(geo) && threshold > 0.0
    ensures Reflexive(Near(geo, threshold))
  {
  }

  // ---------------------------------------------------------------------------------------------
  // Isis: artefacts first, then temples, into one list of clusters

  datatype SiteKind = ArtefactSite | TempleSite

  /** The descriptor an Isis cluster keeps: `{type, label, deities}`. */
  datatype IsisItem = IsisItem(kind: SiteKind, title: string, deities: seq<string>)

  function HasDeities(p: IsisProps): bool {
    |p.deities| > 0
  }

  function DescribeAs(kind: SiteKind): IsisProps -> IsisItem {
    (p: IsisProps) => IsisItem(kind, p.title, p.deities)
  }

  function IsisCandidates(fs: seq<Feature<IsisProps>>, kind: SiteKind): seq<Candidate<Coord, IsisItem>>
  {
    Candidates(fs, HasDeities, DescribeAs(kind))
  }

  /** `uniqueIsis` after both loops. */
  function UniqueIsis(artefacts: seq<Feature<IsisProps>>, temples: seq<Feature<IsisProps>>): seq<Cluster<Coord, IsisItem>>
  {
    DedupFrom(DedupFrom([], IsisCandidates(artefacts, ArtefactSite), SameLng), IsisCandidates(temples, TempleSite), SameLng)
  }

  method DedupIsis(artefacts: seq<Feature<IsisProps>>, temples: seq<Feature<IsisProps>>)
    returns (unique: seq<Cluster<Coord, IsisItem>>)
    ensures unique == UniqueIsis(artefacts, temples)
  {
    unique := Deduplicate([], IsisCandidates(artefacts, ArtefactSite), SameLng);
    unique := Deduplicate(unique, IsisCandidates(temples, TempleSite), SameLng);
  }

  lemma IsisCandidateKinds(fs: seq<Feature<IsisProps>>, kind: SiteKind)
    ensures forall x :: x in IsisCandidates(fs, kind) ==> x.item.kind == kind
  {
  }

  /** The Isis clusters: every kept artefact and temple is counted exactly once, no two clusters
      share a longitude, every cluster is non-empty, the clusters are those of the reference
      description over artefacts followed by temples (first-seen representative, items in input
      order). */
  lemma IsisClusters(artefacts: seq<Feature<IsisProps>>, temples: seq<Feature<IsisProps>>)
    ensures TotalItems(UniqueIsis(artefacts, temples)) == CountKept(artefacts, HasDeities) + CountKept(temples, HasDeities)
    ensures forall i, j :: 0 <= i < j < |UniqueIsis(artefacts, temples)| ==>
              UniqueIsis(artefacts, temples)[i].rep.lng != UniqueIsis(artefacts, temples)[j].rep.lng
    ensures forall i :: 0 <= i < |UniqueIsis(artefacts, temples)| ==> |UniqueIsis(artefacts, temples)[i].items| > 0
    ensures UniqueIsis(artefacts, temples) == Reference(IsisCandidates(artefacts, ArtefactSite) + IsisCandidates(temples, TempleSite), SameLng)
  {
    var a, t := IsisCandidates(artefacts, ArtefactSite), IsisCandidates(temples, TempleSite);
    DedupCount([], a, SameLng);
    DedupCount(DedupFrom([], a, SameLng), t, SameLng);
    DedupKeepsApart([], a, SameLng);
    DedupKeepsApart(DedupFrom([], a, SameLng), t, SameLng);
    DedupNonEmpty([], a, SameLng);
    DedupNonEmpty(DedupFrom([], a, SameLng), t, SameLng);
    DedupConcat([], a, t, SameLng);
    SameLngReflexive();
    DedupIsReference(a + t, SameLng);
  }

  /** Inside an Isis cluster no artefact follows a temple. */
  lemma IsisArtefactsFirst(artefacts: seq<Feature<IsisProps>>, temples: seq<Feature<IsisProps>>)
    ensures forall c, s, t ::
              (0 <= c < |UniqueIsis(artefacts, temples)| && 0 <= s < t < |UniqueIsis(artefacts, temples)[c].items| &&
               UniqueIsis(artefacts, temples)[c].items[s].kind == TempleSite) ==>
              UniqueIsis(artefacts, temples)[c].items[t].kind == TempleSite
  {
    var a, t := IsisCandidates(artefacts, ArtefactSite), IsisCandidates(temples, TempleSite);
    var u := UniqueIsis(artefacts, temples);
    IsisClusters(artefacts, temples);
    var reps := Reps(a + t, SameLng);
    IsisCandidateKinds(artefacts, ArtefactSite);
    IsisCandidateKinds(temples, TempleSite);
    forall c | 0 <= c < |u|
      ensures forall s, t' :: 0 <= s < t' < |u[c].items| && u[c].items[s].kind == TempleSite ==> u[c].items[t'].kind == TempleSite
    {
      ItemsAtConcat(a, t, reps, c, SameLng);
      ItemsAtFromInput(a, reps, c, SameLng, (it: IsisItem) => it.kind == ArtefactSite);
      ItemsAtFromInput(t, reps, c, SameLng, (it: IsisItem) => it.kind == TempleSite);
    }
  }

  // ---------------------------------------------------------------------------------------------
  // Churches: dated churches with a position, longitude key

  function Dated(p: ChurchProps): bool {
    Truthy(p.date)
  }

  function ChurchCandidates(fs: seq<Feature<ChurchProps>>): seq<Candidate<Coord, ChurchProps>>
  {
    Candidates(fs, Dated, (p: ChurchProps) => p)
  }

  /** `uniqueChurches`. */
  function UniqueChurches(fs: seq<Feature<ChurchProps>>): seq<Cluster<Coord, ChurchProps>>
  {
    DedupFrom([], ChurchCandidates(fs), SameLng)
  }

  method DedupChurches(fs: seq<Feature<ChurchProps>>) returns (unique: seq<Cluster<Coord, ChurchProps>>)
    ensures unique == UniqueChurches(fs)
  {
    unique := Deduplicate([], ChurchCandidates(fs), SameLng);
  }

  /** The church clusters: every dated church with a position is counted once, no two clusters
      share a longitude, and the clusters are those of the reference description (first-seen
      representative, items in input order). */
  lemma ChurchClusters(fs: seq<Feature<ChurchProps>>)
    ensures TotalItems(UniqueChurches(fs)) == CountKept(fs, Dated)
    ensures forall i, j :: 0 <= i < j < |UniqueChurches(fs)| ==> UniqueChurches(fs)[i].rep.lng != UniqueChurches(fs)[j].rep.lng
    ensures forall i :: 0 <= i < |UniqueChurches(fs)| ==> |UniqueChurches(fs)[i].items| > 0
    ensures UniqueChurches(fs) == Reference(ChurchCandidates(fs), SameLng)
  {
    DedupCount([], ChurchCandidates(fs), SameLng);
    DedupKeepsApart([], ChurchCandidates(fs), SameLng);
    DedupNonEmpty([], ChurchCandidates(fs), SameLng);
    SameLngReflexive();
    DedupIsReference(ChurchCandidates(fs), SameLng);
  }

  // ---------------------------------------------------------------------------------------------
  // Forts and mithraea: distance threshold

  function AnyFort(p: FortProps): bool {
    true
  }

  function FortCandidates(fs: seq<Feature<FortProps>>): seq<Candidate<Coord, FortProps>>
  {
    Candidates(fs, AnyFort, (p: FortProps) => p)
  }

  /** `uniqueForts`. */
  function UniqueForts(fs: seq<Feature<FortProps>>, geo: Geo): seq<Cluster<Coord, FortProps>>
  {
    DedupFrom([], FortCandidates(fs), Near(geo, FortDistanceThreshold))
  }

  method DedupForts(fs: seq<Feature<FortProps>>, geo: Geo) returns (unique: seq<Cluster<Coord, FortProps>>)
    ensures unique == UniqueForts(fs, geo)
  {
    unique := Deduplicate([], FortCandidates(fs), Near(geo, FortDistanceThreshold));
  }

  /** The mithraea whose category is switched on in the control options
      (`controlOptions.mithorig[c]` truthy; a category with no entry is off). */
  function Enabled(flags: map<string, bool>): MithraeumProps -> bool {
    (p: MithraeumProps) => p.c in flags && flags[p.c]
  }

  function MithraeumCandidates(fs: seq<Feature<MithraeumProps>>, flags: map<string, bool>): seq<Candidate<Coord, MithraeumProps>>
  {
    Candidates(fs, Enabled(flags), (p: MithraeumProps) => p)
  }

  /** `uniqueMithraea`. */
  function UniqueMithraea(fs: seq<Feature<MithraeumProps>>, flags: map<string, bool>, geo: Geo): seq<Cluster<Coord, MithraeumProps>>
  {
    DedupFrom([], MithraeumCandidates(fs, flags), Near(geo, MithraeaDistanceThreshold))
  }

  method DedupMithraea(fs: seq<Feature<MithraeumProps>>, flags: map<string, bool>, geo: Geo)
    returns (unique: seq<Cluster<Coord, MithraeumProps>>)
    ensures unique == UniqueMithraea(fs, flags, geo)
  {
    unique := Deduplicate([], MithraeumCandidates(fs, flags), Near(geo, MithraeaDistanceThreshold));
  }

  /** Threshold clusters: each candidate is counted once, every cluster is non-empty, and a
      representative lies at least the threshold from every earlier one (in both directions when
      the distance is symmetric). With a distance that is zero from a point to itself, the
      clusters are those of the reference description. */
  lemma ThresholdClusters<P>(xs: seq<Candidate<Coord, P>>, geo: Geo, threshold: real)
    ensures TotalItems(DedupFrom([], xs, Near(geo, threshold))) == |xs|
    ensures forall i :: 0 <= i < |DedupFrom([], xs, Near(geo, threshold))| ==> |DedupFrom([], xs, Near(geo, threshold))[i].items| > 0
    ensures forall i, j :: 0 <= i < j < |DedupFrom([], xs, Near(geo, threshold))| ==>
              geo.distance(DedupFrom([], xs, Near(geo, threshold))[i].rep, DedupFrom([], xs, Near(geo, threshold))[j].rep) >= threshold
    ensures SymmetricDistance(geo) ==> forall i, j :: 0 <= i < |DedupFrom([], xs, Near(geo, threshold))| && 0 <= j < |DedupFrom([], xs, Near(geo, threshold))| && i != j ==>
              geo.distance(DedupFrom([], xs, Near(geo, threshold))[i].rep, DedupFrom([], xs, Near(geo, threshold))[j].rep) >= threshold
    ensures ZeroSelfDistance(geo) && threshold > 0.0 ==> DedupFrom([], xs, Near(geo, threshold)) == Reference(xs, Near(geo, threshold))
  {
    var near := Near(geo, threshold);
    var u := DedupFrom([], xs, near);
    DedupCount([], xs, near);
    DedupNonEmpty([], xs, near);
    DedupKeepsApart([], xs, near);
    assert forall i, j :: 0 <= i < j < |u| ==> !near(u[i].rep, u[j].rep);
    if ZeroSelfDistance(geo) && threshold > 0.0 {
      NearReflexive(geo, threshold);
      DedupIsReference(xs, near);
    }
  }

  /** The fort clusters: every fort with a position is counted once, representatives lie at
      least 10000 m apart. */
  lemma FortClusters(fs: seq<Feature<FortProps>>, geo: Geo)
    ensures TotalItems(UniqueForts(fs, geo)) == CountKept(fs, AnyFort)
    ensures forall i, j :: 0 <= i < j < |UniqueForts(fs, geo)| ==>
              geo.distance(UniqueForts(fs, geo)[i].rep, UniqueForts(fs, geo)[j].rep) >= 10000.0
  {
    ThresholdClusters(FortCandidates(fs), geo, FortDistanceThreshold);
  }

  /** The mithraeum clusters: every enabled mithraeum with a position is counted once, none
      whose category is off appears, and representatives lie at least 10000 m apart. */
  lemma MithraeumClusters(fs: seq<Feature<MithraeumProps>>, flags: map<string, bool>, geo: Geo)
    ensures TotalItems(UniqueMithraea(fs, flags, geo)) == CountKept(fs, Enabled(flags))
    ensures forall i :: 0 <= i < |UniqueMithraea(fs, flags, geo)| ==> |UniqueMithraea(fs, flags, geo)[i].items| > 0
    ensures forall c, t :: 0 <= c < |UniqueMithraea(fs, flags, geo)| && 0 <= t < |UniqueMithraea(fs, flags, geo)[c].items| ==>
              var cat := UniqueMithraea(fs, flags, geo)[c].items[t].c; cat in flags && flags[cat]
    ensures forall i, j :: 0 <= i < j < |UniqueMithraea(fs, flags, geo)| ==>
              geo.distance(UniqueMithraea(fs, flags, geo)[i].rep, UniqueMithraea(fs, flags, geo)[j].rep) >= 10000.0
  {
    var xs := MithraeumCandidates(fs, flags);
    var near := Near(geo, MithraeaDistanceThreshold);
    ThresholdClusters(xs, geo, MithraeaDistanceThreshold);
    EnabledSurvive(xs, [], near, flags);
  }

  lemma {:induction false} EnabledSurvive(xs: seq<Candidate<Coord, MithraeumProps>>, cs: seq<Cluster<Coord, MithraeumProps>>,
                                          near: (Coord, Coord) -> bool, flags: map<string, bool>)
    requires forall x :: x in xs ==> x.item.c in flags && flags[x.item.c]
    requires forall c, t :: 0 <= c < |cs| && 0 <= t < |cs[c].items| ==> cs[c].items[t].c in flags && flags[cs[c].items[t].c]
    ensures forall c, t :: 0 <= c < |DedupFrom(cs, xs, near)| && 0 <= t < |DedupFrom(cs, xs, near)[c].items| ==>
              DedupFrom(cs, xs, near)[c].items[t].c in flags && flags[DedupFrom(cs, xs, near)[c].items[t].c]
    decreases |xs|
  {
    if xs != [] {
      var after := Absorb(cs, xs[0], near);
      assert xs[0] in xs;
      forall c, t | 0 <= c < |after| && 0 <= t < |after[c].items|
        ensures after[c].items[t].c in flags && flags[after[c].items[t].c]
      {
        var k := FirstMatch(RepsOf(cs), xs[0].key, near);
        if c == k && k < |cs| && t == |cs[c].items| {
        } else if c < |cs| {
          assert after[c].items[t] == cs[c].items[t];
        }
      }
      assert forall x :: x in xs[1..] ==> x in xs;
      EnabledSurvive(xs[1..], after, near, flags);
    }
  }

  // ---------------------------------------------------------------------------------------------
  // Markers drawn from the clusters

  /** The auxiliary circles: one at the representative of every cluster with more than one
      item, in cluster order. */
  function AuxMarkers<I>(cs: seq<Cluster<Coord, I>>): (r: seq<Coord>)
    ensures |r| <= |cs|
    ensures forall p :: p in r <==> exists i :: 0 <= i < |cs| && |cs[i].items| > 1 && cs[i].rep == p
    decreases |cs|
  {
    if cs == [] then []
    else
      var pre, c := cs[..|cs| - 1], cs[|cs| - 1];
      assert forall i :: 0 <= i < |pre| ==> pre[i] == cs[i];
      AuxMarkers(pre) + (if |c.items| > 1 then [c.rep] else [])
  }

  /** The circles keep cluster order: the circles of a concatenation are the circles of its parts,
      one after the other. */
  lemma {:induction false} AuxMarkersConcat<I>(a: seq<Cluster<Coord, I>>, b: seq<Cluster<Coord, I>>)
    ensures AuxMarkers(a + b) == AuxMarkers(a) + AuxMarkers(b)
    decreases |b|
  {
    if b == [] {
      assert a + b == a;
    } else {
      var pre := b[..|b| - 1];
      assert (a + b)[..|a + b| - 1] == a + pre;
      assert (a + b)[|a + b| - 1] == b[|b| - 1];
      AuxMarkersConcat(a, pre);
    }
  }

  /** One cluster gives one circle at its representative when it has more than one item, and none
      otherwise. */
  lemma AuxMarkersSingle<I>(c: Cluster<Coord, I>)
    ensures AuxMarkers([c]) == if |c.items| > 1 then [c.rep] else []
  {
    assert [c][..0] == [];
  }

  /** A marker put into a grid cluster layer. */
  datatype GridPoint =
    | FortMarker(at: Coord, radius: nat)
    | MithraeumMarker(at: Coord, fillColor: string, p: real)

  /** The fort markers: one per cluster, radius 5 where forts were merged and 3 for a lone fort. */
  function FortPoints(cs: seq<Cluster<Coord, FortProps>>): (r: seq<GridPoint>)
    ensures |r| == |cs|
    ensures forall i :: 0 <= i < |cs| ==> r[i].FortMarker? && r[i].at == cs[i].rep
    ensures forall i :: 0 <= i < |cs| ==> (r[i].radius == 5 <==> |cs[i].items| > 1) && (r[i].radius == 3 <==> |cs[i].items| <= 1)
  {
    seq(|cs|, i requires 0 <= i < |cs| => FortMarker(cs[i].rep, if |cs[i].items| > 1 then 5 else 3))
  }

  function Categories(items: seq<MithraeumProps>): (r: seq<string>)
    ensures |r| == |items|
    ensures forall i :: 0 <= i < |items| ==> r[i] == items[i].c
  {
    seq(|items|, i requires 0 <= i < |items| => items[i].c)
  }

  /** The mithraeum markers: one per cluster, with the cluster's weight `p` in [0, 1] and the
      colour that weight selects. */
  function MithraeaPoints(cs: seq<Cluster<Coord, MithraeumProps>>): (r: seq<GridPoint>)
    requires forall i :: 0 <= i < |cs| ==> |cs[i].items| > 0
    ensures |r| == |cs|
    ensures forall i :: 0 <= i < |cs| ==> r[i].MithraeumMarker? && r[i].at == cs[i].rep && 0.0 <= r[i].p <= 1.0
    ensures forall i :: 0 <= i < |cs| ==> r[i].fillColor == Probability.MithraicColors[Probability.ColorIndex(r[i].p)]
    ensures forall i :: 0 <= i < |cs| ==> r[i].p == Probability.WeightProbability(Categories(cs[i].items))
    ensures forall i :: 0 <= i < |cs| ==>
              (r[i].p == 1.0 <==> forall t :: 0 <= t < |cs[i].items| ==> cs[i].items[t].c == "definitive")
    ensures forall i :: 0 <= i < |cs| ==>
              (r[i].p == 0.0 <==> forall t :: 0 <= t < |cs[i].items| ==> cs[i].items[t].c != "definitive" && cs[i].items[t].c != "probable")
  {
    seq(|cs|, i requires 0 <= i < |cs| =>
      MithraeumMarker(cs[i].rep,
                      Probability.ColorProbability(Categories(cs[i].items)),
                      Probability.WeightProbability(Categories(cs[i].items))))
  }

  // ---------------------------------------------------------------------------------------------
  // Rings around an Isis site

  function Abs(x: int): nat {
    if x < 0 then -x else x
  }

  lemma DivBounds(n: nat, d: nat)
    requires d > 0
    ensures (n / d) * d <= n < (n / d) * d + d
  {
  }

  /** Integer division truncating toward zero, as `parseInt` applied to a JavaScript quotient. */
  function TruncDiv(a: int, b: int): (q: int)
    requires b != 0
    ensures Abs(q) * Abs(b) <= Abs(a) < Abs(q) * Abs(b) + Abs(b)
    ensures q != 0 ==> (q > 0 <==> (a > 0) == (b > 0))
  {
    var m := Abs(a) / Abs(b);
    DivBounds(Abs(a), Abs(b));
    if (a < 0) == (b < 0) then m else -m
  }

  /** `noSteps = parseInt(distance / circleStep) + 1`. A zero step makes the quotient infinite or
      NaN, and `parseInt` then gives NaN (None). */
  function NoSteps(distance: int, circleStep: int): (r: Option<int>)
    ensures r.None? <==> circleStep == 0
    ensures r.Some? && distance >= 0 && circleStep > 0 ==>
              r.value >= 1 && (r.value - 1) * circleStep <= distance < r.value * circleStep
  {
    if circleStep == 0 then None else Some(TruncDiv(distance, circleStep) + 1)
  }
}
