/** Shared data model of the map pipelines: positions, handles on foreign geometry, and the
    foreign geometry operations themselves, which the model receives as given functions. */
module Features {

  datatype Option<+T> = None | Some(value: T)

  /** A GeoJSON position: longitude first, latitude second (`geometry.coordinates`). */
  datatype Coord = Coord(lng: real, lat: real)

  /** A GeoJSON point feature: an optional position and its properties. */
  datatype Feature<P> = Feature(geometry: Option<Coord>, properties: P)

  /** Properties of a temple or an artefact of the Isis dataset (`title` is its `label` property). */
  datatype IsisProps = IsisProps(title: string, deities: seq<string>)

  /** Properties of a church: its name, its foundation date when it has one, and the era id
      (`time`) that the church classification writes into it. */
  datatype ChurchProps = ChurchProps(n: string, date: Option<int>, time: int)

  /** Properties of a fort. */
  datatype FortProps = FortProps(n: string)

  /** Properties of a mithraeum: its name and its category, which is also its probability label
      ("definitive", "probable", "dubious"). */
  datatype MithraeumProps = MithraeumProps(n: string, c: string)

  /** A JavaScript value is falsy when it is missing or the number 0. */
  predicate Truthy(date: Option<int>) {
    date.Some? && date.value != 0
  }

  /** A handle on a polygon whose vertices live in foreign code (a buffer piece or a region outline). */
  datatype Shape = Shape(id: nat)

  /** The geometry library calls the pipelines make, as given functions:
      - distance: Leaflet's `LatLng.distanceTo`, in metres;
      - boxesMeet: `bounds.intersects` between the bounding boxes of two shapes;
      - shapesMeet: `turf.intersect` returning a non-null geometry;
      - footprint: `turf.simplify(dissolve(turf.buffer(points, radius, "kilometers")), 0.05)`,
        the pieces of the buffered and dissolved outline around a set of points. */
  datatype Geo = Geo(
    distance: (Coord, Coord) -> real,
    boxesMeet: (Shape, Shape) -> bool,
    shapesMeet: (Shape, Shape) -> bool,
    footprint: (seq<Coord>, real) -> seq<Shape>)

  /** Distance is a metric in the one respect the pipelines rely on. */
  ghost predicate SymmetricDistance(geo: Geo) {
    forall a, b :: geo.distance(a, b) == geo.distance(b, a)
  }

  /** A point is at distance zero from itself. */
  ghost predicate ZeroSelfDistance(geo: Geo) {
    forall a :: geo.distance(a, a) == 0.0
  }
}
