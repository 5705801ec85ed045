/**
 * The "geo_assistant" tool server: geocoding an address, the Overpass query
 * for amenities around a point and the list of places assembled from its
 * answer, and the OSRM route request between two addresses. The geocoder,
 * the Overpass interpreter and the OSRM service are parameters; coordinates
 * are kept as the text Python renders them to.
 */
module Geo {
  import opened Wrappers
  import opened Text
  import opened PyValues

  /** A latitude and a longitude, as rendered by `str(float)`. */
  datatype Coordinates = Coordinates(lat: string, lon: string)

  const LocationNotFoundText := "Location not found. Please try a different address."

  /** `get_coordinates`: the geocoder's hit, or the `ValueError` raised when there is none. */
  function GetCoordinates(address: string, geocode: string -> Option<Coordinates>): (r: Result<Coordinates, string>)
    ensures r.Failure? <==> geocode(address).None?
    ensures r.Failure? ==> r.error == LocationNotFoundText
    ensures r.Success? ==> r.value == geocode(address).value
  {
    match geocode(address)
    case None => Failure(LocationNotFoundText)
    case Some(c) => Success(c)
  }

  /** The filter every clause of the query carries: the circle around the point and the amenity type. */
  function AroundFilter(radius: int, c: Coordinates, placeType: string): string {
    "(around:" + DecimalString(radius) + "," + c.lat + "," + c.lon + ")[\"amenity\"=\"" + placeType + "\"]"
  }

  /** One line of the query's union: the element kind followed by the filter. */
  function Clause(kind: string, filter: string): string {
    "      " + kind + filter + ";\n"
  }

  const QueryHead := "\n    (\n"
  const QueryTail := "    );\n    out center;\n    "

  /**
   * The Overpass QL text `find_nearby_places` sends: an opening parenthesis,
   * the union of nodes, ways and relations under one filter, then the closing
   * parenthesis and the request for centres.
   */
  function OverpassQuery(radius: int, c: Coordinates, placeType: string): (q: string)
    ensures |QueryHead| + |QueryTail| <= |q|
    ensures q[..|QueryHead|] == QueryHead && q[|q| - |QueryTail|..] == QueryTail
  {
    var f := AroundFilter(radius, c, placeType);
    var union := Clause("node", f) + Clause("way", f) + Clause("relation", f);
    Framed(QueryHead, union, QueryTail);
    QueryHead + union + QueryTail
  }

  /** `a + m + b` starts with `a` and ends with `b`. */
  lemma Framed(a: string, m: string, b: string)
    ensures (a + m + b)[..|a|] == a && (a + m + b)[|a| + |m|..] == b
  {
  }

  /** `m` occurs in `a + m + b` right after `a`. */
  lemma OccursAfterPrefix(a: string, m: string, b: string)
    ensures OccursAt(a + m + b, m, |a|)
  {
    assert (a + m + b)[|a|..|a| + |m|] == m;
  }

  /** Each of the three element kinds is asked for under the same filter. */
  lemma QueryFiltersEveryKind(radius: int, c: Coordinates, placeType: string)
    ensures var q := OverpassQuery(radius, c, placeType);
            var f := AroundFilter(radius, c, placeType);
            (exists i :: OccursAt(q, "node" + f, i))
            && (exists i :: OccursAt(q, "way" + f, i))
            && (exists i :: OccursAt(q, "relation" + f, i))
  {
    var f := AroundFilter(radius, c, placeType);
    ClauseHasKind("node", f);
    ClauseHasKind("way", f);
    ClauseHasKind("relation", f);
    var n, w, r := Clause("node", f), Clause("way", f), Clause("relation", f);
    UnionHasClauses(QueryHead, n, w, r, QueryTail, "node" + f, "way" + f, "relation" + f);
    var q := OverpassQuery(radius, c, placeType);
    assert q == QueryHead + (n + w + r) + QueryTail;
    assert OccursAt(q, "node" + f, |QueryHead| + 6);
    assert OccursAt(q, "way" + f, |QueryHead| + |n| + 6);
    assert OccursAt(q, "relation" + f, |QueryHead| + |n| + |w| + 6);
  }

  /** Three pieces each holding a pattern at offset 6 hold them at their places in the text they make up. */
  lemma UnionHasClauses(head: string, n: string, w: string, r: string, tail: string, m1: string, m2: string, m3: string)
    requires OccursAt(n, m1, 6) && OccursAt(w, m2, 6) && OccursAt(r, m3, 6)
    ensures var q := head + (n + w + r) + tail;
            OccursAt(q, m1, |head| + 6)
            && OccursAt(q, m2, |head| + |n| + 6)
            && OccursAt(q, m3, |head| + |n| + |w| + 6)
  {
    var u := n + w + r;
    OccursBeforeSuffix(n, w, m1, 6);
    OccursBeforeSuffix(n + w, r, m1, 6);
    OccursAfterText(head, u, m1, 6);
    OccursBeforeSuffix(head + u, tail, m1, |head| + 6);
    OccursAfterText(n, w, m2, 6);
    OccursBeforeSuffix(n + w, r, m2, |n| + 6);
    OccursAfterText(head, u, m2, |n| + 6);
    OccursBeforeSuffix(head + u, tail, m2, |head| + |n| + 6);
    OccursAfterText(n + w, r, m3, 6);
    OccursAfterText(head, u, m3, |n| + |w| + 6);
    OccursBeforeSuffix(head + u, tail, m3, |head| + |n| + |w| + 6);
  }

  /** A clause holds its kind and filter right after its indentation. */
  lemma ClauseHasKind(kind: string, f: string)
    ensures OccursAt(Clause(kind, f), kind + f, 6)
  {
    assert Clause(kind, f) == "      " + (kind + f) + ";\n";
    OccursAfterPrefix("      ", kind + f, ";\n");
  }

  /** An occurrence stays where it is when text is appended. */
  lemma OccursBeforeSuffix(t: string, b: string, m: string, i: int)
    requires OccursAt(t, m, i)
    ensures OccursAt(t + b, m, i)
  {
    assert (t + b)[i..i + |m|] == t[i..i + |m|];
  }

  /** An occurrence moves by the length of text put in front. */
  lemma OccursAfterText(a: string, t: string, m: string, i: int)
    requires OccursAt(t, m, i)
    ensures OccursAt(a + t, m, |a| + i)
  {
    assert (a + t)[|a| + i..|a| + i + |m|] == t[i..i + |m|];
  }

  /** The radius written into the filter reads back as the integer the tool converted. */
  lemma FilterCarriesRadius(radius: int, c: Coordinates, placeType: string)
    ensures var f := AroundFilter(radius, c, placeType);
            var k := |"(around:"|;
            k + |DecimalString(radius)| <= |f| && ParseInt(f[k..k + |DecimalString(radius)|]) == Some(radius)
  {
    var d := DecimalString(radius);
    var f := AroundFilter(radius, c, placeType);
    assert f == "(around:" + d + ("," + c.lat + "," + c.lon + ")[\"amenity\"=\"" + placeType + "\"]");
    assert f[8..8 + |d|] == d;
    ParseDecimalString(radius);
  }

  /** An Overpass element: its tags and its point (the centre, for ways and relations). */
  datatype Element = Element(tags: map<string, string>, lat: string, lon: string)

  /** The answer of the Overpass interpreter, element kind by element kind. */
  datatype OverpassResult = OverpassResult(nodes: seq<Element>, ways: seq<Element>, relations: seq<Element>)

  /** An entry of the tool's result: `(name, lat, lon)`. */
  datatype Place = Place(name: string, lat: string, lon: string)

  const Unnamed := "Unnamed"

  /** The entry for a node: its `name` tag, or "Unnamed". */
  function NodePlace(e: Element): (p: Place)
    ensures "name" in e.tags ==> p.name == e.tags["name"]
    ensures "name" !in e.tags ==> p.name == Unnamed
    ensures p.lat == e.lat && p.lon == e.lon
  {
    Place(if "name" in e.tags then e.tags["name"] else Unnamed, e.lat, e.lon)
  }

  /** The entries for a run of nodes: one per node, in order. */
  function NodePlaces(nodes: seq<Element>): seq<Place> {
    if nodes == [] then [] else NodePlaces(nodes[..|nodes| - 1]) + [NodePlace(nodes[|nodes| - 1])]
  }

  /** The entries for a run of ways or relations: one per element with a `name` tag, in order. */
  function NamedPlaces(elems: seq<Element>): seq<Place> {
    if elems == [] then []
    else
      var e := elems[|elems| - 1];
      NamedPlaces(elems[..|elems| - 1]) + (if "name" in e.tags then [Place(e.tags["name"], e.lat, e.lon)] else [])
  }

  /** The number of elements with a `name` tag. */
  function NamedCount(elems: seq<Element>): nat {
    if elems == [] then 0
    else NamedCount(elems[..|elems| - 1]) + (if "name" in elems[|elems| - 1].tags then 1 else 0)
  }

  /** The places of a whole result: all nodes, then the named ways, then the named relations. */
  function Places(r: OverpassResult): seq<Place> {
    NodePlaces(r.nodes) + (NamedPlaces(r.ways) + NamedPlaces(r.relations))
  }

  /** Every node gives exactly one entry, the `i`-th node the `i`-th entry. */
  lemma {:induction false} NodePlacesOnePerNode(nodes: seq<Element>)
    ensures |NodePlaces(nodes)| == |nodes|
    ensures forall i :: 0 <= i < |nodes| ==> NodePlaces(nodes)[i] == NodePlace(nodes[i])
  {
    if nodes != [] {
      NodePlacesOnePerNode(nodes[..|nodes| - 1]);
    }
  }

  /** The named entries of a concatenation are those of each part, in order. */
  lemma {:induction false} NamedPlacesAppend(a: seq<Element>, b: seq<Element>)
    ensures NamedPlaces(a + b) == NamedPlaces(a) + NamedPlaces(b)
    ensures NamedCount(a + b) == NamedCount(a) + NamedCount(b)
    decreases |b|
  {
    if b == [] {
      assert a + b == a;
    } else {
      var b' := b[..|b| - 1];
      NamedPlacesAppend(a, b');
      assert (a + b)[..|a + b| - 1] == a + b';
      assert (a + b)[|a + b| - 1] == b[|b| - 1];
    }
  }

  /**
   * One entry per named element, so as many entries as named elements; an
   * element without a `name` tag gives none.
   */
  lemma {:induction false} NamedPlacesCount(elems: seq<Element>)
    ensures |NamedPlaces(elems)| == NamedCount(elems) <= |elems|
  {
    if elems != [] {
      NamedPlacesCount(elems[..|elems| - 1]);
    }
  }

  /** Every named entry comes from an element carrying that name, at that element's centre. */
  lemma {:induction false} NamedPlacesComeFromNamedElements(elems: seq<Element>)
    ensures forall p :: p in NamedPlaces(elems) ==>
              exists e :: e in elems && "name" in e.tags && p == Place(e.tags["name"], e.lat, e.lon)
  {
    if elems != [] {
      var init := elems[..|elems| - 1];
      NamedPlacesComeFromNamedElements(init);
      forall p | p in NamedPlaces(elems)
        ensures exists e :: e in elems && "name" in e.tags && p == Place(e.tags["name"], e.lat, e.lon)
      {
        if p in NamedPlaces(init) {
          var e :| e in init && "name" in e.tags && p == Place(e.tags["name"], e.lat, e.lon);
          assert e in elems;
        } else {
          assert elems[|elems| - 1] in elems;
        }
      }
    }
  }

  /**
   * The result holds the nodes' entries first, in node order, and its length
   * is the number of nodes plus the number of named ways and relations.
   */
  lemma PlacesLayout(r: OverpassResult)
    ensures |Places(r)| == |r.nodes| + NamedCount(r.ways) + NamedCount(r.relations)
    ensures forall i :: 0 <= i < |r.nodes| ==> Places(r)[i] == NodePlace(r.nodes[i])
    ensures Places(r)[|r.nodes|..] == NamedPlaces(r.ways) + NamedPlaces(r.relations)
  {
    NodePlacesOnePerNode(r.nodes);
    NamedPlacesCount(r.ways);
    NamedPlacesCount(r.relations);
    var nodes, rest := NodePlaces(r.nodes), NamedPlaces(r.ways) + NamedPlaces(r.relations);
    assert (nodes + rest)[|nodes|..] == rest;
    assert forall i :: 0 <= i < |nodes| ==> (nodes + rest)[i] == nodes[i];
  }

  /** The `for` loop over ways or relations: appends an entry for each element with a `name` tag. */
  method AppendNamed(places: seq<Place>, elems: seq<Element>) returns (result: seq<Place>)
    ensures result == places + NamedPlaces(elems)
  {
    result := places;
    for i := 0 to |elems|
      invariant result == places + NamedPlaces(elems[..i])
    {
      var e := elems[i];
      assert elems[..i + 1][..i] == elems[..i];
      if "name" in e.tags {
        result := result + [Place(e.tags["name"], e.lat, e.lon)];
      }
    }
    assert elems[..|elems|] == elems;
  }

  /** The first `for` loop of `find_nearby_places`: one entry per node, named or not. */
  method CollectNodes(nodes: seq<Element>) returns (places: seq<Place>)
    ensures places == NodePlaces(nodes)
  {
    places := [];
    for i := 0 to |nodes|
      invariant places == NodePlaces(nodes[..i])
    {
      assert nodes[..i + 1][..i] == nodes[..i];
      places := places + [NodePlace(nodes[i])];
    }
    assert nodes[..|nodes|] == nodes;
  }

  /** The three `for` loops of `find_nearby_places` building `places`. */
  method AssemblePlaces(r: OverpassResult) returns (places: seq<Place>)
    ensures places == Places(r)
  {
    places := CollectNodes(r.nodes);
    ghost var nodes := places;
    places := AppendNamed(places, r.ways);
    places := AppendNamed(places, r.relations);
    assert places == nodes + (NamedPlaces(r.ways) + NamedPlaces(r.relations));
  }

  /**
   * `find_nearby_places`: the radius is converted with `int()` first, so a
   * bad radius fails before the address is geocoded; then the address is
   * geocoded, the query run, and the places assembled.
   */
  method FindNearbyPlaces(address: string, placeType: string, radiusArg: PyValue,
                          geocode: string -> Option<Coordinates>,
                          overpass: string -> Result<OverpassResult, string>)
    returns (r: Result<seq<Place>, string>)
    ensures IntOf(radiusArg).Failure? ==> r == Failure(IntOf(radiusArg).error)
    ensures IntOf(radiusArg).Success? && geocode(address).None? ==> r == Failure(LocationNotFoundText)
    ensures IntOf(radiusArg).Success? && geocode(address).Some? ==>
              var answer := overpass(OverpassQuery(IntOf(radiusArg).value, geocode(address).value, placeType));
              (answer.Failure? ==> r == Failure(answer.error))
              && (answer.Success? ==> r == Success(Places(answer.value)))
  {
    var radius := IntOf(radiusArg);
    if radius.Failure? {
      return Failure(radius.error);
    }
    var coordinates := GetCoordinates(address, geocode);
    if coordinates.Failure? {
      return Failure(coordinates.error);
    }
    var answer := overpass(OverpassQuery(radius.value, coordinates.value, placeType));
    if answer.Failure? {
      return Failure(answer.error);
    }
    var places := AssemblePlaces(answer.value);
    r := Success(places);
  }

  const OsrmBase := "https://router.project-osrm.org/route/v1/driving/"
  const OsrmOptions := "?overview=false"

  /** A waypoint of the OSRM request: longitude, then latitude. */
  function Waypoint(c: Coordinates): string {
    Join([c.lon, c.lat], ",")
  }

  /** The OSRM route URL: the driving service, origin first, then destination, without the overview geometry. */
  function OsrmUrl(origin: Coordinates, destination: Coordinates): (u: string)
    ensures |OsrmBase| + |OsrmOptions| <= |u|
    ensures u[..|OsrmBase|] == OsrmBase && u[|u| - |OsrmOptions|..] == OsrmOptions
  {
    var path := Join([Waypoint(origin), Waypoint(destination)], ";");
    Framed(OsrmBase, path, OsrmOptions);
    OsrmBase + path + OsrmOptions
  }

  /** Coordinates whose text holds none of the URL's separators, as a rendered float never does. */
  predicate PlainCoordinates(c: Coordinates) {
    ',' !in c.lat && ',' !in c.lon && ';' !in c.lat && ';' !in c.lon
  }

  /**
   * The URL's waypoint list reads back as the origin then the destination,
   * each as its longitude then its latitude.
   */
  lemma OsrmUrlReadsBack(origin: Coordinates, destination: Coordinates)
    requires PlainCoordinates(origin) && PlainCoordinates(destination)
    ensures var url := OsrmUrl(origin, destination);
            var path := url[|OsrmBase|..|url| - |OsrmOptions|];
            var points := Split(path, ';');
            points == [Waypoint(origin), Waypoint(destination)]
            && Split(points[0], ',') == [origin.lon, origin.lat]
            && Split(points[1], ',') == [destination.lon, destination.lat]
  {
    var url := OsrmUrl(origin, destination);
    var path := Join([Waypoint(origin), Waypoint(destination)], ";");
    assert url[|OsrmBase|..|url| - |OsrmOptions|] == path;
    SplitJoin([origin.lon, origin.lat], ',');
    SplitJoin([destination.lon, destination.lat], ',');
    assert Waypoint(origin) == origin.lon + "," + origin.lat;
    assert Waypoint(destination) == destination.lon + "," + destination.lat;
    SplitJoin([Waypoint(origin), Waypoint(destination)], ';');
  }

  /** A route of OSRM's answer: its distance in metres and duration in seconds, as rendered numbers. */
  datatype Route = Route(distance: string, duration: string)

  /** OSRM's JSON body: its `routes` list, if the key is there, or a body whose reading raises. */
  datatype OsrmBody = OsrmJson(routes: Option<seq<Route>>) | OsrmUnreadable(error: string)

  datatype OsrmReply = OsrmReply(status: int, body: OsrmBody, text: string)

  /** The text of the exception raised for a status other than 200. */
  function OsrmErrorText(status: int, text: string): string {
    "Error from OSRM API: " + DecimalString(status) + " - " + text
  }

  /**
   * `get_travel_info`, up to the float arithmetic on the route: both
   * addresses geocoded, origin first; one GET of the route URL; the first
   * route of a 200 answer, or the exception raised on the way.
   */
  function GetTravelInfo(origin: string, destination: string, geocode: string -> Option<Coordinates>,
                         osrm: string -> Result<OsrmReply, string>): (r: Result<Route, string>)
    ensures geocode(origin).None? ==> r == Failure(LocationNotFoundText)
    ensures geocode(origin).Some? && geocode(destination).None? ==> r == Failure(LocationNotFoundText)
    ensures geocode(origin).Some? && geocode(destination).Some? ==>
              var a := osrm(OsrmUrl(geocode(origin).value, geocode(destination).value));
              (a.Failure? ==> r == Failure(a.error))
              && (a.Success? && a.value.status != 200 ==> r == Failure(OsrmErrorText(a.value.status, a.value.text)))
              && (a.Success? && a.value.status == 200 && a.value.body.OsrmUnreadable? ==>
                    r == Failure(a.value.body.error))
              && (a.Success? && a.value.status == 200 && a.value.body == OsrmJson(None) ==>
                    r == Failure("'routes'"))
              && (a.Success? && a.value.status == 200 && a.value.body == OsrmJson(Some([])) ==>
                    r == Failure("list index out of range"))
  {
    match GetCoordinates(origin, geocode)
    case Failure(e) => Failure(e)
    case Success(o) =>
      match GetCoordinates(destination, geocode)
      case Failure(e) => Failure(e)
      case Success(d) =>
        match osrm(OsrmUrl(o, d))
        case Failure(e) => Failure(e)
        case Success(reply) =>
          if reply.status != 200 then Failure(OsrmErrorText(reply.status, reply.text))
          else
            match reply.body
            case OsrmUnreadable(e) => Failure(e)
            case OsrmJson(None) => Failure("'routes'")
            case OsrmJson(Some(routes)) =>
              if routes == [] then Failure("list index out of range") else Success(routes[0])
  }

  /** Only one request matters: the GET of the route URL built from the two geocoded points. */
  lemma TravelInfoAsksOneRoute(origin: string, destination: string, geocode: string -> Option<Coordinates>,
                               osrm: string -> Result<OsrmReply, string>,
                               other: string -> Result<OsrmReply, string>)
    requires geocode(origin).Some? && geocode(destination).Some?
    requires var url := OsrmUrl(geocode(origin).value, geocode(destination).value);
             other(url) == osrm(url)
    ensures GetTravelInfo(origin, destination, geocode, other) == GetTravelInfo(origin, destination, geocode, osrm)
  {
  }

  /**
   * A route comes back exactly when OSRM answered 200 with at least one
   * route, and it is the first one.
   */
  lemma TravelInfoSucceedsIff(origin: string, destination: string, geocode: string -> Option<Coordinates>,
                              osrm: string -> Result<OsrmReply, string>)
    ensures var r := GetTravelInfo(origin, destination, geocode, osrm);
            r.Success? <==>
              geocode(origin).Some? && geocode(destination).Some?
              && var a := osrm(OsrmUrl(geocode(origin).value, geocode(destination).value));
              a.Success? && a.value.status == 200 && a.value.body.OsrmJson?
              && a.value.body.routes.Some? && a.value.body.routes.value != []
              && r.value == a.value.body.routes.value[0]
  {
  }

  /** A status other than 200 fails with a text that carries the status code, read back as the integer it was. */
  lemma OsrmErrorCarriesStatus(status: int, text: string)
    ensures var e := OsrmErrorText(status, text);
            var k := |"Error from OSRM API: "|;
            k + |DecimalString(status)| <= |e| && ParseInt(e[k..k + |DecimalString(status)|]) == Some(status)
  {
    var d := DecimalString(status);
    var e := OsrmErrorText(status, text);
    assert e == "Error from OSRM API: " + d + (" - " + text);
    assert e[21..21 + |d|] == d;
    ParseDecimalString(status);
  }
}
