/** The EcoMap page: a fixed catalog of recycling and community locations that the user
    searches, filters by type, selects from, searches for the one nearest to them, and asks
    directions to. The map images are modelled by the parameters they are drawn from. */
module EcoMap {
  import opened Wrappers
  import opened Seqs
  import opened Text

  /** `MapLocation`; `kind` is the source's `type` field. */
  datatype Location = Location(
    id: string,
    name: string,
    kind: string,
    latitude: real,
    longitude: real,
    address: Option<string>)

  /** The seven locations the page ships with (`initialLocations`). */
  const InitialLocations: seq<Location> := [
    Location("1", "Swachh Bangalore Recycling", "Recycler", 12.9716, 77.5946, Some("10 MG Road, Bangalore")),
    Location("2", "Seva Foundation Drop-off", "NGO", 12.9750, 77.6000, Some("25 Koramangala Main Rd, Bangalore")),
    Location("3", "Indiranagar Compost Hub", "Drop-off Point", 12.9780, 77.6400, Some("50, 100 Feet Rd, Indiranagar, Bangalore")),
    Location("4", "Mahila Shakti SHG", "SHG", 12.9600, 77.5800, Some("75 Chickpet, Bangalore")),
    Location("5", "Lalbagh Cleanup Drive", "Campaign", 12.9507, 77.5848, Some("Lalbagh Botanical Garden, Bangalore")),
    Location("6", "Jayanagar E-Waste Collection", "Recycler", 12.9293, 77.5824, Some("100 Jayanagar 4th Block, Bangalore")),
    Location("7", "Whitefield Community Composting", "Drop-off Point", 12.9698, 77.7499, Some("200 ITPL Main Road, Whitefield, Bangalore"))
  ]

  const DefaultCenterLat: real := 12.9716
  const DefaultCenterLon: real := 77.5946
  const InitialLoadZoom: int := 10
  const SelectedLocationZoom: int := 15
  const RouteOverviewZoom: int := 12

  /** The filter value that disables the type filter. */
  const AllTypes: string := "All"

  // ---------------------------------------------------------------------------
  // Map-view parameters: what the static-map image URL is built from
  // ---------------------------------------------------------------------------

  datatype Marker = Marker(latitude: real, longitude: real, icon: string)

  datatype MapView = MapView(centerLat: real, centerLon: real, zoom: int, markers: seq<Marker>)

  /** The view shown before any location is selected and when nothing is visible. */
  const DefaultView: MapView := MapView(DefaultCenterLat, DefaultCenterLon, InitialLoadZoom, [])

  const PinIcons: set<string> := {"bluepin", "greenpin", "orangepin", "purplepin", "redpin"}

  /** `getMarkerIconName`: the pin colour for a location type. */
  function MarkerIconName(kind: string): (icon: string)
    ensures icon in PinIcons
    ensures icon == "redpin" <==> kind !in {"Recycler", "NGO", "Drop-off Point", "SHG"}
  {
    if kind == "Recycler" then "bluepin"
    else if kind == "NGO" then "greenpin"
    else if kind == "Drop-off Point" then "orangepin"
    else if kind == "SHG" then "purplepin"
    else if kind == "Campaign" then "redpin"
    else "redpin"
  }

  /** The full pin table, including the fallback for unknown types. */
  lemma MarkerIconTable(other: string)
    requires other !in {"Recycler", "NGO", "Drop-off Point", "SHG", "Campaign"}
    ensures MarkerIconName("Recycler") == "bluepin"
    ensures MarkerIconName("NGO") == "greenpin"
    ensures MarkerIconName("Drop-off Point") == "orangepin"
    ensures MarkerIconName("SHG") == "purplepin"
    ensures MarkerIconName("Campaign") == "redpin"
    ensures MarkerIconName(other) == "redpin"
  {
  }

  function MarkerFor(loc: Location): Marker
  {
    Marker(loc.latitude, loc.longitude, MarkerIconName(loc.kind))
  }

  /** `locations.map(...)`: one marker per location, in list order. */
  function MarkersFor(locs: seq<Location>): (ms: seq<Marker>)
    ensures |ms| == |locs|
    ensures forall i :: 0 <= i < |locs| ==> ms[i] == MarkerFor(locs[i])
  {
    if locs == [] then [] else [MarkerFor(locs[0])] + MarkersFor(locs[1..])
  }

  // ---------------------------------------------------------------------------
  // Filtering (the first effect)
  // ---------------------------------------------------------------------------

  /** Case-insensitive search on the name, or on the address when there is one. */
  predicate MatchesSearch(loc: Location, term: string)
  {
    Contains(ToLower(loc.name), ToLower(term)) ||
    (loc.address.Some? && Contains(ToLower(loc.address.value), ToLower(term)))
  }

  function SearchFilter(term: string): Location -> bool
  {
    (loc: Location) => MatchesSearch(loc, term)
  }

  function TypeFilter(filterType: string): Location -> bool
  {
    (loc: Location) => loc.kind == filterType
  }

  /** The page's two filters as one test: an empty term and the type "All" switch a filter off. */
  predicate Passes(loc: Location, term: string, filterType: string)
  {
    (term == "" || MatchesSearch(loc, term)) && (filterType == AllTypes || loc.kind == filterType)
  }

  function PassesFilter(term: string, filterType: string): Location -> bool
  {
    (loc: Location) => Passes(loc, term, filterType)
  }

  /** The filter chain as the effect runs it: always from the full catalog, search first,
      then type. */
  function VisibleLocations(catalog: seq<Location>, term: string, filterType: string): seq<Location>
  {
    var searched := if term != "" then Filter(catalog, SearchFilter(term)) else catalog;
    if filterType != AllTypes then Filter(searched, TypeFilter(filterType)) else searched
  }

  /** The visible list is exactly the catalog entries that pass both filters, in catalog order. */
  lemma VisibleIsOneFilter(catalog: seq<Location>, term: string, filterType: string)
    ensures VisibleLocations(catalog, term, filterType) == Filter(catalog, PassesFilter(term, filterType))
  {
    var both := PassesFilter(term, filterType);
    if term == "" && filterType == AllTypes {
      FilterKeepsAll(catalog, both);
    } else if term == "" {
      FilterSamePredicate(catalog, TypeFilter(filterType), both);
    } else if filterType == AllTypes {
      FilterSamePredicate(catalog, SearchFilter(term), both);
    } else {
      FilterThenFilter(catalog, SearchFilter(term), TypeFilter(filterType), both);
    }
  }

  /** Membership form of the same fact: an entry is visible iff it is in the catalog and passes. */
  lemma VisibleMembership(catalog: seq<Location>, term: string, filterType: string, loc: Location)
    ensures loc in VisibleLocations(catalog, term, filterType) <==> loc in catalog && Passes(loc, term, filterType)
  {
    VisibleIsOneFilter(catalog, term, filterType);
    FilterMembership(catalog, PassesFilter(term, filterType), loc);
  }

  /** With no search term and the type "All", every catalog entry is visible, in order. */
  lemma VisibleWithoutFilters(catalog: seq<Location>)
    ensures VisibleLocations(catalog, "", AllTypes) == catalog
  {
  }

  /** Re-filtering the visible list with the same criteria changes nothing. */
  lemma VisibleIdempotent(catalog: seq<Location>, term: string, filterType: string)
    ensures VisibleLocations(VisibleLocations(catalog, term, filterType), term, filterType)
         == VisibleLocations(catalog, term, filterType)
  {
    var r := VisibleLocations(catalog, term, filterType);
    VisibleIsOneFilter(catalog, term, filterType);
    VisibleIsOneFilter(r, term, filterType);
    FilterIdempotent(catalog, PassesFilter(term, filterType));
  }

  // ---------------------------------------------------------------------------
  // Selection reconciliation (the tail of the first effect)
  // ---------------------------------------------------------------------------

  /** `locs.find(l => l.id === id)` found something. */
  predicate HasId(locs: seq<Location>, id: string)
  {
    locs != [] && (locs[0].id == id || HasId(locs[1..], id))
  }

  lemma {:induction false} HasIdOfMember(locs: seq<Location>, loc: Location)
    requires loc in locs
    ensures HasId(locs, loc.id)
  {
    if locs[0] != loc {
      HasIdOfMember(locs[1..], loc);
    }
  }

  /** A selection belongs to the visible list when it is absent or its id is listed. */
  predicate SelectionVisible(selected: Option<Location>, visible: seq<Location>)
  {
    selected.None? || HasId(visible, selected.value.id)
  }

  /** The effect's reconciliation: a selection whose id is no longer visible is dropped, and
      an empty visible list always drops it. Equivalently, the selection survives exactly when
      its id is visible. */
  function ReconcileSelection(visible: seq<Location>, selected: Option<Location>): (r: Option<Location>)
    ensures SelectionVisible(r, visible)
    ensures r == (if selected.Some? && HasId(visible, selected.value.id) then selected else None)
  {
    if |visible| > 0 && selected.Some? && !HasId(visible, selected.value.id) then None
    else if |visible| == 0 then None
    else selected
  }

  /** A selection taken from the visible list survives reconciliation. */
  lemma ReconcileKeepsVisible(visible: seq<Location>, loc: Location)
    requires loc in visible
    ensures ReconcileSelection(visible, Some(loc)) == Some(loc)
  {
    HasIdOfMember(visible, loc);
  }

  /** Reconciling twice is reconciling once: the effect that re-runs on its own change is a no-op. */
  lemma ReconcileIdempotent(visible: seq<Location>, selected: Option<Location>)
    ensures ReconcileSelection(visible, ReconcileSelection(visible, selected)) == ReconcileSelection(visible, selected)
  {
  }

  // ---------------------------------------------------------------------------
  // Overview zoom, centroid and the view effect
  // ---------------------------------------------------------------------------

  function Max(a: int, b: int): int
  {
    if a >= b then a else b
  }

  /** The zoom step table of the overview, clamped below at `InitialLoadZoom - 2`. Every step
      is at least 9, so the clamp at 8 never changes the result. */
  function OverviewZoom(count: nat): (zoom: int)
    requires count >= 1
    ensures InitialLoadZoom - 1 <= zoom <= SelectedLocationZoom - 2
  {
    var stepped :=
      if count == 1 then SelectedLocationZoom - 2
      else if count <= 3 then InitialLoadZoom + 1
      else if count <= 7 then InitialLoadZoom
      else InitialLoadZoom - 1;
    Max(stepped, InitialLoadZoom - 2)
  }

  lemma OverviewZoomTable(count: nat)
    requires count >= 1
    ensures count == 1 ==> OverviewZoom(count) == 13
    ensures 2 <= count <= 3 ==> OverviewZoom(count) == 11
    ensures 4 <= count <= 7 ==> OverviewZoom(count) == 10
    ensures count >= 8 ==> OverviewZoom(count) == 9
  {
  }

  /** More visible locations never zoom the overview in. */
  lemma OverviewZoomMonotone(fewer: nat, more: nat)
    requires 1 <= fewer <= more
    ensures OverviewZoom(more) <= OverviewZoom(fewer)
  {
  }

  function Latitude(loc: Location): real { loc.latitude }
  function Longitude(loc: Location): real { loc.longitude }

  /** `reduce((sum, loc) => sum + coord(loc), 0)`. */
  function SumOf(locs: seq<Location>, coord: Location -> real): real
  {
    if locs == [] then 0.0 else coord(locs[0]) + SumOf(locs[1..], coord)
  }

  function Mean(locs: seq<Location>, coord: Location -> real): real
    requires |locs| > 0
  {
    SumOf(locs, coord) / (|locs| as real)
  }

  /** JavaScript's `x || fallback` on a number: a zero mean falls back to the default centre. */
  function OrIfZero(x: real, fallback: real): real
  {
    if x == 0.0 then fallback else x
  }

  lemma {:induction false} SumOfBounds(locs: seq<Location>, coord: Location -> real, lo: real, hi: real)
    requires forall i :: 0 <= i < |locs| ==> lo <= coord(locs[i]) <= hi
    ensures (|locs| as real) * lo <= SumOf(locs, coord) <= (|locs| as real) * hi
  {
    if locs != [] {
      SumOfBounds(locs[1..], coord, lo, hi);
      var n := |locs| as real;
      assert n * lo == lo + (n - 1.0) * lo;
      assert n * hi == hi + (n - 1.0) * hi;
    }
  }

  /** The overview centre on one axis lies within the range the visible locations span on it. */
  lemma MeanWithinBounds(locs: seq<Location>, coord: Location -> real, lo: real, hi: real)
    requires |locs| > 0
    requires forall i :: 0 <= i < |locs| ==> lo <= coord(locs[i]) <= hi
    ensures lo <= Mean(locs, coord) <= hi
  {
    SumOfBounds(locs, coord, lo, hi);
    var n := |locs| as real;
    var s := SumOf(locs, coord);
    assert s / n * n == s;
    if s / n < lo {
      assert s / n * n < lo * n;
    }
    if s / n > hi {
      assert s / n * n > hi * n;
    }
  }

  /** The view effect: the selection's close-up, else an overview of the visible list, else
      the default view of the city. */
  function MapViewFor(selected: Option<Location>, visible: seq<Location>): (v: MapView)
    ensures InitialLoadZoom - 1 <= v.zoom <= SelectedLocationZoom
    ensures v.markers == [] <==> selected.None? && visible == []
    ensures selected.Some? ==> v.zoom == SelectedLocationZoom
    ensures selected.None? ==> v.zoom < SelectedLocationZoom
    ensures selected.None? && visible != [] ==>
      v.zoom == OverviewZoom(|visible|) && v.markers == MarkersFor(visible) &&
      v.centerLat == OrIfZero(Mean(visible, Latitude), DefaultCenterLat) &&
      v.centerLon == OrIfZero(Mean(visible, Longitude), DefaultCenterLon)
    ensures selected.None? && visible == [] ==> v == DefaultView
  {
    if selected.Some? then
      var loc := selected.value;
      MapView(loc.latitude, loc.longitude, SelectedLocationZoom, [MarkerFor(loc)])
    else if |visible| > 0 then
      MapView(OrIfZero(Mean(visible, Latitude), DefaultCenterLat),
              OrIfZero(Mean(visible, Longitude), DefaultCenterLon),
              OverviewZoom(|visible|),
              MarkersFor(visible))
    else
      DefaultView
  }

  /** With a selection the view is centred on it and shows it alone, with its type's pin. */
  lemma SelectedViewShowsOnlySelection(loc: Location, visible: seq<Location>)
    ensures var v := MapViewFor(Some(loc), visible);
      v.centerLat == loc.latitude && v.centerLon == loc.longitude &&
      |v.markers| == 1 && v.markers[0].latitude == loc.latitude &&
      v.markers[0].longitude == loc.longitude && v.markers[0].icon == MarkerIconName(loc.kind)
  {
  }

  /** In the overview, the markers are the visible locations in list order: every visible location
      has its marker and every marker belongs to a visible location. */
  lemma OverviewMarkersAreVisibleLocations(visible: seq<Location>)
    requires |visible| > 0
    ensures var v := MapViewFor(None, visible);
      |v.markers| == |visible| &&
      (forall i :: 0 <= i < |visible| ==>
        v.markers[i].latitude == visible[i].latitude &&
        v.markers[i].longitude == visible[i].longitude &&
        v.markers[i].icon == MarkerIconName(visible[i].kind)) &&
      (forall m :: m in v.markers ==> exists loc :: loc in visible && m == MarkerFor(loc))
  {
    var v := MapViewFor(None, visible);
    forall m | m in v.markers ensures exists loc :: loc in visible && m == MarkerFor(loc) {
      var i :| 0 <= i < |v.markers| && v.markers[i] == m;
      assert visible[i] in visible;
    }
  }

  /** The overview centre is the bounding-box-contained centroid, unless a mean is exactly zero,
      when that axis falls back to the default centre. */
  lemma OverviewCentreInBoundingBox(visible: seq<Location>, south: real, north: real, west: real, east: real)
    requires |visible| > 0
    requires forall i :: 0 <= i < |visible| ==> south <= visible[i].latitude <= north
    requires forall i :: 0 <= i < |visible| ==> west <= visible[i].longitude <= east
    ensures var v := MapViewFor(None, visible);
      (v.centerLat == DefaultCenterLat || south <= v.centerLat <= north) &&
      (v.centerLon == DefaultCenterLon || west <= v.centerLon <= east)
  {
    MeanWithinBounds(visible, Latitude, south, north);
    MeanWithinBounds(visible, Longitude, west, east);
  }

  // ---------------------------------------------------------------------------
  // Directions overview
  // ---------------------------------------------------------------------------

  /** JavaScript truthiness of a `number | null` coordinate: null and 0 are both falsy. */
  predicate Truthy(x: Option<real>)
  {
    x.Some? && x.value != 0.0
  }

  /** The static directions map: destination and user's position framed around their midpoint
      when the position is known, otherwise a close-up of the destination. */
  function DirectionsView(dest: Location, userLatitude: Option<real>, userLongitude: Option<real>): (v: MapView)
    ensures 1 <= |v.markers| <= 2 && v.markers[0] == MarkerFor(dest)
    ensures Truthy(userLatitude) && Truthy(userLongitude) ==>
      v.zoom == RouteOverviewZoom && |v.markers| == 2 &&
      v.markers[1] == Marker(userLatitude.value, userLongitude.value, "redpin") &&
      v.centerLat - dest.latitude == userLatitude.value - v.centerLat &&
      v.centerLon - dest.longitude == userLongitude.value - v.centerLon
    ensures !(Truthy(userLatitude) && Truthy(userLongitude)) ==>
      v.zoom == SelectedLocationZoom && |v.markers| == 1 &&
      v.centerLat == dest.latitude && v.centerLon == dest.longitude
  {
    if Truthy(userLatitude) && Truthy(userLongitude) then
      var lat, lon := userLatitude.value, userLongitude.value;
      MapView((lat + dest.latitude) / 2.0, (lon + dest.longitude) / 2.0, RouteOverviewZoom,
              [MarkerFor(dest), Marker(lat, lon, "redpin")])
    else
      MapView(dest.latitude, dest.longitude, SelectedLocationZoom, [MarkerFor(dest)])
  }

  /** Without a usable position, the directions map is the same picture as the selection's view. */
  lemma DirectionsWithoutOriginIsSelectedView(dest: Location, userLatitude: Option<real>, userLongitude: Option<real>, visible: seq<Location>)
    requires !(Truthy(userLatitude) && Truthy(userLongitude))
    ensures DirectionsView(dest, userLatitude, userLongitude) == MapViewFor(Some(dest), visible)
  {
  }

  /** The page as shipped: all seven locations in the overview at zoom 10; the "Recycler"
      type shows the MG Road and Jayanagar recyclers, in catalog order. */
  lemma ShippedCatalogScenario()
    ensures var v := MapViewFor(None, InitialLocations);
      v.zoom == InitialLoadZoom && |v.markers| == 7 && v.markers[4].icon == "redpin"
    ensures VisibleLocations(InitialLocations, "", "Recycler") == [InitialLocations[0], InitialLocations[5]]
  {
    FilterLast(InitialLocations, TypeFilter("Recycler"));
  }

  // ---------------------------------------------------------------------------
  // Nearest search
  // ---------------------------------------------------------------------------

  /** The distance from a position to a location, by a given distance function (the page's
      haversine `getDistanceFromLatLonInKm(lat1, lon1, lat2, lon2)`). */
  function DistanceTo(distance: (real, real, real, real) -> real, lat: real, lon: real, loc: Location): real
  {
    distance(lat, lon, loc.latitude, loc.longitude)
  }

  /** `k` is the first catalog index at minimal distance from (lat, lon). */
  predicate IsFirstNearest(catalog: seq<Location>, distance: (real, real, real, real) -> real, lat: real, lon: real, k: int)
  {
    0 <= k < |catalog| &&
    (forall j :: 0 <= j < |catalog| ==> DistanceTo(distance, lat, lon, catalog[k]) <= DistanceTo(distance, lat, lon, catalog[j])) &&
    (forall j :: 0 <= j < k ==> DistanceTo(distance, lat, lon, catalog[j]) > DistanceTo(distance, lat, lon, catalog[k]))
  }

  /** At most one index is the first nearest one, so the search result is determined. */
  lemma FirstNearestIsUnique(catalog: seq<Location>, distance: (real, real, real, real) -> real, lat: real, lon: real, k1: int, k2: int)
    requires IsFirstNearest(catalog, distance, lat, lon, k1)
    requires IsFirstNearest(catalog, distance, lat, lon, k2)
    ensures k1 == k2
  {
    assert DistanceTo(distance, lat, lon, catalog[k1]) <= DistanceTo(distance, lat, lon, catalog[k2]);
    assert DistanceTo(distance, lat, lon, catalog[k2]) <= DistanceTo(distance, lat, lon, catalog[k1]);
  }

  /** The linear scan of `handleFindNearest` over the whole catalog; a strictly smaller distance
      replaces the candidate, so the first minimum wins. */
  method NearestIndex(catalog: seq<Location>, distance: (real, real, real, real) -> real, lat: real, lon: real)
    returns (k: nat, minDistance: real)
    requires |catalog| > 0
    ensures IsFirstNearest(catalog, distance, lat, lon, k)
    ensures minDistance == DistanceTo(distance, lat, lon, catalog[k])
  {
    k := 0;
    minDistance := DistanceTo(distance, lat, lon, catalog[0]);
    var i := 1;
    while i < |catalog|
      invariant 1 <= i <= |catalog|
      invariant k < i
      invariant minDistance == DistanceTo(distance, lat, lon, catalog[k])
      invariant forall j :: 0 <= j < i ==> minDistance <= DistanceTo(distance, lat, lon, catalog[j])
      invariant forall j :: 0 <= j < k ==> DistanceTo(distance, lat, lon, catalog[j]) > minDistance
    {
      var d := DistanceTo(distance, lat, lon, catalog[i]);
      if d < minDistance {
        minDistance := d;
        k := i;
      }
      i := i + 1;
    }
  }

  // ---------------------------------------------------------------------------
  // The page
  // ---------------------------------------------------------------------------

  datatype GeoError = PermissionDenied | PositionUnavailable | Timeout | OtherGeoError

  /** What the browser's geolocation service answers to a "Find Nearest" click. */
  datatype GeoResponse =
    | Unsupported
    | Position(latitude: real, longitude: real)
    | Failed(error: GeoError)

  /** The notification `handleFindNearest` ends with. */
  datatype NearestOutcome =
    | GeolocationUnsupported
    | GeolocationFailed(error: GeoError)
    | NoLocations
    | Found(location: Location, distanceKm: real)

  /** What `handleGetDirections` hands to the external directions service. */
  datatype DirectionsOutcome =
    | NoLocationSelected
    | Opened(destLatitude: real, destLongitude: real, origin: Option<(real, real)>)

  /** The page's state. Each handler method also runs the effects its state change triggers,
      so every method ends in the state the effects settle to. */
  class EcoMapPage {
    const catalog: seq<Location>
    const distance: (real, real, real, real) -> real

    var searchTerm: string
    var filterType: string
    var locations: seq<Location>
    var selectedLocation: Option<Location>
    var userLatitude: Option<real>
    var userLongitude: Option<real>
    var mapView: MapView
    var directionsView: Option<MapView>

    /** After the effects: the list is the filtered catalog, the selection is visible and
        comes from the catalog, the map shows what the selection and list call for, and the
        user's position is either fully known or absent. */
    ghost predicate Valid()
      reads this
    {
      locations == VisibleLocations(catalog, searchTerm, filterType) &&
      SelectionVisible(selectedLocation, locations) &&
      (selectedLocation.Some? ==> selectedLocation.value in catalog) &&
      mapView == MapViewFor(selectedLocation, locations) &&
      (userLatitude.Some? <==> userLongitude.Some?)
    }

    /** The page as mounted: no search, all types, no selection, no position, no directions. */
    constructor (catalog: seq<Location>, distance: (real, real, real, real) -> real)
      ensures Valid()
      ensures this.catalog == catalog && this.distance == distance
      ensures searchTerm == "" && filterType == AllTypes && locations == catalog
      ensures selectedLocation == None && userLatitude == None && userLongitude == None
      ensures mapView == MapViewFor(None, catalog) && directionsView == None
    {
      this.catalog := catalog;
      this.distance := distance;
      searchTerm := "";
      filterType := AllTypes;
      locations := catalog;
      selectedLocation := None;
      userLatitude := None;
      userLongitude := None;
      mapView := DefaultView;
      directionsView := None;
      new;
      RunEffects();
    }

    /** Both effects: refilter from the catalog, reconcile the selection, redraw the map. */
    method RunEffects()
      requires selectedLocation.Some? ==> selectedLocation.value in catalog
      requires userLatitude.Some? <==> userLongitude.Some?
      modifies this`locations, this`selectedLocation, this`mapView
      ensures Valid()
      ensures locations == VisibleLocations(catalog, searchTerm, filterType)
      ensures selectedLocation == ReconcileSelection(locations, old(selectedLocation))
    {
      locations := VisibleLocations(catalog, searchTerm, filterType);
      selectedLocation := ReconcileSelection(locations, selectedLocation);
      mapView := MapViewFor(selectedLocation, locations);
    }

    /** Typing in the search box. */
    method SetSearchTerm(term: string)
      requires Valid()
      modifies this`searchTerm, this`locations, this`selectedLocation, this`mapView
      ensures Valid()
      ensures searchTerm == term
      ensures locations == VisibleLocations(catalog, term, filterType)
      ensures selectedLocation == ReconcileSelection(locations, old(selectedLocation))
    {
      searchTerm := term;
      RunEffects();
    }

    /** Choosing a type in the drop-down. */
    method SetFilterType(kind: string)
      requires Valid()
      modifies this`filterType, this`locations, this`selectedLocation, this`mapView
      ensures Valid()
      ensures filterType == kind
      ensures locations == VisibleLocations(catalog, searchTerm, kind)
      ensures selectedLocation == ReconcileSelection(locations, old(selectedLocation))
    {
      filterType := kind;
      RunEffects();
    }

    /** Clicking a card of the visible list. */
    method SelectLocation(loc: Location)
      requires Valid()
      requires loc in locations
      modifies this`locations, this`selectedLocation, this`mapView
      ensures Valid()
      ensures locations == old(locations)
      ensures selectedLocation == Some(loc)
      ensures mapView == MapViewFor(Some(loc), locations)
    {
      VisibleMembership(catalog, searchTerm, filterType, loc);
      ReconcileKeepsVisible(locations, loc);
      selectedLocation := Some(loc);
      RunEffects();
    }

    /** `handleFindNearest` together with the geolocation callback that answers it. */
    method HandleFindNearest(response: GeoResponse) returns (outcome: NearestOutcome)
      requires Valid()
      modifies this
      ensures Valid()
      ensures directionsView == old(directionsView)
      ensures response.Unsupported? ==>
        outcome == GeolocationUnsupported &&
        userLatitude == old(userLatitude) && userLongitude == old(userLongitude) &&
        searchTerm == old(searchTerm) && filterType == old(filterType) &&
        selectedLocation == old(selectedLocation)
      ensures response.Failed? ==>
        outcome == GeolocationFailed(response.error) &&
        userLatitude == None && userLongitude == None &&
        searchTerm == old(searchTerm) && filterType == old(filterType) &&
        selectedLocation == old(selectedLocation)
      ensures response.Position? ==>
        userLatitude == Some(response.latitude) && userLongitude == Some(response.longitude)
      ensures response.Position? && catalog == [] ==>
        outcome == NoLocations &&
        searchTerm == old(searchTerm) && filterType == old(filterType) &&
        selectedLocation == old(selectedLocation)
      ensures response.Position? && catalog != [] ==>
        outcome.Found? && IsNearestOutcome(outcome, response.latitude, response.longitude) &&
        selectedLocation == Some(outcome.location) &&
        (if HasId(old(locations), outcome.location.id)
         then searchTerm == old(searchTerm) && filterType == old(filterType)
         else searchTerm == "" && filterType == AllTypes)
    {
      match response {
        case Unsupported =>
          outcome := GeolocationUnsupported;
        case Failed(error) =>
          userLatitude := None;
          userLongitude := None;
          outcome := GeolocationFailed(error);
        case Position(lat, lon) =>
          outcome := SelectNearest(lat, lon);
      }
    }

    /** The outcome names the first catalog entry at minimal distance, and that distance. */
    ghost predicate IsNearestOutcome(outcome: NearestOutcome, lat: real, lon: real)
      reads this
    {
      outcome.Found? &&
      (exists k :: IsFirstNearest(catalog, distance, lat, lon, k) && catalog[k] == outcome.location) &&
      outcome.distanceKm == DistanceTo(distance, lat, lon, outcome.location)
    }

    /** The success callback: store the position, then select the nearest catalog entry. */
    method SelectNearest(lat: real, lon: real) returns (outcome: NearestOutcome)
      requires Valid()
      modifies this`userLatitude, this`userLongitude, this`searchTerm, this`filterType,
               this`locations, this`selectedLocation, this`mapView
      ensures Valid()
      ensures userLatitude == Some(lat) && userLongitude == Some(lon)
      ensures catalog == [] ==>
        outcome == NoLocations &&
        searchTerm == old(searchTerm) && filterType == old(filterType) &&
        selectedLocation == old(selectedLocation)
      ensures catalog != [] ==>
        IsNearestOutcome(outcome, lat, lon) &&
        selectedLocation == Some(outcome.location) &&
        (if HasId(old(locations), outcome.location.id)
         then searchTerm == old(searchTerm) && filterType == old(filterType)
         else searchTerm == "" && filterType == AllTypes)
    {
      userLatitude := Some(lat);
      userLongitude := Some(lon);
      if |catalog| == 0 {
        outcome := NoLocations;
        return;
      }
      var k, minDistance := NearestIndex(catalog, distance, lat, lon);
      ShowLocation(catalog[k]);
      outcome := Found(catalog[k], minDistance);
      assert IsFirstNearest(catalog, distance, lat, lon, k) && catalog[k] == outcome.location;
    }

    /** Select a catalog entry found by the nearest search. When it is not in the visible
        list, the search term and type are reset so that it becomes visible. */
    method ShowLocation(loc: Location)
      requires Valid()
      requires loc in catalog
      modifies this`searchTerm, this`filterType, this`locations, this`selectedLocation, this`mapView
      ensures Valid()
      ensures selectedLocation == Some(loc)
      ensures if HasId(old(locations), loc.id)
              then searchTerm == old(searchTerm) && filterType == old(filterType)
              else searchTerm == "" && filterType == AllTypes
    {
      if !HasId(locations, loc.id) {
        searchTerm := "";
        filterType := AllTypes;
        VisibleWithoutFilters(catalog);
        locations := VisibleLocations(catalog, searchTerm, filterType);
        HasIdOfMember(locations, loc);
      }
      selectedLocation := Some(loc);
      mapView := MapViewFor(selectedLocation, locations);
    }

    /** `handleGetDirections`: needs a selection; opens the route and shows its static overview. */
    method HandleGetDirections() returns (outcome: DirectionsOutcome)
      requires Valid()
      modifies this`directionsView
      ensures Valid()
      ensures selectedLocation.None? ==> outcome == NoLocationSelected && directionsView == old(directionsView)
      ensures selectedLocation.Some? ==>
        directionsView == Some(DirectionsView(selectedLocation.value, userLatitude, userLongitude)) &&
        outcome.Opened? &&
        outcome.destLatitude == selectedLocation.value.latitude &&
        outcome.destLongitude == selectedLocation.value.longitude &&
        outcome.origin == (if Truthy(userLatitude) && Truthy(userLongitude)
                           then Some((userLatitude.value, userLongitude.value)) else None)
    {
      if selectedLocation.None? {
        outcome := NoLocationSelected;
        return;
      }
      var dest := selectedLocation.value;
      var origin := None;
      if Truthy(userLatitude) && Truthy(userLongitude) {
        origin := Some((userLatitude.value, userLongitude.value));
      }
      directionsView := Some(DirectionsView(dest, userLatitude, userLongitude));
      outcome := Opened(dest.latitude, dest.longitude, origin);
    }

    /** `handleHideDirectionsOverview`. */
    method HandleHideDirectionsOverview()
      requires Valid()
      modifies this`directionsView
      ensures Valid()
      ensures directionsView == None
    {
      directionsView := None;
    }
  }
}
