/**
 * flightbooker_ver3.py, the first version that books: the search page reads
 * the flights file itself (once for its location lists, and again on every
 * search), a chosen result becomes `selected_flight`, and the booking page
 * checks the name and age before showing a summary of the flight.
 */
module BookerVer3 {
  import opened Util
  import opened Records
  import Search
  import StringOrder

  /** The flights file as `json.load` finds it. */
  datatype FlightsFile = NoFlightsFile | FlightsList(flights: seq<Dict>)

  /** Every origin and every destination of the catalog. */
  function Endpoints(flights: seq<Dict>): (r: seq<string>)
    requires Search.IsCatalog(flights)
    ensures forall x :: x in r <==>
      exists i :: 0 <= i < |flights| && (flights[i]["origin"].s == x || flights[i]["destination"].s == x)
  {
    if flights == [] then []
    else
      var rest := Endpoints(flights[1..]);
      assert forall i :: 0 <= i < |flights| - 1 ==> flights[1..][i] == flights[i + 1];
      [flights[0]["origin"].s, flights[0]["destination"].s] + rest
  }

  /**
   * `load_locations`: with no flights file nothing is listed (an error is
   * shown); otherwise the sorted, duplicate-free union of the origins and the
   * destinations, offered in both the From and the To box.
   */
  function LoadLocations(file: FlightsFile): (r: Option<seq<string>>)
    requires file.FlightsList? ==> Search.IsCatalog(file.flights)
    ensures r.None? <==> file.NoFlightsFile?
    ensures r.Some? ==> StringOrder.StrictlySorted(r.value)
    ensures r.Some? ==> forall x :: x in r.value <==>
      exists i :: 0 <= i < |file.flights| && (file.flights[i]["origin"].s == x || file.flights[i]["destination"].s == x)
  {
    match file
    case NoFlightsFile => None
    case FlightsList(flights) => Some(StringOrder.SortedSet(Endpoints(flights)))
  }

  /**
   * The location list is determined by the set of places alone: two catalogs
   * naming the same places offer the same list.
   */
  lemma LocationsDependOnPlacesOnly(a: seq<Dict>, b: seq<Dict>)
    requires Search.IsCatalog(a) && Search.IsCatalog(b)
    requires forall x :: x in Endpoints(a) <==> x in Endpoints(b)
    ensures LoadLocations(FlightsList(a)) == LoadLocations(FlightsList(b))
  {
    StringOrder.StrictlySortedUnique(StringOrder.SortedSet(Endpoints(a)), StringOrder.SortedSet(Endpoints(b)));
  }

  /** `flight.get(key) == text`: a missing key or a non-string value never matches. */
  predicate GetMatches(f: Dict, key: string, text: string)
  {
    key in f && f[key] == Str(text)
  }

  /** The search comprehension of this version, which reads the fields with `.get`. */
  function FilterByGet(flights: seq<Dict>, origin: string, destination: string): (r: seq<Dict>)
    ensures |r| <= |flights|
    ensures forall i :: 0 <= i < |r| ==> GetMatches(r[i], "origin", origin) && GetMatches(r[i], "destination", destination)
  {
    if flights == [] then []
    else
      var rest := FilterByGet(flights[1..], origin, destination);
      if GetMatches(flights[0], "origin", origin) && GetMatches(flights[0], "destination", destination)
      then [flights[0]] + rest
      else rest
  }

  /** Exactly the entries whose origin and destination are the two texts are found. */
  lemma {:induction false} FilterByGetMembers(flights: seq<Dict>, origin: string, destination: string, f: Dict)
    ensures f in FilterByGet(flights, origin, destination) <==>
      f in flights && GetMatches(f, "origin", origin) && GetMatches(f, "destination", destination)
  {
    if flights != [] {
      FilterByGetMembers(flights[1..], origin, destination, f);
      assert flights == [flights[0]] + flights[1..];
    }
  }

  /** On a well-formed catalog the `.get` filter is the later versions' indexing filter. */
  lemma {:induction false} FilterByGetIsFilterRoute(flights: seq<Dict>, origin: string, destination: string)
    requires Search.IsCatalog(flights)
    ensures FilterByGet(flights, origin, destination) == Search.FilterRoute(flights, origin, destination)
  {
    if flights != [] {
      assert Search.IsCatalog(flights[1..]) by {
        assert forall i :: 0 <= i < |flights| - 1 ==> flights[1..][i] == flights[i + 1];
      }
      FilterByGetIsFilterRoute(flights[1..], origin, destination);
    }
  }

  /**
   * `search_flights`: the file is read again; with no file an error is shown
   * and the results stay as they were.  There is no check of the two boxes:
   * empty texts are searched like any other.
   */
  function SearchFile(file: FlightsFile, origin: string, destination: string): (r: Option<seq<Dict>>)
    ensures r.None? <==> file.NoFlightsFile?
    ensures r.Some? ==> forall f :: f in r.value <==>
      f in file.flights && GetMatches(f, "origin", origin) && GetMatches(f, "destination", destination)
  {
    match file
    case NoFlightsFile => None
    case FlightsList(flights) =>
      var found := FilterByGet(flights, origin, destination);
      assert forall f :: f in found <==>
        f in flights && GetMatches(f, "origin", origin) && GetMatches(f, "destination", destination) by {
        forall f {
          FilterByGetMembers(flights, origin, destination, f);
        }
      }
      Some(found)
  }

  /**
   * Where the later versions search at all, this one finds the same flights;
   * where they refuse an empty box, this one still searches.
   */
  lemma SearchAgreesWithLater(flights: seq<Dict>, origin: string, destination: string)
    requires Search.IsCatalog(flights)
    ensures Search.SearchFlights(flights, origin, destination).Some? ==>
      SearchFile(FlightsList(flights), origin, destination) == Search.SearchFlights(flights, origin, destination)
    ensures SearchFile(FlightsList(flights), origin, destination).Some?
  {
    FilterByGetIsFilterRoute(flights, origin, destination);
  }

  /** How the booking page's Confirm Booking button ends. */
  datatype ConfirmOutcome = MissingNameOrAge | NoFlightSelected | MissingFlightField | Confirmed

  /** The flight fields the confirmation summary indexes. */
  const SummaryKeys: set<string> := {"flight_number", "origin", "destination", "departure_time",
                                      "arrival_time", "price", "aircraft_model"}

  /**
   * `confirm_booking`: an empty name or age is refused; then a missing or
   * empty flight (both falsy); then the summary indexes the flight's fields,
   * and a missing one raises a KeyError before anything is confirmed.
   */
  function ConfirmBooking(name: string, age: string, flight: Option<Dict>): (r: ConfirmOutcome)
    ensures r == MissingNameOrAge <==> name == "" || age == ""
    ensures r == NoFlightSelected <==> name != "" && age != "" && (flight.None? || flight.value == map[])
    ensures r == Confirmed <==> name != "" && age != "" && flight.Some? && SummaryKeys <= flight.value.Keys
  {
    if name == "" || age == "" then MissingNameOrAge
    else if flight.None? || flight.value == map[] then NoFlightSelected
    else if !(SummaryKeys <= flight.value.Keys) then MissingFlightField
    else Confirmed
  }

  /** The age is never parsed: any non-empty text is accepted. */
  lemma AnyAgeTextConfirms(name: string, age: string, f: Dict)
    requires name != "" && age != "" && SummaryKeys <= f.Keys
    ensures ConfirmBooking(name, age, Some(f)) == Confirmed
  {
  }

  datatype Page = LoginPage | RegisterPage | HomePage | SearchFlightsPage | BookingPage

  /** The buttons whose only effect is to show a page; the booking page's Back shows itself. */
  predicate NavigationButton(from: Page, to: Page)
  {
    match from
    case LoginPage => to == RegisterPage
    case RegisterPage => to == LoginPage
    case HomePage => to == SearchFlightsPage
    case BookingPage => to == BookingPage
    case _ => false
  }

  class FlightBookingAppVer3 {
    var page: Page
    /** The values of the From and To boxes. */
    var locations: seq<string>
    /** The flights on show under the search form. */
    var results: seq<Dict>
    /**
     * The chosen result: the dict itself, taken from the list the search just
     * read from the file.  Nothing else keeps that list or changes the dict,
     * so holding it as a value loses no sharing.
     */
    var selectedFlight: Option<Dict>

    /**
     * The application as started: the search page fills its boxes while the
     * pages are built, and the start-up code sets `selected_flight` to None.
     */
    constructor (file: FlightsFile)
      requires file.FlightsList? ==> Search.IsCatalog(file.flights)
      ensures page == LoginPage && results == [] && selectedFlight == None
      ensures locations == match LoadLocations(file) case None => [] case Some(l) => l
    {
      page := LoginPage;
      results := [];
      selectedFlight := None;
      var loaded := LoadLocations(file);
      locations := match loaded case None => [] case Some(l) => l;
    }

    method Navigate(to: Page)
      requires NavigationButton(page, to)
      modifies this`page
      ensures page == to
      ensures to == BookingPage ==> page == old(page)
    {
      page := to;
    }

    /** The login button; `matches` is whether the stored password equals the one typed. */
    method Login(matches: bool)
      requires page == LoginPage
      modifies this`page
      ensures page == if matches then HomePage else LoginPage
    {
      if matches {
        page := HomePage;
      }
    }

    /** The Search button, with the file as it is found at the time. */
    method SearchFlights(file: FlightsFile, origin: string, destination: string)
      requires page == SearchFlightsPage
      modifies this`results
      ensures results == match SearchFile(file, origin, destination) case None => old(results) case Some(found) => found
    {
      var found := SearchFile(file, origin, destination);
      if found.Some? {
        results := found.value;
      }
    }

    /** `select_flight`: the result behind the pressed button becomes the selected flight. */
    method SelectFlight(i: nat)
      requires page == SearchFlightsPage && i < |results|
      modifies this`page, this`selectedFlight
      ensures page == BookingPage && selectedFlight == Some(results[i])
    {
      selectedFlight := Some(results[i]);
      page := BookingPage;
    }

    /** Confirm Booking: Home is shown only when the booking is confirmed. */
    method ConfirmBookingStep(name: string, age: string) returns (r: ConfirmOutcome)
      requires page == BookingPage
      modifies this`page
      ensures r == ConfirmBooking(name, age, selectedFlight)
      ensures page == if r == Confirmed then HomePage else BookingPage
    {
      r := ConfirmBooking(name, age, selectedFlight);
      if r == Confirmed {
        page := HomePage;
      }
    }
  }
}
