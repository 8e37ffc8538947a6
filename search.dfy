/**
 * The search page: the destinations offered for a chosen origin, the guard on
 * the Search button and the exact-match route filter over the flight catalog
 * (`flights.json`, a list of dicts).
 */
module Search {
  import opened Util
  import opened Records
  import StringOrder

  /** Combobox texts the page uses in place of a destination. */
  const NoDestinations: string := "No destinations available"
  const ChooseOriginFirst: string := "Please choose an origin first."

  /** A catalog entry: it has string `origin` and `destination` fields, which the page indexes directly. */
  predicate IsFlight(f: Dict)
  {
    "origin" in f && f["origin"].Str? && "destination" in f && f["destination"].Str?
  }

  predicate IsCatalog(flights: seq<Dict>)
  {
    forall i :: 0 <= i < |flights| ==> IsFlight(flights[i])
  }

  predicate OnRoute(f: Dict, origin: string, destination: string)
    requires IsFlight(f)
  {
    f["origin"].s == origin && f["destination"].s == destination
  }

  /** `[f for f in flights if f["origin"] == origin and f["destination"] == destination]`. */
  function FilterRoute(flights: seq<Dict>, origin: string, destination: string): (r: seq<Dict>)
    requires IsCatalog(flights)
    ensures |r| <= |flights|
    ensures forall i :: 0 <= i < |r| ==> IsFlight(r[i]) && OnRoute(r[i], origin, destination)
  {
    if flights == [] then []
    else
      var rest := FilterRoute(flights[1..], origin, destination);
      if OnRoute(flights[0], origin, destination) then [flights[0]] + rest else rest
  }

  /** Exactly the catalog entries on the route are found. */
  lemma {:induction false} FilterRouteMembers(flights: seq<Dict>, origin: string, destination: string, f: Dict)
    requires IsCatalog(flights)
    ensures f in FilterRoute(flights, origin, destination) <==> f in flights && OnRoute(f, origin, destination)
  {
    if flights != [] {
      FilterRouteMembers(flights[1..], origin, destination, f);
      assert flights == [flights[0]] + flights[1..];
    }
  }

  /**
   * The filter keeps catalog order: filtering a catalog made of two parts is
   * filtering each part and putting the results one after the other.
   */
  lemma {:induction false} FilterRouteAppend(a: seq<Dict>, b: seq<Dict>, origin: string, destination: string)
    requires IsCatalog(a) && IsCatalog(b)
    ensures IsCatalog(a + b)
    ensures FilterRoute(a + b, origin, destination) == FilterRoute(a, origin, destination) + FilterRoute(b, origin, destination)
  {
    assert IsCatalog(a + b) by {
      forall i | 0 <= i < |a + b| ensures IsFlight((a + b)[i]) {
        if i >= |a| {
          assert (a + b)[i] == b[i - |a|];
        }
      }
    }
    if a != [] {
      assert (a + b)[1..] == a[1..] + b;
      FilterRouteAppend(a[1..], b, origin, destination);
    } else {
      assert a + b == b;
    }
  }

  /**
   * The Search button: nothing is searched (a warning is shown) when the origin
   * or the destination is empty or the destination is the "choose an origin"
   * prompt; otherwise the route filter's result, possibly empty.
   */
  function SearchFlights(flights: seq<Dict>, origin: string, destination: string): (r: Option<seq<Dict>>)
    requires IsCatalog(flights)
    ensures r.None? <==> origin == "" || destination == "" || destination == ChooseOriginFirst
  {
    if origin == "" || destination == "" || destination == ChooseOriginFirst then None
    else Some(FilterRoute(flights, origin, destination))
  }

  /** The destinations of the flights leaving `origin`, in catalog order, repeats included. */
  function DestinationsFrom(flights: seq<Dict>, origin: string): (r: seq<string>)
    requires IsCatalog(flights)
    ensures forall d :: d in r <==> exists i :: 0 <= i < |flights| && flights[i]["origin"].s == origin && flights[i]["destination"].s == d
  {
    if flights == [] then []
    else
      var rest := DestinationsFrom(flights[1..], origin);
      assert forall i :: 0 <= i < |flights| - 1 ==> flights[1..][i] == flights[i + 1];
      if flights[0]["origin"].s == origin then [flights[0]["destination"].s] + rest else rest
  }

  /** The destination combobox: its list of values and the text it is set to. */
  datatype DestinationBox = DestinationBox(values: seq<string>, text: string)

  /**
   * `update_destinations`: the prompt when no origin is chosen; otherwise the
   * sorted, duplicate-free destinations from that origin with an empty text,
   * or the "no destinations" notice when there are none.
   */
  function UpdateDestinations(flights: seq<Dict>, origin: string): DestinationBox
    requires IsCatalog(flights)
  {
    if origin == "" then DestinationBox([ChooseOriginFirst], ChooseOriginFirst)
    else
      var destinations := StringOrder.SortedSet(DestinationsFrom(flights, origin));
      if destinations == [] then DestinationBox([NoDestinations], NoDestinations)
      else DestinationBox(destinations, "")
  }

  /**
   * With an origin chosen and some flight leaving it, the box offers exactly
   * the destinations reachable from it, sorted and without repeats, and each
   * of them finds at least one flight (unless a catalog destination is empty
   * or spelt like the "choose an origin" prompt, which the Search guard turns
   * away).
   */
  lemma UpdateDestinationsOffersRoutes(flights: seq<Dict>, origin: string, d: string)
    requires IsCatalog(flights) && origin != ""
    ensures var box := UpdateDestinations(flights, origin);
      box.text == "" ==>
        StringOrder.StrictlySorted(box.values)
        && (d in box.values <==> exists i :: 0 <= i < |flights| && flights[i]["origin"].s == origin && flights[i]["destination"].s == d)
    ensures UpdateDestinations(flights, origin).text == "" && d in UpdateDestinations(flights, origin).values
            && d != "" && d != ChooseOriginFirst
        ==> SearchFlights(flights, origin, d).Some? && SearchFlights(flights, origin, d).value != []
  {
    var box := UpdateDestinations(flights, origin);
    if box.text == "" && d in box.values {
      var i :| 0 <= i < |flights| && flights[i]["origin"].s == origin && flights[i]["destination"].s == d;
      FilterRouteMembers(flights, origin, d, flights[i]);
    }
  }

  /** The box shows a notice instead of destinations exactly when no flight leaves the chosen origin. */
  lemma UpdateDestinationsNotice(flights: seq<Dict>, origin: string)
    requires IsCatalog(flights) && origin != ""
    ensures UpdateDestinations(flights, origin) == DestinationBox([NoDestinations], NoDestinations)
        <==> forall i :: 0 <= i < |flights| ==> flights[i]["origin"].s != origin
  {
    var ds := DestinationsFrom(flights, origin);
    if exists i :: 0 <= i < |flights| && flights[i]["origin"].s == origin {
      var i :| 0 <= i < |flights| && flights[i]["origin"].s == origin;
      assert flights[i]["destination"].s in ds;
      assert flights[i]["destination"].s in StringOrder.SortedSet(ds);
    } else {
      StringOrder.SameElementsBothEmpty(ds, []);
      StringOrder.SameElementsBothEmpty(StringOrder.SortedSet(ds), []);
    }
  }
}
