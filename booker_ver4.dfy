/**
 * The application object of flightbooker_ver4.py, the earliest version with
 * fare classes: no payment, contact or bookings file.  `select_flight` keeps
 * the catalog entry itself as the draft without writing anything into it,
 * `select_class` prices from the entry's `price`, and the passenger step only
 * checks the age against the ticket type before showing the confirmation.
 */
module BookerVer4 {
  import opened Util
  import opened Records
  import opened Pricing
  import Search
  import Wizard
  import Booker

  datatype Page = LoginPage | RegisterPage | HomePage | SearchFlightsPage | SelectFlightPage
    | PassengerInfoPage | ConfirmationPage

  /** The buttons whose only effect is to show another page. */
  predicate NavigationButton(from: Page, to: Page)
  {
    match from
    case LoginPage => to == RegisterPage
    case RegisterPage => to == LoginPage
    case HomePage => to == SearchFlightsPage
    case PassengerInfoPage => to == SelectFlightPage
    case _ => false
  }

  /** The draft after this version's `select_class`: the two labels and the final price. */
  predicate FareChosen(d: Dict)
  {
    "class" in d && "ticket_type" in d && d["ticket_type"].Str? && TicketOfLabel(d["ticket_type"].s).Some?
    && "final_price" in d && IsNumber(d["final_price"])
  }

  /**
   * Both versions charge the same final price for the same flight and
   * selections: the later one prices from the fare that `select_flight`
   * copied from the price.
   */
  lemma SameFinalPriceAsLater(d: Dict, departDate: ValidDate, c: CabinClass, t: TicketType)
    requires Wizard.CatalogEntry(d)
    ensures var chosen := Wizard.WithFlight(d, departDate);
      Wizard.WithFare(chosen, AsReal(chosen["fare"]), c, t)["final_price"]
      == Wizard.WithFare(d, AsReal(d["price"]), c, t)["final_price"]
  {
    Wizard.WithFlightStage(d, departDate);
  }

  class FlightBookingAppVer4 {
    /** The flight catalog; an entry becomes the draft and is updated in place. */
    const flights: seq<Record>
    var page: Page
    var selectedFlight: Record?

    ghost predicate CatalogValid()
      reads flights
    {
      forall i :: 0 <= i < |flights| ==> Wizard.CatalogEntry(flights[i].fields)
    }

    /** On the select, passenger and confirmation pages the draft is a catalog entry. */
    ghost predicate DraftValid()
      reads this`page, this`selectedFlight, flights
    {
      (page == SelectFlightPage || page == PassengerInfoPage || page == ConfirmationPage ==>
        selectedFlight != null && selectedFlight in flights)
      && (page == PassengerInfoPage || page == ConfirmationPage ==> FareChosen(selectedFlight.fields))
    }

    ghost predicate Valid()
      reads this, flights
    {
      CatalogValid() && DraftValid()
    }

    /** A catalog file that cannot be found gives the empty catalog. */
    constructor (catalog: seq<Record>)
      requires forall i :: 0 <= i < |catalog| ==> Wizard.CatalogEntry(catalog[i].fields)
      ensures Valid()
      ensures flights == catalog && page == LoginPage && selectedFlight == null
    {
      flights := catalog;
      page := LoginPage;
      selectedFlight := null;
    }

    method Navigate(to: Page)
      requires Valid() && NavigationButton(page, to)
      modifies this`page
      ensures Valid() && page == to
    {
      page := to;
    }

    /** The login button; `matches` is whether the stored password equals the one typed. */
    method Login(matches: bool)
      requires Valid() && page == LoginPage
      modifies this`page
      ensures Valid()
      ensures page == if matches then HomePage else LoginPage
    {
      if matches {
        page := HomePage;
      }
    }

    /** `select_flight`: the chosen catalog entry becomes the draft, unchanged. */
    method SelectFlight(f: Record)
      requires Valid() && page == SearchFlightsPage && f in flights
      modifies this`page, this`selectedFlight
      ensures Valid()
      ensures page == SelectFlightPage && selectedFlight == f
    {
      selectedFlight := f;
      page := SelectFlightPage;
    }

    /**
     * `select_class`: without both selections nothing changes; otherwise the
     * labels and the price times the two multipliers are written into the draft.
     */
    method SelectClass(cabin: Option<CabinClass>, ticket: Option<TicketType>) returns (ok: bool)
      requires Valid() && page == SelectFlightPage
      modifies this`page, selectedFlight
      ensures Valid()
      ensures ok <==> cabin.Some? && ticket.Some?
      ensures !ok ==> page == old(page) && selectedFlight.fields == old(selectedFlight.fields)
      ensures ok ==> page == PassengerInfoPage
      ensures ok ==> (selectedFlight.fields
        == Wizard.WithFare(old(selectedFlight.fields), AsReal(old(selectedFlight.fields)["price"]), cabin.value, ticket.value))
    {
      if cabin.None? || ticket.None? {
        return false;
      }
      var c, t := cabin.value, ticket.value;
      var price := AsReal(selectedFlight.fields["price"]);
      Wizard.WithFareStage(selectedFlight.fields, price, c, t);
      selectedFlight.fields := Wizard.WithFare(selectedFlight.fields, price, c, t);
      page := PassengerInfoPage;
      ok := true;
    }

    /**
     * The passenger page's Next button: the age is checked against the draft's
     * ticket type; on success the confirmation is shown.  Nothing is written
     * into the draft.
     */
    method PassengerStep(name: string, ageText: string) returns (r: Wizard.PassengerCheck)
      requires Valid() && page == PassengerInfoPage
      modifies this`page
      ensures Valid()
      ensures r == Wizard.CheckPassengerVer4(name, ageText, TicketOfLabel(selectedFlight.fields["ticket_type"].s).value)
      ensures page == if r.PassengerOk? then ConfirmationPage else PassengerInfoPage
    {
      var t := TicketOfLabel(selectedFlight.fields["ticket_type"].s).value;
      r := Wizard.CheckPassengerVer4(name, ageText, t);
      if r.PassengerOk? {
        page := ConfirmationPage;
      }
    }

    /** "Confirm Booking": nothing is stored; Home is shown. */
    method Finish()
      requires Valid() && page == ConfirmationPage
      modifies this`page
      ensures Valid() && page == HomePage
    {
      page := HomePage;
    }
  }
}
