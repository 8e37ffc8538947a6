/**
 * The application object of flightbooker_ver6.py (`FlightBookingApp`): the page
 * on show, the flight catalog, the draft booking `selected_flight`, the logged-in
 * user and the in-memory bookings, together with the bookings file they are
 * loaded from and saved to.  Each button of the booking wizard is a method.
 *
 * The draft is the catalog entry itself: `select_flight` keeps a reference to
 * the chosen catalog record, so every later step writes its keys into the
 * catalog.  The model keeps that aliasing: `selectedFlight` is one of the
 * `Record` objects of `flights`.
 */
module Booker {
  import opened Util
  import opened Records
  import opened Pricing
  import Dates
  import Search
  import Store
  import Wizard
  import Payment
  import Email
  import BookingsPage

  datatype Page = LoginPage | RegisterPage | HomePage | SearchFlightsPage | SelectFlightPage
    | PassengerInfoPage | CreditCardPage | OtherDetailsPage | ConfirmationPage | BookingsPage

  /** The buttons whose only effect is to show another page. */
  predicate NavigationButton(from: Page, to: Page)
  {
    match from
    case LoginPage => to == RegisterPage
    case RegisterPage => to == LoginPage
    case HomePage => to == SearchFlightsPage || to == BookingsPage
    case SearchFlightsPage => to == HomePage
    case BookingsPage => to == HomePage
    case SelectFlightPage => to == SearchFlightsPage
    case PassengerInfoPage => to == SelectFlightPage
    case CreditCardPage => to == PassengerInfoPage
    case OtherDetailsPage => to == CreditCardPage
    case ConfirmationPage => to == OtherDetailsPage
  }

  /** What the draft holds while each page of the wizard is on show. */
  predicate DraftFits(p: Page, d: Dict)
  {
    match p
    case SelectFlightPage => Wizard.FlightChosen(d)
    case PassengerInfoPage => Wizard.FareChosen(d)
    case CreditCardPage => Wizard.PassengerEntered(d)
    case OtherDetailsPage => Wizard.PassengerEntered(d)
    case ConfirmationPage => Wizard.ContactEntered(d)
    case _ => true
  }

  predicate InWizard(p: Page)
  {
    p.SelectFlightPage? || p.PassengerInfoPage? || p.CreditCardPage? || p.OtherDetailsPage? || p.ConfirmationPage?
  }

  /** The dicts of a list of records, in order. */
  function FieldsOf(recs: seq<Record>): (ds: seq<Dict>)
    reads recs
    ensures |ds| == |recs|
    ensures forall i :: 0 <= i < |recs| ==> ds[i] == recs[i].fields
  {
    if recs == [] then [] else [recs[0].fields] + FieldsOf(recs[1..])
  }

  /**
   * The records of `recs` on the route, in order: the search comprehension,
   * which keeps references to the catalog entries themselves.
   */
  function RecordsOnRoute(recs: seq<Record>, origin: string, destination: string): (r: seq<Record>)
    reads recs
    requires Search.IsCatalog(FieldsOf(recs))
    ensures forall x :: x in r ==> x in recs
    ensures FieldsOf(r) == Search.FilterRoute(FieldsOf(recs), origin, destination)
  {
    if recs == [] then []
    else
      assert FieldsOf(recs[1..]) == FieldsOf(recs)[1..];
      var rest := RecordsOnRoute(recs[1..], origin, destination);
      assert forall x :: x in rest ==> x in recs;
      if Search.OnRoute(recs[0].fields, origin, destination) then
        [recs[0]] + rest
      else rest
  }

  /**
   * The Search button over a catalog of records: None where the page only
   * warns; otherwise the catalog entries themselves (not copies) that run
   * from `origin` to `destination`, in catalog order.
   */
  function SearchCatalog(flights: seq<Record>, origin: string, destination: string): (r: Option<seq<Record>>)
    reads flights
    requires forall i :: 0 <= i < |flights| ==> Search.IsFlight(flights[i].fields)
    ensures r.None? <==> origin == "" || destination == "" || destination == Search.ChooseOriginFirst
    ensures r.Some? ==> forall x :: x in r.value ==> x in flights
    ensures r.Some? ==> Some(FieldsOf(r.value)) == Search.SearchFlights(FieldsOf(flights), origin, destination)
  {
    assert Search.IsCatalog(FieldsOf(flights));
    if origin == "" || destination == "" || destination == Search.ChooseOriginFirst then None
    else Some(RecordsOnRoute(flights, origin, destination))
  }

  class FlightBookingApp {
    /** The flight catalog (`flights.json`); its entries are updated in place by the wizard. */
    const flights: seq<Record>
    var page: Page
    var selectedFlight: Record?
    var currentUsername: Option<string>
    var bookings: Store.Bookings
    /** The bookings file (`bookings.json`) as the next load would find it. */
    var disk: Store.BookingsFile

    /** Every catalog entry keeps the shape the pages rely on. */
    ghost predicate CatalogValid()
      reads flights
    {
      forall i :: 0 <= i < |flights| ==> Wizard.CatalogEntry(flights[i].fields)
    }

    /** Past the login and register pages somebody is logged in. */
    ghost predicate SessionValid()
      reads this`page, this`currentUsername
    {
      page != LoginPage && page != RegisterPage ==> currentUsername.Some?
    }

    /** On a wizard page the draft is a catalog entry that has passed the steps before that page. */
    ghost predicate DraftValid()
      reads this`page, this`selectedFlight, flights
    {
      InWizard(page) ==> selectedFlight != null && selectedFlight in flights && DraftFits(page, selectedFlight.fields)
    }

    /** Date objects live only in the logged-in user's bookings, and the file holds plain JSON. */
    ghost predicate StoreValid()
      reads this`bookings, this`currentUsername, this`disk
    {
      Store.DatesOnlyForUser(bookings, currentUsername) && Store.JsonFile(disk)
    }

    ghost predicate Valid()
      reads this, flights
    {
      CatalogValid() && SessionValid() && DraftValid() && StoreValid()
    }

    /** The draft's dict, once a flight has been chosen. */
    ghost function Draft(): Dict
      reads this, flights
      requires Valid() && InWizard(page)
    {
      selectedFlight.fields
    }

    constructor (catalog: seq<Record>, file: Store.BookingsFile)
      requires forall i :: 0 <= i < |catalog| ==> Wizard.CatalogEntry(catalog[i].fields)
      requires Store.JsonFile(file)
      ensures Valid()
      ensures flights == catalog && page == LoginPage && selectedFlight == null
      ensures currentUsername == None && bookings == map[] && disk == file
    {
      flights := catalog;
      page := LoginPage;
      selectedFlight := null;
      currentUsername := None;
      bookings := map[];
      disk := file;
    }

    /**
     * `load_bookings(u)`: the loop reads the user's date texts one booking at a
     * time, in place, and stops with a ValueError at the first one that is not
     * a date.
     */
    method LoadBookings(u: string) returns (outcome: Store.LoadOutcome)
      requires Store.JsonFile(disk)
      modifies this`bookings
      ensures (bookings, outcome) == Store.Loaded6(disk, u)
    {
      match disk
      case Missing =>
        bookings := map[u := []];
        outcome := Store.Loaded;
      case Undecodable =>
        bookings := map[u := []];
        outcome := Store.Loaded;
      case Decoded(NotAnObject) =>
        bookings := map[];
        bookings := bookings[u := []];
        outcome := Store.Loaded;
      case Decoded(Object(m)) =>
        bookings := m;
        if u !in bookings {
          bookings := bookings[u := []];
          outcome := Store.Loaded;
          return;
        }
        var i := 0;
        assert Store.ConvertedUpTo(m[u], 0) == m[u];
        while i < |m[u]|
          invariant 0 <= i <= |m[u]|
          invariant forall j :: 0 <= j < i ==> Store.DateFromIso(m[u][j]).Some?
          invariant bookings == m[u := Store.ConvertedUpTo(m[u], i)]
        {
          var booking := bookings[u][i];
          assert booking == m[u][i];
          if "flight_date" in booking && booking["flight_date"].Str? {
            var parsed := Dates.ParseIso(booking["flight_date"].s);
            if parsed.None? {
              outcome := Store.DateError(i);
              return;
            }
            assert Store.DateFromIso(booking) == Some(booking["flight_date" := DateVal(parsed.value)]);
            Store.ConvertedUpToStep(m[u], i);
            bookings := bookings[u := bookings[u][i := booking["flight_date" := DateVal(parsed.value)]]];
          } else {
            assert Store.DateFromIso(booking) == Some(booking);
            Store.ConvertedUpToStep(m[u], i);
            assert Store.ConvertedUpTo(m[u], i + 1) == Store.ConvertedUpTo(m[u], i);
          }
          i := i + 1;
        }
        outcome := Store.Loaded;
    }

    /**
     * `save_booking(u, info)`: the new booking's date and then the user's
     * older dates become ISO text, the booking is appended, and the map is
     * written; a failed write is swallowed.
     */
    method SaveBooking(u: string, info: Dict, canOpen: bool) returns (outcome: Store.WriteOutcome)
      modifies this`bookings, this`disk
      ensures bookings == Store.Saved6(old(bookings), u, info)
      ensures (disk, outcome) == Store.WriteBookings(bookings, old(disk), canOpen)
    {
      var entry := info;
      if "flight_date" in entry && entry["flight_date"].DateVal? {
        entry := entry["flight_date" := Str(Dates.IsoFormat(entry["flight_date"].d))];
      }
      assert entry == Store.DateToIso(info);
      if u !in bookings {
        bookings := bookings[u := []];
      }
      var userBookings := bookings[u];
      ghost var before := userBookings;
      assert before == Store.UserBookings(old(bookings), u);
      var i := 0;
      while i < |userBookings|
        invariant |userBookings| == |before| && 0 <= i <= |before|
        invariant forall j :: 0 <= j < |before| ==>
          userBookings[j] == if j < i then Store.DateToIso(before[j]) else before[j]
      {
        var booking := userBookings[i];
        if "flight_date" in booking && booking["flight_date"].DateVal? {
          userBookings := userBookings[i := booking["flight_date" := Str(Dates.IsoFormat(booking["flight_date"].d))]];
        }
        assert userBookings[i] == Store.DateToIso(before[i]);
        i := i + 1;
      }
      assert userBookings == Store.AllDatesToIso(before);
      bookings := bookings[u := userBookings + [entry]];
      var written := Store.WriteBookings(bookings, disk, canOpen);
      disk, outcome := written.0, written.1;
    }

    /**
     * `LoginPage.login` once the credentials match (the credential check is
     * not modelled): the user is recorded, the bookings are loaded and the
     * bookings page is drawn; Home is shown unless loading or drawing raised.
     */
    method Login(u: string) returns (outcome: Store.LoadOutcome)
      requires Valid() && page == LoginPage
      modifies this
      ensures Valid()
      ensures currentUsername == Some(u)
      ensures (bookings, outcome) == Store.Loaded6(old(disk), u)
      ensures outcome == Store.Loaded ==> Store.NoDateText(Store.UserBookings(bookings, u))
      ensures page == if outcome == Store.Loaded
                         && !BookingsPage.DisplayRaises(FieldsOf(flights), Store.UserBookings(bookings, u))
                      then HomePage else LoginPage
      ensures selectedFlight == old(selectedFlight) && disk == old(disk)
    {
      currentUsername := Some(u);
      outcome := LoadBookings(u);
      Store.Loaded6Dates(disk, u);
      if outcome == Store.Loaded {
        Store.Loaded6NoDateText(disk, u);
        var raised := BookingsPage.DisplayRaises(FieldsOf(flights), Store.UserBookings(bookings, u));
        if !raised {
          page := HomePage;
        }
      }
    }

    /** A button that only shows another page. */
    method Navigate(to: Page)
      requires Valid() && NavigationButton(page, to)
      modifies this`page
      ensures Valid() && page == to
    {
      page := to;
    }

    /**
     * `select_flight`: the chosen catalog entry becomes the draft and receives
     * the departure date as text and its price as the fare.
     */
    method SelectFlight(f: Record, departDate: ValidDate)
      requires Valid() && page == SearchFlightsPage && f in flights
      modifies this`page, this`selectedFlight, f
      ensures Valid()
      ensures page == SelectFlightPage && selectedFlight == f
      ensures f.fields == Wizard.WithFlight(old(f.fields), departDate)
    {
      Wizard.WithFlightStage(f.fields, departDate);
      selectedFlight := f;
      f.fields := Wizard.WithFlight(f.fields, departDate);
      page := SelectFlightPage;
    }

    /** A step that passed: its keys are written into the draft and the next page is shown. */
    method WriteDraft(fields: Dict, next: Page)
      requires Valid() && InWizard(page) && InWizard(next)
      requires Wizard.CatalogEntry(fields) && DraftFits(next, fields)
      modifies this`page, selectedFlight
      ensures Valid() && page == next && selectedFlight.fields == fields
    {
      selectedFlight.fields := fields;
      page := next;
    }

    /**
     * `select_class`: without both selections nothing changes; otherwise the
     * class, the ticket type and the final price are written into the draft.
     */
    method SelectClass(cabin: Option<CabinClass>, ticket: Option<TicketType>) returns (ok: bool)
      requires Valid() && page == SelectFlightPage
      modifies this`page, selectedFlight
      ensures Valid()
      ensures ok <==> cabin.Some? && ticket.Some?
      ensures !ok ==> page == old(page) && selectedFlight.fields == old(selectedFlight.fields)
      ensures ok ==> page == PassengerInfoPage
      ensures ok ==> (selectedFlight.fields
        == Wizard.WithFare(old(selectedFlight.fields), AsReal(old(selectedFlight.fields)["fare"]), cabin.value, ticket.value))
    {
      if cabin.None? || ticket.None? {
        return false;
      }
      var c, t := cabin.value, ticket.value;
      var fare := AsReal(selectedFlight.fields["fare"]);
      Wizard.WithFareStage(selectedFlight.fields, fare, c, t);
      WriteDraft(Wizard.WithFare(selectedFlight.fields, fare, c, t), PassengerInfoPage);
      ok := true;
    }

    /**
     * The passenger page's Continue button: on success the departure date (as
     * a date object), the title-cased name and the age are written into the
     * draft; otherwise nothing changes.
     */
    method PassengerStep(name: string, ageText: string, departDate: ValidDate) returns (r: Wizard.PassengerCheck)
      requires Valid() && page == PassengerInfoPage
      modifies this`page, selectedFlight
      ensures Valid()
      ensures r == Wizard.CheckPassenger(name, ageText, TicketOfLabel(old(selectedFlight.fields)["ticket_type"].s).value)
      ensures !r.PassengerOk? ==> page == old(page) && selectedFlight.fields == old(selectedFlight.fields)
      ensures r.PassengerOk? ==> page == CreditCardPage
      ensures r.PassengerOk? ==> selectedFlight.fields == Wizard.WithPassenger(old(selectedFlight.fields), departDate, r.name, r.age)
    {
      var ticket := TicketOfLabel(selectedFlight.fields["ticket_type"].s).value;
      r := Wizard.CheckPassenger(name, ageText, ticket);
      if r.PassengerOk? {
        Wizard.WithPassengerStage(selectedFlight.fields, departDate, r.name, r.age);
        WriteDraft(Wizard.WithPassenger(selectedFlight.fields, departDate, r.name, r.age), CreditCardPage);
      }
    }

    /**
     * The card page's Continue button: the checks run in order and only the
     * page changes; no card detail is written anywhere.
     */
    method CardStep(cardNumber: string, month: string, year: string, cvc: string,
                    currentYear: int, currentMonth: int) returns (r: Payment.CardCheck)
      requires Valid() && page == CreditCardPage
      modifies this`page
      ensures Valid()
      ensures r == Payment.CardAccepted <==>
        Payment.CardNumberAccepted(cardNumber) && Payment.ExpiryAccepted(month, year, currentYear, currentMonth)
        && Payment.CvcAccepted(cvc)
      ensures r == Payment.MissingDetails <==> (cardNumber == [] || month == [] || year == [] || cvc == [])
      ensures r == Payment.InvalidCardNumber <==>
        cardNumber != [] && month != [] && year != [] && cvc != [] && !Payment.CardNumberAccepted(cardNumber)
      ensures r == Payment.InvalidExpiry <==>
        cardNumber != [] && month != [] && year != [] && cvc != [] && Payment.CardNumberAccepted(cardNumber)
        && !Payment.ExpiryAccepted(month, year, currentYear, currentMonth)
      ensures r == Payment.InvalidCvc <==>
        cardNumber != [] && month != [] && year != [] && cvc != [] && Payment.CardNumberAccepted(cardNumber)
        && Payment.ExpiryAccepted(month, year, currentYear, currentMonth) && !Payment.CvcAccepted(cvc)
      ensures page == if r == Payment.CardAccepted then OtherDetailsPage else CreditCardPage
    {
      r := Payment.CheckCardDetails(cardNumber, month, year, cvc, currentYear, currentMonth);
      if r == Payment.CardAccepted {
        page := OtherDetailsPage;
      }
    }

    /**
     * The contact page's button: on success the joined address, the phone
     * number and the email are written into the draft.
     */
    method ContactStep(street: string, city: string, country: string,
                       postal: string, phone: string, email: string) returns (r: Option<Wizard.Contact>)
      requires Valid() && page == OtherDetailsPage
      modifies this`page, selectedFlight
      ensures Valid()
      ensures r == Wizard.CheckContact(street, city, country, postal, phone, email)
      ensures r.None? ==> page == old(page) && selectedFlight.fields == old(selectedFlight.fields)
      ensures r.Some? ==> page == ConfirmationPage
      ensures r.Some? ==> selectedFlight.fields == Wizard.WithContact(old(selectedFlight.fields), r.value)
    {
      r := Wizard.CheckContact(street, city, country, postal, phone, email);
      if r.Some? {
        Wizard.WithContactStage(selectedFlight.fields, r.value);
        WriteDraft(Wizard.WithContact(selectedFlight.fields, r.value), ConfirmationPage);
      }
    }

    /**
     * The saving half of "Pay and Confirm Booking": the booking record is
     * built from the draft and saved for the current user; the write never
     * meets a date object, so it fails only when the file cannot be opened.
     */
    method SaveDraft(canOpen: bool) returns (saved: Store.WriteOutcome)
      requires Valid() && page == ConfirmationPage
      modifies this`bookings, this`disk
      ensures Valid()
      ensures var record := Wizard.BookingRecord(old(currentUsername).value, selectedFlight.fields);
        record.Some?
        && bookings == Store.Saved6(old(bookings), old(currentUsername).value, record.value)
        && (disk, saved) == Store.WriteBookings(bookings, old(disk), canOpen)
      ensures saved != Store.NotSerializable
    {
      var u := currentUsername.value;
      var draft := selectedFlight.fields;
      Wizard.BookingRecordStored(u, draft);
      var record := Wizard.BookingRecord(u, draft).value;
      assert Store.DatesOnlyInFlightDate(record) by {
        assert Store.JsonBooking(record);
      }
      Store.Save6KeepsStore(bookings, u, record, disk, canOpen);
      saved := SaveBooking(u, record, canOpen);
    }

    /**
     * "Pay and Confirm Booking": the draft is saved as a booking of the
     * current user; the email is sent only when its address has the expected
     * shape.  `sendRaises` says whether reading the embedded images or opening
     * the mail connection raises an error other than an SMTP one; that error
     * ends the email thread before it shows Home.  The draft (a catalog
     * entry) keeps every key the wizard wrote.
     */
    method Finish(canOpen: bool, sendRaises: bool) returns (saved: Store.WriteOutcome, emailSent: bool)
      requires Valid() && page == ConfirmationPage
      modifies this`page, this`bookings, this`disk
      ensures Valid()
      ensures var record := Wizard.BookingRecord(old(currentUsername).value, selectedFlight.fields);
        record.Some?
        && bookings == Store.Saved6(old(bookings), old(currentUsername).value, record.value)
        && (disk, saved) == Store.WriteBookings(bookings, old(disk), canOpen)
      ensures saved != Store.NotSerializable
      ensures emailSent <==> Email.MatchesEmailPattern(selectedFlight.fields["email"].s) && !sendRaises
      ensures page == if Email.MatchesEmailPattern(selectedFlight.fields["email"].s) && sendRaises
                      then ConfirmationPage else HomePage
    {
      saved := SaveDraft(canOpen);
      var email := selectedFlight.fields["email"].s;
      var accepted := Email.EmailAccepted(email);
      Email.EmailAcceptedMatchesPattern(email);
      emailSent := accepted && !sendRaises;
      if !(accepted && sendRaises) {
        page := HomePage;
      }
    }
  }
}
