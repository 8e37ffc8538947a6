/**
 * The parts of flightbooker_ver5.py's application object that differ from the
 * later version: `load_bookings` keeps the file's map as it is, and
 * `save_booking` has neither lock nor `try`, so a file that cannot be opened
 * raises out of `ConfirmationPage.finish` before the email thread starts.
 * The search, class, passenger, card and contact steps of this version are
 * the same code as in the later one and are modelled once, in `Booker`.
 */
module BookerVer5 {
  import opened Util
  import opened Records
  import Store
  import Dates
  import Wizard
  import Email
  import Booker

  class FlightBookingAppVer5 {
    var page: Booker.Page
    /** The draft booking; on the confirmation page it has passed every step. */
    var selectedFlight: Record?
    var currentUsername: Option<string>
    var bookings: Store.Bookings
    var disk: Store.BookingsFile

    ghost predicate Valid()
      reads this, selectedFlight
    {
      (page != Booker.LoginPage && page != Booker.RegisterPage ==> currentUsername.Some?)
      && (page == Booker.ConfirmationPage ==>
            selectedFlight != null && Wizard.ContactEntered(selectedFlight.fields)
            && Store.DatesOnlyInFlightDate(selectedFlight.fields))
      && Store.JsonBookings(bookings)
      && Store.JsonFile(disk)
    }

    constructor (file: Store.BookingsFile)
      requires Store.JsonFile(file)
      ensures Valid()
      ensures page == Booker.LoginPage && selectedFlight == null && currentUsername == None
      ensures bookings == map[] && disk == file
    {
      page := Booker.LoginPage;
      selectedFlight := null;
      currentUsername := None;
      bookings := map[];
      disk := file;
    }

    /** `load_bookings(u)` of this version. */
    method LoadBookings(u: string)
      modifies this`bookings
      ensures bookings == Store.Loaded5(disk, u)
    {
      match disk
      case Missing =>
        bookings := map[u := []];
      case Undecodable =>
        bookings := map[u := []];
      case Decoded(NotAnObject) =>
        bookings := map[];
      case Decoded(Object(m)) =>
        bookings := m;
    }

    /** A successful login (the credential check is not modelled). */
    method Login(u: string)
      requires Valid() && page == Booker.LoginPage
      modifies this
      ensures Valid()
      ensures currentUsername == Some(u) && page == Booker.HomePage
      ensures bookings == Store.Loaded5(old(disk), u)
      ensures disk == old(disk) && selectedFlight == old(selectedFlight)
    {
      currentUsername := Some(u);
      LoadBookings(u);
      page := Booker.HomePage;
    }

    /**
     * `save_booking(u, info)` of this version: only the new booking's date is
     * converted; the append comes before the write.
     */
    method SaveBooking(u: string, info: Dict, canOpen: bool) returns (outcome: Store.WriteOutcome)
      modifies this`bookings, this`disk
      ensures bookings == Store.Saved5(old(bookings), u, info)
      ensures (disk, outcome) == Store.WriteBookings(bookings, old(disk), canOpen)
    {
      var entry := info;
      if "flight_date" in entry && entry["flight_date"].DateVal? {
        entry := entry["flight_date" := Str(Dates.IsoFormat(entry["flight_date"].d))];
      }
      if u !in bookings {
        bookings := bookings[u := []];
      }
      bookings := bookings[u := bookings[u] + [entry]];
      var written := Store.WriteBookings(bookings, disk, canOpen);
      disk, outcome := written.0, written.1;
    }

    /**
     * "Pay and Confirm Booking" of this version: the record is saved; when the
     * file cannot be opened the exception leaves the confirmation page on show
     * (with the booking already appended in memory) and no email is tried;
     * otherwise the email is sent when its address has the expected shape and
     * Home is shown, unless reading the embedded images or opening the mail
     * connection raises an error other than an SMTP one (`sendRaises`).
     */
    method Finish(canOpen: bool, sendRaises: bool) returns (saved: Store.WriteOutcome, emailSent: bool)
      requires Valid() && page == Booker.ConfirmationPage
      modifies this`page, this`bookings, this`disk
      ensures Valid()
      ensures var record := Wizard.BookingRecord(old(currentUsername).value, selectedFlight.fields);
        record.Some?
        && bookings == Store.Saved5(old(bookings), old(currentUsername).value, record.value)
        && (disk, saved) == Store.WriteBookings(bookings, old(disk), canOpen)
      ensures saved != Store.NotSerializable
      ensures saved == Store.OpenFailed <==> !canOpen
      ensures page == if canOpen && !(Email.MatchesEmailPattern(selectedFlight.fields["email"].s) && sendRaises)
                      then Booker.HomePage else Booker.ConfirmationPage
      ensures emailSent <==> canOpen && Email.MatchesEmailPattern(selectedFlight.fields["email"].s) && !sendRaises
    {
      var u := currentUsername.value;
      var draft := selectedFlight.fields;
      Wizard.BookingRecordStored(u, draft);
      var record := Wizard.BookingRecord(u, draft).value;
      assert Store.DatesOnlyInFlightDate(record) by {
        assert Store.JsonBooking(record);
      }
      Store.Save5KeepsStore(bookings, u, record, disk, canOpen);
      saved := SaveBooking(u, record, canOpen);
      if saved == Store.OpenFailed {
        emailSent := false;
        return;
      }
      var email := record["email"].s;
      var accepted := Email.EmailAccepted(email);
      Email.EmailAcceptedMatchesPattern(email);
      emailSent := accepted && !sendRaises;
      if !(accepted && sendRaises) {
        page := Booker.HomePage;
      }
    }
  }
}
