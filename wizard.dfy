/**
 * The rules of the booking wizard's steps, stated on the draft booking dict
 * (`controller.selected_flight`) and on the entered text: which inputs a step
 * accepts, what it derives from them, and which keys the draft holds once a
 * step has been passed.  The classes in the booker modules apply these rules
 * to the draft in place.
 */
module Wizard {
  import opened Util
  import opened Text
  import opened Records
  import opened Pricing
  import Dates
  import Store
  import Search

  /** Outcome of the passenger page's Continue button. */
  datatype PassengerCheck = EmptyName | InvalidAge | AgeMismatch | PassengerOk(name: string, age: nat)

  /** The age rule of the ticket types: a Child ticket is for ages under 13, an Adult ticket for 13 and over. */
  predicate AgeFitsTicket(age: nat, t: TicketType)
  {
    match t
    case Child => age < 13
    case Adult => age >= 13
  }

  /** Every age fits exactly one ticket type. */
  lemma AgeFitsExactlyOneTicket(age: nat)
    ensures AgeFitsTicket(age, Child) != AgeFitsTicket(age, Adult)
    ensures AgeFitsTicket(age, Child) <==> age <= 12
  {
  }

  /**
   * The passenger step of flightbooker_ver6.py / flightbooker_ver5.py: the name
   * must be non-empty, the age all digits (so not empty), and the age must fit
   * the chosen ticket type; the accepted name is title-cased and the age read
   * as a decimal integer.
   */
  function CheckPassenger(name: string, ageText: string, t: TicketType): (r: PassengerCheck)
    ensures r == EmptyName <==> name == ""
    ensures r == InvalidAge <==> name != "" && !IsDigitString(ageText)
    ensures r == AgeMismatch <==> name != "" && IsDigitString(ageText) && !AgeFitsTicket(ParseNat(ageText), t)
    ensures r.PassengerOk? <==> name != "" && IsDigitString(ageText) && AgeFitsTicket(ParseNat(ageText), t)
    ensures r.PassengerOk? ==> r.name == Title(name) && r.age == ParseNat(ageText)
  {
    if name == "" then EmptyName
    else if !IsDigitString(ageText) then InvalidAge
    else
      var age := ParseNat(ageText);
      if (t == Child && age >= 13) || (t == Adult && age < 13) then AgeMismatch
      else PassengerOk(Title(name), age)
  }

  /**
   * The passenger step of flightbooker_ver4.py: the same age checks, but no
   * check of the name, which is only title-cased.
   */
  function CheckPassengerVer4(name: string, ageText: string, t: TicketType): (r: PassengerCheck)
    ensures r != EmptyName
    ensures r == InvalidAge <==> !IsDigitString(ageText)
    ensures r.PassengerOk? <==> IsDigitString(ageText) && AgeFitsTicket(ParseNat(ageText), t)
    ensures r.PassengerOk? ==> r.name == Title(name) && r.age == ParseNat(ageText)
  {
    if !IsDigitString(ageText) then InvalidAge
    else
      var age := ParseNat(ageText);
      if (t == Child && age >= 13) || (t == Adult && age < 13) then AgeMismatch
      else PassengerOk(Title(name), age)
  }

  /** The later versions only add the empty-name check in front of the earlier one. */
  lemma PassengerChecksAgree(name: string, ageText: string, t: TicketType)
    ensures name != "" ==> CheckPassenger(name, ageText, t) == CheckPassengerVer4(name, ageText, t)
    ensures name == "" ==> CheckPassenger(name, ageText, t) == EmptyName
    ensures CheckPassengerVer4(name, ageText, t).PassengerOk? && name == "" ==> CheckPassengerVer4(name, ageText, t).name == ""
  {
  }

  /** An accepted name is already title-cased, so entering it again gives the same passenger. */
  lemma PassengerNameNormalised(name: string, ageText: string, t: TicketType)
    requires CheckPassenger(name, ageText, t).PassengerOk?
    ensures var r := CheckPassenger(name, ageText, t);
      |r.name| == |name| && CheckPassenger(r.name, ageText, t) == r
  {
    TitleLength(name);
    TitleIdempotent(name);
  }

  /** What the contact page stores. */
  datatype Contact = Contact(address: string, phone: string, email: string)

  /**
   * The contact step (`OtherDetailsPage.confirm_booking`): street, city and
   * country are title-cased, postal code, phone and email kept as typed; all
   * six must be non-empty; the address joins the four parts with ", ".
   */
  function CheckContact(street: string, city: string, country: string,
                        postal: string, phone: string, email: string): (r: Option<Contact>)
    ensures r.Some? <==> street != "" && city != "" && country != "" && postal != "" && phone != "" && email != ""
    ensures r.Some? ==> r.value.phone == phone && r.value.email == email
    ensures r.Some? ==> |r.value.address| == |street| + |city| + |country| + |postal| + 6
    ensures r.Some? && ',' !in street && ',' !in city && ',' !in country && ',' !in postal ==>
      SplitOnComma(r.value.address) == [Title(street), Title(city), Title(country), postal]
  {
    var s, c, k := Title(street), Title(city), Title(country);
    TitleLength(street); TitleLength(city); TitleLength(country);
    AddressSplits(street, city, country, postal);
    if s != "" && c != "" && k != "" && postal != "" && phone != "" && email != "" then
      Some(Contact(s + ", " + c + ", " + k + ", " + postal, phone, email))
    else None
  }

  /** Splitting the joined address at ", " gives back its four parts when none holds a comma. */
  lemma AddressSplits(street: string, city: string, country: string, postal: string)
    ensures ',' !in street && ',' !in city && ',' !in country && ',' !in postal ==>
      SplitOnComma(Title(street) + ", " + Title(city) + ", " + Title(country) + ", " + postal)
        == [Title(street), Title(city), Title(country), postal]
  {
    if ',' !in street && ',' !in city && ',' !in country && ',' !in postal {
      var s, c, k := Title(street), Title(city), Title(country);
      TitleNoComma(street); TitleNoComma(city); TitleNoComma(country);
      var tail2 := k + ", " + postal;
      var tail1 := c + ", " + tail2;
      assert s + ", " + c + ", " + k + ", " + postal == s + ", " + tail1;
      SplitOnCommaJoin(s, tail1);
      SplitOnCommaJoin(c, tail2);
      SplitOnCommaJoin(k, postal);
      SplitOnCommaSingle(postal);
    }
  }

  /**
   * The address begins with the title-cased street and ends with the postal
   * code exactly as typed, and entering the stored (title-cased) parts again
   * stores the same details.
   */
  lemma ContactAddressParts(street: string, city: string, country: string,
                            postal: string, phone: string, email: string)
    requires CheckContact(street, city, country, postal, phone, email).Some?
    ensures var a := CheckContact(street, city, country, postal, phone, email).value.address;
      a[..|street| + 2] == Title(street) + ", "
      && a[|a| - |postal|..] == postal
    ensures CheckContact(Title(street), Title(city), Title(country), postal, phone, email)
         == CheckContact(street, city, country, postal, phone, email)
  {
    TitleLength(street); TitleLength(city); TitleLength(country);
    TitleIdempotent(street); TitleIdempotent(city); TitleIdempotent(country);
    var a := CheckContact(street, city, country, postal, phone, email).value.address;
    assert a == (Title(street) + ", ") + (Title(city) + ", " + Title(country) + ", " + postal);
    assert a == (Title(street) + ", " + Title(city) + ", " + Title(country) + ", ") + postal;
  }

  /**
   * A catalog entry as the pages use it: string origin and destination, a
   * numeric price, and no date object except a flight date written by a step.
   */
  predicate CatalogEntry(d: Dict)
  {
    Search.IsFlight(d) && "price" in d && IsNumber(d["price"]) && Store.DatesOnlyInFlightDate(d)
  }

  /** `select_flight`'s writes: the departure date as text, and the price as the fare. */
  function WithFlight(d: Dict, departDate: ValidDate): (r: Dict)
    requires "price" in d
    ensures r.Keys == d.Keys + {"flight_date", "fare"}
    ensures forall k :: k in d && k != "flight_date" && k != "fare" ==> r[k] == d[k]
  {
    d["flight_date" := Str(Dates.IsoFormat(departDate))]["fare" := d["price"]]
  }

  /** After `select_flight` the entry is still a catalog entry, and its fare is its price. */
  lemma WithFlightStage(d: Dict, departDate: ValidDate)
    requires CatalogEntry(d)
    ensures CatalogEntry(WithFlight(d, departDate)) && FlightChosen(WithFlight(d, departDate))
    ensures WithFlight(d, departDate)["fare"] == d["price"]
    ensures var parsed := Dates.ParseIso(WithFlight(d, departDate)["flight_date"].s); parsed.Some? && parsed.value == departDate
  {
    Dates.ParseIsoFormat(departDate);
  }

  /** `select_class`'s writes: the two labels and the final price for the given base price. */
  function WithFare(d: Dict, basePrice: real, c: CabinClass, t: TicketType): (r: Dict)
    ensures r.Keys == d.Keys + {"class", "ticket_type", "final_price"}
    ensures forall k :: k in d && k != "class" && k != "ticket_type" && k != "final_price" ==> r[k] == d[k]
  {
    d["class" := Str(ClassLabel(c))]["ticket_type" := Str(TicketLabel(t))]["final_price" := Num(FinalPrice(basePrice, c, t))]
  }

  /**
   * After `select_class` the draft names the chosen class and ticket type, and
   * its final price is the base price times the two multipliers.
   */
  lemma WithFareStage(d: Dict, basePrice: real, c: CabinClass, t: TicketType)
    requires CatalogEntry(d)
    ensures CatalogEntry(WithFare(d, basePrice, c, t))
    ensures FlightChosen(d) ==> FareChosen(WithFare(d, basePrice, c, t))
    ensures TicketOfLabel(WithFare(d, basePrice, c, t)["ticket_type"].s) == Some(t)
    ensures ClassOfLabel(WithFare(d, basePrice, c, t)["class"].s) == Some(c)
    ensures AsReal(WithFare(d, basePrice, c, t)["final_price"]) == basePrice * ClassMultiplier(c) * TicketMultiplier(t)
  {
    LabelsRoundTrip(c, t, "");
  }

  /** The passenger step's writes: the departure date as a date object, the name and the age. */
  function WithPassenger(d: Dict, departDate: ValidDate, name: string, age: nat): (r: Dict)
    ensures r.Keys == d.Keys + {"flight_date", "passenger_name", "passenger_age"}
    ensures forall k :: k in d && k != "flight_date" && k != "passenger_name" && k != "passenger_age" ==> r[k] == d[k]
  {
    d["flight_date" := DateVal(departDate)]["passenger_name" := Str(name)]["passenger_age" := Int(age)]
  }

  lemma WithPassengerStage(d: Dict, departDate: ValidDate, name: string, age: nat)
    requires CatalogEntry(d) && FareChosen(d)
    ensures CatalogEntry(WithPassenger(d, departDate, name, age)) && PassengerEntered(WithPassenger(d, departDate, name, age))
    ensures WithPassenger(d, departDate, name, age)["ticket_type"] == d["ticket_type"]
  {
  }

  /** The contact step's writes. */
  function WithContact(d: Dict, c: Contact): (r: Dict)
    ensures r.Keys == d.Keys + {"address", "phone_number", "email"}
    ensures forall k :: k in d && k != "address" && k != "phone_number" && k != "email" ==> r[k] == d[k]
  {
    d["address" := Str(c.address)]["phone_number" := Str(c.phone)]["email" := Str(c.email)]
  }

  lemma WithContactStage(d: Dict, c: Contact)
    requires CatalogEntry(d) && PassengerEntered(d)
    ensures CatalogEntry(WithContact(d, c)) && ContactEntered(WithContact(d, c))
    ensures WithContact(d, c)["email"] == Str(c.email)
  {
  }

  /** The draft after `select_flight`: a date and a fare. */
  predicate FlightChosen(d: Dict)
  {
    "flight_date" in d && "fare" in d && IsNumber(d["fare"])
  }

  /** The draft after `select_class`: also a class, a ticket type and a final price. */
  predicate FareChosen(d: Dict)
  {
    FlightChosen(d) && "class" in d && "ticket_type" in d && d["ticket_type"].Str?
    && TicketOfLabel(d["ticket_type"].s).Some? && "final_price" in d && IsNumber(d["final_price"])
  }

  /** The draft after the passenger step: the name, the age and the departure date as a date object. */
  predicate PassengerEntered(d: Dict)
  {
    FareChosen(d) && d["flight_date"].DateVal? && "passenger_name" in d && "passenger_age" in d
  }

  /** The draft after the contact step. */
  predicate ContactEntered(d: Dict)
  {
    PassengerEntered(d) && "address" in d && "phone_number" in d && "email" in d && d["email"].Str?
  }

  /** The fifteen keys of a stored booking. */
  const BookingKeys: set<string> := {"username", "passenger_name", "passenger_age", "flight_number", "origin",
    "destination", "departure_time", "arrival_time", "flight_date", "class", "ticket_type", "address",
    "phone_number", "email", "fare"}

  /** The keys copied from the draft with `.get(key, "")`. */
  const CopiedKeys: set<string> := BookingKeys - {"username", "flight_date", "fare"}

  /** One entry of the booking record. */
  function RecordField(username: string, d: Dict, k: string): Value
    requires "fare" in d && "flight_date" in d && d["flight_date"].DateVal?
  {
    if k == "username" then Str(username)
    else if k == "flight_date" then Str(Dates.IsoFormat(d["flight_date"].d))
    else if k == "fare" then Get(d, "final_price", d["fare"])
    else Get(d, k, Str(""))
  }

  /**
   * The booking record built by `ConfirmationPage.finish`.  None where Python
   * raises: the date is read with `.strftime`, which only a date object has,
   * and the base fare `selected_flight["fare"]` is looked up even when a final
   * price exists.
   */
  function BookingRecord(username: string, d: Dict): (r: Option<Dict>)
    ensures r.Some? <==> "fare" in d && "flight_date" in d && d["flight_date"].DateVal?
    ensures r.Some? ==> r.value.Keys == BookingKeys
    ensures r.Some? ==> r.value["username"] == Str(username)
    ensures r.Some? ==> r.value["flight_date"] == Str(Dates.IsoFormat(d["flight_date"].d))
    ensures r.Some? ==> r.value["fare"] == if "final_price" in d then d["final_price"] else d["fare"]
    ensures r.Some? ==> forall k :: k in CopiedKeys ==> r.value[k] == Get(d, k, Str(""))
  {
    if "fare" in d && "flight_date" in d && d["flight_date"].DateVal? then
      Some(map k | k in BookingKeys :: RecordField(username, d, k))
    else None
  }

  /**
   * A draft that has passed every step always yields a record; that record
   * holds no card data, can be written as JSON when the draft's only date is
   * its flight date, and reading its date back gives the chosen date.
   */
  lemma BookingRecordStored(username: string, d: Dict)
    requires ContactEntered(d)
    requires Store.DatesOnlyInFlightDate(d)
    ensures BookingRecord(username, d).Some?
    ensures var r := BookingRecord(username, d).value;
      Store.JsonBooking(r)
      && Store.DateFromIso(r) == Some(r["flight_date" := d["flight_date"]])
      && r["fare"] == d["final_price"]
      && r["email"] == d["email"]
  {
    var r := BookingRecord(username, d).value;
    forall k | k in r ensures Store.JsonValue(r[k]) {
      if k in CopiedKeys && k in d {
        assert k != "flight_date";
      }
    }
    Dates.ParseIsoFormat(d["flight_date"].d);
  }
}
