/**
 * The bookings file `app_files/bookings.json`: a JSON object mapping each
 * username to the list of that user's bookings.  The file itself is an input
 * (missing, not decodable, or decoded); what the program keeps in memory is a
 * map from username to a list of booking dicts, whose `flight_date` is held
 * either as ISO text (YYYY-MM-DD) or as a date object.
 */
module Store {
  import opened Util
  import opened Records
  import Dates

  type Bookings = map<string, seq<Dict>>

  /** The top-level JSON value of a decodable file. */
  datatype Document = Object(entries: Bookings) | NotAnObject

  /** What `open` followed by `json.load` finds. */
  datatype BookingsFile = Missing | Undecodable | Decoded(doc: Document)

  /** JSON has no date values: a value can be written by `json.dump` iff it is not a date. */
  predicate JsonValue(v: Value)
  {
    !v.DateVal?
  }

  predicate JsonBooking(b: Dict)
  {
    forall key :: key in b ==> JsonValue(b[key])
  }

  predicate JsonBookings(m: Bookings)
  {
    forall u, i :: u in m && 0 <= i < |m[u]| ==> JsonBooking(m[u][i])
  }

  /** A file as `json.load` can produce it: no date objects anywhere. */
  predicate JsonFile(f: BookingsFile)
  {
    f.Decoded? && f.doc.Object? ==> JsonBookings(f.doc.entries)
  }

  /** Apart from `flight_date`, a booking holds only JSON values. */
  predicate DatesOnlyInFlightDate(b: Dict)
  {
    forall key :: key in b && key != "flight_date" ==> JsonValue(b[key])
  }

  /** Date objects are held only as the flight dates of the logged-in user's bookings. */
  predicate DatesOnlyForUser(m: Bookings, user: Option<string>)
  {
    forall v, i :: v in m && 0 <= i < |m[v]| ==>
      if user == Some(v) then DatesOnlyInFlightDate(m[v][i]) else JsonBooking(m[v][i])
  }

  /** `save_booking`'s conversion: a date-object `flight_date` becomes its ISO text. */
  function DateToIso(b: Dict): (r: Dict)
    ensures r.Keys == b.Keys
    ensures forall key :: key in b && key != "flight_date" ==> r[key] == b[key]
    ensures DatesOnlyInFlightDate(b) ==> JsonBooking(r)
  {
    if "flight_date" in b && b["flight_date"].DateVal? then
      b["flight_date" := Str(Dates.IsoFormat(b["flight_date"].d))]
    else b
  }

  /**
   * `load_bookings`'s conversion: a text `flight_date` is read with
   * `date.fromisoformat`; None where that raises ValueError.
   */
  function DateFromIso(b: Dict): (r: Option<Dict>)
    ensures r.Some? ==> r.value.Keys == b.Keys
    ensures r.Some? ==> forall key :: key in b && key != "flight_date" ==> r.value[key] == b[key]
  {
    if "flight_date" in b && b["flight_date"].Str? then
      match Dates.ParseIso(b["flight_date"].s)
      case None => None
      case Some(d) => Some(b["flight_date" := DateVal(d)])
    else Some(b)
  }

  /** Saving and then loading a booking gives it back, as long as its date is not already text. */
  lemma DateFromIsoAfterToIso(b: Dict)
    requires !("flight_date" in b && b["flight_date"].Str?)
    ensures DateFromIso(DateToIso(b)) == Some(b)
  {
    if "flight_date" in b && b["flight_date"].DateVal? {
      Dates.ParseIsoFormat(b["flight_date"].d);
      assert DateToIso(b)["flight_date" := b["flight_date"]] == b;
    }
  }

  /** Loading and then saving a booking gives back the stored text, as long as it held no date object. */
  lemma DateToIsoAfterFromIso(b: Dict)
    requires !("flight_date" in b && b["flight_date"].DateVal?)
    requires DateFromIso(b).Some?
    ensures DateToIso(DateFromIso(b).value) == b
  {
    if "flight_date" in b && b["flight_date"].Str? {
      Dates.FormatParseIso(b["flight_date"].s);
      assert DateToIso(DateFromIso(b).value) == b["flight_date" := b["flight_date"]];
    }
  }

  function AllDatesToIso(bs: seq<Dict>): (r: seq<Dict>)
    ensures |r| == |bs|
    ensures forall i :: 0 <= i < |bs| ==> r[i] == DateToIso(bs[i])
  {
    seq(|bs|, i requires 0 <= i < |bs| => DateToIso(bs[i]))
  }

  /**
   * The user's list as the newer `save_booking` writes it: every booking
   * keeps its keys, the list can be written as JSON when dates are held only
   * as flight dates, and loading reads every booking back as it was.
   */
  lemma AllDatesToIsoStored(bs: seq<Dict>)
    ensures |AllDatesToIso(bs)| == |bs|
    ensures forall i :: 0 <= i < |bs| ==> AllDatesToIso(bs)[i].Keys == bs[i].Keys
    ensures (forall i :: 0 <= i < |bs| ==> DatesOnlyInFlightDate(bs[i])) ==>
      forall i :: 0 <= i < |bs| ==> JsonBooking(AllDatesToIso(bs)[i])
    ensures forall i :: 0 <= i < |bs| && !("flight_date" in bs[i] && bs[i]["flight_date"].Str?) ==>
      DateFromIso(AllDatesToIso(bs)[i]) == Some(bs[i])
  {
    forall i | 0 <= i < |bs| && !("flight_date" in bs[i] && bs[i]["flight_date"].Str?)
      ensures DateFromIso(AllDatesToIso(bs)[i]) == Some(bs[i])
    {
      DateFromIsoAfterToIso(bs[i]);
    }
  }

  /** The index of the first booking whose date text cannot be read, or |bs| if there is none. */
  function FirstUnreadable(bs: seq<Dict>): (k: nat)
    ensures k <= |bs|
    ensures forall i :: 0 <= i < k ==> DateFromIso(bs[i]).Some?
    ensures k < |bs| ==> DateFromIso(bs[k]).None?
  {
    if bs == [] then 0
    else if DateFromIso(bs[0]).None? then 0
    else
      var k := FirstUnreadable(bs[1..]);
      assert forall i :: 1 <= i < k + 1 ==> bs[i] == bs[1..][i - 1];
      k + 1
  }

  /** The first `k` bookings with their dates read, the rest as they were. */
  function ConvertedUpTo(bs: seq<Dict>, k: nat): (r: seq<Dict>)
    requires k <= |bs| && forall i :: 0 <= i < k ==> DateFromIso(bs[i]).Some?
    ensures |r| == |bs|
  {
    seq(|bs|, i requires 0 <= i < |bs| => if i < k then DateFromIso(bs[i]).value else bs[i])
  }

  /** Reading one more booking's date extends the converted prefix by that booking. */
  lemma ConvertedUpToStep(bs: seq<Dict>, k: nat)
    requires k < |bs| && forall i :: 0 <= i <= k ==> DateFromIso(bs[i]).Some?
    ensures ConvertedUpTo(bs, 0) == bs
    ensures ConvertedUpTo(bs, k + 1) == ConvertedUpTo(bs, k)[k := DateFromIso(bs[k]).value]
  {
  }

  /** How `load_bookings` ends: normally, or with the ValueError of the booking at `index`. */
  datatype LoadOutcome = Loaded | DateError(index: nat)

  /**
   * The in-memory bookings after `load_bookings(u)` (flightbooker_ver6.py):
   * `{u: []}` for a missing or undecodable file, `{}` plus `u` for a file that
   * is not an object, the object plus `u` when `u` is absent, and otherwise the
   * object with `u`'s dates read up to the first one that cannot be read.
   */
  function Loaded6(f: BookingsFile, u: string): (Bookings, LoadOutcome)
  {
    match f
    case Missing => (map[u := []], Loaded)
    case Undecodable => (map[u := []], Loaded)
    case Decoded(NotAnObject) => (map[u := []], Loaded)
    case Decoded(Object(m)) =>
      if u in m then
        var k := FirstUnreadable(m[u]);
        (m[u := ConvertedUpTo(m[u], k)], if k == |m[u]| then Loaded else DateError(k))
      else (m[u := []], Loaded)
  }

  /** No flight date is held as text. */
  predicate NoDateText(bs: seq<Dict>)
  {
    forall i :: 0 <= i < |bs| ==> !("flight_date" in bs[i] && bs[i]["flight_date"].Str?)
  }

  /** After a load that ends normally, every flight date of the user that was text has been read. */
  lemma Loaded6NoDateText(f: BookingsFile, u: string)
    requires Loaded6(f, u).1 == Loaded
    ensures NoDateText(UserBookings(Loaded6(f, u).0, u))
  {
    if f.Decoded? && f.doc.Object? && u in f.doc.entries {
      var before := f.doc.entries[u];
      var after: seq<Dict> := Loaded6(f, u).0[u];
      forall i | 0 <= i < |after| ensures !("flight_date" in after[i] && after[i]["flight_date"].Str?) {
        var b := before[i];
        assert after[i] == DateFromIso(b).value;
        if "flight_date" in b && b["flight_date"].Str? {
          var d := Dates.ParseIso(b["flight_date"].s);
          assert after[i] == b["flight_date" := DateVal(d.value)];
        }
      }
    }
  }

  /**
   * Whatever the file holds, after loading the user has an entry, and only
   * bookings of that user change.
   */
  lemma Loaded6HasUser(f: BookingsFile, u: string)
    ensures u in Loaded6(f, u).0
    ensures f.Decoded? && f.doc.Object? ==>
      Loaded6(f, u).0.Keys == f.doc.entries.Keys + {u}
      && forall v :: v in f.doc.entries && v != u ==> Loaded6(f, u).0[v] == f.doc.entries[v]
    ensures !(f.Decoded? && f.doc.Object?) ==> Loaded6(f, u).0 == map[u := []]
  {
  }

  /** Loading a JSON file brings in date objects only as the user's flight dates. */
  lemma Loaded6Dates(f: BookingsFile, u: string)
    requires JsonFile(f)
    ensures DatesOnlyForUser(Loaded6(f, u).0, Some(u))
  {
    var m := Loaded6(f, u).0;
    forall v, i | v in m && 0 <= i < |m[v]|
      ensures if Some(u) == Some(v) then DatesOnlyInFlightDate(m[v][i]) else JsonBooking(m[v][i])
    {
      if f.Decoded? && f.doc.Object? && u in f.doc.entries && v == u {
        var before := f.doc.entries[u];
        assert JsonBooking(before[i]);
      }
    }
  }

  /** A read error stops at the first unreadable booking: the ones before it are read, it and the rest are not. */
  lemma Loaded6Error(f: BookingsFile, u: string)
    requires Loaded6(f, u).1.DateError?
    ensures f.Decoded? && f.doc.Object? && u in f.doc.entries
    ensures var k := Loaded6(f, u).1.index;
      var before := f.doc.entries[u];
      var after := Loaded6(f, u).0[u];
      k < |before| && DateFromIso(before[k]).None?
      && (forall i :: 0 <= i < k ==> Some(after[i]) == DateFromIso(before[i]))
      && after[k..] == before[k..]
  {
  }

  /**
   * `load_bookings` in flightbooker_ver5.py: no date reading and no user key
   * added; `{u: []}` only for a missing or undecodable file, `{}` for a file
   * that is not an object.
   */
  function Loaded5(f: BookingsFile, u: string): Bookings
  {
    match f
    case Missing => map[u := []]
    case Undecodable => map[u := []]
    case Decoded(NotAnObject) => map[]
    case Decoded(Object(m)) => m
  }

  /** The older loader keeps a decoded object exactly, so a user without bookings has no entry. */
  lemma Loaded5Cases(f: BookingsFile, u: string)
    ensures f.Decoded? && f.doc.Object? ==> Loaded5(f, u) == f.doc.entries
    ensures f.Decoded? && f.doc.Object? && u !in f.doc.entries ==> u !in Loaded5(f, u)
    ensures f == Decoded(NotAnObject) ==> Loaded5(f, u) == map[]
    ensures !f.Decoded? ==> Loaded5(f, u) == map[u := []]
  {
  }

  function UserBookings(m: Bookings, u: string): seq<Dict>
  {
    if u in m then m[u] else []
  }

  /**
   * The in-memory bookings after `save_booking(u, b)` in flightbooker_ver6.py:
   * the new booking's date and the user's older dates become ISO text, and
   * the booking is appended to the user's list.
   */
  function Saved6(m: Bookings, u: string, b: Dict): Bookings
  {
    m[u := AllDatesToIso(UserBookings(m, u)) + [DateToIso(b)]]
  }

  /** `save_booking` in flightbooker_ver5.py: only the new booking's date is converted. */
  function Saved5(m: Bookings, u: string, b: Dict): Bookings
  {
    m[u := UserBookings(m, u) + [DateToIso(b)]]
  }

  /**
   * Saving appends the booking after the user's older bookings (created empty
   * when the user had none) and leaves every other user's list alone.
   */
  lemma SavedAppends(m: Bookings, u: string, b: Dict)
    ensures u in Saved6(m, u, b) && u in Saved5(m, u, b)
    ensures |Saved6(m, u, b)[u]| == |UserBookings(m, u)| + 1
    ensures Saved6(m, u, b)[u][|UserBookings(m, u)|] == DateToIso(b)
    ensures forall i :: 0 <= i < |UserBookings(m, u)| ==> Saved6(m, u, b)[u][i] == DateToIso(UserBookings(m, u)[i])
    ensures Saved5(m, u, b)[u] == UserBookings(m, u) + [DateToIso(b)]
    ensures forall v :: v != u ==> (v in Saved6(m, u, b) <==> v in m) && (v in Saved5(m, u, b) <==> v in m)
    ensures forall v :: v != u && v in m ==> Saved6(m, u, b)[v] == m[v] && Saved5(m, u, b)[v] == m[v]
  {
  }

  /**
   * In the newer version the saved map can always be written as JSON, as
   * long as dates are only ever held in the `flight_date` of the user's own
   * bookings.
   */
  lemma Saved6IsJson(m: Bookings, u: string, b: Dict)
    requires DatesOnlyForUser(m, Some(u))
    requires DatesOnlyInFlightDate(b)
    ensures JsonBookings(Saved6(m, u, b))
  {
    var saved := Saved6(m, u, b);
    forall v, i | v in saved && 0 <= i < |saved[v]| ensures JsonBooking(saved[v][i]) {
      if v == u && i < |UserBookings(m, u)| {
        assert DatesOnlyInFlightDate(m[u][i]);
      }
    }
  }

  /**
   * The older `save_booking` appends before it writes, so after a failed
   * write the booking stays in memory and saving it again keeps both copies.
   */
  lemma Saved5Twice(m: Bookings, u: string, b: Dict)
    ensures Saved5(Saved5(m, u, b), u, b)[u] == UserBookings(m, u) + [DateToIso(b), DateToIso(b)]
  {
  }

  /** The older `save_booking` keeps a JSON map JSON when the new booking's only date is its flight date. */
  lemma Saved5IsJson(m: Bookings, u: string, b: Dict)
    requires JsonBookings(m) && DatesOnlyInFlightDate(b)
    ensures JsonBookings(Saved5(m, u, b))
  {
    var saved := Saved5(m, u, b);
    forall v, i | v in saved && 0 <= i < |saved[v]| ensures JsonBooking(saved[v][i]) {
      if v == u && i < |UserBookings(m, u)| {
        assert saved[v][i] == m[u][i];
      }
    }
  }

  /** How the write of the bookings file ends. */
  datatype WriteOutcome = Written | OpenFailed | NotSerializable

  /**
   * `open(BOOKINGS_FILE, "w")` then `json.dump`: when the file cannot be
   * opened nothing changes; when a date object is met the dump stops
   * part-way and leaves text that does not decode.
   */
  function WriteBookings(m: Bookings, f: BookingsFile, canOpen: bool): (BookingsFile, WriteOutcome)
  {
    if !canOpen then (f, OpenFailed)
    else if JsonBookings(m) then (Decoded(Object(m)), Written)
    else (Undecodable, NotSerializable)
  }

  /**
   * The older version's save keeps the file plain JSON, and its write fails
   * only when the file cannot be opened.
   */
  lemma Save5KeepsStore(m: Bookings, u: string, b: Dict, f: BookingsFile, canOpen: bool)
    requires JsonBookings(m) && DatesOnlyInFlightDate(b) && JsonFile(f)
    ensures JsonBookings(Saved5(m, u, b))
    ensures JsonFile(WriteBookings(Saved5(m, u, b), f, canOpen).0)
    ensures WriteBookings(Saved5(m, u, b), f, canOpen).1 == if canOpen then Written else OpenFailed
  {
    Saved5IsJson(m, u, b);
  }

  /**
   * Saving a booking whose only date is its flight date keeps the newer
   * version's store invariant: the write never meets a date object, the file
   * stays plain JSON, and dates are still held only for the user.
   */
  lemma Save6KeepsStore(m: Bookings, u: string, b: Dict, f: BookingsFile, canOpen: bool)
    requires DatesOnlyForUser(m, Some(u)) && DatesOnlyInFlightDate(b) && JsonFile(f)
    ensures DatesOnlyForUser(Saved6(m, u, b), Some(u))
    ensures JsonFile(WriteBookings(Saved6(m, u, b), f, canOpen).0)
    ensures WriteBookings(Saved6(m, u, b), f, canOpen).1 != NotSerializable
  {
    var saved := Saved6(m, u, b);
    Saved6IsJson(m, u, b);
    forall v, i | v in saved && 0 <= i < |saved[v]|
      ensures if Some(u) == Some(v) then DatesOnlyInFlightDate(saved[v][i]) else JsonBooking(saved[v][i])
    {
      assert JsonBooking(saved[v][i]);
    }
  }

  /**
   * Round trip: once the newer `save_booking` has written the file, loading
   * it gives back the saved map with the user's dates read, and saving those
   * dates again restores the stored text.
   */
  lemma LoadAfterSave6(m: Bookings, u: string, b: Dict)
    requires JsonBookings(Saved6(m, u, b))
    requires forall i :: 0 <= i < |Saved6(m, u, b)[u]| ==> DateFromIso(Saved6(m, u, b)[u][i]).Some?
    ensures var saved := Saved6(m, u, b);
      var (file, outcome) := WriteBookings(saved, Missing, true);
      outcome == Written
      && Loaded6(file, u).1 == Loaded
      && Loaded6(file, u).0.Keys == saved.Keys
      && (forall v :: v in saved && v != u ==> Loaded6(file, u).0[v] == saved[v])
      && AllDatesToIso(Loaded6(file, u).0[u]) == saved[u]
  {
    var saved := Saved6(m, u, b);
    var bs := saved[u];
    var k := FirstUnreadable(bs);
    var after := ConvertedUpTo(bs, k);
    forall i | 0 <= i < |bs| ensures DateToIso(after[i]) == bs[i] {
      var b: Dict := bs[i];
      assert JsonBooking(b);
      if "flight_date" in b {
        assert JsonValue(b["flight_date"]);
      }
      DateToIsoAfterFromIso(b);
    }
  }
}
