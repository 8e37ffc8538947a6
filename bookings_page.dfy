/**
 * The "Show All Bookings" page: the ordinal suffix written after a day of the
 * month, the order in which a user's bookings are listed
 * (`sorted(bookings, key=lambda b: b.get("flight_date", ""))`), and when
 * drawing the list (`display_bookings`) raises.
 */
module BookingsPage {
  import opened Records
  import Dates
  import StringOrder
  import Store

  /** `get_day_suffix`: "th" for 4-20 and 24-30, otherwise by the last digit. */
  function DaySuffix(day: int): string
  {
    if 4 <= day <= 20 || 24 <= day <= 30 then "th"
    else if day % 10 == 1 then "st"
    else if day % 10 == 2 then "nd"
    else if day % 10 == 3 then "rd"
    else "th"
  }

  /** The English ordinal suffix: "th" after 11, 12 and 13, otherwise decided by the last digit. */
  function OrdinalSuffix(n: nat): string
  {
    if 11 <= n % 100 <= 13 then "th"
    else if n % 10 == 1 then "st"
    else if n % 10 == 2 then "nd"
    else if n % 10 == 3 then "rd"
    else "th"
  }

  /** For every day a month can have, the page writes the English ordinal suffix. */
  lemma DaySuffixIsOrdinal(day: int)
    requires 1 <= day <= 31
    ensures DaySuffix(day) == OrdinalSuffix(day)
  {
  }

  /** The days of a month, suffix by suffix. */
  lemma DaySuffixTable(day: int)
    requires 1 <= day <= 31
    ensures DaySuffix(day) == "st" <==> day == 1 || day == 21 || day == 31
    ensures DaySuffix(day) == "nd" <==> day == 2 || day == 22
    ensures DaySuffix(day) == "rd" <==> day == 3 || day == 23
    ensures DaySuffix(day) == "th" <==> !(day in {1, 2, 3, 21, 22, 23, 31})
  {
  }

  /** The sort key of a booking: its `flight_date`, or "" when it has none. */
  function SortKey(b: Dict): Value
  {
    Get(b, "flight_date", Str(""))
  }

  /**
   * `<` between two sort keys. Python compares two strings or two dates and
   * raises TypeError for any other pair; such pairs never reach this model.
   */
  predicate KeyLess(a: Value, b: Value)
  {
    if a.Str? && b.Str? then StringOrder.Less(a.s, b.s)
    else if a.DateVal? && b.DateVal? then Dates.Before(a.d, b.d)
    else false
  }

  predicate Comparable(a: Value, b: Value)
  {
    (a.Str? && b.Str?) || (a.DateVal? && b.DateVal?)
  }

  /** Every two keys can be compared: all are strings, or all are dates. */
  predicate KeysComparable(bs: seq<Dict>)
  {
    forall a, b :: a in bs && b in bs ==> Comparable(SortKey(a), SortKey(b))
  }

  lemma KeyLessIrreflexive(a: Value)
    ensures !KeyLess(a, a)
  {
    if a.Str? {
      StringOrder.LessIrreflexive(a.s);
    }
  }

  lemma KeyLessTransitive(a: Value, b: Value, c: Value)
    requires Comparable(a, b) && Comparable(b, c)
    requires KeyLess(a, b) && KeyLess(b, c)
    ensures KeyLess(a, c)
  {
    if a.Str? {
      StringOrder.LessTransitive(a.s, b.s, c.s);
    }
  }

  lemma KeyLessTotal(a: Value, b: Value)
    requires Comparable(a, b) && a != b
    ensures KeyLess(a, b) || KeyLess(b, a)
  {
    if a.Str? {
      StringOrder.LessTotal(a.s, b.s);
    }
  }

  /** Non-decreasing by sort key. */
  predicate SortedByKey(s: seq<Dict>)
  {
    forall i, j :: 0 <= i < j < |s| ==> !KeyLess(SortKey(s[j]), SortKey(s[i]))
  }

  lemma SortedHead(s: seq<Dict>, y: Dict)
    requires SortedByKey(s) && y in s
    ensures !KeyLess(SortKey(y), SortKey(s[0]))
  {
    var m :| 0 <= m < |s| && s[m] == y;
    if m == 0 {
      KeyLessIrreflexive(SortKey(y));
    }
  }

  /** Puts `x` into the sorted list `s` after every booking whose key is not above its own. */
  function InsertByKey(x: Dict, s: seq<Dict>): (r: seq<Dict>)
    ensures multiset(r) == multiset(s) + multiset{x}
    ensures forall y :: y in r <==> y == x || y in s
  {
    if s == [] then [x]
    else if KeyLess(SortKey(x), SortKey(s[0])) then [x] + s
    else
      assert s == [s[0]] + s[1..];
      [s[0]] + InsertByKey(x, s[1..])
  }

  /** The stable sort Python's `sorted` performs, written as an insertion sort. */
  function SortBookings(bs: seq<Dict>): seq<Dict>
    requires KeysComparable(bs)
  {
    if bs == [] then []
    else
      assert KeysComparable(bs[..|bs| - 1]) by {
        assert forall a :: a in bs[..|bs| - 1] ==> a in bs;
      }
      InsertByKey(bs[|bs| - 1], SortBookings(bs[..|bs| - 1]))
  }

  /** A booking whose key is not above any key of a sorted list can go in front of it. */
  lemma ConsSorted(y: Dict, t: seq<Dict>)
    requires SortedByKey(t)
    requires forall z :: z in t ==> !KeyLess(SortKey(z), SortKey(y))
    ensures SortedByKey([y] + t)
  {
    var r := [y] + t;
    forall i, j | 0 <= i < j < |r| ensures !KeyLess(SortKey(r[j]), SortKey(r[i])) {
      assert r[j] == t[j - 1] && r[j] in t;
      if i > 0 {
        assert r[i] == t[i - 1];
      }
    }
  }

  lemma {:induction false} InsertByKeySorted(x: Dict, s: seq<Dict>)
    requires SortedByKey(s) && KeysComparable([x] + s)
    ensures SortedByKey(InsertByKey(x, s))
  {
    if s != [] {
      var kx, k0 := SortKey(x), SortKey(s[0]);
      if KeyLess(kx, k0) {
        forall z | z in s ensures !KeyLess(SortKey(z), kx) {
          SortedHead(s, z);
          assert z in [x] + s && x in [x] + s && s[0] in [x] + s;
          if KeyLess(SortKey(z), kx) {
            KeyLessTransitive(SortKey(z), kx, k0);
          }
        }
        ConsSorted(x, s);
      } else {
        assert KeysComparable([x] + s[1..]) by {
          assert forall a :: a in [x] + s[1..] ==> a in [x] + s;
        }
        InsertByKeySorted(x, s[1..]);
        var t := InsertByKey(x, s[1..]);
        forall z | z in t ensures !KeyLess(SortKey(z), k0) {
          if z != x {
            assert z in s;
            SortedHead(s, z);
          }
        }
        ConsSorted(s[0], t);
      }
    }
  }

  /** The listed bookings are ordered by flight date and are exactly the user's bookings. */
  lemma {:induction false} SortBookingsSortedPermutation(bs: seq<Dict>)
    requires KeysComparable(bs)
    ensures SortedByKey(SortBookings(bs))
    ensures multiset(SortBookings(bs)) == multiset(bs)
  {
    if bs != [] {
      var pre, last := bs[..|bs| - 1], bs[|bs| - 1];
      assert bs == pre + [last];
      assert KeysComparable(pre) by {
        assert forall a :: a in pre ==> a in bs;
      }
      SortBookingsSortedPermutation(pre);
      var sp := SortBookings(pre);
      assert KeysComparable([last] + sp) by {
        forall a | a in [last] + sp ensures a in bs {
          if a != last {
            assert a in multiset(sp);
          }
        }
      }
      InsertByKeySorted(last, sp);
    }
  }

  /** The bookings whose key is `k`, in their order. */
  function WithKey(s: seq<Dict>, k: Value): seq<Dict>
  {
    if s == [] then [] else (if SortKey(s[0]) == k then [s[0]] else []) + WithKey(s[1..], k)
  }

  lemma {:induction false} WithKeyAppend(a: seq<Dict>, b: seq<Dict>, k: Value)
    ensures WithKey(a + b, k) == WithKey(a, k) + WithKey(b, k)
  {
    if a != [] {
      var y, tail := a[0], a[1..];
      assert a == [y] + tail;
      ConcatAssociative([y], tail, b);
      WithKeyCons(y, tail + b, k);
      WithKeyCons(y, tail, k);
      WithKeyAppend(tail, b, k);
      ConcatAssociative(if SortKey(y) == k then [y] else [], WithKey(tail, k), WithKey(b, k));
    } else {
      assert a + b == b;
    }
  }

  lemma {:induction false} WithKeyNone(s: seq<Dict>, k: Value)
    requires forall y :: y in s ==> SortKey(y) != k
    ensures WithKey(s, k) == []
  {
    if s != [] {
      assert s[0] in s;
      assert forall y :: y in s[1..] ==> y in s;
      WithKeyNone(s[1..], k);
    }
  }

  lemma WithKeyCons(y: Dict, t: seq<Dict>, k: Value)
    ensures WithKey([y] + t, k) == (if SortKey(y) == k then [y] else []) + WithKey(t, k)
  {
    assert ([y] + t)[1..] == t;
  }

  lemma SortedTail(s: seq<Dict>)
    requires SortedByKey(s) && s != []
    ensures SortedByKey(s[1..])
  {
    forall i, j | 0 <= i < j < |s| - 1 ensures !KeyLess(SortKey(s[1..][j]), SortKey(s[1..][i])) {
      assert s[1..][j] == s[j + 1] && s[1..][i] == s[i + 1];
    }
  }

  lemma ConcatAssociative(a: seq<Dict>, b: seq<Dict>, c: seq<Dict>)
    ensures a + (b + c) == (a + b) + c
  {
  }

  /** Putting the same booking in front of two lists keeps how their key-`k` bookings relate. */
  lemma ConsStable(y: Dict, rest: seq<Dict>, t: seq<Dict>, xs: seq<Dict>, k: Value)
    requires WithKey(t, k) == WithKey(rest, k) + xs
    ensures WithKey([y] + t, k) == WithKey([y] + rest, k) + xs
  {
    WithKeyCons(y, t, k);
    WithKeyCons(y, rest, k);
    ConcatAssociative(if SortKey(y) == k then [y] else [], WithKey(rest, k), xs);
  }

  /** A booking placed in front of a sorted list whose keys are all above its own. */
  lemma InsertFrontStable(x: Dict, s: seq<Dict>, k: Value)
    requires SortedByKey(s) && s != [] && KeyLess(SortKey(x), SortKey(s[0]))
    ensures WithKey(InsertByKey(x, s), k) == WithKey(s, k) + (if SortKey(x) == k then [x] else [])
  {
    assert InsertByKey(x, s) == [x] + s;
    WithKeyCons(x, s, k);
    if SortKey(x) == k {
      forall y | y in s ensures SortKey(y) != k {
        SortedHead(s, y);
      }
      WithKeyNone(s, k);
    }
  }

  /** A booking inserted past the head of a sorted list. */
  lemma {:induction false} InsertPastHeadStable(x: Dict, s: seq<Dict>, k: Value)
    requires SortedByKey(s) && s != [] && !KeyLess(SortKey(x), SortKey(s[0]))
    ensures WithKey(InsertByKey(x, s), k) == WithKey(s, k) + (if SortKey(x) == k then [x] else [])
    decreases |s|, 0
  {
    var xs := if SortKey(x) == k then [x] else [];
    var t := InsertByKey(x, s[1..]);
    SortedTail(s);
    InsertByKeyStable(x, s[1..], k);
    assert InsertByKey(x, s) == [s[0]] + t;
    assert s == [s[0]] + s[1..];
    ConsStable(s[0], s[1..], t, xs, k);
  }

  lemma {:induction false} InsertByKeyStable(x: Dict, s: seq<Dict>, k: Value)
    requires SortedByKey(s)
    ensures WithKey(InsertByKey(x, s), k) == WithKey(s, k) + (if SortKey(x) == k then [x] else [])
    decreases |s|, 1
  {
    if s == [] {
      WithKeyCons(x, [], k);
    } else if KeyLess(SortKey(x), SortKey(s[0])) {
      InsertFrontStable(x, s, k);
    } else {
      InsertPastHeadStable(x, s, k);
    }
  }

  /**
   * The sort is stable: the bookings sharing a flight date are listed in the
   * order in which they were stored.
   */
  lemma {:induction false} SortBookingsStable(bs: seq<Dict>, k: Value)
    requires KeysComparable(bs)
    ensures WithKey(SortBookings(bs), k) == WithKey(bs, k)
  {
    if bs != [] {
      var pre, last := bs[..|bs| - 1], bs[|bs| - 1];
      assert bs == pre + [last];
      assert KeysComparable(pre) by {
        assert forall a :: a in pre ==> a in bs;
      }
      SortBookingsStable(pre, k);
      var sp := SortBookings(pre);
      assert SortedByKey(sp) by {
        SortBookingsSortedPermutation(pre);
      }
      InsertByKeyStable(last, sp, k);
      WithKeyAppend(pre, [last], k);
      WithKeyCons(last, [], k);
      assert [last] + [] == [last];
    }
  }

  /** Python's `==` on two values: numbers compare by value, other values only with their own kind. */
  predicate PyEq(a: Value, b: Value)
  {
    if IsNumber(a) && IsNumber(b) then AsReal(a) == AsReal(b) else a == b
  }

  /** Two values Python's `<` can compare: two texts, two numbers or two dates. */
  predicate PyComparable(a: Value, b: Value)
  {
    (a.Str? && b.Str?) || (IsNumber(a) && IsNumber(b)) || (a.DateVal? && b.DateVal?)
  }

  /** A catalog entry the lookup passes over: it has a flight number, and not the one sought. */
  predicate Skips(f: Dict, n: Value)
  {
    "flight_number" in f && !PyEq(f["flight_number"], n)
  }

  /** How `next((f for f in flights if f["flight_number"] == n), None)` ends. */
  datatype Lookup = Found(flight: Dict) | NotFound | NoFlightNumber

  /** The catalog lookup: the first entry with the number, or KeyError at an entry without one. */
  function FindFlight(flights: seq<Dict>, n: Value): (r: Lookup)
    ensures r.NotFound? <==> forall f :: f in flights ==> Skips(f, n)
    ensures r.Found? ==> r.flight in flights && "flight_number" in r.flight && PyEq(r.flight["flight_number"], n)
    ensures r.NoFlightNumber? ==> exists f :: f in flights && "flight_number" !in f
    ensures r.Found? ==> exists i :: 0 <= i < |flights| && flights[i] == r.flight
                                     && forall j :: 0 <= j < i ==> Skips(flights[j], n)
    ensures r.NoFlightNumber? ==> exists i :: 0 <= i < |flights| && "flight_number" !in flights[i]
                                             && forall j :: 0 <= j < i ==> Skips(flights[j], n)
  {
    if flights == [] then NotFound
    else
      assert flights[0] in flights;
      if "flight_number" !in flights[0] then NoFlightNumber
      else if PyEq(flights[0]["flight_number"], n) then Found(flights[0])
      else
        assert forall f :: f in flights ==> f == flights[0] || f in flights[1..];
        var r := FindFlight(flights[1..], n);
        FirstAfterSkip(flights, n, r);
        r
  }

  /** A position found in the tail, after the skipped head, is a position of the whole catalog. */
  lemma FirstAfterSkip(flights: seq<Dict>, n: Value, r: Lookup)
    requires flights != [] && Skips(flights[0], n) && r == FindFlight(flights[1..], n)
    ensures r.Found? ==> exists i :: 0 <= i < |flights| && flights[i] == r.flight
                                     && forall j :: 0 <= j < i ==> Skips(flights[j], n)
    ensures r.NoFlightNumber? ==> exists i :: 0 <= i < |flights| && "flight_number" !in flights[i]
                                             && forall j :: 0 <= j < i ==> Skips(flights[j], n)
  {
    var tail := flights[1..];
    if r.Found? {
      var i :| 0 <= i < |tail| && tail[i] == r.flight && forall j :: 0 <= j < i ==> Skips(tail[j], n);
      assert flights[i + 1] == r.flight;
      assert forall j :: 0 <= j < i + 1 ==> Skips(flights[j], n) by {
        forall j | 0 <= j < i + 1 ensures Skips(flights[j], n) {
          if j > 0 { assert flights[j] == tail[j - 1]; }
        }
      }
    } else if r.NoFlightNumber? {
      var i :| 0 <= i < |tail| && "flight_number" !in tail[i] && forall j :: 0 <= j < i ==> Skips(tail[j], n);
      assert "flight_number" !in flights[i + 1];
      assert forall j :: 0 <= j < i + 1 ==> Skips(flights[j], n) by {
        forall j | 0 <= j < i + 1 ensures Skips(flights[j], n) {
          if j > 0 { assert flights[j] == tail[j - 1]; }
        }
      }
    }
  }

  /** Drawing a booking raises KeyError in its catalog lookup, or because the flight found has no logo. */
  predicate LookupRaises(flights: seq<Dict>, b: Dict)
  {
    var r := FindFlight(flights, Get(b, "flight_number", Str("N/A")));
    r.NoFlightNumber? || (r.Found? && "logo" !in r.flight)
  }

  predicate HasDateObject(b: Dict)
  {
    "flight_date" in b && b["flight_date"].DateVal?
  }

  /** `sorted` raises TypeError: two of the sort keys cannot be compared with `<`. */
  predicate SortRaises(bs: seq<Dict>)
  {
    exists a, b :: a in bs && b in bs && !PyComparable(SortKey(a), SortKey(b))
  }

  /**
   * Once the sort has passed on bookings without date texts, either every
   * booking has a date object or none has, so the first booking drawn has
   * one exactly when they all do.
   */
  lemma SortedKeysOneKind(bs: seq<Dict>)
    requires Store.NoDateText(bs) && !SortRaises(bs)
    ensures (forall b :: b in bs ==> HasDateObject(b)) || (forall b :: b in bs ==> !HasDateObject(b))
  {
    if exists a :: a in bs && HasDateObject(a) {
      var a :| a in bs && HasDateObject(a);
      forall b | b in bs ensures HasDateObject(b) {
        assert PyComparable(SortKey(a), SortKey(b));
      }
    }
  }

  /**
   * `display_bookings` on a list with no date texts raises when it is not
   * empty and: the sort meets two keys it cannot compare (TypeError); or the
   * first booking drawn has no date object, so that `date_obj` is unbound
   * after `strptime("N/A")` fails (UnboundLocalError) or is a number without
   * `strftime` (AttributeError); or a catalog lookup raises KeyError.  By
   * SortedKeysOneKind the first booking drawn lacks a date object exactly
   * when some booking does.
   */
  predicate DisplayRaises(flights: seq<Dict>, bs: seq<Dict>)
    requires Store.NoDateText(bs)
  {
    bs != []
    && (SortRaises(bs)
        || (exists b :: b in bs && !HasDateObject(b))
        || (exists b :: b in bs && LookupRaises(flights, b)))
  }

  /**
   * After a normal load the list is drawn exactly when every booking has a
   * date object and finds its flight, if any, with a logo, past entries that
   * all have a flight number.
   */
  lemma DisplayRaisesIff(flights: seq<Dict>, bs: seq<Dict>)
    requires Store.NoDateText(bs)
    ensures DisplayRaises(flights, bs) <==> exists b :: b in bs && (!HasDateObject(b) || LookupRaises(flights, b))
  {
    if SortRaises(bs) {
      var a, b :| a in bs && b in bs && !PyComparable(SortKey(a), SortKey(b));
      assert !HasDateObject(a) || !HasDateObject(b);
    }
  }
}
