# ForFly flight booker — a Dafny model

ForFly is a Tkinter flight-booking wizard written in several versions; each
version extends the one before. This project models the logic under the widgets:

- the search over the flight catalog;
- the class and ticket-type pricing;
- the wizard steps that fill the draft booking `selected_flight`, with their validators (passenger, payment card, contact details);
- the booking record built on confirmation;
- the per-user bookings store with its load and save rules;
- the ordering of the bookings list.

`flightbooker_ver6.py` is the main version. `flightbooker_ver5.py`,
`flightbooker_ver4.py` and `flightbooker_ver3.py` are modelled where they differ
from it.

| file | module | what it holds |
|---|---|---|
| util.dfy | `Util` | `Option` |
| text.dfy | `Text` | digit strings and `int()`, `str.replace(" ", "")`, `str.title()` |
| string_order.dfy | `StringOrder` | Python's string order and `sorted(set(...))` |
| dates.dfy | `Dates` | `datetime.date`, `isoformat` / `fromisoformat` for YYYY-MM-DD (calendar dates, complete extended format, section 4.1.2.2 of ISO 8601:2004) |
| records.dfy | `Records` | JSON-like values, the `Dict` of a booking or flight, and `Record`, a dict held by reference |
| payment.dfy | `Payment` | Luhn check (Annex B of ISO/IEC 7812-1), expiry, CVC, card-number formatting, the card step |
| pricing.dfy | `Pricing` | the class and ticket-type multiplier tables and the final price |
| search.dfy | `Search` | the route filter, the Search guard and the destination box |
| email.dfy | `Email` | the `[^@]+@[^@]+\.[^@]+` address check |
| store.dfy | `Store` | the bookings map and the bookings file: load, save and write, for both the ver6 and ver5 rules |
| wizard.dfy | `Wizard` | the step checks, the keys each step writes, and the booking record |
| bookings_page.dfy | `BookingsPage` | the day suffix, the stable sort of a user's bookings by flight date, and when drawing the bookings page raises |
| booker.dfy | `Booker` | ver6's `FlightBookingApp`: pages, catalog, draft, user, bookings and file, one method per button |
| booker_ver5.dfy | `BookerVer5` | ver5's load, save and finish |
| booker_ver4.dfy | `BookerVer4` | ver4's application: pricing from `price`; a passenger step that writes nothing; a finish that stores nothing |
| booker_ver3.dfy | `BookerVer3` | ver3's location list, `.get` search, selection of a result and booking check |

Modelling choices:

- **Aliasing of the draft.** A Python dict that is shared and changed in place is a `Record` object. `select_flight` keeps the catalog entry itself as the draft, so every later step writes into the catalog. The ver6 and ver4 classes keep this aliasing: `selectedFlight` is one of the `flights` records.
- **Stored bookings are values.** Bookings kept in the store are plain maps.
- **Inputs become parameters.** The following are parameters:
  - the current date (year and month);
  - the departure date picked in the date widget;
  - whether the bookings file can be opened for writing;
  - the outcome of the credential comparison, in the ver4 and ver3 logins.
- **Prices** are `real`, since every multiplier is exact.
- **Pages on show.** Each class tracks the page on show. Each method states the page shown after the button it models.

The ver5 wizard steps are the same code as ver6's. Search, select, class, passenger, card and contact steps are therefore modelled once, in `Booker`.

## Model

| member | source | states |
|---|---|---|
| Text.RemoveSpaces | flightbooker_ver6.py:811 | the result has no space, holds exactly the input's other characters and is no longer than the input |
| Text.RemoveSpacesNoSpaces | flightbooker_ver6.py:771 | text without spaces is left unchanged |
| Text.TitleIdempotent | flightbooker_ver6.py:719-721 | title-casing a title-cased name changes nothing |
| Text.TitleLength | flightbooker_ver6.py:719-721 | title-casing keeps the length |
| StringOrder.Insert | flightbooker_ver6.py:482 | inserting into a strictly sorted list keeps it strictly sorted, and its elements become the old ones plus the new one |
| StringOrder.SortedSet | flightbooker_ver6.py:482 | `sorted(set(xs))` is strictly sorted and holds exactly the elements of `xs` |
| StringOrder.StrictlySortedUnique | flightbooker_ver6.py:482 | two strictly sorted lists with the same elements are equal, so the sorted set is determined by the set alone |
| StringOrder.StrictlySortedDistinct | flightbooker_ver6.py:482 | a sorted set has no duplicates |
| StringOrder.LessTotal | flightbooker_ver6.py:482 | Python's string order is total |
| StringOrder.LessTransitive | flightbooker_ver6.py:482 | Python's string order is transitive |
| Dates.DaysInMonth | flightbooker_ver6.py:74 | every month has 28 to 31 days, as `date` checks them |
| Dates.ParseIsoFormat | flightbooker_ver6.py:86-87 | reading back the ISO text of a valid date gives the date |
| Dates.FormatParseIso | flightbooker_ver6.py:73-74 | any text `fromisoformat` accepts is exactly the ISO text of the date it reads |
| Dates.IsoOrderIsChronological | flightbooker_ver6.py:293 | ISO date texts compare as strings exactly as the dates compare in time |
| Payment.LuhnAlgorithm | flightbooker_ver6.py:834-845 | the loop over the reversed digits returns true iff the Luhn sum is 0 mod 10 |
| Payment.ValidateCardNumber | flightbooker_ver6.py:809-814 | accepted iff, with spaces removed, 13 to 19 digits whose Luhn sum is 0 mod 10 |
| Payment.LuhnDetectsSingleDigitChange | flightbooker_ver6.py:834-845 | changing any one digit of a number whose Luhn sum is 0 mod 10 makes the sum non-zero mod 10 |
| Text.RemoveSpacesOneChange | flightbooker_ver6.py:811 | changing one non-space character changes exactly one character of the space-free text, the one it maps to |
| Payment.CardNumberSingleDigitChangeRejected | flightbooker_ver6.py:809-814 | an accepted card number, spaces included as the formatter leaves them, with any one digit replaced by another digit is rejected |
| Payment.LuhnCheckDigitUnique | flightbooker_ver6.py:834-845 | for every payload exactly one final digit makes the number pass, and it is the computed check digit |
| Payment.CardNumberExamples | flightbooker_ver6.py:809-814 | a known test number passes; the same with a changed last digit, or 12 digits long, fails |
| Payment.ExpiryAccepted | flightbooker_ver6.py:816-828 | acceptance needs exactly two month digits and four year digits |
| Payment.ExpiryIsYearMonthOrder | flightbooker_ver6.py:816-828 | with well-formed fields, accepted iff year*100+month is not below the current year*100+month |
| Payment.ExpiryCurrentMonthBoundary | flightbooker_ver6.py:826 | the current month passes; last month and last December fail |
| Payment.ExpiryMonthNotRangeChecked | flightbooker_ver6.py:818 | months "13" and "00" pass with a future year |
| Payment.LimitCvcInput | flightbooker_ver6.py:778-782 | the result is a prefix of the input, of length min(4, n) |
| Payment.LimitCvcInputProperties | flightbooker_ver6.py:778-782 | truncating twice is truncating once; an accepted CVC is untouched; the first four characters of a typed CVC survive |
| Payment.Chunks | flightbooker_ver6.py:774 | there are ceil(n/4) groups |
| Payment.ChunksShape | flightbooker_ver6.py:774 | the groups spell the input; every group but the last has 4 characters and the last has 1 to 4 |
| Payment.FormatCardNumberContent | flightbooker_ver6.py:769-775 | removing the spaces from the output gives the first min(16, n) characters of the space-free input, so the digit count never grows |
| Payment.FormatCardNumberGroups | flightbooker_ver6.py:774 | every space-separated group of the output except the last has exactly four characters |
| Payment.FormatCardNumberIdempotent | flightbooker_ver6.py:769-775 | formatting formatted text changes nothing |
| Payment.FormatCardNumberAndAcceptance | flightbooker_ver6.py:769-814 | formatting never changes the verdict on up to 16 characters, and a formatted field is accepted only with 13 to 16 digits |
| Payment.CheckCardDetails | flightbooker_ver6.py:784-807 | the four checks in order (all filled, card number, expiry, CVC); each outcome is characterised exactly |
| Pricing.LabelsRoundTrip | flightbooker_ver6.py:576-580 | class and ticket labels and selections determine each other; the empty selection names nothing |
| Pricing.ChildIsHalfAdult | flightbooker_ver6.py:646-650 | a child ticket costs exactly half the adult ticket in the same class |
| Pricing.PriceIsMultipleOfFare | flightbooker_ver6.py:577-580 | the price is the fare times the product of the two multipliers, between 0.5 and 3.5 times the fare; an economy adult pays the fare |
| Pricing.ClassesOrderedByPrice | flightbooker_ver6.py:576-577 | for a positive fare the classes, in page order, are strictly decreasing in price |
| Pricing.ShownClassPrices | flightbooker_ver6.py:614-622 | one price per class button |
| Pricing.ShownPriceIsChargedPrice | flightbooker_ver6.py:614-622 | the price shown beside a class is the price charged for it; before a ticket type is chosen it is the Adult price |
| Pricing.PriceExample | flightbooker_ver6.py:646-650 | a 500.00 Business fare is 1250.00 (adult) and 625.00 (child) |
| Search.FilterRoute | flightbooker_ver6.py:516 | every result is on the route and there are no more results than flights |
| Search.FilterRouteMembers | flightbooker_ver6.py:516 | a flight is found iff it is in the catalog and on the route |
| Search.FilterRouteAppend | flightbooker_ver6.py:516 | the filter keeps catalog order: it distributes over concatenation |
| Search.SearchFlights | flightbooker_ver6.py:510-516 | no search iff the origin or destination is empty or the destination is the prompt text |
| Search.DestinationsFrom | flightbooker_ver6.py:482 | a text is listed iff some flight from the origin goes there |
| Search.UpdateDestinationsOffersRoutes | flightbooker_ver6.py:478-493 | with flights from the origin, the box offers exactly their destinations, sorted and without repeats, with empty text, and each offered destination finds a flight |
| Search.UpdateDestinationsNotice | flightbooker_ver6.py:478-493 | the "no destinations" notice appears exactly when no flight leaves the origin |
| Email.EmailAcceptedMatchesPattern | flightbooker_ver6.py:1050 | the scan accepts exactly the texts that begin with A@B.C, where A, B and C are non-empty and have no '@' |
| Email.EmailAcceptedSound | flightbooker_ver6.py:1050 | whatever the scan accepts matches the pattern |
| Email.EmailAcceptedComplete | flightbooker_ver6.py:1050 | whatever matches the pattern is accepted |
| Email.EmailExamples | flightbooker_ver6.py:1050 | a plain address passes, as does one followed by more text; one without a dot after '@', or starting with '@', fails |
| BookingsPage.DaySuffixIsOrdinal | flightbooker_ver6.py:364-369 | for days 1 to 31 the suffix is the English ordinal suffix ("th" after 11, 12, 13) |
| BookingsPage.DaySuffixTable | flightbooker_ver6.py:364-369 | "st" exactly for 1, 21, 31; "nd" for 2, 22; "rd" for 3, 23; "th" otherwise |
| BookingsPage.InsertByKey | flightbooker_ver6.py:293 | inserting adds exactly the one booking, as a multiset |
| BookingsPage.SortBookingsSortedPermutation | flightbooker_ver6.py:293 | the listed bookings are ordered by flight date and are a permutation of the user's bookings |
| BookingsPage.SortBookingsStable | flightbooker_ver6.py:293 | bookings with the same flight date keep their stored order |
| BookingsPage.FindFlight | flightbooker_ver6.py:319 | the `next(...)` search: not found iff every catalog entry has a `flight_number` unequal to the booking's; the flight found is the first entry equal in number, every entry before it having a different number; a KeyError happens at the first entry without `flight_number`, every entry before it having a different number |
| BookingsPage.SortedKeysOneKind | flightbooker_ver6.py:293 | when the sort does not raise on bookings without date text, either every booking has a date object or none has |
| BookingsPage.DisplayRaisesIff | flightbooker_ver6.py:278-322 | on bookings without date text, drawing raises iff some booking has no date object (a TypeError in the sort, or no usable `date_obj`) or its catalog lookup raises a KeyError |
| Store.DateToIso | flightbooker_ver6.py:86-87 | only `flight_date` changes; a booking whose only date is its flight date becomes plain JSON |
| Store.DateFromIso | flightbooker_ver6.py:73-74 | on success only `flight_date` changes |
| Store.DateFromIsoAfterToIso | flightbooker_ver6.py:86-87 | saving and then loading a booking gives it back |
| Store.DateToIsoAfterFromIso | flightbooker_ver6.py:92-94 | loading and then saving a booking gives back the stored text |
| Store.AllDatesToIsoStored | flightbooker_ver6.py:92-94 | converting the user's older bookings keeps their number, order and keys, makes each booking whose only date is its flight date plain JSON, and loading gives back every booking that held no date text |
| Store.FirstUnreadable | flightbooker_ver6.py:72-74 | the bookings before the index are readable and the booking at it is not |
| Store.Loaded6HasUser | flightbooker_ver6.py:63-80 | after loading, the user always has an entry; a missing or undecodable file gives exactly `{u: []}`; otherwise only the user's list changes |
| Store.Loaded6Dates | flightbooker_ver6.py:70-74 | loading a JSON file brings in date objects only as the user's flight dates |
| Store.Loaded6NoDateText | flightbooker_ver6.py:63-80 | after a load that did not raise, no booking of the user holds its flight date as text |
| Store.Loaded6Error | flightbooker_ver6.py:72-74 | a ValueError stops at the first unreadable booking; the bookings before it are read, the rest are untouched |
| Store.Loaded5Cases | flightbooker_ver5.py:53-63 | ver5 keeps a decoded object as it is, so a user without bookings has no entry; a non-object gives `{}`; a missing or undecodable file gives `{u: []}` |
| Store.SavedAppends | flightbooker_ver6.py:89-97 | saving appends the booking after the user's older bookings (an empty list if none); older dates become text in ver6 only; every other user is unchanged |
| Store.Saved6IsJson | flightbooker_ver6.py:83-101 | the ver6 saved map is always plain JSON, so the dump never fails part-way |
| Store.Saved5IsJson | flightbooker_ver5.py:66-78 | the ver5 saved map stays JSON when the map was JSON |
| Store.Save6KeepsStore | flightbooker_ver6.py:83-104 | a ver6 save of a booking whose only date is its flight date keeps dates only in the user's own bookings, leaves the file plain JSON, and never ends in a failed dump |
| Store.Save5KeepsStore | flightbooker_ver5.py:66-78 | a ver5 save keeps a JSON map JSON and the file plain JSON; its write ends Written when the file opens and OpenFailed otherwise |
| Store.Saved5Twice | flightbooker_ver5.py:66-78 | the append precedes the write, so saving again after a failed write stores the booking twice |
| Store.LoadAfterSave6 | flightbooker_ver6.py:63-101 | loading the written file gives the saved map with the user's dates read, and saving again restores the text |
| Wizard.AgeFitsExactlyOneTicket | flightbooker_ver6.py:700 | every age fits exactly one ticket type: Child below 13, Adult from 13 |
| Wizard.CheckPassenger | flightbooker_ver6.py:684-712 | empty name first, then a non-digit age, then an age that does not fit the ticket; success iff none applies, with the title-cased name and the integer age |
| Wizard.CheckPassengerVer4 | flightbooker_ver4.py:409-426 | no empty-name outcome; otherwise the same age checks and the same accepted passenger |
| Wizard.PassengerChecksAgree | flightbooker_ver6.py:687-690 | ver6 is ver4's check with the empty-name check in front |
| Wizard.PassengerNameNormalised | flightbooker_ver6.py:719-721 | an accepted name keeps its length, and entering it again gives the same passenger |
| Wizard.CheckContact | flightbooker_ver6.py:893-907 | refused iff some field is empty; otherwise phone and email are kept as typed, the address is as long as the four parts and three ", " separators, and when no part holds a comma, splitting it at ", " gives exactly the title-cased street, city and country and the postal code |
| Text.SplitOnCommaJoin | flightbooker_ver6.py:907 | splitting at ", " takes off a leading comma-free part, so a joined address splits back into its parts |
| Wizard.AddressSplits | flightbooker_ver6.py:894-907 | the address built from comma-free fields splits at ", " into the four stored parts |
| Wizard.ContactAddressParts | flightbooker_ver6.py:894-907 | the address starts with the title-cased street and a comma and ends with the postal code untouched; entering the stored parts again gives the same address |
| Wizard.WithFlight | flightbooker_ver6.py:551-553 | `select_flight` writes `flight_date` and `fare` and nothing else |
| Wizard.WithFlightStage | flightbooker_ver6.py:551-553 | after `select_flight` the fare equals the price, and the stored date text reads back as the chosen date |
| Wizard.WithFare | flightbooker_ver6.py:652-654 | `select_class` writes `class`, `ticket_type` and `final_price` and nothing else |
| Wizard.WithFareStage | flightbooker_ver6.py:646-654 | the stored labels name the chosen class and ticket; the final price is base times the class multiplier times the ticket multiplier |
| Wizard.WithPassenger | flightbooker_ver6.py:708-712 | the passenger step writes `flight_date`, `passenger_name` and `passenger_age` and nothing else |
| Wizard.WithPassengerStage | flightbooker_ver6.py:708-712 | the draft keeps its ticket type and now holds a date object and the passenger |
| Wizard.WithContact | flightbooker_ver6.py:910-912 | the contact step writes `address`, `phone_number` and `email` and nothing else |
| Wizard.WithContactStage | flightbooker_ver6.py:910-912 | the draft now holds the email text entered |
| Wizard.BookingRecord | flightbooker_ver6.py:976-992 | the record has exactly the 15 keys: the user, the copied draft fields (or ""), the date as ISO text, and as fare the final price if present, else the fare; it fails iff there is no fare or no date object |
| Wizard.BookingRecordStored | flightbooker_ver6.py:976-996 | for a completed draft the record exists, is plain JSON, reads back to the same date, charges the final price and keeps the email |
| Booker.RecordsOnRoute | flightbooker_ver6.py:516 | the results are catalog records themselves, whose dicts are the route filter's result |
| Booker.SearchCatalog | flightbooker_ver6.py:502-516 | no search iff the guard fires; otherwise the catalog records (not copies) on the route, in catalog order |
| Booker.FlightBookingApp.constructor | flightbooker_ver6.py:28-42 | the app starts on the login page with no user, no draft and no bookings |
| Booker.FlightBookingApp.LoadBookings | flightbooker_ver6.py:63-80 | the new bookings and the outcome are those of the ver6 load rule on the file |
| Booker.FlightBookingApp.SaveBooking | flightbooker_ver6.py:83-104 | the new map is the ver6 save rule; the file and the outcome are those of writing it; a failed open is swallowed |
| Booker.FlightBookingApp.Login | flightbooker_ver6.py:170-190 | the user is recorded and the bookings loaded; after a load that did not raise the user's bookings hold no date text; Home is shown iff neither loading nor drawing the bookings page raised |
| Booker.FlightBookingApp.Navigate | flightbooker_ver6.py:124-130 | a navigation button shows its page and keeps the invariant |
| Booker.FlightBookingApp.SelectFlight | flightbooker_ver6.py:548-554 | the chosen catalog record becomes the draft and gets the date text and its price as the fare |
| Booker.FlightBookingApp.SelectClass | flightbooker_ver6.py:636-656 | nothing changes unless both selections are made; otherwise the draft gets the fare-priced class write and the passenger page is shown |
| Booker.FlightBookingApp.PassengerStep | flightbooker_ver6.py:684-717 | the passenger check against the draft's ticket; nothing changes on failure; on success the date object, name and age are written and the card page is shown |
| Booker.FlightBookingApp.CardStep | flightbooker_ver6.py:784-807 | only the page can change (no card data is stored); an empty field is reported first, then a bad card number, then a bad expiry, then a bad CVC, each iff the earlier checks pass; the card page is left iff all pass |
| Booker.FlightBookingApp.ContactStep | flightbooker_ver6.py:893-917 | the contact check; nothing changes on failure; on success the three keys are written and the confirmation is shown |
| Booker.FlightBookingApp.SaveDraft | flightbooker_ver6.py:972-996 | the record built from the draft exists and is saved by the ver6 rule for the current user; the write never fails for lack of JSON; the store invariant is kept |
| Booker.FlightBookingApp.Finish | flightbooker_ver6.py:972-1112 | the record is built and saved by the ver6 rule; the write never fails for lack of JSON; the email is sent iff the address matches and neither the images nor the connection raise; Home is shown unless such an error ends the email thread |
| BookerVer5.FlightBookingAppVer5.constructor | flightbooker_ver5.py:23-34 | the app starts on the login page with no draft; the absent user and the empty bookings map stand for `current_username` and `bookings`, which this version sets only at login |
| BookerVer5.FlightBookingAppVer5.LoadBookings | flightbooker_ver5.py:53-63 | the new bookings are those of the ver5 load rule on the file |
| BookerVer5.FlightBookingAppVer5.Login | flightbooker_ver5.py:140-157 | the user is recorded, the bookings loaded by the ver5 rule, and Home is shown |
| BookerVer5.FlightBookingAppVer5.SaveBooking | flightbooker_ver5.py:66-78 | the new map is the ver5 save rule; the file and the outcome are those of writing it |
| BookerVer5.FlightBookingAppVer5.Finish | flightbooker_ver5.py:715-843 | the record is appended in memory in every case; a failed open leaves the confirmation page on show with no email; otherwise the email is sent iff the address matches and neither the images nor the connection raise, and Home is shown unless such an error ends the email thread |
| BookerVer4.SameFinalPriceAsLater | flightbooker_ver4.py:374-375 | ver4's price from `price` equals the later versions' price from the copied `fare` |
| BookerVer4.FlightBookingAppVer4.constructor | flightbooker_ver4.py:14-24 | the app starts on the login page with no draft |
| BookerVer4.FlightBookingAppVer4.Navigate | flightbooker_ver4.py:56-62 | a navigation button shows its page |
| BookerVer4.FlightBookingAppVer4.Login | flightbooker_ver4.py:104-119 | Home is shown iff the credentials match |
| BookerVer4.FlightBookingAppVer4.SelectFlight | flightbooker_ver4.py:289-291 | the chosen catalog record becomes the draft, unchanged |
| BookerVer4.FlightBookingAppVer4.SelectClass | flightbooker_ver4.py:365-381 | nothing changes unless both selections are made; otherwise the draft gets the `price`-priced class write |
| BookerVer4.FlightBookingAppVer4.PassengerStep | flightbooker_ver4.py:409-426 | the ver4 passenger check; only the page changes (to the confirmation on success) |
| BookerVer4.FlightBookingAppVer4.Finish | flightbooker_ver4.py:470-472 | nothing is stored; Home is shown |
| BookerVer3.Endpoints | flightbooker_ver3.py:182 | a text is listed iff it is some flight's origin or destination |
| BookerVer3.LoadLocations | flightbooker_ver3.py:174-184 | no list iff there is no file; otherwise strictly sorted, and exactly the origins and destinations |
| BookerVer3.LocationsDependOnPlacesOnly | flightbooker_ver3.py:182 | catalogs naming the same places give the same list |
| BookerVer3.FilterByGet | flightbooker_ver3.py:199-203 | every result has the two texts as its origin and destination |
| BookerVer3.FilterByGetMembers | flightbooker_ver3.py:199-203 | found iff in the file and both `.get` comparisons hold, so a flight missing a key is never found |
| BookerVer3.FilterByGetIsFilterRoute | flightbooker_ver3.py:199-203 | on a well-formed catalog this filter is the later versions' filter, in the same order |
| BookerVer3.SearchFile | flightbooker_ver3.py:187-203 | no result iff there is no file; there is no guard on empty texts |
| BookerVer3.SearchAgreesWithLater | flightbooker_ver3.py:187-203 | wherever ver6 searches, ver3 finds the same flights, and ver3 also searches where ver6 refuses |
| BookerVer3.ConfirmBooking | flightbooker_ver3.py:255-285 | empty name or age first, then no flight (None or empty), and confirmed iff every summary field is present |
| BookerVer3.AnyAgeTextConfirms | flightbooker_ver3.py:255-263 | the age is never parsed: any non-empty text confirms |
| BookerVer3.FlightBookingAppVer3.constructor | flightbooker_ver3.py:288-291 | the app starts on the login page with no selected flight, and the location boxes hold the loaded list (empty without a file) |
| BookerVer3.FlightBookingAppVer3.Navigate | flightbooker_ver3.py:253 | a navigation button shows its page; the booking page's Back leaves the page unchanged |
| BookerVer3.FlightBookingAppVer3.Login | flightbooker_ver3.py:74-89 | Home is shown iff the credentials match |
| BookerVer3.FlightBookingAppVer3.SearchFlights | flightbooker_ver3.py:187-228 | the results are the search of the file as found; without a file they stay as they were |
| BookerVer3.FlightBookingAppVer3.SelectFlight | flightbooker_ver3.py:230-232 | the chosen result becomes the selected flight and the booking page is shown |
| BookerVer3.FlightBookingAppVer3.ConfirmBookingStep | flightbooker_ver3.py:255-285 | the outcome of the booking check; Home is shown iff it is confirmed |

## Left out

- Widgets, layout, message boxes, the wait popup, images, logos and QR codes. Each method states only which page is shown after it.
- Registration and the credential files, including `sha256`. The ver4 and ver3 Login methods take the result of the credential comparison as a parameter. The ver6 and ver5 Login methods model only the branch where the credentials match: a mismatch or a missing credentials file shows an error and changes no modelled state.
- Reading and writing files. The flights file is the `flights` catalog (ver6, ver5, ver4) or a `FlightsFile` (ver3). The bookings file is a `BookingsFile`, and whether it can be opened for writing is a parameter.
- The lock in `save_booking`, and the thread that sends the email. The model runs each button to completion.
- SMTP, base64 images and the HTML email body. The model keeps the address check and, as the parameter `sendRaises`, whether reading the images or opening the connection raises an error other than an SMTP one. The outcome of the SMTP exchange itself is not modelled: an SMTP error is caught and reported, and Home is shown as after a sent email.
- `datetime.now()` and the date widget. Both are parameters.
- Floating point. Prices are exact `real`s, and `:.2f` formatting is not modelled.
- Python's non-ASCII behaviour:
  - `str.isdigit` and `\d` accept non-ASCII digits;
  - `str.title` handles non-ASCII letters;
  - `fromisoformat` (Python 3.11+) also accepts forms other than YYYY-MM-DD.
  The model uses ASCII and YYYY-MM-DD only.
- Booker.FlightBookingApp.constructor: requires every catalog entry to have string `origin` and `destination` and a numeric `price`. The source would raise KeyError or TypeError on other shapes while drawing or pricing. A missing flights file is the empty catalog.
- BookerVer4.FlightBookingAppVer4.constructor: requires the same catalog shape.
- BookerVer3.LoadLocations: requires string `origin` and `destination` in every flight. The source raises KeyError on a flight without them, or TypeError when sorting mixed types.
- BookingsPage.SortBookingsSortedPermutation: requires every sort key to be a string, or every key to be a date. The source raises TypeError on a mix.
- Store.Loaded6HasUser: bookings files whose user entries are not lists of dicts are not modelled. A `Bookings` map always holds lists of dicts.
- Wizard.BookingRecord: writes the date with a four-digit year. `strftime("%Y")` may write years below 1000 without zero padding.
- Wizard.WithFlight, Wizard.WithFlightStage and Booker.FlightBookingApp.SelectFlight: write the date text of `select_flight` (flightbooker_ver6.py:552) with a four-digit year, with the same caveat for years below 1000.
- BookerVer3.FlightBookingAppVer3.SearchFlights: drawing the results indexes `flight_number`, `price` and other fields. A missing key there leaves a partly drawn list. The model replaces the results as a whole.
- BookerVer5.FlightBookingAppVer5.Finish: after a failed open, the wait popup stays on screen, holding the input grab. This is not modelled.
- The statement after `return` in `luhn_algorithm` (flightbooker_ver6.py:846) cannot run, and is not modelled.
- Drawing the bookings page (`display_bookings`): its ordering, day suffix and the errors it can raise are modelled in `BookingsPage`, and the login decides its page by them. Opening the logo image files is not modelled: `BookingsPage.DisplayRaises` counts only the KeyError of a found flight without `logo`.
- Booker.FlightBookingApp.Finish: the refresh of the bookings page after the email thread has started (flightbooker_ver6.py:1002) changes no modelled state; an error it raises is not modelled.
- Payment.ExpiryAccepted: Python's `$` also matches before a final newline, so a month or year followed by one newline passes the source's check (`int("05\n")` is 5); the model accepts no trailing newline.
- Payment.CvcAccepted: likewise a CVC of three or four digits followed by one newline passes the source's check and is refused by the model.
- Payment.CheckCardDetails: a card number ending in a newline passes the digit pattern and then makes `int()` in the Luhn loop raise ValueError; the model refuses it as an invalid card number.
