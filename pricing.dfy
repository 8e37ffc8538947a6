/**
 * The fare rules of the seat-class page: a price multiplier per cabin class and
 * per ticket type, the price list shown beside the class buttons, and the
 * final price committed when the passenger continues.
 */
module Pricing {
  import opened Util

  datatype CabinClass = FirstClass | BusinessClass | PremiumEconomy | Economy

  datatype TicketType = Child | Adult

  /** The class buttons, in the order the page lists them. */
  const ClassOptions: seq<CabinClass> := [FirstClass, BusinessClass, PremiumEconomy, Economy]

  function ClassLabel(c: CabinClass): string
  {
    match c
    case FirstClass => "First Class"
    case BusinessClass => "Business Class"
    case PremiumEconomy => "Premium Economy"
    case Economy => "Economy"
  }

  function TicketLabel(t: TicketType): string
  {
    match t
    case Child => "Child (under 13)"
    case Adult => "Adult (13+)"
  }

  /** The class whose radio button carries `text`, if any. */
  function ClassOfLabel(text: string): Option<CabinClass>
  {
    if text == "First Class" then Some(FirstClass)
    else if text == "Business Class" then Some(BusinessClass)
    else if text == "Premium Economy" then Some(PremiumEconomy)
    else if text == "Economy" then Some(Economy)
    else None
  }

  /** The ticket type whose radio button carries `text`, if any. */
  function TicketOfLabel(text: string): Option<TicketType>
  {
    if text == "Child (under 13)" then Some(Child)
    else if text == "Adult (13+)" then Some(Adult)
    else None
  }

  /** Labels and selections determine each other; the empty selection names nothing. */
  lemma LabelsRoundTrip(c: CabinClass, t: TicketType, text: string)
    ensures ClassOfLabel(ClassLabel(c)) == Some(c)
    ensures TicketOfLabel(TicketLabel(t)) == Some(t)
    ensures ClassOfLabel(text) == Some(c) ==> ClassLabel(c) == text
    ensures TicketOfLabel(text) == Some(t) ==> TicketLabel(t) == text
    ensures ClassOfLabel("") == None && TicketOfLabel("") == None
  {
  }

  function ClassMultiplier(c: CabinClass): real
  {
    match c
    case FirstClass => 3.5
    case BusinessClass => 2.5
    case PremiumEconomy => 1.75
    case Economy => 1.0
  }

  function TicketMultiplier(t: TicketType): real
  {
    match t
    case Child => 0.5
    case Adult => 1.0
  }

  /** `fare * class_multiplier * ticket_type_multiplier`, evaluated left to right. */
  function FinalPrice(fare: real, c: CabinClass, t: TicketType): real
  {
    fare * ClassMultiplier(c) * TicketMultiplier(t)
  }

  /** A child ticket costs exactly half the adult ticket in the same class. */
  lemma ChildIsHalfAdult(fare: real, c: CabinClass)
    ensures FinalPrice(fare, c, Child) * 2.0 == FinalPrice(fare, c, Adult)
  {
  }

  /** An economy adult pays the base fare; every other combination is a fixed multiple of it. */
  lemma PriceIsMultipleOfFare(fare: real, c: CabinClass, t: TicketType)
    ensures FinalPrice(fare, FirstClass, Adult) == fare * 3.5
    ensures FinalPrice(fare, Economy, Adult) == fare
    ensures FinalPrice(fare, c, t) == fare * (ClassMultiplier(c) * TicketMultiplier(t))
    ensures 0.5 <= ClassMultiplier(c) * TicketMultiplier(t) <= 3.5
  {
  }

  /** For a positive fare the classes are strictly ordered by price, First dearest, Economy cheapest. */
  lemma ClassesOrderedByPrice(fare: real, t: TicketType, i: nat, j: nat)
    requires fare > 0.0 && i < j < |ClassOptions|
    ensures FinalPrice(fare, ClassOptions[i], t) > FinalPrice(fare, ClassOptions[j], t)
  {
    var a, b := ClassMultiplier(ClassOptions[i]), ClassMultiplier(ClassOptions[j]);
    assert a > b;
    assert fare * a > fare * b;
  }

  /**
   * The prices written beside the class buttons: for each class, the fare
   * times its multiplier times the chosen ticket type's, Adult when no
   * ticket type is chosen yet.
   */
  function ShownClassPrices(fare: real, ticket: Option<TicketType>): (prices: seq<real>)
    ensures |prices| == |ClassOptions|
  {
    var t := if ticket.Some? then ticket.value else Adult;
    seq(|ClassOptions|, i requires 0 <= i < |ClassOptions| => fare * ClassMultiplier(ClassOptions[i]) * TicketMultiplier(t))
  }

  /**
   * The price shown beside a class is the price charged for it once the ticket
   * type is chosen, and before that the Adult price is shown.
   */
  lemma ShownPriceIsChargedPrice(fare: real, t: TicketType, i: nat)
    requires i < |ClassOptions|
    ensures ShownClassPrices(fare, Some(t))[i] == FinalPrice(fare, ClassOptions[i], t)
    ensures ShownClassPrices(fare, None)[i] == FinalPrice(fare, ClassOptions[i], Adult)
    ensures ShownClassPrices(fare, None) == ShownClassPrices(fare, Some(Adult))
  {
  }

  /** A 500.00 fare in Business costs 1250.00 for an adult and 625.00 for a child. */
  lemma PriceExample()
    ensures FinalPrice(500.0, BusinessClass, Adult) == 1250.0
    ensures FinalPrice(500.0, BusinessClass, Child) == 625.0
    ensures FinalPrice(200.0, PremiumEconomy, Child) == 175.0
  {
  }
}
