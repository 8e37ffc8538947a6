/**
 * The values the booking app keeps in its Python dicts: strings, ints, floats
 * (modelled as exact reals) and `datetime.date` objects; a dict with string
 * keys; and a dict held by reference, as the flight catalog entries are.
 */
module Records {
  import Dates

  type ValidDate = d: Dates.Date | Dates.Valid(d) witness Dates.Date(1, 1, 1)

  datatype Value = Str(s: string) | Int(i: int) | Num(r: real) | DateVal(d: ValidDate)

  type Dict = map<string, Value>

  predicate IsNumber(v: Value)
  {
    v.Int? || v.Num?
  }

  function AsReal(v: Value): real
    requires IsNumber(v)
  {
    if v.Int? then v.i as real else v.r
  }

  /** `d.get(key, default)`. */
  function Get(d: Dict, key: string, default: Value): (v: Value)
    ensures key in d ==> v == d[key]
    ensures key !in d ==> v == default
  {
    if key in d then d[key] else default
  }

  /** A dict that other parts of the program can hold a reference to and update in place. */
  class Record {
    var fields: Dict

    constructor (fields: Dict)
      ensures this.fields == fields
    {
      this.fields := fields;
    }
  }
}
