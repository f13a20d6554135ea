/** SQL values and three-valued logic (ISO/IEC 9075:1992, section 8.12). */
module Values {

  /** `Null` doubles as the truth value "unknown". */
  datatype Value = Null | Number(n: int) | Text(s: string) | Truth(b: bool)

  type Row = map<string, Value>

  const TRUE := Truth(true)
  const FALSE := Truth(false)

  predicate Holds(v: Value) {
    v == TRUE
  }

  function Equal(a: Value, b: Value): Value {
    if a.Null? || b.Null? then Null else Truth(a == b)
  }

  function And(a: Value, b: Value): Value {
    if a == FALSE || b == FALSE then FALSE
    else if a == TRUE && b == TRUE then TRUE
    else Null
  }

  function Or(a: Value, b: Value): Value {
    if a == TRUE || b == TRUE then TRUE
    else if a == FALSE && b == FALSE then FALSE
    else Null
  }

  function Not(a: Value): Value {
    match a
    case Truth(b) => Truth(!b)
    case _ => Null
  }

  /** `x IN (c0, c1, ...)`: true on a match, unknown when only a NULL could match. */
  function Among(x: Value, candidates: seq<Value>): Value {
    if |candidates| == 0 then FALSE
    else Or(Equal(x, candidates[0]), Among(x, candidates[1..]))
  }
}
