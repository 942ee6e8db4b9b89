/** The wire form of a stored record, one level above bytes: the JSON value the bytes parse to,
    and the error texts Go's `encoding/json` produces when a value does not fit its target.
    Lexing, escaping and number syntax are below this model; numbers are integer literals. */
module Json {

  datatype Json =
    | JString(s: string)
    | JNumber(n: int)
    | JBool(b: bool)
    | JNull
    | JArray(items: seq<Json>)
    | JObject(members: seq<Member>)

  /** One `"name": value` pair of an object, kept in document order. */
  datatype Member = Member(name: string, value: Json)

  /** The bytes handed to a decoder: not JSON at all (carrying the syntax complaint), or one value. */
  datatype Wire = Invalid(complaint: string) | Valid(json: Json)

  /** The word `encoding/json` uses for the kind of a value in its type-mismatch messages. */
  function Kind(j: Json): string
  {
    match j
    case JString(_) => "string"
    case JNumber(_) => "number"
    case JBool(_) => "bool"
    case JNull => "null"
    case JArray(_) => "array"
    case JObject(_) => "object"
  }

  /** Why an unmarshal failed. A field mismatch names the Go struct and field it was aimed at;
      a value mismatch is the whole document not fitting the target type. */
  datatype DecodeError =
    | SyntaxError(complaint: string)
    | FieldTypeError(value: string, structName: string, field: string, goType: string)
    | ValueTypeError(value: string, goType: string)

  /** The text of `Error()` for each kind of unmarshal failure. */
  function ErrorText(e: DecodeError): string
  {
    match e
    case SyntaxError(c) => c
    case FieldTypeError(v, s, f, t) =>
      "json: cannot unmarshal " + v + " into Go struct field " + s + "." + f + " of type " + t
    case ValueTypeError(v, t) => "json: cannot unmarshal " + v + " into Go value of type " + t
  }

  /** Decimal text of an integer literal, as it appears in an out-of-range message. */
  function Decimal(n: int): string
  {
    if n < 0 then "-" + NatDecimal(-n) else NatDecimal(n)
  }

  function NatDecimal(n: nat): string
    decreases n
  {
    var digit := ["0123456789"[n % 10]];
    if n < 10 then digit else NatDecimal(n / 10) + digit
  }
}
