/**
 * JSON values as handlers see them after `JSON.parse`, and the small text
 * helpers the handlers use to build messages.
 */
module JsonValues {

  /** A parsed JSON value. Numbers are exact reals; no floating-point rounding is modelled. */
  datatype Json =
    | JNull
    | JBool(b: bool)
    | JNum(n: real)
    | JStr(s: string)
    | JArr(items: seq<Json>)
    | JObj(fields: map<string, Json>)

  /** A JSON object's members, the shape of every stored item. */
  type Record = map<string, Json>

  /** The body `{ error: message }` that every failing response carries. */
  function ErrorBody(message: string): (j: Json)
    ensures j.JObj? && j.fields.Keys == {"error"} && j.fields["error"] == JStr(message)
  {
    JObj(map["error" := JStr(message)])
  }

  function DigitChar(d: nat): (c: char)
    requires d < 10
    ensures '0' <= c <= '9'
  {
    ['0', '1', '2', '3', '4', '5', '6', '7', '8', '9'][d]
  }

  function DigitValue(c: char): (d: nat)
    requires '0' <= c <= '9'
    ensures d < 10
  {
    (c as int - '0' as int) as nat
  }

  /** The decimal text of `n`, as a template literal `${n}` renders a non-negative integer. */
  function Decimal(n: nat): (s: string)
    decreases n
  {
    if n < 10 then [DigitChar(n)] else Decimal(n / 10) + [DigitChar(n % 10)]
  }

  /** Reads decimal text back; the inverse of Decimal. */
  function ParseDecimal(s: string): nat
    requires forall i :: 0 <= i < |s| ==> '0' <= s[i] <= '9'
    decreases |s|
  {
    if s == [] then 0 else 10 * ParseDecimal(s[..|s| - 1]) + DigitValue(s[|s| - 1])
  }

  lemma DigitRoundTrip(d: nat)
    requires d < 10
    ensures DigitValue(DigitChar(d)) == d
  {
  }

  /** Decimal text is non-empty, made of digits only, and reads back as the number it renders. */
  lemma {:induction false} DecimalRoundTrip(n: nat)
    ensures |Decimal(n)| > 0
    ensures forall i :: 0 <= i < |Decimal(n)| ==> '0' <= Decimal(n)[i] <= '9'
    ensures ParseDecimal(Decimal(n)) == n
    decreases n
  {
    if n < 10 {
      DigitRoundTrip(n);
    } else {
      DecimalRoundTrip(n / 10);
      var s := Decimal(n);
      assert s[..|s| - 1] == Decimal(n / 10);
      DigitRoundTrip(n % 10);
    }
  }

  /** Two indices never render to the same text, so an index suffix names exactly one item. */
  lemma DecimalInjective(i: nat, j: nat)
    requires Decimal(i) == Decimal(j)
    ensures i == j
  {
    DecimalRoundTrip(i);
    DecimalRoundTrip(j);
  }

  /**
   * `parts.join(separator)`. The handlers join the details of one validation
   * error with "; ". Joi stops at the first error by default, so there is
   * only ever one detail, and the contract states the zero- and one-detail
   * joins; the joined case for two or more is never reached.
   */
  function Join(parts: seq<string>, separator: string): (s: string)
    ensures |parts| == 1 ==> s == parts[0]
    ensures parts == [] ==> s == ""
  {
    if parts == [] then ""
    else if |parts| == 1 then parts[0]
    else parts[0] + separator + Join(parts[1..], separator)
  }
}
