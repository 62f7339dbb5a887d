/**
 * The conversion adapter of api/routers/expenses.py: currency codes, the
 * upper-casing applied to user input, and convert_currency over a rate table
 * that is passed in as a function.
 */
module Currency {
  import opened Results
  import opened Errors

  type Code = string

  /**
   * The foreign rate table: the converted amount, or None where the library
   * raises (an unknown code, a missing rate).
   */
  type Converter = (real, Code, Code) -> Option<real>

  function UpperChar(c: char): (u: char)
    ensures 'a' <= c <= 'z' ==> u as int == c as int - 32
    ensures !('a' <= c <= 'z') ==> u == c
  {
    if 'a' <= c <= 'z' then (c as int - 32) as char else c
  }

  /** str.upper() restricted to ASCII letters. */
  function Upper(s: string): (r: string)
    ensures |r| == |s|
    ensures forall i :: 0 <= i < |s| ==> r[i] == UpperChar(s[i])
    ensures forall i :: 0 <= i < |r| ==> !('a' <= r[i] <= 'z')
  {
    seq(|s|, i requires 0 <= i < |s| => UpperChar(s[i]))
  }

  /**
   * convert_currency: identity on equal codes without asking the rate table;
   * otherwise the table's answer, and its failure becomes ConversionFailed.
   */
  function Convert(rates: Converter, amount: real, from: Code, to: Code): (r: Result<real, Error>)
    ensures from == to ==> r == Ok(amount)
    ensures from != to ==> (r.Ok? <==> rates(amount, from, to).Some?)
    ensures from != to && r.Ok? ==> r.value == rates(amount, from, to).value
    ensures r.Err? ==> r.error == ConversionFailed
  {
    if from == to then Ok(amount)
    else match rates(amount, from, to)
      case Some(v) => Ok(v)
      case None => Err(ConversionFailed)
  }

  /** Equal codes never consult the rate table: any two tables agree. */
  lemma SameCodeIgnoresRates(r1: Converter, r2: Converter, amount: real, c: Code)
    ensures Convert(r1, amount, c, c) == Convert(r2, amount, c, c) == Ok(amount)
  {
  }
}
