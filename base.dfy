/**
 * Shared vocabulary: optional values, the outcome of a JavaScript call that
 * either returns or throws, the answer of a `fetch` as seen by the SDK, the
 * truthiness rules the TypeScript code relies on, and the decimal rendering
 * that template literals apply to integers.
 */
module Base {

  datatype Option<+T> = None | Some(value: T) {
    function GetOr(default: T): T {
      match this
      case Some(v) => v
      case None => default
    }
  }

  /** A call that returns `value`, or throws an `Error` carrying `message`. */
  datatype Outcome<+T> = Returned(value: T) | Thrown(message: string)

  /**
   * What a `fetch` gives back: a response with `ok` set and a parsed body, a
   * response with `ok` unset, or an exception (network failure, unreadable
   * body).
   */
  datatype Response<+B> =
    | Ok(body: B)
    | NotOk(status: int, statusText: string, text: string)
    | Throws(message: string)

  /** JavaScript truthiness of a `string | null | undefined`: absent and "" are falsy. */
  predicate Truthy(s: Option<string>) {
    s.Some? && s.value != ""
  }

  /** `a || b` on two optional strings. */
  function OrElse(a: Option<string>, b: Option<string>): (r: Option<string>)
    ensures Truthy(a) ==> r == a
    ensures !Truthy(a) ==> r == b
  {
    if Truthy(a) then a else b
  }

  /** `${s}` in a template literal, where an absent value prints as "undefined". */
  function Interpolate(s: Option<string>): string {
    if s.Some? then s.value else "undefined"
  }

  /** `m[k]` on a string dictionary, absent keys giving `undefined`. */
  function Lookup<K, V>(m: map<K, V>, k: K): Option<V> {
    if k in m then Some(m[k]) else None
  }

  // ---------------------------------------------------------------------
  // Decimal rendering of integers, as `${n}` prints them
  // ---------------------------------------------------------------------

  predicate IsDigit(c: char) {
    '0' <= c <= '9'
  }

  predicate AllDigits(s: string) {
    forall i :: 0 <= i < |s| ==> IsDigit(s[i])
  }

  function DigitChar(d: int): (c: char)
    requires 0 <= d < 10
    ensures IsDigit(c) && c as int - '0' as int == d
  {
    ['0', '1', '2', '3', '4', '5', '6', '7', '8', '9'][d]
  }

  /** Decimal digits of `n`, most significant first, without leading zeros. */
  function NatToString(n: nat): (s: string)
    ensures |s| >= 1 && AllDigits(s)
    ensures s[0] == '0' ==> n == 0
  {
    if n < 10 then [DigitChar(n)] else NatToString(n / 10) + [DigitChar(n % 10)]
  }

  /** `${i}` for an integer `i`. */
  function IntToString(i: int): string {
    if i < 0 then "-" + NatToString(-i) else NatToString(i)
  }

  /** The value of a string of decimal digits; the partner of NatToString. */
  function DigitsValue(s: string): nat {
    if s == [] then 0 else DigitsValue(s[..|s| - 1]) * 10 + DigitValue(s[|s| - 1])
  }

  /** The value of one decimal digit; a character that is not a digit counts as 0. */
  function DigitValue(c: char): nat {
    if IsDigit(c) then c as int - '0' as int else 0
  }

  /** Reading back the digits `${n}` prints gives `n`. */
  lemma {:induction false} DigitsValueOfNatToString(n: nat)
    ensures DigitsValue(NatToString(n)) == n
  {
    var s := NatToString(n);
    if n >= 10 {
      DigitsValueOfNatToString(n / 10);
      assert s[..|s| - 1] == NatToString(n / 10);
    }
  }
}
