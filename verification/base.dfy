/**
  Values shared by every module: optional values, the identifiers that the
  store receives from the server, and JavaScript's `String(...)` coercion of
  those identifiers.
*/
module Base {

  /** A JavaScript value that may be `undefined`/`null` (None) or present (Some). */
  datatype Option<+T> = None | Some(value: T) {
    /** `value ?? default`: the value when present, otherwise the default. */
    function GetOr(default: T): T {
      match this
      case Some(v) => v
      case None => default
    }
  }

  /**
    An identifier as it arrives from the server or from a URL: either a
    string or a number. The two forms can denote the same entity, which is
    why most of the store compares identifiers through `Norm`.
  */
  datatype Key = Str(s: string) | Num(n: int)

  function DigitChar(d: nat): (c: char)
    requires d < 10
    ensures '0' <= c <= '9'
  {
    "0123456789"[d]
  }

  /** Decimal notation of a natural number, as `String(n)` writes it. */
  function ShowNat(n: nat): (r: string)
    ensures |r| >= 1
    ensures forall i :: 0 <= i < |r| ==> '0' <= r[i] <= '9'
    ensures n < 10 <==> |r| == 1
    decreases n
  {
    if n < 10 then [DigitChar(n)] else ShowNat(n / 10) + [DigitChar(n % 10)]
  }

  /** Decimal notation of an integer, with a leading '-' when negative. */
  function ShowInt(n: int): (r: string)
    ensures |r| >= 1
    ensures r[0] == '-' <==> n < 0
  {
    if n < 0 then "-" + ShowNat(-n) else ShowNat(n)
  }

  /** `String(k)`: the text form an identifier is compared by. */
  function Norm(k: Key): (r: string)
    ensures k.Str? ==> r == k.s
    ensures k.Num? ==> |r| >= 1
  {
    match k
    case Str(s) => s
    case Num(n) => ShowInt(n)
  }

  /** `String(x)` for an identifier that may be missing: `String(undefined)` is "undefined". */
  function NormOpt(k: Option<Key>): string {
    match k
    case Some(v) => Norm(v)
    case None => "undefined"
  }

  /** `x?.toString()`: the text form, or `undefined` when the identifier is missing. */
  function NormMaybe(k: Option<Key>): (r: Option<string>)
    ensures r.Some? <==> k.Some?
  {
    match k
    case Some(v) => Some(Norm(v))
    case None => None
  }

  /** Identifier equality after `String(...)` coercion on both sides. */
  predicate SameId(a: Key, b: Key) {
    Norm(a) == Norm(b)
  }

  /** JavaScript truthiness of an identifier: "" and 0 are falsy. */
  predicate Truthy(k: Key) {
    match k
    case Str(s) => s != ""
    case Num(n) => n != 0
  }

  /**
    The numeric id 42 and the string id "42" are different values but the
    same identifier after coercion: a store lookup by one finds the other.
  */
  lemma NumericAndStringIdsCoincide()
    ensures Num(42) != Str("42")
    ensures SameId(Num(42), Str("42"))
  {
    assert ShowNat(4) == "4";
    assert ShowNat(42) == ShowNat(4) + [DigitChar(2)];
  }
}
