/** Decimal numbers as text: what `std::to_string` prints and `std::from_chars` reads. */
module Decimals {
  import opened Wrappers

  predicate Digit(c: char) { '0' <= c <= '9' }

  predicate AllDigits(s: string) { forall i :: 0 <= i < |s| ==> Digit(s[i]) }

  function Decimal(s: string): nat
    requires AllDigits(s)
  {
    if s == "" then 0 else 10 * Decimal(s[..|s| - 1]) + (s[|s| - 1] as int - '0' as int)
  }

  /** `std::to_string`. */
  function Printed(n: nat): (s: string)
    ensures s != "" && AllDigits(s) && Decimal(s) == n && (s[0] == '0' ==> s == "0")
  {
    var digit := [(n % 10 + '0' as int) as char];
    if n < 10 then
      assert digit[..0] == "";
      digit
    else
      assert (Printed(n / 10) + digit)[..|Printed(n / 10)|] == Printed(n / 10);
      Printed(n / 10) + digit
  }

  lemma {:induction false} DecimalGrows(s: string, i: nat)
    requires AllDigits(s) && i <= |s|
    ensures Decimal(s[..i]) <= Decimal(s)
    decreases |s|
  {
    if i < |s| {
      DecimalGrows(s[..|s| - 1], i);
      assert s[..|s| - 1][..i] == s[..i];
    } else {
      assert s[..i] == s;
    }
  }

  /** `from_chars` over the whole of a non-empty text without a sign: None for anything but digits and
      for a value that does not fit. */
  method FromChars(raw: string, greatest: nat) returns (r: Option<nat>)
    requires raw != ""
    ensures r == if AllDigits(raw) && Decimal(raw) <= greatest then Some(Decimal(raw)) else None
  {
    var value, i := 0, 0;
    while i < |raw| && Digit(raw[i])
      invariant 0 <= i <= |raw| && AllDigits(raw[..i]) && value == Decimal(raw[..i]) <= greatest
    {
      assert raw[..i + 1][..i] == raw[..i];
      var next := 10 * value + (raw[i] as int - '0' as int);
      assert next == Decimal(raw[..i + 1]);
      if next > greatest {
        if AllDigits(raw) { DecimalGrows(raw, i + 1); }
        return None;
      }
      value := next;
      i := i + 1;
    }
    if i < |raw| { return None; }
    assert raw[..i] == raw;
    r := Some(value);
  }
}
