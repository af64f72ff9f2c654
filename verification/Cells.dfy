/** CSV cells: `_cell` of `ssat/report/exporter.py`, and the cell parsers of `ssat/report/labels.py`. */
module Cells {
  import opened Prelude

  predicate IsDigit(c: char) { '0' <= c <= '9' }

  function DigitValue(c: char): nat
    requires IsDigit(c)
  {
    c as int - '0' as int
  }

  function PrintNat(n: nat): string {
    if n < 10 then ["0123456789"[n]] else PrintNat(n / 10) + ["0123456789"[n % 10]]
  }

  /** `str(n)`. */
  function PrintInt(n: int): string {
    if n < 0 then "-" + PrintNat(-n) else PrintNat(n)
  }

  function ParseNat(s: string): Option<nat> {
    if s == "" || !IsDigit(s[|s| - 1]) then None
    else
      var last := DigitValue(s[|s| - 1]);
      if |s| == 1 then Some(last)
      else
        var front := ParseNat(s[..|s| - 1]);
        if front.None? then None else Some(10 * front.value + last)
  }

  function Signed(negative: bool, digits: Option<nat>): Option<int> {
    if digits.None? then None else if negative then Some(0 - digits.value) else Some(digits.value)
  }

  /** `int(raw)` on an optional sign and ASCII digits; `None` for `ValueError`. */
  function ParseInt(raw: string): Option<int> {
    if raw != "" && (raw[0] == '-' || raw[0] == '+') then Signed(raw[0] == '-', ParseNat(raw[1..]))
    else Signed(false, ParseNat(raw))
  }

  /** What a reader reports on a malformed cell. */
  datatype CellError = BadInt(raw: string) | BadBool(raw: string)

  /** `None` becomes the empty cell. */
  function IntCell(value: Option<int>): string {
    if value.None? then "" else PrintInt(value.value)
  }

  function BoolCell(value: Option<bool>): string {
    if value.None? then "" else if value.value then "True" else "False"
  }

  /** `_parse_optional_int`. */
  function ParseOptionalInt(raw: string): Result<Option<int>, CellError> {
    if raw == "" then Ok(None)
    else if ParseInt(raw).None? then Err(BadInt(raw))
    else Ok(Some(ParseInt(raw).value))
  }

  /** `_parse_optional_bool`. */
  function ParseOptionalBool(raw: string): Result<Option<bool>, CellError> {
    if raw == "" then Ok(None)
    else if raw == "True" then Ok(Some(true))
    else if raw == "False" then Ok(Some(false))
    else Err(BadBool(raw))
  }

  lemma {:induction false} ParsePrintedNat(n: nat)
    ensures ParseNat(PrintNat(n)) == Some(n)
    ensures PrintNat(n) != "" && IsDigit(PrintNat(n)[0])
  {
    DigitsParse(n % 10);
    if n >= 10 {
      ParsePrintedNat(n / 10);
      var s := PrintNat(n);
      assert s[..|s| - 1] == PrintNat(n / 10);
    }
  }

  lemma DigitsParse(d: nat)
    requires d < 10
    ensures var c := "0123456789"[d]; IsDigit(c) && DigitValue(c) == d
  {
  }

  lemma ParseNegated(digits: string)
    ensures ParseInt("-" + digits) == Signed(true, ParseNat(digits))
  {
    assert ("-" + digits)[1..] == digits;
  }

  lemma ParsePrintedInt(n: int)
    ensures ParseInt(PrintInt(n)) == Some(n) && PrintInt(n) != ""
  {
    if n < 0 {
      ParsePrintedNat(-n);
      ParseNegated(PrintNat(-n));
    } else {
      ParsePrintedNat(n);
    }
  }

  /** Printing an optional integer and parsing the cell loses nothing. */
  lemma IntCellRoundTrip(value: Option<int>)
    ensures ParseOptionalInt(IntCell(value)) == Ok(value)
  {
    if value.Some? { ParsePrintedInt(value.value); }
  }

  /** A boolean cell parses exactly when it was printed, and back to the value that printed it. */
  lemma BoolCellsExactly(raw: string, value: Option<bool>)
    ensures ParseOptionalBool(raw) == Ok(value) <==> raw == BoolCell(value)
  {
    assert "True"[0] != "False"[0];
  }
}
