/**
 * The parts of the .NET string library that the scraper and the controller
 * rely on: `char.IsWhiteSpace`, `string.IsNullOrWhiteSpace`, `Trim`,
 * `Split` with `RemoveEmptyEntries | TrimEntries`, `Contains(char)` and
 * `int.TryParse` (without overflow).
 */
module Text {
  import opened Wrappers

  /** `char.IsWhiteSpace`: the Unicode separators, tab to carriage return, NEL. */
  predicate IsWhiteSpace(c: char) {
    || ('\t' <= c <= '\r')
    || c == ' '
    || c == '\U{85}'
    || c == '\U{a0}'
    || c == '\U{1680}'
    || ('\U{2000}' <= c <= '\U{200a}')
    || c == '\U{2028}'
    || c == '\U{2029}'
    || c == '\U{202f}'
    || c == '\U{205f}'
    || c == '\U{3000}'
  }

  /** `string.IsNullOrWhiteSpace` on a string that is present. */
  predicate IsBlank(s: string) {
    forall i :: 0 <= i < |s| ==> IsWhiteSpace(s[i])
  }

  /** `string.IsNullOrWhiteSpace` on a nullable string. */
  predicate IsNullOrWhiteSpace(s: Option<string>) {
    s.None? || IsBlank(s.value)
  }

  /** `string.IsNullOrEmpty` on a nullable string. */
  predicate IsNullOrEmpty(s: Option<string>) {
    s.None? || s.value == ""
  }

  /** `TrimStart(chars)`: drops the leading characters that satisfy `drop`. */
  function TrimStartBy(s: string, drop: char -> bool): string {
    if |s| > 0 && drop(s[0]) then TrimStartBy(s[1..], drop) else s
  }

  /** `TrimEnd(chars)`: drops the trailing characters that satisfy `drop`. */
  function TrimEndBy(s: string, drop: char -> bool): string {
    if |s| > 0 && drop(s[|s| - 1]) then TrimEndBy(s[..|s| - 1], drop) else s
  }

  /** `Trim(chars)`: drops the characters that satisfy `drop` at both ends. */
  function TrimBy(s: string, drop: char -> bool): string {
    TrimEndBy(TrimStartBy(s, drop), drop)
  }

  /** `string.Trim()`: drops white space at both ends. */
  function Trim(s: string): string {
    TrimBy(s, IsWhiteSpace)
  }

  /** `Contains(char)`. */
  predicate HasChar(s: string, c: char) {
    exists i :: 0 <= i < |s| && s[i] == c
  }

  /** `Split(sep)` with no options: the pieces between separators, empty ones included. */
  function SplitOn(s: string, sep: char): (r: seq<string>)
    ensures |r| >= 1
    ensures forall k :: 0 <= k < |r| ==> !HasChar(r[k], sep)
  {
    if |s| == 0 then [""]
    else
      var rest := SplitOn(s[1..], sep);
      if s[0] == sep then [""] + rest
      else
        assert !HasChar(rest[0], sep);
        assert forall k :: 1 <= k < |rest| ==> !HasChar(rest[k], sep);
        [[s[0]] + rest[0]] + rest[1..]
  }

  /** `TrimEntries | RemoveEmptyEntries` on the pieces: each is trimmed, and dropped if that leaves it empty. */
  function Entries(pieces: seq<string>): (r: seq<string>)
    ensures |r| <= |pieces|
  {
    if |pieces| == 0 then []
    else
      var t := Trim(pieces[0]);
      (if t == "" then [] else [t]) + Entries(pieces[1..])
  }

  /** `Split(sep, StringSplitOptions.RemoveEmptyEntries | StringSplitOptions.TrimEntries)`. */
  function SplitEntries(s: string, sep: char): seq<string> {
    Entries(SplitOn(s, sep))
  }

  predicate IsDigit(c: char) {
    '0' <= c <= '9'
  }

  /** Every character is a decimal digit. */
  predicate AllDigits(s: string) {
    forall k :: 0 <= k < |s| ==> IsDigit(s[k])
  }

  /** The value of a run of decimal digits, most significant first, or nothing at the first non-digit. */
  function DigitsValue(ds: string): (r: Option<nat>)
    ensures r.Some? <==> AllDigits(ds)
  {
    if |ds| == 0 then Some(0)
    else
      var last := ds[|ds| - 1];
      match DigitsValue(ds[..|ds| - 1])
      case Some(n) => if IsDigit(last) then Some(n * 10 + (last as int - '0' as int)) else None
      case None => None
  }

  /** The digits-only part of `int.TryParse`: one or more digits, nothing else. */
  function ParseDigits(ds: string): (r: Option<nat>)
    ensures r.Some? <==> |ds| > 0 && AllDigits(ds)
  {
    if |ds| == 0 then None else DigitsValue(ds)
  }

  /** An optional `+` or `-` sign followed by one or more decimal digits, and nothing else. */
  predicate IsIntegerText(t: string) {
    if |t| > 0 && (t[0] == '-' || t[0] == '+') then |t| > 1 && AllDigits(t[1..])
    else |t| > 0 && AllDigits(t)
  }

  /**
   * `int.TryParse(s, out n)` with the default integer style, on text that is
   * already trimmed: an optional `+` or `-` sign and at least one decimal
   * digit. The 32-bit range check is not modelled.
   */
  function ParseInt(t: string): (r: Option<int>)
    ensures r.Some? <==> IsIntegerText(t)
  {
    if |t| > 0 && t[0] == '-' then
      match ParseDigits(t[1..])
      case Some(n) => Some(0 - n)
      case None => None
    else if |t| > 0 && t[0] == '+' then
      match ParseDigits(t[1..])
      case Some(n) => Some(n)
      case None => None
    else
      match ParseDigits(t)
      case Some(n) => Some(n)
      case None => None
  }
}
