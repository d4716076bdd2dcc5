/**
 * The small part of JavaScript's value and string semantics that the ingest code relies on:
 * the values a parsed JSON record can hold, the string conversion applied by `+` and by
 * template literals, `Array.prototype.join` and `String.prototype.substring`.
 * Strings are modelled as `seq<char>`, one `char` per Unicode scalar value.
 */
module JsValues {

  /** A property value as the ingest code sees it. */
  datatype Value =
    | Undefined             // the property is not present
    | Null
    | Str(s: string)
    | Other(shown: string)  // a number, boolean, object or array, with its string conversion

  /** `String(v)`, the conversion applied when a value is spliced into a string. */
  function ToJsString(v: Value): (r: string)
    ensures v.Str? ==> r == v.s
    ensures v == Undefined ==> r == "undefined"
    ensures v == Null ==> r == "null"
  {
    match v
    case Undefined => "undefined"
    case Null => "null"
    case Str(s) => s
    case Other(shown) => shown
  }

  /** `parts.join(sep)`. */
  function Join(parts: seq<string>, sep: string): (r: string)
    ensures |parts| == 1 ==> r == parts[0]
  {
    if |parts| == 0 then ""
    else if |parts| == 1 then parts[0]
    else parts[0] + sep + Join(parts[1..], sep)
  }

  function Clamp(i: int, len: nat): (r: nat)
    ensures r <= len
  {
    if i < 0 then 0 else if i > len then len else i
  }

  /**
   * `s.substring(start, end)`: both bounds are clamped to the string, and swapped when the
   * first exceeds the second.
   */
  function Substring(s: string, start: int, end: int): (r: string)
    ensures |r| <= |s|
  {
    var a, b := Clamp(start, |s|), Clamp(end, |s|);
    if a <= b then s[a..b] else s[b..a]
  }

  /** A substring taken from position 0 is the longest prefix of at most `n` characters. */
  lemma SubstringFromStart(s: string, n: nat)
    ensures |Substring(s, 0, n)| == (if n <= |s| then n else |s|)
    ensures Substring(s, 0, n) == s[..|Substring(s, 0, n)|]
  {
  }
}
