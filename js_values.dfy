/** The JavaScript value semantics the detector depends on: what an event's
    `timestamp` property can hold and how `Number(...)` and `typeof` see it,
    `String.prototype.split(",")[0]` and `String.prototype.trim()`. */
module JsValues {

  datatype Option<+T> = None | Some(value: T)

  /** A property that is a string when `typeof p === "string"` holds, and None otherwise. */
  function StringOr(p: Option<string>, fallback: string): string
  {
    match p
    case Some(s) => s
    case None => fallback
  }

  /** `a || b` on two strings: the empty string and a missing value are falsy. */
  function OrElse(a: Option<string>, b: string): string
  {
    if a.Some? && a.value != "" then a.value else b
  }

  /** What an event's `timestamp` property can hold.  Numbers are whole
      milliseconds; texts are classified by what `Number(...)` makes of them. */
  datatype Stamp =
    | Num(ms: int)          // a finite number
    | NaN                   // the number NaN
    | NumericText(ms: int)  // a string that Number(...) reads as ms (a bigint column read back as text)
    | OtherText             // a string that Number(...) reads as NaN
    | Null                  // null, which Number(...) reads as 0
    | Undefined             // the property is missing

  /** `Number(ts)`, with None standing for NaN. */
  function ToNumber(ts: Stamp): Option<int>
  {
    match ts
    case Num(ms) => Some(ms)
    case NaN => None
    case NumericText(ms) => Some(ms)
    case OtherText => None
    case Null => Some(0)
    case Undefined => None
  }

  /** `typeof ts === "number"` (NaN is a number). */
  predicate IsNumber(ts: Stamp)
  {
    ts.Num? || ts.NaN?
  }

  /** `s.split(",")[0]`: the text before the first comma, or all of `s`. */
  function FirstCommaToken(s: string): (r: string)
    ensures ',' !in r
    ensures r <= s
    ensures |r| < |s| ==> s[|r|] == ','
  {
    if s == [] || s[0] == ',' then [] else [s[0]] + FirstCommaToken(s[1..])
  }

  /** The characters `trim()` removes: ECMAScript WhiteSpace and LineTerminator. */
  predicate IsJsWhitespace(c: char)
  {
    || c == '\t' || c == '\n' || c == '\U{000B}' || c == '\U{000C}' || c == '\r'
    || c == ' ' || c == '\U{00A0}' || c == '\U{1680}' || ('\U{2000}' <= c <= '\U{200A}')
    || c == '\U{2028}' || c == '\U{2029}' || c == '\U{202F}' || c == '\U{205F}'
    || c == '\U{3000}' || c == '\U{FEFF}'
  }

  /** How many whitespace characters `s` starts with. */
  function LeadingSpace(s: string): (n: nat)
    ensures n <= |s|
    ensures forall k :: 0 <= k < n ==> IsJsWhitespace(s[k])
    ensures n < |s| ==> !IsJsWhitespace(s[n])
  {
    if s != [] && IsJsWhitespace(s[0]) then 1 + LeadingSpace(s[1..]) else 0
  }

  /** Where the trailing whitespace of `s` begins, looking no further left than `lo`. */
  function TrailingSpaceStart(s: string, lo: nat): (n: nat)
    requires lo <= |s|
    ensures lo <= n <= |s|
    ensures forall k :: n <= k < |s| ==> IsJsWhitespace(s[k])
    ensures lo < n ==> !IsJsWhitespace(s[n - 1])
    decreases |s|
  {
    if lo < |s| && IsJsWhitespace(s[|s| - 1]) then TrailingSpaceStart(s[..|s| - 1], lo) else |s|
  }

  /** `s.trim()`: `s` with the whitespace at both ends cut away. */
  function Trim(s: string): (r: string)
    ensures exists i, j :: 0 <= i <= j <= |s| && r == s[i..j]
              && (forall k :: 0 <= k < i ==> IsJsWhitespace(s[k]))
              && (forall k :: j <= k < |s| ==> IsJsWhitespace(s[k]))
    ensures r != [] ==> !IsJsWhitespace(r[0]) && !IsJsWhitespace(r[|r| - 1])
    ensures r == [] <==> forall k :: 0 <= k < |s| ==> IsJsWhitespace(s[k])
  {
    var i := LeadingSpace(s);
    var j := TrailingSpaceStart(s, i);
    s[i..j]
  }

  /** Trimming twice is trimming once. */
  lemma TrimIdempotent(s: string)
    ensures Trim(Trim(s)) == Trim(s)
  {
    var r := Trim(s);
    assert LeadingSpace(r) == 0;
  }

  /** The first comma token of a forwarded-for header, trimmed, never holds a comma. */
  lemma FirstTokenTrimmedHasNoComma(s: string)
    ensures ',' !in Trim(FirstCommaToken(s))
    ensures Trim(FirstCommaToken(s)) == [] || !IsJsWhitespace(Trim(FirstCommaToken(s))[0])
  {
  }
}
