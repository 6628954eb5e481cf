/** The few pieces of PHP's value semantics the client relies on: the
    `empty()` test (and truthiness, its negation), conversion of a value to a
    string by `.` concatenation, and strings as sequences of bytes. */
module Php {

  /** One byte of a PHP string. */
  type Byte = b: int | 0 <= b < 256

  /** A PHP string is a sequence of bytes; here each byte is one `char` below 256. */
  predicate IsByteString(s: string) {
    forall i :: 0 <= i < |s| ==> s[i] as int < 256
  }

  type PhpString = s: string | IsByteString(s)

  /** The bytes of a PHP string, in order. */
  function Bytes(s: PhpString): (b: seq<Byte>)
    ensures |b| == |s|
    ensures forall i :: 0 <= i < |s| ==> b[i] == s[i] as int
  {
    seq(|s|, i requires 0 <= i < |s| => s[i] as int)
  }

  /** The argument values the client receives: `getenv` yields a string or
      `false`, an unset property reads as `null`, and the login flags are
      booleans. */
  datatype Value = Null | Bool(b: bool) | Str(s: PhpString)

  /** PHP's `empty()`: null, false, the empty string and the string "0".
      These four are the only empty values; "00", "0.0", " " and "false" are not. */
  predicate Empty(v: Value): (e: bool)
    ensures e <==> v in {Null, Bool(false), Str(""), Str("0")}
  {
    match v
    case Null => true
    case Bool(b) => !b
    case Str(s) => s == "" || s == "0"
  }

  /** The string PHP makes of a value when it is concatenated with `.`:
      null and false become "", true becomes "1", a string stays itself.
      A value is empty exactly when its string is "" or "0". */
  function ToStr(v: Value): (r: PhpString)
    ensures Empty(v) <==> r == "" || r == "0"
    ensures v == Null || v == Bool(false) ==> r == ""
    ensures v == Bool(true) ==> r == "1"
    ensures v.Str? ==> r == v.s
  {
    match v
    case Null => ""
    case Bool(b) => if b then "1" else ""
    case Str(s) => s
  }

  /** The bytes of a concatenation are the bytes of its parts, one after the
      other: PHP's `.` joins byte strings. */
  lemma BytesOfConcat(a: PhpString, b: PhpString)
    ensures Bytes(a + b) == Bytes(a) + Bytes(b)
  {
  }
}
