/** The few Python built-ins the helpdesk pipeline relies on, stated over Dafny
    strings: exceptions as values, str.isspace / str.strip, ASCII lower-casing,
    str(int), the prefix slice s[:k], truthiness, `or` and dict.get. */
module Python {

  datatype Option<+T> = None | Some(value: T)

  datatype Result<+T, +E> = Ok(value: T) | Err(error: E)

  /** The exception classes that can reach the pipeline's handlers. */
  datatype ExceptionKind =
    | RuntimeError
    | TypeError
    | KeyError
    | AttributeError
    | IndexError
    | ValueError

  /** A raised exception: its class and str(e). */
  datatype Exception = Exception(kind: ExceptionKind, message: string)

  /** A Python value as far as the handlers look at it: a str, None, or any
      other object, known only by its truthiness and its type name. */
  datatype PyValue = PyStr(s: string) | PyNone | PyOther(truthy: bool, typeName: string)

  predicate Truthy(v: PyValue) {
    match v
    case PyStr(s) => s != ""
    case PyNone => false
    case PyOther(t, _) => t
  }

  /** `a or b`: the first operand when it is truthy, else the second. */
  function Or(a: PyValue, b: PyValue): (r: PyValue)
    ensures Truthy(a) ==> r == a
    ensures !Truthy(a) ==> r == b
  {
    if Truthy(a) then a else b
  }

  /** `d.get(k)`: None for a missing key. */
  function Get(d: map<string, PyValue>, k: string): (r: PyValue)
    ensures k in d ==> r == d[k]
    ensures k !in d ==> r == PyNone
  {
    if k in d then d[k] else PyNone
  }

  // ---------------------------------------------------------------------------
  // Whitespace and str.strip()
  // ---------------------------------------------------------------------------

  /** str.isspace() of a one-character string. */
  predicate IsSpace(c: char) {
    ('\t' <= c <= '\r') || ('\U{1c}' <= c <= '\U{1f}') || c == ' ' ||
    c == '\U{85}' || c == '\U{a0}' || c == '\U{1680}' ||
    ('\U{2000}' <= c <= '\U{200a}') || c == '\U{2028}' || c == '\U{2029}' ||
    c == '\U{202f}' || c == '\U{205f}' || c == '\U{3000}'
  }

  predicate AllSpace(s: string) {
    forall k :: 0 <= k < |s| ==> IsSpace(s[k])
  }

  /** How many whitespace characters `s` starts with. */
  function LeadingSpace(s: string): (k: nat)
    ensures k <= |s|
    ensures forall j :: 0 <= j < k ==> IsSpace(s[j])
    ensures k < |s| ==> !IsSpace(s[k])
  {
    if s != [] && IsSpace(s[0]) then 1 + LeadingSpace(s[1..]) else 0
  }

  /** How many whitespace characters `s` ends with. */
  function TrailingSpace(s: string): (k: nat)
    ensures k <= |s|
    ensures forall j :: |s| - k <= j < |s| ==> IsSpace(s[j])
    ensures k < |s| ==> !IsSpace(s[|s| - k - 1])
  {
    if s != [] && IsSpace(s[|s| - 1]) then 1 + TrailingSpace(s[..|s| - 1]) else 0
  }

  /** str.strip(): `r` is the slice of `s` that starts after its leading
      whitespace, every character of `s` outside that slice is whitespace,
      and `r` neither begins nor ends with whitespace. */
  function Strip(s: string): (r: string)
    ensures var a := LeadingSpace(s); a + |r| <= |s| && s[a..a + |r|] == r
    ensures forall j :: 0 <= j < |s| && !(LeadingSpace(s) <= j < LeadingSpace(s) + |r|) ==> IsSpace(s[j])
    ensures r == [] || (!IsSpace(r[0]) && !IsSpace(r[|r| - 1]))
  {
    var a := LeadingSpace(s);
    if a == |s| then [] else s[a..|s| - TrailingSpace(s)]
  }

  /** A string strips to "" exactly when it is all whitespace. */
  lemma StripEmptyIff(s: string)
    ensures Strip(s) == [] <==> AllSpace(s)
  {
  }

  /** Stripping twice is stripping once. */
  lemma StripIdempotent(s: string)
    ensures Strip(Strip(s)) == Strip(s)
  {
  }

  // ---------------------------------------------------------------------------
  // str.lower() on ASCII letters
  // ---------------------------------------------------------------------------

  function LowerChar(c: char): (r: char)
    ensures 'A' <= c <= 'Z' ==> r as int == c as int + 32
    ensures !('A' <= c <= 'Z') ==> r == c
  {
    if 'A' <= c <= 'Z' then (c as int + 32) as char else c
  }

  /** str.lower() with ASCII case mapping. */
  function Lower(s: string): (r: string)
    ensures |r| == |s|
    ensures forall k :: 0 <= k < |s| ==> r[k] == LowerChar(s[k])
  {
    seq(|s|, k requires 0 <= k < |s| => LowerChar(s[k]))
  }

  // ---------------------------------------------------------------------------
  // str(int) and its inverse on non-negative numbers
  // ---------------------------------------------------------------------------

  predicate IsDigit(c: char) { '0' <= c <= '9' }

  function DigitChar(d: int): (c: char)
    requires 0 <= d < 10
    ensures IsDigit(c) && c as int - '0' as int == d
  {
    (d + '0' as int) as char
  }

  function DigitValue(c: char): nat
    requires IsDigit(c)
  {
    c as int - '0' as int
  }

  /** Decimal digits of a natural number, most significant first, no leading zeros. */
  function NatDecimal(n: nat): (r: string)
    decreases n
  {
    if n < 10 then [DigitChar(n)] else NatDecimal(n / 10) + [DigitChar(n % 10)]
  }

  /** str(n). */
  function Decimal(n: int): string {
    if n < 0 then "-" + NatDecimal(-n) else NatDecimal(n)
  }

  /** The value of a string of decimal digits. */
  function DigitsValue(s: string): nat
    requires forall k :: 0 <= k < |s| ==> IsDigit(s[k])
  {
    if s == [] then 0 else DigitsValue(s[..|s| - 1]) * 10 + DigitValue(s[|s| - 1])
  }

  /** str(n) for n >= 0 is a non-empty run of digits that reads back as n. */
  lemma {:induction false} NatDecimalRoundTrip(n: nat)
    ensures NatDecimal(n) != []
    ensures forall k :: 0 <= k < |NatDecimal(n)| ==> IsDigit(NatDecimal(n)[k])
    ensures DigitsValue(NatDecimal(n)) == n
    decreases n
  {
    if n >= 10 {
      NatDecimalRoundTrip(n / 10);
      var d := NatDecimal(n / 10);
      var r := NatDecimal(n);
      assert r == d + [DigitChar(n % 10)];
      assert r[..|r| - 1] == d;
    }
  }

  /** Length of the longest all-digit prefix of `s`. */
  function DigitPrefixLength(s: string): (k: nat)
    ensures k <= |s|
    ensures forall j :: 0 <= j < k ==> IsDigit(s[j])
    ensures k < |s| ==> !IsDigit(s[k])
  {
    if s != [] && IsDigit(s[0]) then 1 + DigitPrefixLength(s[1..]) else 0
  }

  // ---------------------------------------------------------------------------
  // The prefix slice s[:k]
  // ---------------------------------------------------------------------------

  /** s[:k] with Python's clamping: a negative k counts from the end. */
  function SlicePrefix(s: string, k: int): (r: string)
    ensures r <= s
    ensures 0 <= k ==> |r| == if k < |s| then k else |s|
    ensures k < 0 ==> |r| == if |s| + k < 0 then 0 else |s| + k
  {
    if k >= 0 then (if k < |s| then s[..k] else s)
    else (if |s| + k < 0 then [] else s[..|s| + k])
  }
}
