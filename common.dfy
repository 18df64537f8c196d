/** Small shared vocabulary: optional values and ASCII text helpers. */
module Common {

  /** A value that may be absent (`undefined` / `null` in the source). */
  datatype Option<+T> = None | Some(value: T)

  /** The outcome of an operation that returns a value or fails with a message (a thrown `Error`). */
  datatype Result<+T> = Success(value: T) | Failure(error: string)

  /** JavaScript truthiness of an optional string: present and non-empty. */
  predicate Truthy(s: Option<string>) {
    s.Some? && s.value != ""
  }

  /** What a template literal prints for an optional string: `undefined` when absent. */
  function Interpolate(s: Option<string>): string {
    match s
    case Some(v) => v
    case None => "undefined"
  }

  predicate IsAsciiUpper(c: char) {
    'A' <= c <= 'Z'
  }

  /** `toLowerCase` restricted to ASCII: upper-case letters map to lower case, all else is kept. */
  function LowerChar(c: char): (d: char)
    ensures IsAsciiUpper(c) ==> d as int == c as int + 32
    ensures !IsAsciiUpper(c) ==> d == c
    ensures !IsAsciiUpper(d)
  {
    if IsAsciiUpper(c) then (c as int + 32) as char else c
  }

  function Lower(s: string): (r: string)
    ensures |r| == |s|
    ensures forall i :: 0 <= i < |s| ==> r[i] == LowerChar(s[i])
  {
    seq(|s|, i requires 0 <= i < |s| => LowerChar(s[i]))
  }

  predicate IsPrefix(p: string, s: string) {
    |p| <= |s| && s[..|p|] == p
  }

  predicate IsSuffix(p: string, s: string) {
    |p| <= |s| && s[|s| - |p|..] == p
  }

  /** `pattern` occurs in `s` starting at index `k`. */
  predicate OccursAt(s: string, pattern: string, k: nat) {
    k + |pattern| <= |s| && s[k..k + |pattern|] == pattern
  }

  /** The index of the first occurrence of `pattern` in `s` at or after `from`, as `String.indexOf` finds it. */
  function IndexOfFrom(s: string, pattern: string, from: nat): (r: Option<nat>)
    decreases |s| - from
    ensures r.Some? ==> from <= r.value && OccursAt(s, pattern, r.value)
    ensures r.Some? ==> forall k :: from <= k < r.value ==> !OccursAt(s, pattern, k)
    ensures r.None? ==> forall k :: from <= k ==> !OccursAt(s, pattern, k)
  {
    if from + |pattern| > |s| then None
    else if OccursAt(s, pattern, from) then Some(from)
    else IndexOfFrom(s, pattern, from + 1)
  }

  function IndexOf(s: string, pattern: string): (r: Option<nat>)
    ensures r.Some? ==> OccursAt(s, pattern, r.value)
    ensures r.Some? ==> forall k :: 0 <= k < r.value ==> !OccursAt(s, pattern, k)
    ensures r.None? ==> forall k :: 0 <= k ==> !OccursAt(s, pattern, k)
  {
    IndexOfFrom(s, pattern, 0)
  }

  /** `s.replace(pattern, "")` with a string pattern: removes the first occurrence only, if any. */
  function RemoveFirst(s: string, pattern: string): (r: string)
    ensures IndexOf(s, pattern).Some? ==> |r| + |pattern| == |s|
    ensures IndexOf(s, pattern).None? ==> r == s
  {
    match IndexOf(s, pattern)
    case None => s
    case Some(k) => s[..k] + s[k + |pattern|..]
  }

  /** The decimal digits of a natural number, as template literals print it. */
  function NatToString(n: nat): (r: string)
    ensures |r| >= 1
    ensures forall i :: 0 <= i < |r| ==> '0' <= r[i] <= '9'
    ensures r[0] == '0' <==> n == 0
    ensures |r| > 1 ==> r[0] != '0'
  {
    if n < 10 then [Digit(n)] else NatToString(n / 10) + [Digit(n % 10)]
  }

  /** The number a string of decimal digits denotes. */
  function DecimalValue(s: string): nat
    requires forall i :: 0 <= i < |s| ==> '0' <= s[i] <= '9'
  {
    if |s| == 0 then 0 else DecimalValue(s[..|s| - 1]) * 10 + (s[|s| - 1] as int - '0' as int)
  }

  /** The printed digits denote the number printed. */
  lemma {:induction false} NatToStringValue(n: nat)
    ensures DecimalValue(NatToString(n)) == n
  {
    if n >= 10 {
      var r := NatToString(n);
      assert r[..|r| - 1] == NatToString(n / 10);
      NatToStringValue(n / 10);
    }
  }

  function Digit(d: nat): (c: char)
    requires d < 10
    ensures '0' <= c <= '9'
  {
    ('0' as int + d) as char
  }

  /** `xs.filter(Boolean)` on strings: the non-empty strings, in order. */
  function NonEmpty(ps: seq<string>): (r: seq<string>)
    ensures |r| <= |ps|
    ensures forall i :: 0 <= i < |r| ==> r[i] != ""
  {
    if |ps| == 0 then []
    else if ps[0] == "" then NonEmpty(ps[1..])
    else [ps[0]] + NonEmpty(ps[1..])
  }

  /** `xs.join(sep)`. */
  function Join(xs: seq<string>, sep: string): string {
    if |xs| == 0 then ""
    else if |xs| == 1 then xs[0]
    else xs[0] + sep + Join(xs[1..], sep)
  }

  function Min(a: int, b: int): int {
    if a <= b then a else b
  }
}
