/** Byte strings and the few Go standard-library string operations the relay
    relies on: `strings.Index`, `strings.Contains`, `strings.Replace(s, old,
    new, 1)` and `fmt.Sprintf("%d", n)`. A Go `string` is an immutable byte
    sequence, so every string of the relay is a `Bytes` here. */
module GoBytes {

  datatype Option<T> = None | Some(value: T)

  newtype byte = x: int | 0 <= x < 256

  type Bytes = seq<byte>

  /** The bytes of a string literal of the Go source. Every literal of the
      relay is ASCII, where a character and its byte coincide; any other
      character would be reduced modulo 256. */
  function Ascii(s: string): (r: Bytes)
    ensures |r| == |s|
    ensures forall i | 0 <= i < |s| && s[i] as int < 256 :: r[i] as int == s[i] as int
  {
    seq(|s|, i requires 0 <= i < |s| => (s[i] as int % 256) as byte)
  }

  /** `pat` occurs in `s` starting at index `i`. */
  predicate OccursAt(s: Bytes, pat: Bytes, i: nat) {
    i + |pat| <= |s| && s[i..i + |pat|] == pat
  }

  /** The search of `strings.Index`, started at position `from`. */
  function IndexFrom(s: Bytes, pat: Bytes, from: nat): (r: Option<nat>)
    ensures r.Some? ==> from <= r.value && OccursAt(s, pat, r.value)
    ensures r.Some? ==> forall j | from <= j < r.value :: !OccursAt(s, pat, j)
    ensures r.None? ==> forall j | from <= j :: !OccursAt(s, pat, j)
    decreases |s| - from
  {
    if from + |pat| > |s| then None
    else if OccursAt(s, pat, from) then Some(from)
    else IndexFrom(s, pat, from + 1)
  }

  /** `strings.Index(s, pat)`: the first position at which `pat` occurs in
      `s`, or none (Go's -1). */
  function Index(s: Bytes, pat: Bytes): (r: Option<nat>)
    ensures r.Some? ==> OccursAt(s, pat, r.value)
    ensures r.Some? ==> forall j: nat | j < r.value :: !OccursAt(s, pat, j)
    ensures r.None? ==> forall j: nat :: !OccursAt(s, pat, j)
  {
    IndexFrom(s, pat, 0)
  }

  /** The first occurrence is unique: any occurrence with none before it is
      the one `Index` finds. */
  lemma IndexIsFirst(s: Bytes, pat: Bytes, i: nat)
    requires OccursAt(s, pat, i)
    requires forall j: nat | j < i :: !OccursAt(s, pat, j)
    ensures Index(s, pat) == Some(i)
  {
  }

  /** `strings.Contains(s, pat)`. */
  predicate Contains(s: Bytes, pat: Bytes) {
    Index(s, pat).Some?
  }

  lemma ContainsIff(s: Bytes, pat: Bytes)
    ensures Contains(s, pat) <==> exists i: nat :: OccursAt(s, pat, i)
  {
  }

  /** `strings.Replace(s, pat, repl, 1)`: the first occurrence of `pat`, if
      any, is replaced by `repl`; without one `s` is returned as it is. */
  function ReplaceFirst(s: Bytes, pat: Bytes, repl: Bytes): (r: Bytes)
    ensures Index(s, pat).None? ==> r == s
    ensures Index(s, pat).Some? ==>
      var i := Index(s, pat).value;
      |r| == |s| - |pat| + |repl| &&
      r[..i] == s[..i] &&
      r[i..i + |repl|] == repl &&
      r[i + |repl|..] == s[i + |pat|..]
  {
    match Index(s, pat)
    case None => s
    case Some(i) => s[..i] + repl + s[i + |pat|..]
  }

  /** A decimal digit byte, '0' to '9'. */
  predicate IsDigit(b: byte) {
    48 <= b <= 57
  }

  /** `fmt.Sprintf("%d", n)` for a non-negative `n`. */
  function Decimal(n: nat): (r: Bytes)
    ensures 0 < |r|
    ensures forall i | 0 <= i < |r| :: IsDigit(r[i])
    ensures |r| > 1 ==> r[0] != 48
  {
    if n < 10 then [(48 + n) as byte]
    else Decimal(n / 10) + [(48 + n % 10) as byte]
  }

  /** The value of a string of decimal digits, as a client reading a
      Content-Length header computes it. */
  function ParseDecimal(s: Bytes): nat
    requires forall i | 0 <= i < |s| :: IsDigit(s[i])
  {
    if s == [] then 0
    else
      assert IsDigit(s[|s| - 1]);
      ParseDecimal(s[..|s| - 1]) * 10 + (s[|s| - 1] as int - 48)
  }

  lemma {:induction false} DecimalRoundTrip(n: nat)
    ensures ParseDecimal(Decimal(n)) == n
  {
    if n >= 10 {
      var d := Decimal(n);
      assert d[..|d| - 1] == Decimal(n / 10);
      DecimalRoundTrip(n / 10);
    }
  }
}
