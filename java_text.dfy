/**
 * The few pieces of java.lang.String and of Java's `int` that the core relies on:
 * `trim`, `toLowerCase(Locale.ROOT)` and `equalsIgnoreCase` restricted to ASCII letters,
 * and 32-bit two's-complement subtraction.
 */
module JavaText {

  /** Java's `int`. */
  type int32 = x: int | -0x8000_0000 <= x < 0x8000_0000

  /** `a - b` on Java ints: the mathematical difference wrapped into 32 bits. */
  function Sub32(a: int32, b: int32): (r: int32)
    ensures (r - (a - b)) % 0x1_0000_0000 == 0
    ensures -0x8000_0000 <= a - b < 0x8000_0000 ==> r == a - b
  {
    var d := a - b;
    if d < -0x8000_0000 then d + 0x1_0000_0000
    else if d >= 0x8000_0000 then d - 0x1_0000_0000
    else d
  }

  /** With a non-negative left operand and a non-negative right operand the subtraction never wraps. */
  lemma SubNonNegativeExact(a: int32, b: int32)
    requires a >= 0 && b >= 0
    ensures Sub32(a, b) == a - b
  {
  }

  /** `String.trim` removes every leading and trailing character whose code is at most U+0020. */
  predicate IsTrimmable(c: char) {
    c <= ' '
  }

  function TrimStart(s: string): (r: string)
    ensures |r| <= |s| && r == s[|s| - |r|..]
    ensures r == [] || !IsTrimmable(r[0])
    ensures forall i :: 0 <= i < |s| - |r| ==> IsTrimmable(s[i])
  {
    if s != [] && IsTrimmable(s[0]) then TrimStart(s[1..]) else s
  }

  function TrimEnd(s: string): (r: string)
    ensures |r| <= |s| && r == s[..|r|]
    ensures r == [] || !IsTrimmable(r[|r| - 1])
    ensures forall i :: |r| <= i < |s| ==> IsTrimmable(s[i])
  {
    if s != [] && IsTrimmable(s[|s| - 1]) then TrimEnd(s[..|s| - 1]) else s
  }

  /** Where `Trim(s)` starts inside `s`. */
  function TrimOffset(s: string): (k: nat)
    ensures k <= |s|
  {
    |s| - |TrimStart(s)|
  }

  /** `String.trim`: the result is the slice of `s` at `TrimOffset(s)` with no trimmable character
      at either end, and everything cut away on either side is trimmable. */
  function Trim(s: string): (r: string)
    ensures TrimOffset(s) + |r| <= |s| && r == s[TrimOffset(s)..TrimOffset(s) + |r|]
    ensures r == [] || (!IsTrimmable(r[0]) && !IsTrimmable(r[|r| - 1]))
    ensures forall i :: 0 <= i < TrimOffset(s) ==> IsTrimmable(s[i])
    ensures forall i :: TrimOffset(s) + |r| <= i < |s| ==> IsTrimmable(s[i])
  {
    var t := TrimStart(s);
    var r := TrimEnd(t);
    assert r == s[|s| - |t|..][..|r|];
    r
  }

  /** A string that starts and ends with non-trimmable characters is its own trim. */
  lemma {:induction false} TrimOfTrimmed(s: string)
    requires s == [] || (!IsTrimmable(s[0]) && !IsTrimmable(s[|s| - 1]))
    ensures Trim(s) == s
  {
  }

  /** ASCII upper-case letters become lower case; every other character is kept. */
  function LowerChar(c: char): (r: char)
    ensures 'A' <= c <= 'Z' ==> 'a' <= r <= 'z' && r as int == c as int + 32
    ensures !('A' <= c <= 'Z') ==> r == c
  {
    if 'A' <= c <= 'Z' then (c as int - 'A' as int + 'a' as int) as char else c
  }

  /** `toLowerCase(Locale.ROOT)` on ASCII. */
  function ToLower(s: string): (r: string)
    ensures |r| == |s|
    ensures forall i :: 0 <= i < |s| ==> r[i] == LowerChar(s[i])
  {
    seq(|s|, i requires 0 <= i < |s| => LowerChar(s[i]))
  }

  lemma ToLowerIdempotent(s: string)
    ensures ToLower(ToLower(s)) == ToLower(s)
  {
  }

  /** Lower-casing neither creates nor removes trimmable characters, so it commutes with `trim`. */
  lemma {:induction false} TrimToLower(s: string)
    ensures Trim(ToLower(Trim(s))) == ToLower(Trim(s))
  {
    var t := Trim(s);
    var l := ToLower(t);
    if l != [] {
      assert !IsTrimmable(l[0]) && !IsTrimmable(l[|l| - 1]);
    }
    TrimOfTrimmed(l);
  }

  /** `String.equalsIgnoreCase` on ASCII. */
  predicate EqualsIgnoreCase(a: string, b: string) {
    ToLower(a) == ToLower(b)
  }

  predicate StartsWith(s: string, c: char) {
    |s| > 0 && s[0] == c
  }

  predicate EndsWith(s: string, c: char) {
    |s| > 0 && s[|s| - 1] == c
  }

  /** `s.trim().isEmpty()` */
  predicate IsBlank(s: string) {
    Trim(s) == []
  }

  lemma BlankIffAllTrimmed(s: string)
    ensures IsBlank(s) <==> forall i :: 0 <= i < |s| ==> IsTrimmable(s[i])
  {
    if !IsBlank(s) {
      var r := Trim(s);
      assert s[TrimOffset(s)] == r[0];
    }
  }
}
