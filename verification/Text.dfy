/** Character-level helpers shared by the settings parser, the path code and
    the crash handler: ASCII case folding as LLVM's `equals_insensitive` does
    it, `StringRef::trim`, searching, and reading a NUL-terminated C string
    out of a character buffer. */
module Text {

  const NUL: char := '\0'

  /** ASCII lower-casing: only 'A'..'Z' change, every other character is kept. */
  function LowerChar(c: char): char {
    if 'A' <= c <= 'Z' then (c as int + 32) as char else c
  }

  function Lower(s: string): (r: string)
    ensures |r| == |s|
    ensures forall i :: 0 <= i < |s| ==> r[i] == LowerChar(s[i])
  {
    seq(|s|, i requires 0 <= i < |s| => LowerChar(s[i]))
  }

  /** A string with no upper-case ASCII letter is its own folding; used for
      the lower-case literals the runtime compares against. */
  lemma LowerOfLowercase(s: string)
    requires forall i :: 0 <= i < |s| ==> !('A' <= s[i] <= 'Z')
    ensures Lower(s) == s
  {
  }

  /** `StringRef::equals_insensitive`: same length and equal after ASCII folding. */
  predicate EqualsInsensitive(a: string, b: string) {
    Lower(a) == Lower(b)
  }

  /** The characters `StringRef::trim()` removes by default. */
  predicate IsSpace(c: char) {
    c == ' ' || c == '\t' || c == '\n' || c == '\U{B}' || c == '\U{C}' || c == '\r'
  }

  /** Number of leading whitespace characters. */
  function LeadingSpaces(s: string): (n: nat)
    ensures n <= |s|
    ensures forall i :: 0 <= i < n ==> IsSpace(s[i])
    ensures n < |s| ==> !IsSpace(s[n])
  {
    if s == [] || !IsSpace(s[0]) then 0 else 1 + LeadingSpaces(s[1..])
  }

  /** Number of trailing whitespace characters. */
  function TrailingSpaces(s: string): (n: nat)
    ensures n <= |s|
    ensures forall i :: |s| - n <= i < |s| ==> IsSpace(s[i])
    ensures n < |s| ==> !IsSpace(s[|s| - n - 1])
  {
    if s == [] || !IsSpace(s[|s| - 1]) then 0 else 1 + TrailingSpaces(s[..|s| - 1])
  }

  /** `StringRef::trim()`: whitespace removed from both ends, nothing else. */
  function Trim(s: string): (r: string)
    ensures r == [] || (!IsSpace(r[0]) && !IsSpace(r[|r| - 1]))
    ensures LeadingSpaces(s) + |r| <= |s| && s[LeadingSpaces(s)..LeadingSpaces(s) + |r|] == r
    ensures forall j :: 0 <= j < |s| && !(LeadingSpaces(s) <= j < LeadingSpaces(s) + |r|) ==> IsSpace(s[j])
  {
    var a := s[LeadingSpaces(s)..];
    a[..|a| - TrailingSpaces(a)]
  }

  /** Index of the first occurrence of `c` in `s`, or `|s|` when there is none. */
  function Find(s: string, c: char, from: nat): (i: nat)
    requires from <= |s|
    ensures from <= i <= |s|
    ensures i < |s| ==> s[i] == c
    ensures forall j :: from <= j < i ==> s[j] != c
    decreases |s| - from
  {
    if from == |s| then from else if s[from] == c then from else Find(s, c, from + 1)
  }

  /** `Find` is determined by its contract: the first position at or after
      `from` holding `c`. */
  lemma FindAt(s: string, c: char, from: nat, i: nat)
    requires from <= i <= |s| && (i < |s| ==> s[i] == c)
    requires forall j :: from <= j < i ==> s[j] != c
    ensures Find(s, c, from) == i
  {
  }

  /** A slice of the second part of a concatenation is a slice of that part.
      The bounds in the concatenation, `pa` and `pb`, are passed by the
      caller so that they match the caller's own terms. */
  lemma SliceOfAppend<T>(p: seq<T>, t: seq<T>, a: nat, b: nat, pa: nat, pb: nat)
    requires a <= b <= |t| && pa == |p| + a && pb == |p| + b
    ensures (p + t)[pa..pb] == t[a..b]
  {
    var l := (p + t)[pa..pb];
    assert forall k :: 0 <= k < b - a ==> l[k] == t[a + k];
  }

  /** The C string that starts at the beginning of a buffer: everything up to
      the first NUL, or the whole buffer when it holds none. */
  function CString(buffer: string): (r: string)
    ensures NUL !in r
    ensures r <= buffer
    ensures |r| < |buffer| ==> buffer[|r|] == NUL
  {
    buffer[..Find(buffer, NUL, 0)]
  }

  /** The number of bytes UTF-8 spends on `c`. */
  function Utf8Width(c: char): (n: nat)
    ensures 1 <= n <= 4
    ensures n == 1 <==> c as int < 0x80
  {
    if c as int < 0x80 then 1
    else if c as int < 0x800 then 2
    else if c as int < 0x1_0000 then 3
    else 4
  }

  /** `strlen` of the UTF-8 encoding of `s`: the C runtime counts bytes,
      not characters. */
  function Utf8Length(s: string): (n: nat)
    ensures |s| <= n <= 4 * |s|
    ensures n == |s| <==> forall i :: 0 <= i < |s| ==> s[i] as int < 0x80
  {
    if s == [] then 0
    else
      var rest := Utf8Length(s[1..]);
      assert forall i :: 1 <= i < |s| ==> s[i] == s[1..][i - 1];
      Utf8Width(s[0]) + rest
  }

  /** Concatenation regroups. */
  lemma ConcatAssociates<T>(a: seq<T>, b: seq<T>, c: seq<T>)
    ensures (a + b) + c == a + (b + c)
  {
  }
}
