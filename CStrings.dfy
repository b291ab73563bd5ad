/**
 * The C string primitives the printer application relies on, modelled on
 * `seq<char>` where one `char` stands for one byte: `strlcpy`-style copying
 * (`papplCopyString`), `strstr`, ASCII `strcasecmp` and reading a
 * NUL-terminated string out of a buffer.
 */
module CStrings {
  import opened Wrappers

  const Nul: char := '\0'

  /** A C string cannot hold a NUL byte: it would end there. */
  predicate NoNul(s: string)
  {
    forall k :: 0 <= k < |s| ==> s[k] != Nul
  }

  /** ASCII lower-casing, as CUPS's `_cups_tolower` does. */
  function ToLower(c: char): char
  {
    if 'A' <= c <= 'Z' then (c as int + 32) as char else c
  }

  /** `strcasecmp(a, b) == 0`: equal lengths and equal bytes after ASCII lower-casing. */
  predicate EqualIgnoringCase(a: string, b: string)
    ensures a == b ==> EqualIgnoringCase(a, b)
    ensures EqualIgnoringCase(a, b) ==> |a| == |b|
  {
    |a| == |b| && forall k :: 0 <= k < |a| ==> ToLower(a[k]) == ToLower(b[k])
  }

  /** `c` and `d` are the same character, or the same ASCII letter in the two cases. */
  predicate CaseVariant(c: char, d: char)
  {
    c == d
    || ('A' <= c <= 'Z' && d == (c as int + 32) as char)
    || ('A' <= d <= 'Z' && c == (d as int + 32) as char)
  }

  /**
   * What `strcasecmp` ignores: two strings compare equal exactly when they
   * have the same length and differ at most in the case of ASCII letters.
   */
  lemma EqualIgnoringCaseIsCaseVariant(a: string, b: string)
    ensures EqualIgnoringCase(a, b) <==>
      |a| == |b| && forall k :: 0 <= k < |a| ==> CaseVariant(a[k], b[k])
  {
  }

  /** The comparison does not depend on the order of its arguments. */
  lemma EqualIgnoringCaseSymmetric(a: string, b: string)
    ensures EqualIgnoringCase(a, b) == EqualIgnoringCase(b, a)
  {
  }

  /** Letters match in either case; a digit and a letter never do. */
  lemma EqualIgnoringCaseExamples()
    ensures EqualIgnoringCase("MFG", "mfg")
    ensures !EqualIgnoringCase("X100", "X1OO")
  {
    assert ToLower("X100"[2]) != ToLower("X1OO"[2]);
  }

  /** `needle` occurs in `hay` starting at index `p`. */
  predicate OccursAt(needle: string, hay: string, p: nat)
  {
    p + |needle| <= |hay| && hay[p..p + |needle|] == needle
  }

  /** `strstr(hay, needle)`: the index of the FIRST occurrence of `needle`, if any. */
  function FindFirst(needle: string, hay: string): (r: Option<nat>)
    ensures r.Some? ==> OccursAt(needle, hay, r.value)
    ensures r.Some? ==> forall q :: 0 <= q < r.value ==> !OccursAt(needle, hay, q)
    ensures r.None? ==> forall q :: 0 <= q <= |hay| ==> !OccursAt(needle, hay, q)
  {
    FindFrom(needle, hay, 0)
  }

  function FindFrom(needle: string, hay: string, from: nat): (r: Option<nat>)
    requires from <= |hay|
    ensures r.Some? ==> from <= r.value && OccursAt(needle, hay, r.value)
    ensures r.Some? ==> forall q :: from <= q < r.value ==> !OccursAt(needle, hay, q)
    ensures r.None? ==> forall q :: from <= q <= |hay| ==> !OccursAt(needle, hay, q)
    decreases |hay| - from
  {
    if OccursAt(needle, hay, from) then Some(from)
    else if from == |hay| then None
    else FindFrom(needle, hay, from + 1)
  }

  /** `strlcpy(dst, src, size)` as `papplCopyString` does it: at most `size - 1` bytes survive. */
  function CopyString(src: string, size: nat): (r: string)
    requires size > 0
    ensures |r| < size && |r| <= |src|
    ensures r == src[..|r|]
    ensures |src| < size ==> r == src
    ensures |src| >= size ==> |r| == size - 1
  {
    if |src| < size then src else src[..size - 1]
  }

  /** The C string held in a buffer: everything before the first NUL. */
  function TakeCString(buf: seq<char>): (r: string)
    ensures NoNul(r)
    ensures |r| <= |buf| && r == buf[..|r|]
    ensures |r| < |buf| ==> buf[|r|] == Nul
  {
    if buf == [] || buf[0] == Nul then [] else [buf[0]] + TakeCString(buf[1..])
  }

  /** Reading the C string back from `s + [NUL] + rest` gives `s`. */
  lemma {:induction false} TakeCStringOf(s: string, rest: seq<char>)
    requires NoNul(s)
    ensures TakeCString(s + [Nul] + rest) == s
  {
    if s != [] {
      assert (s + [Nul] + rest)[1..] == s[1..] + [Nul] + rest;
      TakeCStringOf(s[1..], rest);
    }
  }

  /** A buffer whose first NUL is at `n` holds the C string of its first `n` characters. */
  lemma {:induction false} TakeCStringAt(buf: seq<char>, n: nat)
    requires n < |buf| && buf[n] == Nul
    requires forall k :: 0 <= k < n ==> buf[k] != Nul
    ensures TakeCString(buf) == buf[..n]
  {
    if n > 0 {
      TakeCStringAt(buf[1..], n - 1);
      assert buf[..n] == [buf[0]] + buf[1..][..n - 1];
    }
  }
}
