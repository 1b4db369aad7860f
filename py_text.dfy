/**
 * The pieces of Python's `str` behaviour the pipeline depends on:
 * `str.isspace`, `str.strip`, `str.split(sep, 1)[0]` and `sep.join(parts)`.
 */
module PyText {

  /** Python's `str.isspace` for a single code point. */
  predicate IsSpace(c: char) {
    var n := c as int;
    (9 <= n <= 13) || (28 <= n <= 32) || n == 0x85 || n == 0xA0 || n == 0x1680
    || (0x2000 <= n <= 0x200A) || n == 0x2028 || n == 0x2029 || n == 0x202F
    || n == 0x205F || n == 0x3000
  }

  /** Every character of `s` is whitespace (true of the empty string). */
  predicate Blank(s: string) {
    forall i :: 0 <= i < |s| ==> IsSpace(s[i])
  }

  lemma BlankConcat(a: string, b: string)
    ensures Blank(a + b) <==> Blank(a) && Blank(b)
  {
    if Blank(a + b) {
      forall i | 0 <= i < |a| ensures IsSpace(a[i]) {
        assert (a + b)[i] == a[i];
      }
      forall i | 0 <= i < |b| ensures IsSpace(b[i]) {
        assert (a + b)[|a| + i] == b[i];
      }
    }
  }

  /** The first position at or after `i` that is not whitespace, or `|s|`. */
  function SpaceEnd(s: string, i: nat): (j: nat)
    requires i <= |s|
    ensures i <= j <= |s|
    ensures forall k :: i <= k < j ==> IsSpace(s[k])
    ensures j < |s| ==> !IsSpace(s[j])
    decreases |s| - i
  {
    if i < |s| && IsSpace(s[i]) then SpaceEnd(s, i + 1) else i
  }

  /** Going back from `j`, but not below `lo`: where the whitespace before `j` begins. */
  function SpaceStart(s: string, lo: nat, j: nat): (k: nat)
    requires lo <= j <= |s|
    ensures lo <= k <= j
    ensures forall m :: k <= m < j ==> IsSpace(s[m])
    ensures k > lo ==> !IsSpace(s[k - 1])
    decreases j
  {
    if j > lo && IsSpace(s[j - 1]) then SpaceStart(s, lo, j - 1) else j
  }

  /** How many whitespace characters `s.strip()` cuts from the front of `s`. */
  function LeadingSpace(s: string): nat
  {
    SpaceEnd(s, 0)
  }

  /**
   * `s.strip()`: the result is the slice of `s` left once the whitespace at both ends
   * is cut away, and it neither starts nor ends with whitespace.
   */
  function Strip(s: string): (r: string)
    ensures LeadingSpace(s) + |r| <= |s|
    ensures r == s[LeadingSpace(s)..LeadingSpace(s) + |r|]
    ensures forall k :: 0 <= k < LeadingSpace(s) ==> IsSpace(s[k])
    ensures forall k :: LeadingSpace(s) + |r| <= k < |s| ==> IsSpace(s[k])
    ensures r != [] ==> !IsSpace(r[0]) && !IsSpace(r[|r| - 1])
  {
    var a := SpaceEnd(s, 0);
    s[a..SpaceStart(s, a, |s|)]
  }

  /** A string is stripped to nothing exactly when it is all whitespace. */
  lemma StripEmptyIffBlank(s: string)
    ensures Strip(s) == [] <==> Blank(s)
  {
    var r, a := Strip(s), LeadingSpace(s);
    if r != [] {
      assert s[a] == r[0];
    }
  }

  /** Stripping a stripped string changes nothing. */
  lemma StripIdempotent(s: string)
    ensures Strip(Strip(s)) == Strip(s)
  {
    var r := Strip(s);
    if r != [] {
      assert SpaceEnd(r, 0) == 0;
      assert SpaceStart(r, 0, |r|) == |r|;
      assert r[0..|r|] == r;
    }
  }

  /** `s.split(sep, 1)[0]`: the part of `s` before the first `sep`, or all of `s`. */
  function CutAt(s: string, sep: char): (r: string)
    ensures |r| <= |s| && r == s[..|r|]
    ensures sep !in r
    ensures |r| < |s| ==> s[|r|] == sep
  {
    if s == [] || s[0] == sep then [] else [s[0]] + CutAt(s[1..], sep)
  }

  /** `sep.join(parts)`. */
  function Join(parts: seq<string>, sep: string): string
  {
    if |parts| == 0 then ""
    else if |parts| == 1 then parts[0]
    else parts[0] + sep + Join(parts[1..], sep)
  }

  /** The sum of the lengths of `parts`. */
  function TotalLength(parts: seq<string>): nat
  {
    if parts == [] then 0 else |parts[0]| + TotalLength(parts[1..])
  }

  /** Joining n >= 1 parts adds exactly n - 1 separators, even between empty parts. */
  lemma {:induction false} JoinLength(parts: seq<string>, sep: string)
    requires |parts| >= 1
    ensures |Join(parts, sep)| == TotalLength(parts) + (|parts| - 1) * |sep|
  {
    if |parts| > 1 {
      JoinLength(parts[1..], sep);
    }
  }

  /** Where part `i` starts inside `Join(parts, sep)`. */
  function Offset(parts: seq<string>, sep: string, i: nat): nat
    requires i < |parts|
  {
    if i == 0 then 0 else |parts[0]| + |sep| + Offset(parts[1..], sep, i - 1)
  }

  /** Every part appears, in order, at its offset inside the joined string. */
  lemma {:induction false} JoinContainsPart(parts: seq<string>, sep: string, i: nat)
    requires i < |parts|
    ensures Offset(parts, sep, i) + |parts[i]| <= |Join(parts, sep)|
    ensures Join(parts, sep)[Offset(parts, sep, i)..Offset(parts, sep, i) + |parts[i]|] == parts[i]
  {
    if |parts| == 1 {
      assert Join(parts, sep) == parts[0];
    } else {
      var rest := Join(parts[1..], sep);
      var head := parts[0] + sep;
      assert Join(parts, sep) == head + rest;
      if i == 0 {
        assert (head + rest)[..|parts[0]|] == parts[0];
      } else {
        JoinContainsPart(parts[1..], sep, i - 1);
        var o := Offset(parts[1..], sep, i - 1);
        assert Offset(parts, sep, i) == |head| + o;
        assert parts[1..][i - 1] == parts[i];
        SliceAfterPrefix(head, rest, o, o + |parts[i]|);
      }
    }
  }


  /** Slicing past a prefix slices the remainder. */
  lemma SliceAfterPrefix(head: string, rest: string, lo: nat, hi: nat)
    requires lo <= hi <= |rest|
    ensures (head + rest)[|head| + lo..|head| + hi] == rest[lo..hi]
  {
    assert forall j :: lo <= j < hi ==> (head + rest)[|head| + j] == rest[j];
  }


  /**
   * With a whitespace separator, the joined string is blank exactly when every
   * part is blank.
   */
  lemma {:induction false} JoinBlankIffAllBlank(parts: seq<string>, sep: string)
    requires Blank(sep)
    ensures Blank(Join(parts, sep)) <==> forall i :: 0 <= i < |parts| ==> Blank(parts[i])
  {
    if |parts| > 1 {
      JoinBlankIffAllBlank(parts[1..], sep);
      BlankConcat(parts[0] + sep, Join(parts[1..], sep));
      BlankConcat(parts[0], sep);
      if forall i :: 1 <= i < |parts| ==> Blank(parts[i]) {
        assert forall i :: 0 <= i < |parts[1..]| ==> Blank(parts[1..][i]);
      }
      if forall i :: 0 <= i < |parts[1..]| ==> Blank(parts[1..][i]) {
        forall i | 1 <= i < |parts| ensures Blank(parts[i]) {
          assert parts[i] == parts[1..][i - 1];
        }
      }
    }
  }
}
