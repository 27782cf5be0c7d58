/**
 * The string operations the scripts borrow from Python's `str`:
 * `lower`, `strip`, `in`, `replace` and `<`.
 */
module Text {

  /** Python's `str.lower()` on one character, for the ASCII letters. */
  function LowerChar(c: char): char {
    if 'A' <= c <= 'Z' then (c as int + 32) as char else c
  }

  /**
   * `str.lower()` over ASCII: no capital letter is left, each capital becomes
   * its small letter, and every other character is kept where it was.
   */
  function Lower(s: string): (r: string)
    ensures |r| == |s|
    ensures forall i :: 0 <= i < |r| ==> !('A' <= r[i] <= 'Z')
    ensures forall i :: 0 <= i < |s| && 'A' <= s[i] <= 'Z' ==> r[i] as int == s[i] as int + 32
    ensures forall i :: 0 <= i < |s| && !('A' <= s[i] <= 'Z') ==> r[i] == s[i]
  {
    seq(|s|, i requires 0 <= i < |s| => LowerChar(s[i]))
  }

  /** `pat` occurs in `s` starting at index `i`. */
  predicate OccursAt(s: string, pat: string, i: int) {
    0 <= i && i + |pat| <= |s| && s[i..i + |pat|] == pat
  }

  /** Python's `pat in s`. */
  predicate Contains(s: string, pat: string) {
    exists i | 0 <= i <= |s| - |pat| :: OccursAt(s, pat, i)
  }

  /**
   * Python's `s.replace(pat, rep)`: scan left to right and replace every
   * non-overlapping occurrence of `pat`.
   */
  function ReplaceAll(s: string, pat: string, rep: string): (r: string)
    requires pat != []
    ensures |rep| <= |pat| ==> |r| <= |s|
    decreases |s|
  {
    if |s| < |pat| then s
    else if s[..|pat|] == pat then rep + ReplaceAll(s[|pat|..], pat, rep)
    else [s[0]] + ReplaceAll(s[1..], pat, rep)
  }

  /** Occurrences in the tail are the occurrences in `s` shifted by one. */
  lemma OccursInTail(s: string, pat: string, j: nat)
    requires s != []
    ensures OccursAt(s[1..], pat, j) <==> OccursAt(s, pat, j + 1)
  {
    if j + |pat| <= |s| - 1 {
      assert s[1..][j..j + |pat|] == s[j + 1..j + 1 + |pat|];
    }
  }

  /** Where no occurrence starts, ReplaceAll copies one character and moves on. */
  lemma ReplaceCopiesChar(s: string, pat: string, rep: string)
    requires pat != [] && s != []
    requires !OccursAt(s, pat, 0)
    ensures ReplaceAll(s, pat, rep) == [s[0]] + ReplaceAll(s[1..], pat, rep)
  {
  }

  /** A string in which `pat` never occurs is left as it is. */
  lemma {:induction false} ReplaceWithoutOccurrence(s: string, pat: string, rep: string)
    requires pat != []
    requires forall i :: !OccursAt(s, pat, i)
    ensures ReplaceAll(s, pat, rep) == s
  {
    if |s| >= |pat| {
      assert !OccursAt(s, pat, 0);
      ReplaceCopiesChar(s, pat, rep);
      forall i ensures !OccursAt(s[1..], pat, i) {
        if i >= 0 {
          OccursInTail(s, pat, i);
        }
      }
      ReplaceWithoutOccurrence(s[1..], pat, rep);
    }
  }

  /**
   * The leftmost occurrence is replaced, the text before it is kept, and the
   * scan resumes after it: together with ReplaceWithoutOccurrence this pins
   * ReplaceAll down to Python's left-to-right, non-overlapping replace.
   */
  lemma ReplaceAtFirstOccurrence(s: string, pat: string, rep: string, i: nat)
    requires pat != []
    requires OccursAt(s, pat, i)
    requires forall j :: 0 <= j < i ==> !OccursAt(s, pat, j)
    ensures ReplaceAll(s, pat, rep) == s[..i] + rep + ReplaceAll(s[i + |pat|..], pat, rep)
  {
    ReplaceCopiesPrefix(s, pat, rep, i);
    OccurrenceSplit(s, pat, i);
    ReplaceAtStart(s[i..], pat, rep);
    Associate(s[..i], rep, ReplaceAll(s[i + |pat|..], pat, rep));
  }

  /** An occurrence at `i` is an occurrence at the start of `s[i..]`, and the text after it is the same. */
  lemma OccurrenceSplit(s: string, pat: string, i: nat)
    requires OccursAt(s, pat, i)
    ensures OccursAt(s[i..], pat, 0)
    ensures s[i..][|pat|..] == s[i + |pat|..]
  {
    assert s[i..][0..|pat|] == s[i..i + |pat|];
  }

  lemma Associate(a: string, b: string, c: string)
    ensures a + (b + c) == a + b + c
  {
  }

  /** An occurrence at the very start is replaced and the scan resumes after it. */
  lemma ReplaceAtStart(s: string, pat: string, rep: string)
    requires pat != [] && OccursAt(s, pat, 0)
    ensures ReplaceAll(s, pat, rep) == rep + ReplaceAll(s[|pat|..], pat, rep)
  {
    assert s[..|pat|] == pat;
  }

  /** Text in front of the first occurrence is copied unchanged. */
  lemma {:induction false} ReplaceCopiesPrefix(s: string, pat: string, rep: string, i: nat)
    requires pat != [] && i <= |s|
    requires forall j :: 0 <= j < i ==> !OccursAt(s, pat, j)
    ensures ReplaceAll(s, pat, rep) == s[..i] + ReplaceAll(s[i..], pat, rep)
  {
    if i == 0 {
      assert s[..i] == [] && s[i..] == s;
    } else {
      NoOccurrenceInTail(s, pat, i);
      ReplaceCopiesChar(s, pat, rep);
      ReplaceCopiesPrefix(s[1..], pat, rep, i - 1);
      SliceAfterFirstChar(s, i);
      Associate([s[0]], s[1..][..i - 1], ReplaceAll(s[i..], pat, rep));
    }
  }

  /** Dropping the first character moves every occurrence one place left. */
  lemma NoOccurrenceInTail(s: string, pat: string, i: nat)
    requires 0 < i <= |s|
    requires forall j :: 0 <= j < i ==> !OccursAt(s, pat, j)
    ensures !OccursAt(s, pat, 0)
    ensures forall j :: 0 <= j < i - 1 ==> !OccursAt(s[1..], pat, j)
  {
    forall j | 0 <= j < i - 1 ensures !OccursAt(s[1..], pat, j) {
      OccursInTail(s, pat, j);
    }
  }

  lemma SliceAfterFirstChar(s: string, i: nat)
    requires 0 < i <= |s|
    ensures s[1..][i - 1..] == s[i..]
    ensures [s[0]] + s[1..][..i - 1] == s[..i]
  {
  }

  /** Python's `str.isspace()` on one character: the characters `strip()` removes. */
  predicate IsSpace(c: char) {
    var n := c as int;
    n == 0x20 || 0x09 <= n <= 0x0D || 0x1C <= n <= 0x1F || n == 0x85 || n == 0xA0 ||
    n == 0x1680 || 0x2000 <= n <= 0x200A || n == 0x2028 || n == 0x2029 ||
    n == 0x202F || n == 0x205F || n == 0x3000
  }

  /** Drops the leading whitespace: the result is a suffix and only whitespace was dropped. */
  function TrimStart(s: string): (r: string)
    ensures |r| <= |s| && r == s[|s| - |r|..]
    ensures forall k :: 0 <= k < |s| - |r| ==> IsSpace(s[k])
    ensures r == [] || !IsSpace(r[0])
    decreases |s|
  {
    if |s| > 0 && IsSpace(s[0]) then TrimStart(s[1..]) else s
  }

  /** Drops the trailing whitespace: the result is a prefix and only whitespace was dropped. */
  function TrimEnd(s: string): (r: string)
    ensures |r| <= |s| && r == s[..|r|]
    ensures forall k :: |r| <= k < |s| ==> IsSpace(s[k])
    ensures r == [] || !IsSpace(r[|r| - 1])
    decreases |s|
  {
    if |s| > 0 && IsSpace(s[|s| - 1]) then TrimEnd(s[..|s| - 1]) else s
  }

  /** Every character of `s` before index `a` and from index `b` on is whitespace. */
  predicate SpaceOutside(s: string, a: nat, b: nat)
    requires a <= b <= |s|
  {
    (forall k :: 0 <= k < a ==> IsSpace(s[k])) && (forall k :: b <= k < |s| ==> IsSpace(s[k]))
  }

  /** `r` is a slice `s[a..b]` of `s` with nothing but whitespace outside it. */
  predicate SliceWithinSpace(s: string, r: string) {
    exists a, b :: 0 <= a <= b <= |s| && r == s[a..b] && SpaceOutside(s, a, b)
  }

  /**
   * Python's `s.strip()`: the slice of `s` left after removing whitespace
   * from both ends, empty exactly when `s` is all whitespace.
   */
  function Strip(s: string): (r: string)
    ensures SliceWithinSpace(s, r)
    ensures r == [] <==> forall k :: 0 <= k < |s| ==> IsSpace(s[k])
    ensures r == [] || (!IsSpace(r[0]) && !IsSpace(r[|r| - 1]))
  {
    TrimBoth(s);
    TrimmedIsSlice(s);
    TrimEnd(TrimStart(s))
  }

  /** A string with a non-whitespace character strips to a non-empty string. */
  lemma StripNonBlank(s: string, k: nat)
    requires k < |s| && !IsSpace(s[k])
    ensures Strip(s) != []
  {
    assert !(forall j :: 0 <= j < |s| ==> IsSpace(s[j])) by {
      assert !IsSpace(s[k]);
    }
  }

  lemma TrimmedIsSlice(s: string)
    ensures SliceWithinSpace(s, TrimEnd(TrimStart(s)))
  {
    var t := TrimStart(s);
    var d := |s| - |t|;
    InnerSlice(s, t, TrimEnd(t), d);
  }

  lemma TrimBoth(s: string)
    ensures var r := TrimEnd(TrimStart(s));
      && (r == [] <==> forall k :: 0 <= k < |s| ==> IsSpace(s[k]))
      && (r == [] || (!IsSpace(r[0]) && !IsSpace(r[|r| - 1])))
  {
    var t := TrimStart(s);
    var r := TrimEnd(t);
    var d := |s| - |t|;
    if r != [] {
      assert r[0] == t[0];
      assert !IsSpace(s[d]);
    } else {
      assert t == [];
    }
  }

  /** Cutting whitespace from the front and then from the back leaves a slice with whitespace around it. */
  lemma InnerSlice(s: string, t: string, r: string, d: nat)
    requires d <= |s| && t == s[d..] && |r| <= |t| && r == t[..|r|]
    requires forall k :: 0 <= k < d ==> IsSpace(s[k])
    requires forall k :: |r| <= k < |t| ==> IsSpace(t[k])
    ensures d + |r| <= |s| && r == s[d..d + |r|] && SpaceOutside(s, d, d + |r|)
  {
    forall k | d + |r| <= k < |s| ensures IsSpace(s[k]) {
      assert s[k] == t[k - d];
    }
  }

  /** Text with no surrounding whitespace comes out of `strip()` verbatim. */
  lemma StripKeepsTrimmedText(s: string)
    requires s == [] || (!IsSpace(s[0]) && !IsSpace(s[|s| - 1]))
    ensures Strip(s) == s
  {
  }

  /** Python's `a < b` on `str`: lexicographic by code point, a proper prefix first. */
  predicate LexLess(a: string, b: string) {
    if a == [] then b != []
    else b != [] && (a[0] < b[0] || (a[0] == b[0] && LexLess(a[1..], b[1..])))
  }

  lemma {:induction false} LexAsymmetric(a: string, b: string)
    ensures LexLess(a, b) ==> !LexLess(b, a)
  {
    if a != [] && b != [] && a[0] == b[0] {
      LexAsymmetric(a[1..], b[1..]);
    }
  }

  lemma {:induction false} LexTransitive(a: string, b: string, c: string)
    requires LexLess(a, b) && LexLess(b, c)
    ensures LexLess(a, c)
  {
    if a != [] && a[0] == b[0] && b[0] == c[0] {
      LexTransitive(a[1..], b[1..], c[1..]);
    }
  }

  lemma {:induction false} LexTotal(a: string, b: string)
    ensures a == b || LexLess(a, b) || LexLess(b, a)
  {
    if a != [] && b != [] && a[0] == b[0] {
      LexTotal(a[1..], b[1..]);
      if a[1..] == b[1..] {
        assert a == [a[0]] + a[1..] && b == [b[0]] + b[1..];
      }
    }
  }
}
