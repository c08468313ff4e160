/**
  The string operations the DCA form handler relies on: Python's `str.strip()`
  with no argument and `str.split(sep)` with a non-empty separator.
*/
module Text {
  import opened Wrappers

  /** Python's `str.isspace()` for one character. */
  predicate IsSpace(c: char) {
    var n := c as int;
    || (0x09 <= n <= 0x0D) || (0x1C <= n <= 0x20) || n == 0x85 || n == 0xA0
    || n == 0x1680 || (0x2000 <= n <= 0x200A) || n == 0x2028 || n == 0x2029
    || n == 0x202F || n == 0x205F || n == 0x3000
  }

  predicate AllSpace(s: string) {
    forall k :: 0 <= k < |s| ==> IsSpace(s[k])
  }

  /** Index of the first non-space at or after `from` (or `|s|`). */
  function SkipSpaces(s: string, from: nat): (n: nat)
    requires from <= |s|
    ensures from <= n <= |s|
    ensures forall k :: from <= k < n ==> IsSpace(s[k])
    ensures n < |s| ==> !IsSpace(s[n])
    decreases |s| - from
  {
    if from < |s| && IsSpace(s[from]) then SkipSpaces(s, from + 1) else from
  }

  /** One past the last non-space before `hi`, not going below `lo` (or `lo`). */
  function SkipSpacesBack(s: string, lo: nat, hi: nat): (n: nat)
    requires lo <= hi <= |s|
    ensures lo <= n <= hi
    ensures forall k :: n <= k < hi ==> IsSpace(s[k])
    ensures n > lo ==> !IsSpace(s[n - 1])
    decreases hi
  {
    if hi > lo && IsSpace(s[hi - 1]) then SkipSpacesBack(s, lo, hi - 1) else hi
  }

  /** Where the text left by `str.strip()` begins. */
  function StripStart(s: string): nat {
    SkipSpaces(s, 0)
  }

  /**
    `str.strip()`: the input with its leading and trailing whitespace cut off.
    The result is the piece of the input at offset `StripStart(s)`, everything
    before and after that piece is whitespace, and the piece itself starts and
    ends with a non-space, so it is empty exactly when the input is all
    whitespace.
  */
  function Strip(s: string): (r: string)
    ensures var i := StripStart(s);
      && i + |r| <= |s|
      && r == s[i..i + |r|]
      && (forall k :: 0 <= k < i ==> IsSpace(s[k]))
      && (forall k :: i + |r| <= k < |s| ==> IsSpace(s[k]))
    ensures r != [] ==> !IsSpace(r[0]) && !IsSpace(r[|r| - 1])
    ensures r == [] <==> AllSpace(s)
  {
    var i := SkipSpaces(s, 0);
    var j := SkipSpacesBack(s, i, |s|);
    assert i < |s| ==> j > i;
    s[i..j]
  }

  /** Stripping twice changes nothing. */
  lemma StripIdempotent(s: string)
    ensures Strip(Strip(s)) == Strip(s)
  {
    var r := Strip(s);
    if r != [] {
      assert StripStart(r) == 0;
      assert SkipSpacesBack(r, 0, |r|) == |r|;
    }
  }

  /** Text that neither starts nor ends with whitespace is left as it is. */
  lemma StripKeeps(s: string)
    requires s != [] && !IsSpace(s[0]) && !IsSpace(s[|s| - 1])
    ensures Strip(s) == s
  {
    assert StripStart(s) == 0;
  }

  /** `sep` occurs in `s` starting at index `i`. */
  predicate OccursAt(s: string, sep: string, i: int) {
    0 <= i && i + |sep| <= |s| && s[i..i + |sep|] == sep
  }

  predicate Contains(s: string, sep: string) {
    exists i :: 0 <= i <= |s| && OccursAt(s, sep, i)
  }

  /** The leftmost occurrence of `sep` at or after `from`. */
  function FindFrom(s: string, sep: string, from: nat): (r: Option<nat>)
    requires |sep| > 0
    ensures r.Some? ==> from <= r.value && OccursAt(s, sep, r.value)
    ensures r.Some? ==> forall j :: from <= j < r.value ==> !OccursAt(s, sep, j)
    ensures r.None? ==> forall j :: from <= j ==> !OccursAt(s, sep, j)
    decreases |s| - from
  {
    if from + |sep| > |s| then None
    else if s[from..from + |sep|] == sep then Some(from)
    else FindFrom(s, sep, from + 1)
  }

  function Find(s: string, sep: string): (r: Option<nat>)
    requires |sep| > 0
    ensures r.None? <==> !Contains(s, sep)
    ensures r.Some? ==> OccursAt(s, sep, r.value) && forall j :: 0 <= j < r.value ==> !OccursAt(s, sep, j)
  {
    FindFrom(s, sep, 0)
  }

  /** Concatenation of the parts with `sep` between neighbours: `sep.join(parts)`. */
  function Join(parts: seq<string>, sep: string): string
    requires |parts| >= 1
    decreases |parts|
  {
    if |parts| == 1 then parts[0] else parts[0] + sep + Join(parts[1..], sep)
  }

  /**
    A prefix of `s` too short to hold an occurrence of `sep` starting at or
    after `i`, where `s` has none before `i`, does not contain `sep`.
  */
  lemma PrefixBeforeFirst(s: string, sep: string, i: nat, n: nat)
    requires |sep| > 0 && n <= |s| && n < i + |sep|
    requires forall j :: 0 <= j < i ==> !OccursAt(s, sep, j)
    ensures !Contains(s[..n], sep)
  {
    forall j | OccursAt(s[..n], sep, j)
      ensures false
    {
      assert s[..n][j..j + |sep|] == s[j..j + |sep|];
      assert OccursAt(s, sep, j);
    }
  }

  /**
    `str.split(sep)`: cuts `s` at every occurrence of `sep`, scanning left to
    right without overlaps. Joining the parts with `sep` gives `s` back, and
    no part contains `sep`. Each cut is at the leftmost occurrence: no part
    followed by the separator contains `sep` before that separator ends,
    which together with the round trip fixes the parts.
  */
  function Split(s: string, sep: string): (parts: seq<string>)
    requires |sep| > 0
    ensures |parts| >= 1
    ensures Join(parts, sep) == s
    ensures forall k :: 0 <= k < |parts| ==> !Contains(parts[k], sep)
    ensures forall k :: 0 <= k < |parts| - 1 ==> !Contains(parts[k] + sep[..|sep| - 1], sep)
    decreases |s|
  {
    match Find(s, sep)
    case None => [s]
    case Some(i) =>
      var rest := Split(s[i + |sep|..], sep);
      PrefixBeforeFirst(s, sep, i, i);
      PrefixBeforeFirst(s, sep, i, i + |sep| - 1);
      assert s[..i] + sep[..|sep| - 1] == s[..i + |sep| - 1];
      var parts := [s[..i]] + rest;
      assert parts[1..] == rest;
      assert s == s[..i] + sep + s[i + |sep|..];
      parts
  }

  /**
    The parts `Split` promises are the only ones: any cutting of `s` that
    joins back to it, with no part containing `sep` and every cut at the
    leftmost occurrence, is the one `Split` makes.
  */
  lemma {:induction false} SplitUnique(s: string, sep: string, parts: seq<string>)
    requires |sep| > 0 && |parts| >= 1 && Join(parts, sep) == s
    requires forall k :: 0 <= k < |parts| ==> !Contains(parts[k], sep)
    requires forall k :: 0 <= k < |parts| - 1 ==> !Contains(parts[k] + sep[..|sep| - 1], sep)
    ensures parts == Split(s, sep)
    decreases |parts|
  {
    if |parts| == 1 {
      assert Find(s, sep).None?;
    } else {
      var p0, tail := parts[0], Join(parts[1..], sep);
      assert s == p0 + sep + tail;
      var i := |p0|;
      assert s[i..i + |sep|] == sep;
      forall j | 0 <= j < i
        ensures !OccursAt(s, sep, j)
      {
        var head := p0 + sep[..|sep| - 1];
        assert head == s[..i + |sep| - 1];
        assert head[j..j + |sep|] == s[j..j + |sep|];
        assert !OccursAt(head, sep, j);
      }
      assert OccursAt(s, sep, i);
      assert Find(s, sep).Some?;
      assert Find(s, sep) == Some(i);
      assert s[i + |sep|..] == tail;
      SplitUnique(tail, sep, parts[1..]);
      assert parts == [p0] + parts[1..];
    }
  }
}
