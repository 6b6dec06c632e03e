/**
 * String helpers shared by the front end and the back end: Python's
 * `sep.join(parts)`, `s.split(sep)`, `s.strip()` and JavaScript's
 * `s.trim()`. Strings are sequences of `char`.
 */
module Text {

  /** JavaScript's `String.prototype.trim` whitespace: the WhiteSpace and LineTerminator code points. */
  const JsWhitespace: set<char> :=
    {'\U{0009}', '\U{000A}', '\U{000B}', '\U{000C}', '\U{000D}', '\U{0020}', '\U{00A0}', '\U{1680}',
     '\U{2000}', '\U{2001}', '\U{2002}', '\U{2003}', '\U{2004}', '\U{2005}', '\U{2006}', '\U{2007}',
     '\U{2008}', '\U{2009}', '\U{200A}', '\U{2028}', '\U{2029}', '\U{202F}', '\U{205F}', '\U{3000}',
     '\U{FEFF}'}

  /** The characters for which Python's `str.isspace` holds, which `str.strip()` removes. */
  const PyWhitespace: set<char> :=
    {'\U{0009}', '\U{000A}', '\U{000B}', '\U{000C}', '\U{000D}', '\U{001C}', '\U{001D}', '\U{001E}',
     '\U{001F}', '\U{0020}', '\U{0085}', '\U{00A0}', '\U{1680}', '\U{2000}', '\U{2001}', '\U{2002}',
     '\U{2003}', '\U{2004}', '\U{2005}', '\U{2006}', '\U{2007}', '\U{2008}', '\U{2009}', '\U{200A}',
     '\U{2028}', '\U{2029}', '\U{202F}', '\U{205F}', '\U{3000}'}

  // ---------------------------------------------------------------------------
  // Join

  /** Python's `sep.join(parts)`. */
  function Join(sep: string, parts: seq<string>): string
    decreases |parts|
  {
    if |parts| == 0 then ""
    else if |parts| == 1 then parts[0]
    else parts[0] + sep + Join(sep, parts[1..])
  }

  /** Joining grows at the back: the last part is appended after one more separator. */
  lemma {:induction false} JoinSnoc(sep: string, parts: seq<string>, last: string)
    requires |parts| > 0
    ensures Join(sep, parts + [last]) == Join(sep, parts) + sep + last
    decreases |parts|
  {
    if |parts| == 1 {
      assert parts + [last] == [parts[0], last];
      assert [parts[0], last][1..] == [last];
    } else {
      assert (parts + [last])[1..] == parts[1..] + [last];
      JoinSnoc(sep, parts[1..], last);
    }
  }

  /** The length of a join: every part once, one separator between neighbours. */
  lemma {:induction false} JoinLength(sep: string, parts: seq<string>)
    requires |parts| > 0
    ensures |Join(sep, parts)| == TotalLength(parts) + (|parts| - 1) * |sep|
    decreases |parts|
  {
    if |parts| > 1 {
      JoinLength(sep, parts[1..]);
    }
  }

  function TotalLength(parts: seq<string>): nat
  {
    if parts == [] then 0 else |parts[0]| + TotalLength(parts[1..])
  }

  // ---------------------------------------------------------------------------
  // Occurrences and Split

  ghost predicate OccursAt(s: string, sep: string, i: int)
  {
    0 <= i && i + |sep| <= |s| && s[i..i + |sep|] == sep
  }

  ghost predicate Contains(s: string, sep: string)
  {
    exists i :: OccursAt(s, sep, i)
  }

  /** The first index at or after `from` where `sep` occurs in `s`, if any. */
  function FindFrom(s: string, sep: string, from: nat): (r: Match)
    requires |sep| > 0
    ensures r.At? ==> from <= r.index && OccursAt(s, sep, r.index)
    ensures r.At? ==> forall j :: from <= j < r.index ==> !OccursAt(s, sep, j)
    ensures r.Absent? ==> forall j :: from <= j ==> !OccursAt(s, sep, j)
    decreases |s| - from
  {
    if from + |sep| > |s| then Absent
    else if s[from..from + |sep|] == sep then At(from)
    else FindFrom(s, sep, from + 1)
  }

  datatype Match = Absent | At(index: nat)

  /** Python's `s.split(sep)` for a non-empty separator. */
  function Split(s: string, sep: string): (parts: seq<string>)
    requires |sep| > 0
    ensures |parts| > 0
    decreases |s|
  {
    match FindFrom(s, sep, 0)
    case Absent => [s]
    case At(i) => [s[..i]] + Split(s[i + |sep|..], sep)
  }

  /** Python's `s.split(sep)[-1]`: the piece after the last separator. */
  function LastPiece(s: string, sep: string): string
    requires |sep| > 0
  {
    var parts := Split(s, sep);
    parts[|parts| - 1]
  }

  /** Splitting and re-joining with the same separator gives back the string. */
  lemma {:induction false} JoinSplit(s: string, sep: string)
    requires |sep| > 0
    ensures Join(sep, Split(s, sep)) == s
    decreases |s|
  {
    match FindFrom(s, sep, 0)
    case Absent =>
    case At(i) =>
      var rest := s[i + |sep|..];
      JoinSplit(rest, sep);
      assert Split(s, sep) == [s[..i]] + Split(rest, sep);
      assert s == s[..i] + sep + rest;
  }

  /**
   * When no part contains the separator's first character, splitting the
   * join gives the parts back.
   */
  lemma {:induction false} SplitJoin(sep: string, parts: seq<string>)
    requires |sep| > 0 && |parts| > 0
    requires forall p :: p in parts ==> sep[0] !in p
    ensures Split(Join(sep, parts), sep) == parts
    decreases |parts|
  {
    var p := parts[0];
    if |parts| == 1 {
      SplitWithout(p, sep);
    } else {
      var rest := Join(sep, parts[1..]);
      assert Join(sep, parts) == p + sep + rest;
      SplitAtFirst(p, sep, rest);
      SplitJoin(sep, parts[1..]);
      assert parts == [p] + parts[1..];
    }
  }

  /** A string without the separator's first character splits into itself alone. */
  lemma SplitWithout(s: string, sep: string)
    requires |sep| > 0 && sep[0] !in s
    ensures Split(s, sep) == [s]
  {
    forall j | 0 <= j < |s| ensures !OccursAt(s, sep, j) {
      assert s[j] in s;
      NoOccurrenceAt(s, sep, j);
    }
    FindFromStart(s, sep);
  }

  /** Splitting `p + sep + rest` cuts at the `sep` right after `p` when `p` lacks the separator's first character. */
  lemma SplitAtFirst(p: string, sep: string, rest: string)
    requires |sep| > 0 && sep[0] !in p
    ensures Split(p + sep + rest, sep) == [p] + Split(rest, sep)
  {
    var s := p + sep + rest;
    assert OccursAt(s, sep, |p|) by {
      assert s[|p|..|p| + |sep|] == sep;
    }
    forall j | 0 <= j < |p| ensures !OccursAt(s, sep, j) {
      assert s[j] == p[j] && p[j] in p;
      NoOccurrenceAt(s, sep, j);
    }
    FirstFound(s, sep, |p|);
    assert s[..|p|] == p && s[|p| + |sep|..] == rest;
  }

  /** An occurrence starts with the separator's first character. */
  lemma NoOccurrenceAt(s: string, sep: string, j: nat)
    requires |sep| > 0 && j < |s| && s[j] != sep[0]
    ensures !OccursAt(s, sep, j)
  {
    if j + |sep| <= |s| {
      assert s[j..j + |sep|][0] == s[j];
    }
  }

  /** The search from the start stops at the first occurrence. */
  lemma FirstFound(s: string, sep: string, i: nat)
    requires |sep| > 0 && OccursAt(s, sep, i)
    requires forall j :: 0 <= j < i ==> !OccursAt(s, sep, j)
    ensures FindFrom(s, sep, 0) == At(i)
  {
  }

  /** No piece of a split contains the separator. */
  lemma {:induction false} SplitPiecesFree(s: string, sep: string, k: nat)
    requires |sep| > 0 && k < |Split(s, sep)|
    ensures !Contains(Split(s, sep)[k], sep)
    decreases |s|
  {
    match FindFrom(s, sep, 0)
    case Absent =>
    case At(i) =>
      if k == 0 {
        var p := s[..i];
        forall j | 0 <= j && j + |sep| <= |p|
          ensures !OccursAt(p, sep, j)
        {
          assert p == s[0..i];
          SliceOfSlice(s, 0, i, j, |sep|);
          assert !OccursAt(s, sep, j);
        }
      } else {
        SplitPiecesFree(s[i + |sep|..], sep, k - 1);
      }
  }

  /** A slice of a slice is a slice of the original, shifted by the outer start. */
  lemma SliceOfSlice(s: string, i: nat, j: nat, k: nat, n: nat)
    requires i <= j <= |s| && k + n <= j - i
    ensures s[i..j][k..k + n] == s[i + k..i + k + n]
  {
    var a, b := s[i..j][k..k + n], s[i + k..i + k + n];
    assert |a| == |b|;
    forall m | 0 <= m < n ensures a[m] == b[m] {
      assert a[m] == s[i..j][k + m] == s[i + k + m];
    }
  }

  /** No occurrence starts inside a suffix that holds none. */
  lemma NoOccurrenceAfter(s: string, sep: string, p: nat, q: nat)
    requires p <= q && q + |sep| <= |s| && !Contains(s[p..], sep)
    ensures !OccursAt(s, sep, q)
  {
    assert !OccursAt(s[p..], sep, q - p);
    SliceOfSlice(s, p, |s|, q - p, |sep|);
  }

  /** A separator whose first character occurs nowhere else in it cannot overlap one of its own occurrences. */
  lemma NoOverlap(s: string, sep: string, i: nat, q: nat)
    requires OccursAt(s, sep, i) && i < q < i + |sep|
    requires forall d :: 0 < d < |sep| ==> sep[d] != sep[0]
    ensures !OccursAt(s, sep, q)
  {
    var d := q - i;
    assert s[i..i + |sep|][d] == sep[d];
    if q + |sep| <= |s| {
      assert s[q..q + |sep|][0] == s[q];
    }
  }

  /** `sep` occurs in `s` exactly when the search from the start finds it. */
  lemma FindFromStart(s: string, sep: string)
    requires |sep| > 0
    ensures Contains(s, sep) <==> FindFrom(s, sep, 0).At?
  {
    if FindFrom(s, sep, 0).At? {
      assert OccursAt(s, sep, FindFrom(s, sep, 0).index);
    }
  }

  /** When `sep` occurs in `s`, the last piece directly follows an occurrence and runs to the end. */
  lemma LastPieceAfterSeparator(s: string, sep: string)
    requires |sep| > 0 && FindFrom(s, sep, 0).At?
    ensures var p := |s| - |LastPiece(s, sep)|;
      |sep| <= p <= |s| && s[p..] == LastPiece(s, sep) && s[p - |sep|..p] == sep
  {
    var parts := Split(s, sep);
    assert |parts| > 1;
    var init, last := parts[..|parts| - 1], parts[|parts| - 1];
    assert parts == init + [last];
    JoinSplit(s, sep);
    JoinSnoc(sep, init, last);
    var pre := Join(sep, init);
    assert s == pre + sep + last;
    assert s[|pre|..|pre| + |sep|] == sep;
  }

  /**
   * The last piece holds no occurrence of `sep`. It is all of `s` when `sep`
   * does not occur; otherwise it is the suffix that directly follows an
   * occurrence of `sep`.
   */
  lemma LastPieceFollowsSeparator(s: string, sep: string)
    requires |sep| > 0
    ensures var last := LastPiece(s, sep);
      && !Contains(last, sep)
      && (!Contains(s, sep) ==> last == s)
      && (Contains(s, sep) ==>
            |last| + |sep| <= |s| && s[|s| - |last|..] == last && OccursAt(s, sep, |s| - |last| - |sep|))
  {
    SplitPiecesFree(s, sep, |Split(s, sep)| - 1);
    FindFromStart(s, sep);
    if Contains(s, sep) {
      LastPieceAfterSeparator(s, sep);
      var last := LastPiece(s, sep);
      var p := |s| - |last|;
      assert s[p - |sep|..p] == sep;
      assert OccursAt(s, sep, p - |sep|);
    }
  }

  // ---------------------------------------------------------------------------
  // Stripping whitespace

  /** The index of the first character at or after `from` that is not in `ws`, or `|s|`. */
  function FirstKept(s: string, ws: set<char>, from: nat): (i: nat)
    requires from <= |s|
    ensures from <= i <= |s|
    ensures forall k :: from <= k < i ==> s[k] in ws
    ensures i == |s| || s[i] !in ws
    decreases |s| - from
  {
    if from < |s| && s[from] in ws then FirstKept(s, ws, from + 1) else from
  }

  /** The end of `s[lo..hi]` once its trailing characters from `ws` are dropped. */
  function EndKept(s: string, ws: set<char>, lo: nat, hi: nat): (j: nat)
    requires lo <= hi <= |s|
    ensures lo <= j <= hi
    ensures forall k :: j <= k < hi ==> s[k] in ws
    ensures j == lo || s[j - 1] !in ws
    decreases hi - lo
  {
    if lo < hi && s[hi - 1] in ws then EndKept(s, ws, lo, hi - 1) else hi
  }

  /** Where the stripped text starts in `s`. */
  function StripStart(s: string, ws: set<char>): nat
    ensures StripStart(s, ws) <= |s|
  {
    FirstKept(s, ws, 0)
  }

  /** Python's `s.strip()` (with `PyWhitespace`) and JavaScript's `s.trim()` (with `JsWhitespace`). */
  function Strip(s: string, ws: set<char>): string
  {
    var i := StripStart(s, ws);
    s[i..EndKept(s, ws, i, |s|)]
  }

  /**
   * What stripping keeps: a contiguous slice `s[i..j]` that neither starts nor
   * ends with whitespace, with only whitespace cut off on either side.
   */
  lemma StripSlice(s: string, ws: set<char>)
    ensures var r := Strip(s, ws);
      var i := StripStart(s, ws);
      && i + |r| <= |s| && r == s[i..i + |r|]
      && (forall k :: 0 <= k < i ==> s[k] in ws)
      && (forall k :: i + |r| <= k < |s| ==> s[k] in ws)
      && (r == [] || (r[0] !in ws && r[|r| - 1] !in ws))
  {
    var i := StripStart(s, ws);
    var j := EndKept(s, ws, i, |s|);
    var r := Strip(s, ws);
    assert r == s[i..j] && |r| == j - i;
    if r != [] {
      assert r[0] == s[i] && r[|r| - 1] == s[j - 1];
    }
  }

  /** A slice of a string without `sep` has no `sep` either. */
  lemma SliceKeepsAbsence(s: string, sep: string, i: nat, t: string)
    requires !Contains(s, sep) && i + |t| <= |s| && t == s[i..i + |t|]
    ensures !Contains(t, sep)
  {
    forall k | 0 <= k && k + |sep| <= |t| ensures !OccursAt(t, sep, k) {
      assert !OccursAt(s, sep, i + k);
      SliceOfSlice(s, i, i + |t|, k, |sep|);
    }
  }

  /** Stripping a string without `sep` leaves a string without `sep`. */
  lemma StripKeepsAbsence(s: string, sep: string, ws: set<char>)
    requires !Contains(s, sep)
    ensures !Contains(Strip(s, ws), sep)
  {
    StripSlice(s, ws);
    SliceKeepsAbsence(s, sep, StripStart(s, ws), Strip(s, ws));
  }

  /** A string strips to nothing exactly when every character is whitespace. */
  lemma StripEmptyIff(s: string, ws: set<char>)
    ensures Strip(s, ws) == [] <==> forall k :: 0 <= k < |s| ==> s[k] in ws
  {
    StripSlice(s, ws);
    var r := Strip(s, ws);
    if r != [] {
      assert r[0] == s[StripStart(s, ws)];
    }
  }

  /** Stripping twice is stripping once. */
  lemma StripIdempotent(s: string, ws: set<char>)
    ensures Strip(Strip(s, ws), ws) == Strip(s, ws)
  {
    var r := Strip(s, ws);
    StripSlice(s, ws);
    assert StripStart(r, ws) == 0;
    assert EndKept(r, ws, 0, |r|) == |r|;
    assert r[0..|r|] == r;
  }
}
