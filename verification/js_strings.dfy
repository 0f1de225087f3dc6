/** The slice of ECMAScript string behaviour the launcher relies on: the `\s`
    class of regular expressions (which is also what String.prototype.trim
    strips), case-insensitive matching of ASCII patterns, indexOf, split on one
    character and join. Strings are sequences of characters; the launcher only
    ever compares them against ASCII patterns. */
module JsStrings {

  /** ECMAScript WhiteSpace or LineTerminator: the `\s` class. */
  predicate IsSpace(c: char) {
    || c == '\t' || c == '\n' || c == '\U{000B}' || c == '\U{000C}' || c == '\r' || c == ' '
    || c == '\U{00A0}' || c == '\U{1680}' || ('\U{2000}' <= c <= '\U{200A}')
    || c == '\U{2028}' || c == '\U{2029}' || c == '\U{202F}' || c == '\U{205F}'
    || c == '\U{3000}' || c == '\U{FEFF}'
  }

  /** ECMAScript LineTerminator: the characters `.` does not match. */
  predicate IsLineTerminator(c: char) {
    c == '\n' || c == '\r' || c == '\U{2028}' || c == '\U{2029}'
  }

  predicate AllSpace(s: string) {
    forall k :: 0 <= k < |s| ==> IsSpace(s[k])
  }

  predicate NoSpace(s: string) {
    forall k :: 0 <= k < |s| ==> !IsSpace(s[k])
  }

  predicate NoLineTerminator(s: string) {
    forall k :: 0 <= k < |s| ==> !IsLineTerminator(s[k])
  }

  /** Neither end of `s` is whitespace: what trim leaves untouched. */
  predicate Unpadded(s: string) {
    s == [] || (!IsSpace(s[0]) && !IsSpace(s[|s| - 1]))
  }

  /** Upper-cases ASCII letters and leaves every other character alone. A
      case-insensitive regular expression without the `u` flag never maps a
      non-ASCII character onto an ASCII one, so against an ASCII pattern this
      fold decides a match exactly as the engine does. */
  function AsciiUpper(c: char): char {
    if 'a' <= c <= 'z' then (c as int - 32) as char else c
  }

  /** `pattern` occurs at position `p` of `s`, ignoring ASCII case. */
  predicate OccursAtIgnoringCase(s: string, p: nat, pattern: string) {
    && p + |pattern| <= |s|
    && forall k :: 0 <= k < |pattern| ==> AsciiUpper(s[p + k]) == AsciiUpper(pattern[k])
  }

  /** A regular expression `/^pattern/i`. */
  predicate StartsWithIgnoringCase(s: string, pattern: string) {
    OccursAtIgnoringCase(s, 0, pattern)
  }

  /** A regular expression `/pattern$/i`. */
  predicate EndsWithIgnoringCase(s: string, pattern: string) {
    |pattern| <= |s| && OccursAtIgnoringCase(s, |s| - |pattern|, pattern)
  }

  /** String.prototype.endsWith. */
  predicate EndsWith(s: string, suffix: string) {
    |suffix| <= |s| && s[|s| - |suffix|..] == suffix
  }

  /** The leading whitespace of `s` removed, and nothing else. */
  function TrimStart(s: string): (r: string)
    ensures |r| <= |s|
    ensures r == s[|s| - |r|..]
    ensures AllSpace(s[..|s| - |r|])
    ensures r != [] ==> !IsSpace(r[0])
  {
    if s != [] && IsSpace(s[0]) then TrimStart(s[1..]) else s
  }

  /** The trailing whitespace of `s` removed, and nothing else. */
  function TrimEnd(s: string): (r: string)
    ensures |r| <= |s|
    ensures r == s[..|r|]
    ensures AllSpace(s[|r|..])
    ensures r != [] ==> !IsSpace(r[|r| - 1])
  {
    if s != [] && IsSpace(s[|s| - 1]) then TrimEnd(s[..|s| - 1]) else s
  }

  /** String.prototype.trim. */
  function Trim(s: string): (r: string)
    ensures Unpadded(r)
    ensures |r| <= |s|
    ensures r == [] <==> AllSpace(s)
  {
    var t := TrimStart(s);
    TrimOfAllSpace(s, t);
    TrimEnd(t)
  }

  /** Whitespace on both sides of a join is whitespace in the whole. */
  lemma AllSpaceConcat(a: string, b: string)
    ensures AllSpace(a + b) <==> AllSpace(a) && AllSpace(b)
  {
    if AllSpace(a + b) {
      forall k | 0 <= k < |a| ensures IsSpace(a[k]) {
        assert a[k] == (a + b)[k];
      }
      forall k | 0 <= k < |b| ensures IsSpace(b[k]) {
        assert b[k] == (a + b)[|a| + k];
      }
    }
    if AllSpace(a) && AllSpace(b) {
      forall k | 0 <= k < |a + b| ensures IsSpace((a + b)[k]) {
        if k < |a| { assert (a + b)[k] == a[k]; } else { assert (a + b)[k] == b[k - |a|]; }
      }
    }
  }

  /** After the leading whitespace is gone, the rest trims to nothing only
      when the whole string was whitespace. */
  lemma TrimOfAllSpace(s: string, t: string)
    requires t == TrimStart(s)
    ensures TrimEnd(t) == [] <==> AllSpace(s)
    ensures TrimEnd(t) != [] ==> TrimEnd(t)[0] == t[0]
  {
    var p := s[..|s| - |t|];
    assert s == p + t;
    AllSpaceConcat(p, t);
    var r := TrimEnd(t);
    if r == [] {
      assert t[|r|..] == t;
    } else {
      assert r[0] == t[0];
    }
  }

  /** TrimStart removes exactly a whitespace prefix that stops at a non-space character. */
  lemma {:induction false} TrimStartOfPadded(a: string, b: string)
    requires AllSpace(a)
    requires b == [] || !IsSpace(b[0])
    ensures TrimStart(a + b) == b
    decreases |a|
  {
    if a == [] {
      assert a + b == b;
    } else {
      assert (a + b)[0] == a[0];
      assert (a + b)[1..] == a[1..] + b;
      TrimStartOfPadded(a[1..], b);
    }
  }

  /** TrimEnd removes exactly a whitespace suffix that follows a non-space character. */
  lemma {:induction false} TrimEndOfPadded(b: string, c: string)
    requires AllSpace(c)
    requires b == [] || !IsSpace(b[|b| - 1])
    ensures TrimEnd(b + c) == b
    decreases |c|
  {
    if c == [] {
      assert b + c == b;
    } else {
      assert (b + c)[|b + c| - 1] == c[|c| - 1];
      assert (b + c)[..|b + c| - 1] == b + c[..|c| - 1];
      TrimEndOfPadded(b, c[..|c| - 1]);
    }
  }

  /** TrimEnd never removes a non-space character, nor anything before one. */
  lemma {:induction false} TrimEndKeeps(s: string, k: nat)
    requires k < |s| && !IsSpace(s[k])
    ensures k < |TrimEnd(s)|
    decreases |s|
  {
    if IsSpace(s[|s| - 1]) {
      assert k < |s| - 1;
      TrimEndKeeps(s[..|s| - 1], k);
    }
  }

  /** A string that starts with a non-space character only loses its end. */
  lemma TrimOfUnpaddedStart(s: string)
    requires s != [] && !IsSpace(s[0])
    ensures Trim(s) == TrimEnd(s)
  {
    TrimStartOfPadded([], s);
    assert [] + s == s;
  }

  /** TrimEnd keeps every prefix that ends in a non-space character. */
  lemma TrimEndKeepsPrefix(s: string, n: nat)
    requires 0 < n <= |s| && !IsSpace(s[n - 1])
    ensures s[..n] <= TrimEnd(s)
  {
    TrimEndKeeps(s, n - 1);
  }

  /** Trim keeps an unpadded, non-empty head of a string intact. */
  lemma TrimKeepsHead(head: string, rest: string)
    requires head != [] && Unpadded(head)
    ensures head <= Trim(head + rest)
  {
    var s := head + rest;
    assert s[0] == head[0];
    TrimOfUnpaddedStart(s);
    assert s[|head| - 1] == head[|head| - 1];
    TrimEndKeepsPrefix(s, |head|);
    assert s[..|head|] == head;
  }

  /** Trim takes exactly the whitespace margins away: a string that is an
      unpadded core between two runs of whitespace trims to its core. Every
      string has this shape, so this pins Trim down completely. */
  lemma TrimOfPadded(before: string, core: string, after: string)
    requires AllSpace(before) && AllSpace(after) && Unpadded(core)
    ensures Trim(before + core + after) == core
  {
    if core == [] {
      AllSpaceConcat(before, after);
      assert before + core + after == before + after;
    } else {
      assert before + core + after == before + (core + after);
      assert (core + after)[0] == core[0];
      TrimStartOfPadded(before, core + after);
      TrimEndOfPadded(core, after);
    }
  }

  /** Trimming twice is trimming once. */
  lemma TrimIdempotent(s: string)
    ensures Trim(Trim(s)) == Trim(s)
  {
    TrimOfPadded([], Trim(s), []);
    assert [] + Trim(s) + [] == Trim(s);
  }

  /** String.prototype.indexOf for one character, with "absent" reported as
      |s| rather than -1. */
  function IndexOf(s: string, c: char): (i: nat)
    ensures i <= |s|
    ensures forall k :: 0 <= k < i ==> s[k] != c
    ensures i < |s| ==> s[i] == c
    ensures i == |s| <==> c !in s
  {
    if s == [] || s[0] == c then 0 else 1 + IndexOf(s[1..], c)
  }

  /** The first occurrence of `c` in `a + [c] + b`, where `a` has none, is right after `a`. */
  lemma IndexOfAfterPrefix(a: string, c: char, b: string)
    requires c !in a
    ensures IndexOf(a + [c] + b, c) == |a|
  {
    var s := a + [c] + b;
    assert s[|a|] == c;
    assert forall k :: 0 <= k < |a| ==> s[k] == a[k];
  }

  /** String.prototype.split with a one-character separator. */
  function Split(s: string, sep: char): (parts: seq<string>)
    ensures |parts| >= 1
    ensures forall k :: 0 <= k < |parts| ==> sep !in parts[k]
    decreases |s|
  {
    var i := IndexOf(s, sep);
    if i == |s| then [s] else [s[..i]] + Split(s[i + 1..], sep)
  }

  /** Array.prototype.join. */
  function Join(parts: seq<string>, sep: string): string {
    if |parts| == 0 then ""
    else if |parts| == 1 then parts[0]
    else parts[0] + sep + Join(parts[1..], sep)
  }

  /** One step of Split: the piece before the first separator, then the
      split of the rest. */
  lemma SplitStep(s: string, sep: char)
    requires sep in s
    ensures IndexOf(s, sep) < |s|
    ensures Split(s, sep) == [s[..IndexOf(s, sep)]] + Split(s[IndexOf(s, sep) + 1..], sep)
  {
    var i := IndexOf(s, sep);
    assert i < |s|;
    assert Split(s, sep) == [s[..i]] + Split(s[i + 1..], sep);
  }

  /** One step of Join on a list of at least two pieces. */
  lemma JoinStep(head: string, rest: seq<string>, sep: string)
    requires |rest| >= 1
    ensures Join([head] + rest, sep) == head + sep + Join(rest, sep)
  {
    var parts := [head] + rest;
    assert parts[0] == head;
    assert parts[1..] == rest;
  }

  /** Joining the pieces of a split with the separator gives back the string. */
  lemma {:induction false} JoinSplit(s: string, sep: char)
    ensures Join(Split(s, sep), [sep]) == s
    decreases |s|
  {
    if sep in s {
      var i := IndexOf(s, sep);
      SplitStep(s, sep);
      var tail := s[i + 1..];
      JoinSplit(tail, sep);
      JoinStep(s[..i], Split(tail, sep), [sep]);
      assert s == s[..i] + [sep] + tail;
    } else {
      assert Split(s, sep) == [s];
    }
  }

  /** Splitting a join of separator-free pieces gives back the pieces. */
  lemma {:induction false} SplitJoin(parts: seq<string>, sep: char)
    requires |parts| >= 1
    requires forall k :: 0 <= k < |parts| ==> sep !in parts[k]
    ensures Split(Join(parts, [sep]), sep) == parts
  {
    if |parts| == 1 {
      assert Join(parts, [sep]) == parts[0];
    } else {
      var tail := Join(parts[1..], [sep]);
      var s := parts[0] + [sep] + tail;
      assert Join(parts, [sep]) == s;
      IndexOfAfterPrefix(parts[0], sep, tail);
      assert s[..|parts[0]|] == parts[0];
      assert s[|parts[0]| + 1..] == tail;
      assert Split(s, sep) == [parts[0]] + Split(tail, sep);
      SplitJoin(parts[1..], sep);
      assert parts == [parts[0]] + parts[1..];
    }
  }

  /** The last piece of a split: `s.split(sep).pop()`. */
  function LastSegment(s: string, sep: char): string {
    var parts := Split(s, sep);
    parts[|parts| - 1]
  }

  /** Past the first separator, the last piece is the last piece of the rest. */
  lemma LastSegmentOfRest(s: string, sep: char)
    requires sep in s
    ensures LastSegment(s, sep) == LastSegment(s[IndexOf(s, sep) + 1..], sep)
  {
    var i := IndexOf(s, sep);
    var rest := Split(s[i + 1..], sep);
    SplitStep(s, sep);
    assert ([s[..i]] + rest)[|rest|] == rest[|rest| - 1];
  }

  /** The last piece of a split is the longest suffix of `s` free of the
      separator: all of `s` when it has none, and otherwise what follows
      its last occurrence. */
  lemma {:induction false} LastSegmentIsMaximalSuffix(s: string, sep: char)
    ensures |LastSegment(s, sep)| <= |s|
    ensures LastSegment(s, sep) == s[|s| - |LastSegment(s, sep)|..]
    ensures sep !in LastSegment(s, sep)
    ensures |LastSegment(s, sep)| < |s| ==> s[|s| - |LastSegment(s, sep)| - 1] == sep
    ensures sep !in s ==> LastSegment(s, sep) == s
    decreases |s|
  {
    if sep in s {
      var i := IndexOf(s, sep);
      var tail := s[i + 1..];
      LastSegmentOfRest(s, sep);
      LastSegmentIsMaximalSuffix(tail, sep);
      SuffixOfSuffix(s, i, LastSegment(tail, sep), sep);
    } else {
      assert Split(s, sep) == [s];
    }
  }

  /** A suffix `r` of what follows a separator at `i`, preceded there by a
      separator unless it is all of it, is a suffix of the whole string
      preceded by a separator. */
  lemma SuffixOfSuffix(s: string, i: nat, r: string, sep: char)
    requires i < |s| && s[i] == sep
    requires |r| <= |s| - i - 1 && r == s[i + 1..][|s| - i - 1 - |r|..]
    requires |r| < |s| - i - 1 ==> s[i + 1..][|s| - i - 1 - |r| - 1] == sep
    ensures r == s[|s| - |r|..]
    ensures s[|s| - |r| - 1] == sep
  {
    var tail := s[i + 1..];
    var n := |s| - |r|;
    assert |tail| - |r| == n - i - 1;
    forall k | 0 <= k < |r|
      ensures r[k] == s[n + k]
    {
      assert r[k] == tail[n - i - 1 + k];
    }
    if |r| < |tail| {
      assert s[n - 1] == tail[n - i - 2];
    }
  }
}
