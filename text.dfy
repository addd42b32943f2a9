/**
 * The few pieces of JavaScript's String and Array behaviour that the
 * modelled code relies on: `toLowerCase` (ASCII letters), `startsWith`,
 * `split` on a one-character separator, `join`, and `slice` with its
 * negative-index rules.
 */
module Text {

  /** `toLowerCase` on one character; only the ASCII letters A-Z change. */
  function LowerChar(c: char): char {
    if 'A' <= c <= 'Z' then (c as int + 32) as char else c
  }

  /** `toLowerCase` on a string, character by character. */
  function Lower(s: string): string {
    seq(|s|, i requires 0 <= i < |s| => LowerChar(s[i]))
  }

  /** Lower-casing works character by character, so it splits at any point. */
  lemma LowerSnoc(s: string)
    requires |s| > 0
    ensures Lower(s) == Lower(s[..|s| - 1]) + [LowerChar(s[|s| - 1])]
  {
  }

  lemma LowerAppendChar(s: string, c: char)
    ensures Lower(s + [c]) == Lower(s) + [LowerChar(c)]
  {
    LowerSnoc(s + [c]);
    assert (s + [c])[..|s|] == s;
  }

  predicate StartsWith(s: string, prefix: string) {
    |prefix| <= |s| && s[..|prefix|] == prefix
  }

  predicate EndsWith(s: string, suffix: string) {
    |suffix| <= |s| && s[|s| - |suffix|..] == suffix
  }

  /** A concatenation starts with its first part and ends with its last. */
  lemma Affixes(p: string, m: string, q: string)
    ensures StartsWith(p + m + q, p) && EndsWith(p + m + q, q)
  {
    var s := p + m + q;
    assert s[..|p|] == p;
    assert s[|s| - |q|..] == q;
  }

  /** Number of occurrences of `c` in `s`. */
  function Count(s: string, c: char): nat {
    if s == [] then 0 else (if s[0] == c then 1 else 0) + Count(s[1..], c)
  }

  /**
   * `s.split(sep)` for a one-character separator: the maximal pieces between
   * separators, so there is always one more piece than separators and the
   * empty string splits into [""].
   */
  function Split(s: string, sep: char): (parts: seq<string>)
    ensures |parts| == Count(s, sep) + 1
    ensures forall k :: 0 <= k < |parts| ==> sep !in parts[k]
  {
    if s == [] then [""]
    else
      var rest := Split(s[1..], sep);
      if s[0] == sep then [""] + rest else [[s[0]] + rest[0]] + rest[1..]
  }

  /** `parts.join(sep)`. */
  function Join(parts: seq<string>, sep: string): string {
    if |parts| == 0 then ""
    else if |parts| == 1 then parts[0]
    else parts[0] + sep + Join(parts[1..], sep)
  }

  /** Splitting and joining again with the same separator gives back the text. */
  lemma {:induction false} JoinSplit(s: string, sep: char)
    ensures Join(Split(s, sep), [sep]) == s
  {
    if s != [] {
      var rest := Split(s[1..], sep);
      JoinSplit(s[1..], sep);
      if s[0] == sep {
        assert Split(s, sep) == [""] + rest;
        assert ([""] + rest)[1..] == rest;
      } else {
        var parts := Split(s, sep);
        assert parts == [[s[0]] + rest[0]] + rest[1..];
        if |rest| == 1 {
          assert Join(rest, [sep]) == rest[0];
        } else {
          assert Join(rest, [sep]) == rest[0] + [sep] + Join(rest[1..], [sep]);
          assert parts[1..] == rest[1..];
        }
        assert s == [s[0]] + s[1..];
      }
    }
  }

  /** A text without the separator is a single piece. */
  lemma {:induction false} SplitWithoutSeparator(s: string, sep: char)
    requires sep !in s
    ensures Split(s, sep) == [s]
  {
    if s != [] {
      SplitWithoutSeparator(s[1..], sep);
      assert [s[0]] + s[1..] == s;
    }
  }

  /** A separator after a separator-free head starts a new piece. */
  lemma {:induction false} SplitAtSeparator(head: string, sep: char, tail: string)
    requires sep !in head
    ensures Split(head + [sep] + tail, sep) == [head] + Split(tail, sep)
  {
    var s := head + [sep] + tail;
    if head == [] {
      assert s == [sep] + tail;
      assert s[1..] == tail;
    } else {
      assert s[1..] == head[1..] + [sep] + tail;
      SplitAtSeparator(head[1..], sep, tail);
      assert [head[0]] + head[1..] == head;
    }
  }

  /**
   * The first piece is the text up to the first separator: a prefix of `s`
   * that is followed by a separator or by the end.
   */
  lemma {:induction false} FirstPiece(s: string, sep: char)
    ensures |Split(s, sep)[0]| <= |s|
    ensures s[..|Split(s, sep)[0]|] == Split(s, sep)[0]
    ensures |Split(s, sep)[0]| < |s| ==> s[|Split(s, sep)[0]|] == sep
  {
    if s != [] {
      FirstPiece(s[1..], sep);
    }
  }

  /**
   * Joining the first `k` pieces gives a prefix of joining all of them; if a
   * piece follows, the separator comes next.
   */
  lemma {:induction false} JoinPrefix(parts: seq<string>, sep: string, k: nat)
    requires 1 <= k <= |parts|
    ensures StartsWith(Join(parts, sep), Join(parts[..k], sep))
    ensures k < |parts| ==> StartsWith(Join(parts, sep), Join(parts[..k], sep) + sep)
  {
    if k < |parts| {
      if k == 1 {
        assert Join(parts[..1], sep) == parts[0];
        assert Join(parts, sep) == (parts[0] + sep) + Join(parts[1..], sep);
      } else {
        JoinPrefix(parts[1..], sep, k - 1);
        assert parts[..k][1..] == parts[1..][..k - 1];
        var whole := Join(parts, sep);
        var tailJoin := Join(parts[1..], sep);
        var part := Join(parts[1..][..k - 1], sep);
        assert whole == parts[0] + sep + tailJoin;
        assert Join(parts[..k], sep) == parts[0] + sep + part;
        assert tailJoin[..|part|] == part;
        assert whole[..|parts[0] + sep| + |part|] == parts[0] + sep + tailJoin[..|part|];
        assert tailJoin[..|part| + |sep|] == part + sep;
        assert whole[..|parts[0] + sep| + |part| + |sep|] == parts[0] + sep + tailJoin[..|part| + |sep|];
      }
    } else {
      assert parts[..k] == parts;
    }
  }

  /** Joining `k >= 1` separator-free pieces yields exactly `k - 1` separators. */
  lemma {:induction false} JoinCount(parts: seq<string>, sep: char)
    requires |parts| >= 1
    requires forall k :: 0 <= k < |parts| ==> sep !in parts[k]
    ensures Count(Join(parts, [sep]), sep) == |parts| - 1
  {
    if |parts| == 1 {
      CountAbsent(parts[0], sep);
    } else {
      JoinCount(parts[1..], sep);
      CountAbsent(parts[0], sep);
      CountAppend(parts[0], [sep] + Join(parts[1..], [sep]), sep);
      assert parts[0] + [sep] + Join(parts[1..], [sep]) == parts[0] + ([sep] + Join(parts[1..], [sep]));
      assert ([sep] + Join(parts[1..], [sep]))[1..] == Join(parts[1..], [sep]);
    }
  }

  lemma {:induction false} CountAbsent(s: string, c: char)
    requires c !in s
    ensures Count(s, c) == 0
  {
    if s != [] {
      CountAbsent(s[1..], c);
    }
  }

  lemma {:induction false} CountAppend(a: string, b: string, c: char)
    ensures Count(a + b, c) == Count(a, c) + Count(b, c)
  {
    if a != [] {
      assert (a + b)[1..] == a[1..] + b;
      CountAppend(a[1..], b, c);
    } else {
      assert a + b == b;
    }
  }

  /**
   * An index argument of `Array.prototype.slice`: a negative index counts
   * from the end, and the result is clamped to 0..n.
   */
  function RelativeIndex(k: int, n: nat): (i: nat)
    ensures i <= n
    ensures k >= 0 ==> i == if k < n then k else n
    ensures k < 0 ==> i == if n + k > 0 then n + k else 0
  {
    if k < 0 then (if n + k > 0 then n + k else 0)
    else if k < n then k else n
  }

  /** `s.slice(start, end)`. */
  function Slice<T>(s: seq<T>, start: int, end: int): seq<T> {
    var lo := RelativeIndex(start, |s|);
    var hi := RelativeIndex(end, |s|);
    if lo < hi then s[lo..hi] else []
  }

  /** `s.slice(start)`: up to the end. */
  function SliceFrom<T>(s: seq<T>, start: int): seq<T> {
    Slice(s, start, |s|)
  }
}
