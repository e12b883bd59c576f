/** Shared vocabulary: optional values, bounded histories and the string tests
    the services apply to names and candidates. */
module Common {

  datatype Option<+T> = None | Some(value: T)

  // ---------------------------------------------------------------------------
  // Bounded histories
  // ---------------------------------------------------------------------------

  /** The most recent `n` entries of `s`, in their original order. Every bounded
      history of the system (the debug log, the window-size history, the stats
      history of the counter page, the metrics window of the video socket) is
      this function applied after an append. */
  function KeepLast<T>(s: seq<T>, n: nat): (r: seq<T>)
    ensures |r| == if |s| <= n then |s| else n
    ensures forall i :: 0 <= i < |r| ==> r[i] == s[|s| - |r| + i]
  {
    if |s| <= n then s else s[|s| - n..]
  }

  lemma {:induction false} KeepLastAppend<T>(h: seq<T>, x: T, n: nat)
    requires n > 0
    ensures |KeepLast(h + [x], n)| <= n
    ensures KeepLast(h + [x], n)[|KeepLast(h + [x], n)| - 1] == x
    ensures |h| < n ==> KeepLast(h + [x], n) == h + [x]
  {
    var r := KeepLast(h + [x], n);
    assert r[|r| - 1] == (h + [x])[|h + [x]| - 1];
  }

  /** Dropping the oldest entry once after an append keeps the last `n`
      entries as long as the history held at most `n` entries before. */
  lemma {:induction false} ShiftOnceIsKeepLast<T>(h: seq<T>, x: T, n: nat)
    requires |h| <= n
    ensures (if |h + [x]| > n then (h + [x])[1..] else h + [x]) == KeepLast(h + [x], n)
  {
    if |h + [x]| > n {
      assert |h| == n;
      assert (h + [x])[1..] == (h + [x])[|h + [x]| - n..];
    }
  }

  // ---------------------------------------------------------------------------
  // Sequence tests
  // ---------------------------------------------------------------------------

  predicate StartsWith<T(==)>(s: seq<T>, prefix: seq<T>)
  {
    |prefix| <= |s| && s[..|prefix|] == prefix
  }

  predicate EndsWith<T(==)>(s: seq<T>, suffix: seq<T>)
  {
    |suffix| <= |s| && s[|s| - |suffix|..] == suffix
  }

  /** `needle` occurs in `s` starting at position `i`. */
  predicate OccursAt<T(==)>(s: seq<T>, needle: seq<T>, i: int)
  {
    0 <= i <= |s| - |needle| && s[i..i + |needle|] == needle
  }

  /** `needle` occurs somewhere in `s` (JavaScript `String.prototype.includes`). */
  predicate Contains<T(==)>(s: seq<T>, needle: seq<T>)
  {
    exists i :: 0 <= i <= |s| - |needle| && OccursAt(s, needle, i)
  }

  // ---------------------------------------------------------------------------
  // Characters
  // ---------------------------------------------------------------------------

  /** ASCII lower-casing of one character; every other character is kept. */
  function LowerChar(c: char): (r: char)
    ensures 'A' <= c <= 'Z' ==> 'a' <= r <= 'z'
    ensures !('A' <= c <= 'Z') ==> r == c
  {
    if 'A' <= c <= 'Z' then (c as int + 32) as char else c
  }

  function Lower(s: string): (r: string)
    ensures |r| == |s|
    ensures forall i :: 0 <= i < |s| ==> r[i] == LowerChar(s[i])
  {
    seq(|s|, i requires 0 <= i < |s| => LowerChar(s[i]))
  }

  /** A string of `n` spaces. */
  function Spaces(n: nat): (r: string)
    ensures |r| == n
    ensures forall i :: 0 <= i < n ==> r[i] == ' '
  {
    seq(n, _ => ' ')
  }
}
