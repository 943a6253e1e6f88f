/**
  The parts of Go's `strings` package that the reconciliation code relies on:
  `strings.Index` for a one-character separator, `strings.Split` and
  `strings.SplitN` with n >= 1.
 */
module GoStrings {

  /** Number of occurrences of `c` in `s`. */
  function Count(s: string, c: char): nat
  {
    if s == [] then 0 else (if s[0] == c then 1 else 0) + Count(s[1..], c)
  }

  lemma {:induction false} CountConcat(a: string, b: string, c: char)
    ensures Count(a + b, c) == Count(a, c) + Count(b, c)
  {
    if a == [] {
      assert a + b == b;
    } else {
      assert (a + b)[1..] == a[1..] + b;
      CountConcat(a[1..], b, c);
    }
  }

  lemma {:induction false} CountAbsent(s: string, c: char)
    ensures c !in s <==> Count(s, c) == 0
  {
    if s != [] {
      CountAbsent(s[1..], c);
      assert s == [s[0]] + s[1..];
    }
  }

  /** `strings.Index(s, string(c))`: first position of `c`, or -1. */
  function Index(s: string, c: char): (i: int)
    ensures -1 <= i < |s|
    ensures i >= 0 ==> s[i] == c && c !in s[..i]
    ensures i == -1 ==> c !in s
  {
    if s == [] then -1
    else if s[0] == c then 0
    else
      var j := Index(s[1..], c);
      assert j >= 0 ==> s[..j + 1] == [s[0]] + s[1..][..j];
      if j < 0 then -1 else j + 1
  }

  /** The first occurrence of `c` in `a + [c] + b` is the one after `a`, when `a` has none. */
  lemma IndexAfterPrefix(a: string, b: string, c: char)
    requires c !in a
    ensures Index(a + [c] + b, c) == |a|
  {
    var s := a + [c] + b;
    var i := Index(s, c);
    assert s[|a|] == c;
    assert s[..|a|] == a;
    assert forall k :: 0 <= k < |a| ==> s[k] == a[k];
  }

  /** `strings.Split(s, string(c))`: every piece between separators, in order. */
  function Split(s: string, c: char): (parts: seq<string>)
    ensures |parts| == Count(s, c) + 1
    decreases |s|
  {
    var i := Index(s, c);
    if i < 0 then
      CountAbsent(s, c);
      [s]
    else
      assert s == s[..i] + [c] + s[i + 1..];
      CountConcat(s[..i] + [c], s[i + 1..], c);
      CountConcat(s[..i], [c], c);
      CountAbsent(s[..i], c);
      [s[..i]] + Split(s[i + 1..], c)
  }

  function Min(a: int, b: int): int { if a < b then a else b }

  /**
    `strings.SplitN(s, string(c), n)` for n >= 1: at most `n` pieces, the last
    one holding the unsplit remainder.
   */
  function SplitN(s: string, c: char, n: nat): (parts: seq<string>)
    requires n >= 1
    ensures |parts| == Min(n, Count(s, c) + 1)
    ensures forall k :: 0 <= k < |parts| - 1 ==> c !in parts[k]
    decreases n
  {
    if n == 1 then
      [s]
    else
      var i := Index(s, c);
      if i < 0 then
        CountAbsent(s, c);
        [s]
      else
        assert s == s[..i] + [c] + s[i + 1..];
        CountConcat(s[..i] + [c], s[i + 1..], c);
        CountConcat(s[..i], [c], c);
        CountAbsent(s[..i], c);
        [s[..i]] + SplitN(s[i + 1..], c, n - 1)
  }

  /** Splitting at a first separator peels off the part before it. */
  lemma SplitNCons(a: string, b: string, c: char, n: nat)
    requires n >= 2 && c !in a
    ensures SplitN(a + [c] + b, c, n) == [a] + SplitN(b, c, n - 1)
  {
    var s := a + [c] + b;
    IndexAfterPrefix(a, b, c);
    assert s[..|a|] == a;
    assert s[|a| + 1..] == b;
  }

  /** One separator-free part and a remainder, as at most two pieces. */
  lemma SplitNTwo(d: string, e: string, c: char)
    requires c !in d
    ensures SplitN(d + [c] + e, c, 2) == [d, e]
  {
    SplitNCons(d, e, c, 2);
  }

  /** Two separator-free parts and a remainder, as at most three pieces. */
  lemma SplitNThree(b: string, d: string, e: string, c: char)
    requires c !in b && c !in d
    ensures SplitN(b + [c] + (d + [c] + e), c, 3) == [b, d, e]
  {
    SplitNCons(b, d + [c] + e, c, 3);
    SplitNTwo(d, e, c);
  }

  /** Three separator-free parts and a remainder, as at most four pieces. */
  lemma SplitNFour(a: string, b: string, d: string, e: string, c: char)
    requires c !in a && c !in b && c !in d
    ensures SplitN(a + [c] + (b + [c] + (d + [c] + e)), c, 4) == [a, b, d, e]
  {
    SplitNCons(a, b + [c] + (d + [c] + e), c, 4);
    SplitNThree(b, d, e, c);
  }

  /** With a separator in the remainder, the second piece of four is `b`. */
  lemma SplitNSecond(a: string, b: string, e: string, c: char)
    requires c !in a && c !in b && c in e
    ensures |SplitN(a + [c] + (b + [c] + e), c, 4)| == 4
    ensures SplitN(a + [c] + (b + [c] + e), c, 4)[1] == b
  {
    CountAbsent(e, c);
    SplitNCons(b, e, c, 3);
    SplitNCons(a, b + [c] + e, c, 4);
  }

  /** A string without the separator splits into itself alone. */
  lemma SplitPlain(s: string, c: char)
    requires c !in s
    ensures Split(s, c) == [s]
  {
  }

  /** Splitting at a first separator peels off the part before it. */
  lemma SplitCons(a: string, b: string, c: char)
    requires c !in a
    ensures Split(a + [c] + b, c) == [a] + Split(b, c)
  {
    var s := a + [c] + b;
    IndexAfterPrefix(a, b, c);
    assert s[..|a|] == a;
    assert s[|a| + 1..] == b;
  }

  /** Two separator-free strings joined by the separator split back into the two. */
  lemma SplitTwo(d: string, e: string, c: char)
    requires c !in d && c !in e
    ensures Split(d + [c] + e, c) == [d, e]
  {
    SplitCons(d, e, c);
    SplitPlain(e, c);
  }

  /** Three separator-free strings joined by the separator split back into the three. */
  lemma SplitThree(b: string, d: string, e: string, c: char)
    requires c !in b && c !in d && c !in e
    ensures Split(b + [c] + (d + [c] + e), c) == [b, d, e]
  {
    SplitCons(b, d + [c] + e, c);
    SplitTwo(d, e, c);
  }

  /** Four separator-free strings joined by the separator split back into the four. */
  lemma SplitFour(a: string, b: string, d: string, e: string, c: char)
    requires c !in a && c !in b && c !in d && c !in e
    ensures Split(a + [c] + (b + [c] + (d + [c] + e)), c) == [a, b, d, e]
  {
    var rest := b + [c] + (d + [c] + e);
    assert Split(rest, c) == [b, d, e] by { SplitThree(b, d, e, c); }
    assert Split(a + [c] + rest, c) == [a] + Split(rest, c) by { SplitCons(a, rest, c); }
  }

  /** The last `c`-separated component of `s` (`s[len(s)-1]` after `strings.Split`). */
  function LastComponent(s: string, c: char): string
  {
    var parts := Split(s, c);
    parts[|parts| - 1]
  }

  /** The last component of `a + sep + b` is the last component of `b`. */
  lemma {:induction false} LastComponentJoin(a: string, b: string, c: char)
    ensures LastComponent(a + [c] + b, c) == LastComponent(b, c)
    decreases |a|
  {
    var i := Index(a, c);
    if i < 0 {
      SplitCons(a, b, c);
    } else {
      var head, rest := a[..i], a[i + 1..];
      var tail := rest + [c] + b;
      AroundSeparator(a, i, c);
      Reassociate(head, rest, b, c);
      assert a + [c] + b == head + [c] + tail;
      SplitCons(head, tail, c);
      var parts := Split(tail, c);
      assert Split(a + [c] + b, c) == [head] + parts;
      assert LastComponent(a + [c] + b, c) == parts[|parts| - 1];
      LastComponentJoin(rest, b, c);
    }
  }

  /** A string is the part before a separator, the separator and the part after it. */
  lemma AroundSeparator(s: string, i: int, c: char)
    requires 0 <= i < |s| && s[i] == c
    ensures s == s[..i] + [c] + s[i + 1..]
  {
  }

  /** Joining three parts with a separator, grouped either way. */
  lemma Reassociate(a: string, b: string, d: string, c: char)
    ensures a + [c] + b + [c] + d == a + [c] + (b + [c] + d)
  {
  }

  /** A string without separators is its own last component. */
  lemma LastComponentPlain(s: string, c: char)
    requires c !in s
    ensures LastComponent(s, c) == s
  {
  }
}
