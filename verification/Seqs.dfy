/** Identities about updating or removing one element of a concatenation. */
module Seqs {

  function RemoveAt<T>(q: seq<T>, k: nat): seq<T>
    requires k < |q|
  {
    q[..k] + q[k + 1..]
  }

  lemma ConcatAssociative<T>(a: seq<T>, b: seq<T>, c: seq<T>)
    ensures a + b + c == a + (b + c)
  {}

  lemma RemoveInside<T>(a: seq<T>, m: seq<T>, b: seq<T>, n: nat)
    requires n < |m|
    ensures a + RemoveAt(m, n) + b == RemoveAt(a + m + b, |a| + n)
  {}

  lemma UpdateInside<T>(a: seq<T>, m: seq<T>, b: seq<T>, n: nat, x: T)
    requires n < |m|
    ensures a + m[n := x] + b == (a + m + b)[|a| + n := x]
  {}

  /** Inserting `y` at position `k` of the tail is inserting it one further in the whole. */
  lemma InsertBehindHead<T>(s: seq<T>, y: T, k: nat)
    requires s != [] && k < |s|
    ensures [s[0]] + (s[1..][..k] + [y] + s[1..][k..]) == s[..k + 1] + [y] + s[k + 1..]
  {}

  lemma SplitInserted<T>(s: seq<T>, i: nat, x: T)
    requires i <= |s|
    ensures var t := s[..i] + [x] + s[i..];
            t[i] == x && t[..i] == s[..i] && t[i + 1..] == s[i..] && s[..i] + s[i..] == s
  {}

  /** Elements of a sequence into which `x` was inserted at `i`. */
  lemma InsertedAt<T>(s: seq<T>, i: nat, x: T)
    requires i <= |s|
    ensures var t := s[..i] + [x] + s[i..];
            |t| == |s| + 1 &&
            forall j :: 0 <= j < |t| ==> t[j] == if j < i then s[j] else if j == i then x else s[j - 1]
  {}
}
