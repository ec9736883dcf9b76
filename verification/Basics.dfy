/**
 What the engine, the treatment server and the load generator have in common.
 */
module Basics {
  newtype Byte = b: int | 0 <= b < 256
  type Bytes = seq<Byte>

  datatype Option<+T> = None | Some(value: T)

  /** The benchmark's reply, "HTTP/1.1 200 OK" and two line ends. */
  const REPLY_LEN: nat := 19
  const REPLY: Bytes :=
    [72, 84, 84, 80, 47, 49, 46, 49, 32, 50, 48, 48, 32, 79, 75, 13, 10, 13, 10]

  function Min(a: int, b: int): int {
    if a < b then a else b
  }

  function Max(a: int, b: int): int {
    if a < b then b else a
  }

  /** The first n bytes of s, or all of them when there are fewer. */
  function Prefix(s: Bytes, n: int): Bytes {
    if n <= 0 then [] else if n <= |s| then s[..n] else s
  }

  function Without<T>(s: seq<T>, i: nat): seq<T>
    requires i < |s|
  {
    s[..i] + s[i + 1..]
  }

  lemma WithoutAt<T>(s: seq<T>, i: nat, j: nat)
    requires i < |s| && j < |s| - 1
    ensures Without(s, i)[j] == s[if j < i then j else j + 1]
  {
  }

  predicate Distinct<T(==)>(s: seq<T>) {
    forall i, j :: 0 <= i < j < |s| ==> s[i] != s[j]
  }

  function Count<T>(p: T -> bool, s: seq<T>): nat {
    if s == [] then 0 else (if p(s[0]) then 1 else 0) + Count(p, s[1..])
  }

  lemma {:induction false} CountSnoc<T>(p: T -> bool, s: seq<T>, y: T)
    ensures Count(p, s + [y]) == Count(p, s) + if p(y) then 1 else 0
  {
    if s == [] {
      assert [y][1..] == [];
    } else {
      CountSnoc(p, s[1..], y);
      assert (s + [y])[0] == s[0] && (s + [y])[1..] == s[1..] + [y];
    }
  }
}
