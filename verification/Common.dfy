/**
 What several modules share.
 */
module Common {

  datatype Option<T> = None | Some(value: T)

  /** How a kernel call ends. */
  datatype Status = Panic | Error | Done

  type byte = x: int | 0 <= x < 256

  /** 32-bit unsigned arithmetic is modulo this. */
  const WRAP: nat := 0x1_0000_0000

  /** The most blocks that one file system operation writes. */
  const MAXOPBLOCKS: nat := 10

  predicate Distinct(s: seq<nat>) {
    forall i, j :: 0 <= i < j < |s| ==> s[i] != s[j]
  }

  /** The place after i in a ring. */
  function Succ(ring: seq<nat>, i: nat): nat
    requires i < |ring|
  {
    if i + 1 == |ring| then 0 else i + 1
  }

  ghost function Without<T>(s: seq<T>, k: nat): seq<T>
    requires k < |s|
  {
    s[..k] + s[k + 1..]
  }

  lemma {:induction false} WithoutIsRest(s: seq<nat>, k: nat)
    requires k < |s| && Distinct(s)
    ensures Distinct(Without(s, k))
    ensures forall x :: x in Without(s, k) <==> x in s && x != s[k]
  {
    forall x | x in s && x != s[k] ensures x in Without(s, k) {
      var i :| 0 <= i < |s| && s[i] == x;
      assert Without(s, k)[if i < k then i else i - 1] == x;
    }
  }

  lemma SmallerMap<K, V>(m: map<K, V>, k: K)
    requires k in m
    ensures |m - {k}| == |m| - 1
  {
    assert (m - {k}).Keys == m.Keys - {k};
    assert |m| == |m.Keys| && |m - {k}| == |(m - {k}).Keys|;
  }
}
