/** Taking elements out of a list, as the handlers do with `remove(index)` and `retain`. */
module Lists {
  function Removed<T>(s: seq<T>, i: nat): seq<T>
    requires i < |s|
  {
    s[..i] + s[i + 1..]
  }

  lemma OtherStays<T>(s: seq<T>, i: nat, x: T)
    requires i < |s| && x in s && s[i] != x
    ensures x in Removed(s, i)
  {
    var k :| 0 <= k < |s| && s[k] == x;
    assert Removed(s, i)[if k < i then k else k - 1] == x;
  }

  /** Positions below `n`, each once and in order. */
  ghost predicate Ascending(at: seq<nat>, n: nat) {
    && (forall i :: 0 <= i < |at| ==> at[i] < n)
    && (forall i, j :: 0 <= i < j < |at| ==> at[i] < at[j])
  }

  lemma AscendingSnoc(at: seq<nat>, n: nat)
    requires Ascending(at, n)
    ensures Ascending(at, n + 1) && Ascending(at + [n], n + 1)
    ensures forall k: nat :: k in at + [n] <==> k in at || k == n
    ensures forall k: nat :: k in at ==> k < n
    ensures forall i :: 0 <= i < |at| ==> at[i] < n && (at + [n])[i] == at[i]
  {
    assert forall k: nat :: k in at ==> exists i :: 0 <= i < |at| && at[i] == k;
  }

  lemma NoneAscending()
    ensures Ascending([], 0)
  {
  }
}
