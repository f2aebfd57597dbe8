/** Facts about sequences that several modules share. */
module Sequences {

  ghost predicate Distinct<T>(s: seq<T>) {
    forall i, j :: 0 <= i < j < |s| ==> s[i] != s[j]
  }

  ghost predicate SameElements<T(!new)>(s: seq<T>, t: seq<T>) {
    forall x :: x in s <==> x in t
  }

  function RemoveAt<T>(s: seq<T>, i: nat): (r: seq<T>)
    requires i < |s|
    ensures |r| == |s| - 1
  {
    s[..i] + s[i + 1..]
  }

  ghost predicate Ascending(p: seq<nat>) {
    forall i, j :: 0 <= i < j < |p| ==> p[i] < p[j]
  }

  lemma AscendingOneMore(p: seq<nat>, n: nat)
    requires Ascending(p) && forall b :: b in p ==> b < n
    ensures Ascending(p + [n]) && forall b: nat :: b in p + [n] <==> b in p || b == n
  {
    forall i | 0 <= i < |p| ensures p[i] < n {
      assert p[i] in p;
    }
  }
}
