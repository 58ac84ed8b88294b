/** Sums and magnitudes. */
module Numbers {
  function Abs(x: int): nat {
    if x < 0 then -x else x
  }

  function Sum(ns: seq<nat>): nat {
    if ns == [] then 0 else ns[0] + Sum(ns[1..])
  }

  lemma {:induction false} SumSplit(a: seq<nat>, b: seq<nat>)
    ensures Sum(a + b) == Sum(a) + Sum(b)
    decreases |a|
  {
    if a == [] {
      assert a + b == b;
    } else {
      assert (a + b)[1..] == a[1..] + b;
      SumSplit(a[1..], b);
    }
  }

  lemma SumAt(ns: seq<nat>, i: nat)
    requires i < |ns|
    ensures Sum(ns) == Sum(ns[..i]) + ns[i] + Sum(ns[i + 1..])
    ensures Sum(ns[..i + 1]) == Sum(ns[..i]) + ns[i]
  {
    hide Sum;
    SumOne(ns[i]);
    assert ns == ns[..i] + ([ns[i]] + ns[i + 1..]);
    SumSplit(ns[..i], [ns[i]] + ns[i + 1..]);
    SumSplit([ns[i]], ns[i + 1..]);
    assert ns[..i + 1] == ns[..i] + [ns[i]];
    SumSplit(ns[..i], [ns[i]]);
  }

  lemma SumOne(n: nat)
    ensures Sum([n]) == n
  {
    assert [n][1..] == [];
  }

  lemma SumUpdate(ns: seq<nat>, i: nat, n: nat)
    requires i < |ns|
    ensures Sum(ns[i := n]) == Sum(ns) - ns[i] + n
  {
    SumAt(ns, i);
    SumAt(ns[i := n], i);
    assert ns[i := n][..i] == ns[..i] && ns[i := n][i + 1..] == ns[i + 1..];
  }

  lemma SumPrefix(ns: seq<nat>, i: nat, j: nat)
    requires i <= j <= |ns|
    ensures Sum(ns[..i]) <= Sum(ns[..j])
  {
    assert ns[..j] == ns[..i] + ns[i..j];
    SumSplit(ns[..i], ns[i..j]);
  }
}
