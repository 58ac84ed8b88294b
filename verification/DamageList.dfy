/** The rounds of a damage condition: small hits at the end, large ones at the start, each value for about 20 points. */
module DamageList {
  import opened Numbers

  predicate RoundsUp(x: nat) {
    var checkValue := if x % 10 > 5 then x + 1 else x;
    checkValue % 2 != 1
  }

  // getDamageStepValue: 20 / x rounded down or up by the parity of x, the other way round for last digits 6 to 9
  function Turns(x: nat): (n: nat)
    requires x > 0
    ensures 20 - x < x * n < 20 + x
    ensures if RoundsUp(x) then 20 <= x * n else x * n <= 20
    ensures RoundsUp(x) ==> n > 0
  {
    Division(x);
    if RoundsUp(x) && 20 % x != 0 then 20 / x + 1 else 20 / x
  }

  lemma Division(x: nat)
    requires x > 0
    ensures var q, r := 20 / x, 20 % x; 20 == x * q + r && 0 <= r < x && q >= 0 && (r == 0 ==> q > 0)
  {
    var q, r := 20 / x, 20 % x;
    assert 20 == x * q + r;
    assert q <= -1 ==> x * (q + 1) <= 0;
    assert q == 0 ==> x * q == 0;
  }

  // at most two values in a row have no turn
  lemma SomeTurn(x: nat)
    ensures Turns(x + 1) > 0 || Turns(x + 2) > 0 || Turns(x + 3) > 0
  {
    hide Turns;
    SomeUp(x);
  }

  lemma SomeUp(x: nat)
    ensures RoundsUp(x + 1) || RoundsUp(x + 2) || RoundsUp(x + 3)
  {
    var q, r := x / 10, x % 10;
    hide RoundsUp;
    LastDigit(x + 1, if r == 9 then q + 1 else q, if r == 9 then 0 else r + 1);
    LastDigit(x + 2, if r >= 8 then q + 1 else q, if r >= 8 then r - 8 else r + 2);
    LastDigit(x + 3, if r >= 7 then q + 1 else q, if r >= 7 then r - 7 else r + 3);
  }

  lemma LastDigit(x: nat, q: nat, r: nat)
    requires x == 10 * q + r && r < 10
    ensures RoundsUp(x) <==> r == 0 || r == 2 || r == 4 || r == 7 || r == 9
  {
    Tens(x, q, r);
    var c := if r > 5 then r + 1 else r;
    var half :=
      if c < 2 then 0 else if c < 4 then 1 else if c < 6 then 2 else if c < 8 then 3 else if c < 10 then 4 else 5;
    Twos(if r > 5 then x + 1 else x, 5 * q + half, c - 2 * half);
  }

  lemma Tens(x: nat, q: nat, r: nat)
    requires x == 10 * q + r && r < 10
    ensures x % 10 == r
  {
  }

  lemma Twos(x: nat, q: nat, r: nat)
    requires x == 2 * q + r && r < 2
    ensures x % 2 == r
  {
  }

  function Repeat(x: nat, n: nat): (s: seq<nat>)
    ensures |s| == n
  {
    seq(n, i => x)
  }

  // the values up to n, each for its turns, smallest first
  function Blocks(n: nat): seq<nat> {
    if n == 0 then [] else Blocks(n - 1) + Repeat(n, Turns(n))
  }

  function Points(n: nat): nat {
    if n == 0 then 0 else Points(n - 1) + n * Turns(n)
  }

  function Reverse(s: seq<nat>): (r: seq<nat>)
    ensures |r| == |s| && forall i :: 0 <= i < |s| ==> r[i] == s[|s| - 1 - i]
  {
    seq(|s|, i requires 0 <= i < |s| => s[|s| - 1 - i])
  }

  lemma {:induction false} SumRepeat(x: nat, n: nat)
    ensures Sum(Repeat(x, n)) == x * n
    decreases n
  {
    if n > 0 {
      assert Repeat(x, n) == [x] + Repeat(x, n - 1) && Repeat(x, n)[1..] == Repeat(x, n - 1);
      SumRepeat(x, n - 1);
      assert x * (n - 1) + x == x * n;
    }
  }

  lemma {:induction false} SumReverse(s: seq<nat>)
    ensures Sum(Reverse(s)) == Sum(s)
    decreases |s|
  {
    if s != [] {
      var last := s[|s| - 1];
      assert Reverse(s) == [last] + Reverse(s[..|s| - 1]);
      SumSplit([last], Reverse(s[..|s| - 1]));
      SumOne(last);
      SumReverse(s[..|s| - 1]);
      SumAt(s, |s| - 1);
      assert s[|s|..] == [] && s[..|s|] == s;
    }
  }

  lemma {:induction false} BlocksSorted(n: nat)
    ensures forall i :: 0 <= i < |Blocks(n)| ==> 1 <= Blocks(n)[i] <= n
    ensures forall i, j :: 0 <= i <= j < |Blocks(n)| ==> Blocks(n)[i] <= Blocks(n)[j]
    decreases n
  {
    hide Turns;
    if n > 0 {
      BlocksSorted(n - 1);
      var a, b := Blocks(n - 1), Repeat(n, Turns(n));
      forall i | 0 <= i < |Blocks(n)| ensures Blocks(n)[i] == if i < |a| then a[i] else n {
      }
    }
  }

  lemma {:induction false} BlocksSum(n: nat)
    ensures Sum(Blocks(n)) == Points(n)
    decreases n
  {
    hide Turns;
    if n > 0 {
      BlocksSum(n - 1);
      SumSplit(Blocks(n - 1), Repeat(n, Turns(n)));
      SumRepeat(n, Turns(n));
    }
  }

  predicate NonIncreasing(s: seq<nat>) {
    forall i, j :: 0 <= i <= j < |s| ==> s[i] >= s[j]
  }

  // values up to n are enough for the amount, values up to n - 1 are not
  predicate LastStep(amount: int, n: nat) {
    Points(n) >= amount && (n > 0 ==> Points(n - 1) < amount)
  }

  // how long until the next value with a turn
  function Wait(step: nat): nat {
    if Turns(step + 1) > 0 then 0 else if Turns(step + 2) > 0 then 1 else 2
  }

  lemma WaitFalls(step: nat)
    requires Turns(step + 1) == 0
    ensures Wait(step + 1) < Wait(step)
  {
    SomeTurn(step);
  }

  // one value, for its turns
  method AddTurns(total: nat, list: seq<nat>, step: nat, turnsCount: nat) returns (totalDamage: nat, more: seq<nat>)
    requires step > 0
    ensures totalDamage == total + step * turnsCount && more == list + Repeat(step, turnsCount)
    ensures turnsCount > 0 ==> totalDamage > total
  {
    totalDamage, more := total, list;
    for i := 0 to turnsCount
      invariant totalDamage == total + step * i && more == list + Repeat(step, i)
      invariant i > 0 ==> totalDamage > total
    {
      assert step * (i + 1) == step * i + step;
      totalDamage := totalDamage + step;
      more := more + [step];
    }
  }

  /** The loop ends for every amount; its list is whole blocks of equal hits, the largest first, that reach the amount,
      and without the first block they would not. */
  method GenerateDamageList(amount: int, start: int) returns (list: seq<nat>)
    ensures exists n :: LastStep(Abs(amount) - Abs(start), n) && list == Reverse(Blocks(n))
    ensures NonIncreasing(list) && (forall v :: v in list ==> v >= 1) && Sum(list) >= Abs(amount) - Abs(start)
  {
    hide Turns, Wait, Sum;
    var rest := Abs(amount) - Abs(start);
    var totalDamage: nat, currentStep: nat := 0, 0;
    list := [];
    while totalDamage < rest
      invariant totalDamage == Points(currentStep) && list == Blocks(currentStep)
      invariant currentStep > 0 ==> Points(currentStep - 1) < rest
      decreases rest - totalDamage, Wait(currentStep)
    {
      if Turns(currentStep + 1) == 0 {
        WaitFalls(currentStep);
      }
      currentStep := currentStep + 1;
      totalDamage, list := AddTurns(totalDamage, list, currentStep, Turns(currentStep));
    }
    BlocksSorted(currentStep);
    BlocksSum(currentStep);
    SumReverse(list);
    list := Reverse(list);
    assert LastStep(rest, currentStep);
  }

  lemma FirstBlock(n: nat, turns: nat)
    requires n > 0 && turns == Turns(n)
    ensures Reverse(Blocks(n)) == Repeat(n, turns) + Reverse(Blocks(n - 1))
  {
    hide Turns, RoundsUp;
    var a, b := Blocks(n - 1), Repeat(n, turns);
    assert Blocks(n) == a + b;
    assert Reverse(a + b) == b + Reverse(a);
  }

  /** Dropping the first block, the hits of the largest value with a turn, leaves less than the amount. */
  lemma {:induction false} WithoutFirstBlock(amount: int, n: nat)
    requires LastStep(amount, n) && amount > 0
    ensures n > 0 && Turns(n) > 0
    ensures Reverse(Blocks(n)) == Repeat(n, Turns(n)) + Reverse(Blocks(n - 1))
    ensures Sum(Reverse(Blocks(n - 1))) < amount
  {
    hide Turns, RoundsUp, Reverse, Blocks, Repeat;
    assert n > 0 && Turns(n) > 0 by {
      assert Points(n) == Points(n - 1) + n * Turns(n);
    }
    FirstBlock(n, Turns(n));
    BlocksSum(n - 1);
    SumReverse(Blocks(n - 1));
  }
}
