/** How the experience a victim leaves is shared among those who hurt it. */
module Experience {
  import opened CombatDamage

  // damage points by attacker, each attacker once
  predicate DamageMap(m: Ledger) {
    Ascending(m) && forall i :: 0 <= i < |m| ==> m[i].amount >= 0
  }

  // getGainedExperience: the floor of the victim's lost experience times the attacker's part of the damage
  function Share(part: nat, total: nat, lost: nat): nat {
    if total == 0 then 0 else part * lost / total
  }

  lemma ShareBounds(part: nat, total: nat, lost: nat)
    requires total > 0
    ensures total * Share(part, total, lost) <= part * lost < total * (Share(part, total, lost) + 1)
  {
    var p := part * lost;
    assert p == total * (p / total) + p % total;
    assert total * (p / total + 1) == total * (p / total) + total;
  }

  // the shares of all who hurt it
  function Shares(m: Ledger, total: nat, lost: nat): nat
    requires forall i :: 0 <= i < |m| ==> m[i].amount >= 0
  {
    if m == [] then 0 else Share(m[0].amount, total, lost) + Shares(m[1..], total, lost)
  }

  lemma {:induction false} SharesBounds(m: Ledger, total: nat, lost: nat)
    requires total > 0 && forall i :: 0 <= i < |m| ==> m[i].amount >= 0
    ensures total * Shares(m, total, lost) <= Sum(m) * lost <= total * (Shares(m, total, lost) + |m|)
    decreases |m|
  {
    if m == [] {
      assert total * 0 <= 0 * lost;
    } else {
      var part: nat, rest := m[0].amount, m[1..];
      var one, more, many: nat := Share(part, total, lost), Shares(rest, total, lost), |rest|;
      ShareBounds(part, total, lost);
      SharesBounds(rest, total, lost);
      Distribute(lost, part, Sum(rest));
      Distribute(total, one, more);
      Distribute(total, one + 1, more + many);
    }
  }

  lemma Distribute(c: int, a: int, b: int)
    ensures c * (a + b) == c * a + c * b && (a + b) * c == a * c + b * c
  {
  }

  /** All shares together are never more than was lost, and short of it by less than one point for each attacker. */
  lemma NothingInvented(m: Ledger, lost: nat)
    requires DamageMap(m) && Sum(m) > 0
    ensures lost - |m| <= Shares(m, Sum(m), lost) <= lost
  {
    var total: nat := Sum(m);
    var all := Shares(m, total, lost);
    SharesBounds(m, total, lost);
    assert total * lost == lost * total == Sum(m) * lost;
    Cancel(total, all, lost);
    Cancel(total, lost, all + |m|);
  }

  lemma Cancel(total: nat, a: nat, b: nat)
    requires total > 0 && total * a <= total * b
    ensures a <= b
  {
    var d: int := a - b;
    Distribute(total, b, d);
    assert d >= 1 ==> total * d >= total;
  }

  // getDamageRatio, as the fraction it stands for
  method GetDamageRatio(m: Ledger, attacker: nat) returns (part: int, total: int)
    requires DamageMap(m)
    ensures part == Get(m, attacker) && total == Sum(m)
  {
    part, total := 0, 0;
    for i := 0 to |m|
      invariant total + Sum(m[i..]) == Sum(m)
      invariant part + Get(m[i..], attacker) == Get(m, attacker) && (part == 0 || Get(m[i..], attacker) == 0)
    {
      assert m[i..][0] == m[i] && m[i..][1..] == m[i + 1..];
      total := total + m[i].amount;
      if m[i].key == attacker {
        Absent(m[i + 1..], attacker);
        part := part + m[i].amount;
      }
    }
  }

  // what goes to one receiver: the shares of those, of the first n, whose leader it is
  function Received(m: Ledger, n: nat, total: nat, lost: nat, present: nat -> bool, leader: nat -> nat, to: nat): nat
    requires n <= |m| && forall i :: 0 <= i < |m| ==> m[i].amount >= 0
  {
    if n == 0 then 0
    else Received(m, n - 1, total, lost, present, leader, to)
         + if present(m[n - 1].key) && leader(m[n - 1].key) == to then Share(m[n - 1].amount, total, lost) else 0
  }

  lemma {:induction false} ReceivedNothing(m: Ledger, n: nat, total: nat, lost: nat, present: nat -> bool,
                                           leader: nat -> nat, to: nat)
    requires n <= |m| && forall i :: 0 <= i < |m| ==> m[i].amount >= 0
    requires forall i :: 0 <= i < |m| && present(m[i].key) ==> leader(m[i].key) != to
    ensures Received(m, n, total, lost, present, leader, to) == 0
    decreases n
  {
    if n > 0 {
      ReceivedNothing(m, n - 1, total, lost, present, leader, to);
    }
  }

  lemma {:induction false} ReceivedShare(m: Ledger, n: nat, total: nat, lost: nat, present: nat -> bool,
                                         leader: nat -> nat, i: nat)
    requires i < n <= |m| && (forall i :: 0 <= i < |m| ==> m[i].amount >= 0) && present(m[i].key)
    ensures Received(m, n, total, lost, present, leader, leader(m[i].key)) >= Share(m[i].amount, total, lost)
    decreases n
  {
    hide Share;
    if i < n - 1 {
      ReceivedShare(m, n - 1, total, lost, present, leader, i);
    }
  }

  /** Whoever no attacker in the game shares with gets nothing, and whoever one does gets its part to within a point. */
  lemma ReceivedFairly(m: Ledger, experience: Ledger, total: nat, lost: nat, present: nat -> bool, leader: nat -> nat)
    requires total > 0 && forall i :: 0 <= i < |m| ==> m[i].amount >= 0
    requires forall to :: Get(experience, to) == Received(m, |m|, total, lost, present, leader, to)
    ensures forall to :: (forall i :: 0 <= i < |m| && present(m[i].key) ==> leader(m[i].key) != to) ==>
      Get(experience, to) == 0
    ensures forall i :: 0 <= i < |m| && present(m[i].key) ==>
      total * (Get(experience, leader(m[i].key)) + 1) > m[i].amount * lost
  {
    forall to | forall i :: 0 <= i < |m| && present(m[i].key) ==> leader(m[i].key) != to
      ensures Get(experience, to) == 0
    {
      ReceivedNothing(m, |m|, total, lost, present, leader, to);
    }
    forall i | 0 <= i < |m| && present(m[i].key)
      ensures total * (Get(experience, leader(m[i].key)) + 1) > m[i].amount * lost
    {
      ReceivedShare(m, |m|, total, lost, present, leader, i);
      ShareBounds(m[i].amount, total, lost);
      AtLeast(total, Share(m[i].amount, total, lost), Get(experience, leader(m[i].key)));
    }
  }

  lemma AtLeast(total: nat, a: nat, b: nat)
    requires a <= b
    ensures total * (a + 1) <= total * (b + 1)
  {
    Distribute(total, a + 1, b - a);
  }

  /** onDeath: each attacker still in the game earns its share, for itself or for the leader it shares with; the whole
      is never more than the victim lost. present leaves the victim itself out. */
  method OnDeath(m: Ledger, lost: nat, present: nat -> bool, leader: nat -> nat) returns (experience: Ledger)
    requires DamageMap(m)
    ensures Ascending(experience) && Sum(experience) <= lost
    ensures Sum(m) >= 0 && forall to :: Get(experience, to) == Received(m, |m|, Sum(m), lost, present, leader, to)
    ensures Sum(m) > 0 && (forall i :: 0 <= i < |m| ==> present(m[i].key)) ==> Sum(experience) >= lost - |m|
    ensures Sum(m) > 0 ==>
      forall to :: (forall i :: 0 <= i < |m| && present(m[i].key) ==> leader(m[i].key) != to) ==>
        Get(experience, to) == 0
    ensures Sum(m) > 0 ==>
      forall i :: 0 <= i < |m| && present(m[i].key) ==>
        Sum(m) * (Get(experience, leader(m[i].key)) + 1) > m[i].amount * lost
  {
    hide Share, Add, Assign, Grown;
    experience := [];
    SumNatural(m);
    ghost var total: nat := Sum(m);
    ghost var missing := 0;
    for i := 0 to |m|
      invariant Ascending(experience) && missing >= 0
      invariant Sum(experience) + missing + Shares(m[i..], total, lost) == Shares(m, total, lost)
      invariant forall to :: Get(experience, to) == Received(m, i, total, lost, present, leader, to)
      invariant (forall j :: 0 <= j < i ==> present(m[j].key)) ==> missing == 0
    {
      assert m[i..][0] == m[i] && m[i..][1..] == m[i + 1..];
      var attacker := m[i].key;
      if present(attacker) {
        var part, all := GetDamageRatio(m, attacker);
        GetAt(m, i);
        var gainExp := Share(part, all, lost);
        AddLaws(experience, leader(attacker), gainExp, attacker);
        forall to ensures Get(Add(experience, leader(attacker), gainExp), to)
          == Get(experience, to) + if to == leader(attacker) then gainExp else 0
        {
          AddLaws(experience, leader(attacker), gainExp, to);
        }
        experience := Add(experience, leader(attacker), gainExp);
      } else {
        missing := missing + Share(m[i].amount, total, lost);
      }
    }
    if total > 0 {
      NothingInvented(m, lost);
      ReceivedFairly(m, experience, total, lost, present, leader);
    } else {
      NoDamageNoShare(m, lost);
    }
  }

  lemma {:induction false} SumNatural(m: Ledger)
    requires forall i :: 0 <= i < |m| ==> m[i].amount >= 0
    ensures Sum(m) >= 0
    decreases |m|
  {
    if m != [] {
      SumNatural(m[1..]);
    }
  }

  lemma {:induction false} NoDamageNoShare(m: Ledger, lost: nat)
    requires forall i :: 0 <= i < |m| ==> m[i].amount >= 0
    ensures Shares(m, 0, lost) == 0
    decreases |m|
  {
    if m != [] {
      NoDamageNoShare(m[1..], lost);
    }
  }
}
