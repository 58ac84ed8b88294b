/** Paying with coins: which stacks a payment takes, which one it breaks, and how the change is handed out. */
module Money {
  const STACK_SIZE: nat := 100
  const WORD: int := 0x1_0000_0000
  const LONG: int := 0x1_0000_0000_0000_0000

  // count coins of one currency item, each worth unit; no coins left means the item is gone
  datatype Stack = Stack(unit: nat, count: nat)

  function Value(s: Stack): nat {
    s.unit * s.count
  }

  // Item::getWorth: the product is cut to 32 bits
  function Worth(s: Stack): nat {
    Value(s) % WORD
  }

  // the search sees a stack's true worth exactly when it fits 32 bits
  lemma WorthExact(s: Stack)
    ensures Worth(s) == Value(s) <==> Value(s) < WORD
  {
  }

  function Total(stacks: seq<Stack>): nat {
    if stacks == [] then 0 else Value(stacks[0]) + Total(stacks[1..])
  }

  lemma {:induction false} TotalSplit(a: seq<Stack>, b: seq<Stack>)
    ensures Total(a + b) == Total(a) + Total(b)
    decreases |a|
  {
    if a == [] {
      assert a + b == b;
    } else {
      assert (a + b)[1..] == a[1..] + b;
      TotalSplit(a[1..], b);
    }
  }

  lemma TotalGrows(stacks: seq<Stack>, i: nat)
    requires i < |stacks|
    ensures Total(stacks[..i + 1]) == Total(stacks[..i]) + Value(stacks[i])
  {
    assert stacks[..i + 1] == stacks[..i] + [stacks[i]];
    TotalSplit(stacks[..i], [stacks[i]]);
    assert Total([stacks[i]]) == Value(stacks[i]);
  }

  lemma TotalUpdate(stacks: seq<Stack>, i: nat, s: Stack)
    requires i < |stacks|
    ensures Total(stacks[i := s]) == Total(stacks) - Value(stacks[i]) + Value(s)
  {
    assert stacks == stacks[..i] + ([stacks[i]] + stacks[i + 1..]);
    assert stacks[i := s] == stacks[..i] + ([s] + stacks[i + 1..]);
    TotalSplit(stacks[..i], [stacks[i]] + stacks[i + 1..]);
    TotalSplit(stacks[..i], [s] + stacks[i + 1..]);
  }

  // ---------- change ----------

  // the currency map: worth of one coin, from the largest down
  predicate Currency(units: seq<nat>) {
    (forall i :: 0 <= i < |units| ==> units[i] > 0)
    && forall i, j :: 0 <= i < j < |units| ==> units[i] > units[j]
  }

  // the number of coins is cut to 32 bits
  function Coins(money: nat, unit: nat): nat
    requires unit > 0
  {
    money / unit % WORD
  }

  // what the coins handed out leave unpaid
  function Residue(money: nat, units: seq<nat>): (r: nat)
    requires Currency(units)
    ensures r <= money
    decreases |units|
  {
    if units == [] then money
    else
      HandedFits(money, units[0]);
      Residue(money - units[0] * Coins(money, units[0]), units[1..])
  }

  lemma HandedFits(money: nat, unit: nat)
    requires unit > 0
    ensures unit * Coins(money, unit) <= money
  {
    var q := money / unit;
    assert q % WORD <= q;
    assert unit * q <= money;
    assert unit * (q % WORD) <= unit * q;
  }

  /** Change is handed out in full, whatever the amount, exactly when there is a coin worth 1. */
  lemma ChangeComplete(units: seq<nat>)
    requires Currency(units)
    ensures (forall money: nat :: money < WORD ==> Residue(money, units) == 0) <==> 1 in units
  {
    if 1 in units {
      forall money: nat | money < WORD ensures Residue(money, units) == 0 {
        NothingLeft(money, units);
      }
    } else {
      OneLeft(units);
      assert Residue(1, units) == 1;
    }
  }

  lemma {:induction false} NothingLeft(money: nat, units: seq<nat>)
    requires Currency(units) && 1 in units && money < WORD
    ensures Residue(money, units) == 0
    decreases |units|
  {
    var unit := units[0];
    SmallQuotient(money, unit);
    HandedFits(money, unit);
    if unit == 1 {
      NoMoney(units[1..]);
    } else {
      NothingLeft(money - unit * Coins(money, unit), units[1..]);
    }
  }

  lemma SmallQuotient(money: nat, unit: nat)
    requires unit > 0 && money < WORD
    ensures Coins(money, unit) == money / unit
    ensures unit == 1 ==> unit * Coins(money, unit) == money
  {
    var q := money / unit;
    QuotientBelow(money, unit, q);
    SmallModulo(q);
  }

  lemma QuotientBelow(money: nat, unit: nat, q: nat)
    requires unit > 0 && q == money / unit
    ensures q <= money
  {
    assert 0 <= q * (unit - 1);
    assert q * unit <= money;
  }

  lemma SmallModulo(q: nat)
    requires q < WORD
    ensures q % WORD == q
  {
  }

  lemma {:induction false} NoMoney(units: seq<nat>)
    requires Currency(units)
    ensures Residue(0, units) == 0
    decreases |units|
  {
    if units != [] {
      assert Coins(0, units[0]) == 0;
      NoMoney(units[1..]);
    }
  }

  lemma {:induction false} OneLeft(units: seq<nat>)
    requires Currency(units) && 1 !in units
    ensures Residue(1, units) == 1
    decreases |units|
  {
    if units != [] {
      assert units[0] > 1;
      assert 1 / units[0] == 0;
      assert Coins(1, units[0]) == 0;
      OneLeft(units[1..]);
    }
  }

  // a currency in which every coin is a whole number of the next smaller ones, but no more than 2^32, down to 1
  ghost predicate Decimal(units: seq<nat>)
    requires Currency(units)
  {
    units != [] && units[|units| - 1] == 1
    && forall i :: 0 <= i < |units| - 1 ==> Multiple(units[i], units[i + 1]) && units[i] <= units[i + 1] * WORD
  }

  ghost predicate Multiple(n: nat, of: nat) {
    exists a: nat :: n == a * of
  }

  lemma DecimalRest(units: seq<nat>)
    requires Currency(units) && Decimal(units) && |units| > 1
    ensures Currency(units[1..]) && Decimal(units[1..])
    ensures Multiple(units[0], units[1]) && units[0] <= units[1] * WORD
  {
    var rest := units[1..];
    forall i | 0 <= i < |rest| - 1 ensures Multiple(rest[i], rest[i + 1]) && rest[i] <= rest[i + 1] * WORD {
      assert units[i + 1] == rest[i] && units[i + 1 + 1] == rest[i + 1];
    }
  }

  lemma DivideSum(a: nat, unit: nat, r: nat)
    requires unit > 0
    ensures (a * unit + r) / unit == a + r / unit
  {
    var q, d := (a * unit + r) / unit, r / unit;
    assert a * unit + r == q * unit + (a * unit + r) % unit;
    assert r == d * unit + r % unit;
    assert (q - a - d) * unit == r % unit - (a * unit + r) % unit;
    assert q - a - d >= 1 ==> (q - a - d) * unit >= unit;
    assert a + d - q >= 1 ==> (a + d - q) * unit >= unit;
  }

  lemma ModuloSum(a: nat, r: nat)
    ensures (a * WORD + r) % WORD == r % WORD
  {
  }

  // what is a multiple of 2^32 of the largest coin stays unpaid
  lemma {:induction false} Stuck(units: seq<nat>, a: nat, r: nat)
    requires Currency(units) && Decimal(units)
    ensures Residue(a * WORD * units[0] + r, units) == a * WORD * units[0] + Residue(r, units)
    decreases |units|
  {
    var u := units[0];
    var m := a * WORD * u;
    DivideSum(a * WORD, u, r);
    ModuloSum(a, r / u);
    assert Coins(m + r, u) == Coins(r, u);
    HandedFits(r, u);
    var left := r - u * Coins(r, u);
    if |units| > 1 {
      DecimalRest(units);
      var c: nat :| u == c * units[1];
      assert m == a * c * WORD * units[1] by {
        Regroup(a, c, units[1]);
      }
      Stuck(units[1..], a * c, left);
    }
  }

  lemma Regroup(a: nat, c: nat, u: nat)
    ensures a * WORD * (c * u) == a * c * WORD * u
  {
    assert a * WORD * (c * u) == (a * WORD * c) * u;
  }

  /** In such a currency, which copper, silver and gold pieces are, change of any amount is handed out in full exactly
      when the count of the largest coins fits 32 bits. */
  lemma {:induction false} ChangeOfAny(units: seq<nat>, money: nat)
    requires Currency(units) && Decimal(units)
    ensures Residue(money, units) == 0 <==> money / units[0] < WORD
    decreases |units|
  {
    var u := units[0];
    var q := money / u;
    var a := q / WORD;
    assert q == a * WORD + q % WORD;
    assert money == q * u + money % u;
    var r := money % u;
    LeftOver(money, u, q, a, r);
    if |units| == 1 {
      assert units[1..] == [];
    } else {
      DecimalRest(units);
      var v := units[1];
      var c: nat :| u == c * v;
      Regroup(a, c, v);
      Stuck(units[1..], a * c, r);
      ChangeOfAny(units[1..], r);
      SmallRest(r, u, v);
      assert a >= 1 ==> a * WORD * u >= 1;
    }
  }

  lemma LeftOver(money: nat, u: nat, q: nat, a: nat, r: nat)
    requires u > 0 && q == money / u && money == q * u + r && a == q / WORD && q == a * WORD + q % WORD
    ensures money - u * Coins(money, u) == a * WORD * u + r
    ensures a == 0 <==> q < WORD
  {
    assert u * Coins(money, u) == u * (q - a * WORD);
    assert u * (q - a * WORD) == q * u - a * WORD * u;
  }

  lemma SmallRest(r: nat, u: nat, v: nat)
    requires r < u <= v * WORD && v > 0
    ensures r / v < WORD
  {
    var q := r / v;
    assert q * v <= r;
    assert q >= WORD ==> q * v >= WORD * v;
  }

  /** As many coins as the money holds, when that fits 32 bits. */
  lemma CoinsFit(money: nat, unit: nat)
    requires unit > 0 && money < WORD
    ensures unit * Coins(money, unit) <= money < unit * (Coins(money, unit) + 1)
  {
    SmallQuotient(money, unit);
    var q := money / unit;
    assert money == q * unit + money % unit;
    assert unit * (q + 1) == q * unit + unit;
  }

  // the stacks of change with room for them, in the order they are made
  function InPurse(stacks: seq<Stack>, room: nat -> bool): (r: seq<Stack>)
    ensures |r| <= |stacks|
    ensures (forall n: nat :: room(n)) ==> r == stacks
    ensures (forall n: nat :: !room(n)) ==> r == []
  {
    if stacks == [] then []
    else
      var n := |stacks| - 1;
      assert stacks[..n] + [stacks[n]] == stacks;
      InPurse(stacks[..n], room) + if room(n) then [stacks[n]] else []
  }

  // and those without
  function OnGround(stacks: seq<Stack>, room: nat -> bool): (r: seq<Stack>)
    ensures |r| + |InPurse(stacks, room)| == |stacks|
    ensures (forall n: nat :: room(n)) ==> r == []
    ensures (forall n: nat :: !room(n)) ==> r == stacks
  {
    if stacks == [] then []
    else
      var n := |stacks| - 1;
      assert stacks[..n] + [stacks[n]] == stacks;
      OnGround(stacks[..n], room) + if room(n) then [] else [stacks[n]]
  }

  lemma NextStack(stacks: seq<Stack>, s: Stack, room: nat -> bool)
    ensures InPurse(stacks + [s], room) == InPurse(stacks, room) + if room(|stacks|) then [s] else []
    ensures OnGround(stacks + [s], room) == OnGround(stacks, room) + if room(|stacks|) then [] else [s]
  {
    assert (stacks + [s])[..|stacks|] == stacks;
  }

  // whole stacks of 100 of one unit, and what remains
  ghost predicate Piled(stacks: seq<Stack>, unit: nat, number: nat) {
    (forall i :: 0 <= i < |stacks| ==> stacks[i].unit == unit && 0 < stacks[i].count <= STACK_SIZE)
    && (forall i :: 0 <= i < |stacks| - 1 ==> stacks[i].count == STACK_SIZE)
    && Total(stacks) == unit * number
  }

  // larger coins first, and of one unit no second stack before the first is full
  ghost predicate InOrder(stacks: seq<Stack>) {
    forall i, j :: 0 <= i < j < |stacks| ==>
      stacks[i].unit > stacks[j].unit || (stacks[i].unit == stacks[j].unit && stacks[i].count == STACK_SIZE)
  }

  // a smaller coin is handed out only when less is left than any larger one is worth
  ghost predicate Frugal(units: seq<nat>, stacks: seq<Stack>, amount: nat) {
    forall u, k :: u in units && 0 <= k < |stacks| && stacks[k].unit < u ==> amount < u + Total(stacks[..k])
  }

  /** What the stacks handed out so far are, when the first i units are done and so much money is left. */
  ghost predicate Greedy(units: seq<nat>, i: nat, stacks: seq<Stack>, amount: nat, money: nat)
    requires i <= |units|
  {
    && (forall k :: 0 <= k < |stacks| ==> stacks[k].unit in units[..i] && 0 < stacks[k].count <= STACK_SIZE)
    && InOrder(stacks) && Total(stacks) + money == amount
    && (amount < WORD ==> (forall j :: 0 <= j < i ==> money < units[j]) && Frugal(units, stacks, amount))
  }

  lemma OrderMore(units: seq<nat>, i: nat, stacks: seq<Stack>, more: seq<Stack>)
    requires Currency(units) && i < |units| && InOrder(stacks)
    requires forall k :: 0 <= k < |stacks| ==> stacks[k].unit in units[..i] && 0 < stacks[k].count <= STACK_SIZE
    requires forall k :: 0 <= k < |more| ==> more[k].unit == units[i] && 0 < more[k].count <= STACK_SIZE
    requires forall k :: 0 <= k < |more| - 1 ==> more[k].count == STACK_SIZE
    ensures InOrder(stacks + more)
    ensures forall k :: 0 <= k < |stacks + more| ==>
      (stacks + more)[k].unit in units[..i + 1] && 0 < (stacks + more)[k].count <= STACK_SIZE
  {
    var all := stacks + more;
    assert units[..i + 1] == units[..i] + [units[i]];
    forall k, j | 0 <= k < j < |all|
      ensures all[k].unit > all[j].unit || (all[k].unit == all[j].unit && all[k].count == STACK_SIZE)
    {
      if k < |stacks| <= j {
        assert all[j] == more[j - |stacks|] && all[k] == stacks[k];
      } else if |stacks| <= k {
        assert all[k] == more[k - |stacks|] && all[j] == more[j - |stacks|];
      }
    }
  }

  lemma GreedyMore(units: seq<nat>, i: nat, stacks: seq<Stack>, more: seq<Stack>, amount: nat, money: nat)
    requires Currency(units) && i < |units| && Greedy(units, i, stacks, amount, money)
    requires Piled(more, units[i], Coins(money, units[i]))
    ensures units[i] * Coins(money, units[i]) <= money
    ensures Greedy(units, i + 1, stacks + more, amount, money - units[i] * Coins(money, units[i]))
  {
    hide Coins, Total, InOrder, Frugal, Greedy;
    var unit := units[i];
    HandedFits(money, unit);
    if money < WORD {
      CoinsFit(money, unit);
      RestBelow(money, unit, Coins(money, unit));
    }
    GreedyNext(units, i, stacks, more, amount, money, money - unit * Coins(money, unit));
  }

  lemma GreedyNext(units: seq<nat>, i: nat, stacks: seq<Stack>, more: seq<Stack>, amount: nat, money: nat, left: nat)
    requires Currency(units) && i < |units| && Greedy(units, i, stacks, amount, money)
    requires forall k :: 0 <= k < |more| ==> more[k].unit == units[i] && 0 < more[k].count <= STACK_SIZE
    requires forall k :: 0 <= k < |more| - 1 ==> more[k].count == STACK_SIZE
    requires Total(more) + left == money && (money < WORD ==> left < units[i])
    ensures Greedy(units, i + 1, stacks + more, amount, left)
  {
    hide InOrder, Frugal, Total;
    TotalSplit(stacks, more);
    OrderMore(units, i, stacks, more);
    if amount < WORD {
      FrugalMore(units, i, stacks, more, amount, money);
    }
  }

  lemma RestBelow(money: nat, unit: nat, number: nat)
    requires unit * number <= money < unit * (number + 1)
    ensures money - unit * number < unit
  {
  }

  lemma FrugalMore(units: seq<nat>, i: nat, stacks: seq<Stack>, more: seq<Stack>, amount: nat, money: nat)
    requires Currency(units) && i < |units| && Frugal(units, stacks, amount) && Total(stacks) + money == amount
    requires forall j :: 0 <= j < i ==> money < units[j]
    requires forall k :: 0 <= k < |more| ==> more[k].unit == units[i]
    ensures Frugal(units, stacks + more, amount)
  {
    hide Total;
    var all := stacks + more;
    forall u, k | u in units && 0 <= k < |all| && all[k].unit < u ensures amount < u + Total(all[..k]) {
      FrugalAt(units, i, stacks, more, amount, money, u, k);
    }
  }

  lemma FrugalAt(units: seq<nat>, i: nat, stacks: seq<Stack>, more: seq<Stack>, amount: nat, money: nat, u: nat, k: nat)
    requires Currency(units) && i < |units| && Frugal(units, stacks, amount) && Total(stacks) + money == amount
    requires forall j :: 0 <= j < i ==> money < units[j]
    requires forall s :: s in more ==> s.unit == units[i]
    requires u in units && k < |stacks + more| && (stacks + more)[k].unit < u
    ensures amount < u + Total((stacks + more)[..k])
  {
    hide Total;
    if k < |stacks| {
      assert (stacks + more)[..k] == stacks[..k] && (stacks + more)[k] == stacks[k];
    } else {
      assert (stacks + more)[..k] == stacks + more[..k - |stacks|];
      assert (stacks + more)[k] == more[k - |stacks|] && more[k - |stacks|] in more;
      TotalSplit(stacks, more[..k - |stacks|]);
      var j :| 0 <= j < |units| && units[j] == u;
      assert j < i;
    }
  }

  // ---------- the coins to pay with ----------

  // an entry of the money map: a stack's worth, and which stack it is
  datatype Entry = Entry(worth: nat, item: nat)

  predicate Ascending(entries: seq<Entry>) {
    forall i, j :: 0 <= i < j < |entries| ==> entries[i].worth <= entries[j].worth
  }

  // a multimap keeps equal keys in the order they came
  function Place(entries: seq<Entry>, e: Entry): (i: nat)
    ensures i <= |entries|
    ensures forall j :: 0 <= j < i ==> entries[j].worth <= e.worth
    ensures i < |entries| ==> entries[i].worth > e.worth
  {
    if entries == [] || entries[0].worth > e.worth then 0 else 1 + Place(entries[1..], e)
  }

  function Emplace(entries: seq<Entry>, e: Entry): seq<Entry> {
    entries[..Place(entries, e)] + [e] + entries[Place(entries, e)..]
  }

  function Sum(entries: seq<Entry>): nat {
    if entries == [] then 0 else entries[0].worth + Sum(entries[1..])
  }

  lemma {:induction false} SumSplit(a: seq<Entry>, b: seq<Entry>)
    ensures Sum(a + b) == Sum(a) + Sum(b)
    decreases |a|
  {
    if a == [] {
      assert a + b == b;
    } else {
      assert (a + b)[1..] == a[1..] + b;
      SumSplit(a[1..], b);
    }
  }

  // the entries name stacks of coins, each stack of some worth once, and no other
  ghost predicate Indexes(entries: seq<Entry>, coins: seq<Stack>, seen: nat)
    requires seen <= |coins|
  {
    (forall e :: e in entries ==> e.item < seen && e.worth == Worth(coins[e.item]) > 0)
    && (forall i, j :: 0 <= i < j < |entries| ==> entries[i].item != entries[j].item)
    && (forall k :: 0 <= k < seen && Worth(coins[k]) > 0 ==> Entry(Worth(coins[k]), k) in entries)
  }

  // entry j of the longer map
  function Shifted(entries: seq<Entry>, e: Entry, at: nat, j: nat): Entry
    requires at <= |entries| && j <= |entries|
  {
    if j < at then entries[j] else if j == at then e else entries[j - 1]
  }

  lemma EmplaceAt(entries: seq<Entry>, e: Entry)
    ensures |Emplace(entries, e)| == |entries| + 1
    ensures forall j {:trigger Emplace(entries, e)[j]} :: 0 <= j <= |entries| ==>
      Emplace(entries, e)[j] == Shifted(entries, e, Place(entries, e), j)
  {
  }

  lemma EmplaceSorted(entries: seq<Entry>, e: Entry)
    requires Ascending(entries)
    ensures Ascending(Emplace(entries, e))
  {
    EmplaceAt(entries, e);
    hide Emplace;
    var more, at := Emplace(entries, e), Place(entries, e);
    forall i, j | 0 <= i < j < |more| ensures more[i].worth <= more[j].worth {
      assert more[i] == Shifted(entries, e, at, i) && more[j] == Shifted(entries, e, at, j);
      if i == at {
        assert entries[at].worth <= entries[j - 1].worth;
      }
    }
  }

  lemma EmplaceSum(entries: seq<Entry>, e: Entry)
    ensures Sum(Emplace(entries, e)) == Sum(entries) + e.worth
  {
    var a, b := entries[..Place(entries, e)], entries[Place(entries, e)..];
    assert Emplace(entries, e) == a + ([e] + b);
    SumSplit(a, [e] + b);
    SumSplit([e], b);
    SumSplit(a, b);
    assert entries == a + b;
    assert Sum([e]) == e.worth;
  }

  lemma EmplaceKeeps(entries: seq<Entry>, coins: seq<Stack>, seen: nat)
    requires seen < |coins| && Worth(coins[seen]) > 0 && Indexes(entries, coins, seen)
    ensures Indexes(Emplace(entries, Entry(Worth(coins[seen]), seen)), coins, seen + 1)
  {
    hide Worth, Sum;
    var e := Entry(Worth(coins[seen]), seen);
    EmplaceAt(entries, e);
    var more, at := Emplace(entries, e), Place(entries, e);
    assert forall x :: x in more <==> x == e || x in entries by {
      assert entries == entries[..at] + entries[at..];
    }
    hide Emplace;
    forall i, j | 0 <= i < j < |more| ensures more[i].item != more[j].item {
      assert more[i] == Shifted(entries, e, at, i) && more[j] == Shifted(entries, e, at, j);
      Distinct(entries, coins, seen, e, at, i, j);
    }
  }

  lemma Distinct(entries: seq<Entry>, coins: seq<Stack>, seen: nat, e: Entry, at: nat, i: nat, j: nat)
    requires seen < |coins| && Indexes(entries, coins, seen) && e.item == seen
    requires at <= |entries| && i < j <= |entries|
    ensures Shifted(entries, e, at, i).item != Shifted(entries, e, at, j).item
  {
    hide Worth;
    assert i < |entries| ==> entries[i] in entries;
    assert 0 < i ==> entries[i - 1] in entries;
    assert entries[j - 1] in entries;
    assert j < |entries| ==> entries[j] in entries;
  }

  // what the search takes all stacks for
  function Seen(stacks: seq<Stack>): nat {
    if stacks == [] then 0 else Seen(stacks[..|stacks| - 1]) + Worth(stacks[|stacks| - 1])
  }

  /** The map the search builds: every stack of some worth, by worth. */
  function MoneyMap(stacks: seq<Stack>): seq<Entry> {
    if stacks == [] then []
    else
      var last, before := |stacks| - 1, MoneyMap(stacks[..|stacks| - 1]);
      if Worth(stacks[last]) != 0 then Emplace(before, Entry(Worth(stacks[last]), last)) else before
  }

  lemma {:induction false} SeenExact(stacks: seq<Stack>)
    requires forall s :: s in stacks ==> Value(s) < WORD
    ensures Seen(stacks) == Total(stacks)
    decreases |stacks|
  {
    if stacks != [] {
      var n := |stacks| - 1;
      SeenExact(stacks[..n]);
      TotalGrows(stacks, n);
      assert stacks[..n + 1] == stacks;
      assert stacks[n] in stacks;
      WorthExact(stacks[n]);
    }
  }

  lemma GatherNothing(coins: seq<Stack>)
    ensures Ascending([]) && Indexes([], coins, 0) && Sum([]) == Seen(coins[..0]) == 0 && MoneyMap(coins[..0]) == []
  {
  }

  // the next stack of the search, entered in the map if it is worth anything
  lemma GatherStep(coins: seq<Stack>, i: nat, entries: seq<Entry>)
    requires i < |coins| && Ascending(entries) && Indexes(entries, coins, i) && entries == MoneyMap(coins[..i])
    ensures var worth := Worth(coins[i]);
      var more := if worth != 0 then Emplace(entries, Entry(worth, i)) else entries;
      Ascending(more) && Indexes(more, coins, i + 1) && more == MoneyMap(coins[..i + 1])
      && Sum(more) - Sum(entries) == worth == Seen(coins[..i + 1]) - Seen(coins[..i])
  {
    hide Worth, Value, Total, Sum, Emplace, MoneyMap, Seen, Ascending;
    MapStep(coins, i);
    var worth := Worth(coins[i]);
    if worth != 0 {
      EmplaceKeeps(entries, coins, i);
      EmplaceSorted(entries, Entry(worth, i));
      EmplaceSum(entries, Entry(worth, i));
    }
  }

  lemma MapStep(coins: seq<Stack>, i: nat)
    requires i < |coins|
    ensures Seen(coins[..i + 1]) == Seen(coins[..i]) + Worth(coins[i])
    ensures var worth, before := Worth(coins[i]), MoneyMap(coins[..i]);
      MoneyMap(coins[..i + 1]) == if worth != 0 then Emplace(before, Entry(worth, i)) else before
  {
    hide Worth, Emplace;
    assert coins[..i + 1][..i] == coins[..i];
  }

  // ---------- paying ----------

  lemma {:induction false} NoWorthLess(entries: seq<Entry>, k: nat)
    requires k < |entries|
    ensures Sum(entries[k..]) == entries[k].worth + Sum(entries[k + 1..])
    ensures Sum(entries[..k + 1]) == Sum(entries[..k]) + entries[k].worth
  {
    assert entries[k..][1..] == entries[k + 1..];
    assert entries[..k + 1] == entries[..k] + [entries[k]];
    SumSplit(entries[..k], [entries[k]]);
    assert Sum([entries[k]]) == entries[k].worth;
  }

  // std::ceil(money / worth)
  function CoinsToBreak(money: nat, unit: nat): nat
    requires unit > 0
  {
    (money + unit - 1) / unit
  }

  lemma BreakEnough(money: nat, unit: nat, count: nat)
    requires unit > 0 && 0 < money < unit * count
    ensures var n := CoinsToBreak(money, unit);
      0 < n <= count && 0 <= unit * n - money < unit
  {
    var n := CoinsToBreak(money, unit);
    assert money + unit - 1 == n * unit + (money + unit - 1) % unit;
    assert unit * n - money < unit && unit * n >= money;
    assert unit * (n - count) < unit;
    assert n - count >= 1 ==> unit * (n - count) >= unit;
    assert n == 0 ==> unit * n == 0;
  }

  lemma UnitBack(unit: nat, count: nat)
    requires count > 0
    ensures unit * count / count == unit
  {
    var q := unit * count / count;
    assert unit * count == q * count + unit * count % count;
    assert (unit - q) * count == unit * count % count;
    assert unit - q >= 1 ==> (unit - q) * count >= count;
    assert q - unit >= 1 ==> (q - unit) * count >= count;
  }

  // a payment takes coins only, whole stacks of the least worth first, and breaks at most one stack
  ghost predicate PaidFrom(before: seq<Stack>, after: seq<Stack>) {
    |before| <= |after|
    && (forall i :: 0 <= i < |before| ==> after[i].unit == before[i].unit && after[i].count <= before[i].count)
    && (forall i, j :: 0 <= i < |before| && 0 <= j < |before| && Taken(before[i], after[i]) && Left(before[j], after[j])
          ==> Worth(before[i]) <= Worth(before[j]))
    && forall i, j :: 0 <= i < |before| && 0 <= j < |before| ==>
        (Broken(before[i], after[i]) && Broken(before[j], after[j]) ==> i == j)
  }

  predicate Left(before: Stack, after: Stack) {
    after.count > 0 && Worth(before) > 0
  }

  predicate Broken(before: Stack, after: Stack) {
    0 < after.count < before.count
  }

  lemma SumLeft(entries: seq<Entry>, k: nat)
    requires k <= |entries| && Sum(entries[k..]) > 0
    ensures k < |entries|
  {
  }

  // an entry tells the worth of a stack that the entries before it left alone
  lemma EntryStack(entries: seq<Entry>, coins: seq<Stack>, k: nat)
    requires k < |entries| && Indexes(entries, coins, |coins|)
    ensures entries[k].item < |coins| && entries[k].worth == Worth(coins[entries[k].item]) > 0
    ensures forall i :: 0 <= i < k ==> entries[i].item != entries[k].item
  {
    assert entries[k] in entries;
  }

  lemma PaidNothing(coins: seq<Stack>)
    ensures PaidFrom(coins, coins)
  {
  }

  // the stacks of the first k entries are gone, all others as they were
  ghost predicate Spent(was: seq<Stack>, coins: seq<Stack>, entries: seq<Entry>, k: nat)
    requires k <= |entries| && Indexes(entries, was, |was|)
  {
    |coins| == |was|
    && (forall i :: 0 <= i < k ==> coins[entries[i].item] == Stack(was[entries[i].item].unit, 0))
    && forall j :: 0 <= j < |was| && (forall i :: 0 <= i < k ==> entries[i].item != j) ==> coins[j] == was[j]
  }

  lemma SpentMore(was: seq<Stack>, coins: seq<Stack>, entries: seq<Entry>, k: nat)
    requires k < |entries| && Indexes(entries, was, |was|) && Spent(was, coins, entries, k)
    requires entries[k].item < |was| && forall i :: 0 <= i < k ==> entries[i].item != entries[k].item
    ensures coins[entries[k].item] == was[entries[k].item]
    ensures Spent(was, coins[entries[k].item := Stack(was[entries[k].item].unit, 0)], entries, k + 1)
  {
    forall i | 0 <= i < |entries| ensures entries[i].item < |was| {
      assert entries[i] in entries;
    }
    hide Worth, Indexes;
    var item := entries[k].item;
    var coins' := coins[item := Stack(was[item].unit, 0)];
    forall j | 0 <= j < |was| && (forall i :: 0 <= i < k + 1 ==> entries[i].item != j) ensures coins'[j] == was[j] {
      assert j != item;
      assert forall i :: 0 <= i < k ==> entries[i].item != j;
    }
    assert forall i :: 0 <= i < k ==> coins'[entries[i].item] == coins[entries[i].item];
  }

  // some coins of one stack, and new stacks behind the old ones
  ghost predicate TakenFrom(spent: seq<Stack>, after: seq<Stack>, item: nat) {
    item < |spent| <= |after| && after[item].unit == spent[item].unit && after[item].count <= spent[item].count
    && forall j :: 0 <= j < |spent| && j != item ==> after[j] == spent[j]
  }

  // a stack touched on the way comes from one of the first k + 1 entries
  lemma TouchedEntry(before: seq<Stack>, spent: seq<Stack>, after: seq<Stack>, entries: seq<Entry>, k: nat, i: nat)
      returns (a: nat)
    requires k < |entries| && Indexes(entries, before, |before|) && Spent(before, spent, entries, k)
    requires TakenFrom(spent, after, entries[k].item) && i < |before| && after[i] != before[i]
    ensures a <= k && entries[a].item == i && entries[a].worth == Worth(before[i])
    ensures a < k ==> after[i] == Stack(before[i].unit, 0)
  {
    hide Worth;
    if i == entries[k].item {
      a := k;
    } else {
      a :| 0 <= a < k && entries[a].item == i;
    }
    assert entries[a] in entries;
  }

  // a stack with coins left comes from no entry before the k-th
  lemma LeftEntry(before: seq<Stack>, spent: seq<Stack>, after: seq<Stack>, entries: seq<Entry>, k: nat, j: nat)
      returns (b: nat)
    requires k < |entries| && Indexes(entries, before, |before|) && Spent(before, spent, entries, k)
    requires TakenFrom(spent, after, entries[k].item) && j < |before| && Left(before[j], after[j])
    ensures k <= b < |entries| && entries[b].worth == Worth(before[j])
  {
    hide Worth;
    var e := Entry(Worth(before[j]), j);
    assert e in entries;
    b :| 0 <= b < |entries| && entries[b] == e;
    assert forall i :: 0 <= i < k ==> spent[entries[i].item].count == 0;
  }

  lemma PaidInOrder(before: seq<Stack>, spent: seq<Stack>, after: seq<Stack>, entries: seq<Entry>, k: nat)
    requires k < |entries| && Ascending(entries) && Indexes(entries, before, |before|)
    requires Spent(before, spent, entries, k) && TakenFrom(spent, after, entries[k].item)
    requires forall i :: 0 <= i < k ==> entries[i].item != entries[k].item
    ensures PaidFrom(before, after)
  {
    assert |before| <= |after|;
    hide Worth, Indexes, Spent;
    forall i | 0 <= i < |before| ensures after[i].unit == before[i].unit && after[i].count <= before[i].count {
      StackAfter(before, spent, after, entries, k, i);
    }
    forall i, j | 0 <= i < |before| && 0 <= j < |before| && Taken(before[i], after[i]) && Left(before[j], after[j])
      ensures Worth(before[i]) <= Worth(before[j])
    {
      var a := TouchedEntry(before, spent, after, entries, k, i);
      var b := LeftEntry(before, spent, after, entries, k, j);
    }
    forall i | 0 <= i < |before| && Broken(before[i], after[i]) ensures i == entries[k].item {
      var a := TouchedEntry(before, spent, after, entries, k, i);
    }
  }

  lemma StackAfter(before: seq<Stack>, spent: seq<Stack>, after: seq<Stack>, entries: seq<Entry>, k: nat, i: nat)
    requires k < |entries| && Indexes(entries, before, |before|) && i < |before|
    requires Spent(before, spent, entries, k) && TakenFrom(spent, after, entries[k].item)
    requires forall j :: 0 <= j < k ==> entries[j].item != entries[k].item
    ensures |before| <= |after| && after[i].unit == before[i].unit && after[i].count <= before[i].count
  {
    hide Worth;
    if i != entries[k].item && after[i] != before[i] {
      var a := TouchedEntry(before, spent, after, entries, k, i);
    }
  }

  predicate Taken(before: Stack, after: Stack) {
    after.count < before.count
  }

  // ---------- what a payment costs ----------

  // the change, as the program computes it: a product cut to 32 bits, less what is due, in 64 bits
  function Change(unit: nat, n: nat, due: nat): nat {
    (unit * n % WORD - due) % LONG
  }

  // how the covering stack is taken for one coin's worth, and how many of its coins are broken
  function SeenUnit(s: Stack, worth: nat): nat
    requires s.count > 0
  {
    worth / s.count
  }

  /** What the covering stack, seen as worth so much, costs the purse when so much is due.  A number of coins beyond
      those of the stack is not removed, yet the change is handed out.  A coin seen as worth nothing makes the number
      undefined; there the model stops. */
  function LastCost(units: seq<nat>, s: Stack, worth: nat, due: nat): int
    requires Currency(units) && s.count > 0
  {
    if worth == due then Value(s)
    else if SeenUnit(s, worth) == 0 then 0
    else
      var unit := SeenUnit(s, worth);
      var n := CoinsToBreak(due, unit);
      var change := Change(unit, n, due);
      (if n <= s.count then s.unit * n else 0) - (change - Residue(change, units))
  }

  // the covering stack pays: it is taken whole, or enough of its coins are there
  predicate Through(s: Stack, worth: nat, due: nat)
    requires s.count > 0
  {
    worth == due || (SeenUnit(s, worth) > 0 && CoinsToBreak(due, SeenUnit(s, worth)) <= s.count)
  }

  lemma ChangeSmall(unit: nat, n: nat, due: nat)
    requires due <= unit * n < WORD
    ensures Change(unit, n, due) == unit * n - due
  {
    SmallModulo(unit * n);
  }

  /** A stack that is seen as what it is costs what is due, given a coin worth 1, and never less. */
  lemma LastTrue(units: seq<nat>, s: Stack, due: nat)
    requires Currency(units) && 0 < due <= Value(s) < WORD && s.count > 0
    ensures Through(s, Value(s), due) && LastCost(units, s, Value(s), due) >= due
    ensures 1 in units ==> LastCost(units, s, Value(s), due) == due
  {
    if due < Value(s) {
      hide Residue, CoinsToBreak, Currency, Change;
      UnitBack(s.unit, s.count);
      BreakEnough(due, s.unit, s.count);
      var n := CoinsToBreak(due, s.unit);
      TimesMore(s.unit, n, s.count);
      ChangeSmall(s.unit, n, due);
      if 1 in units {
        NothingLeft(s.unit * n - due, units);
      }
    }
  }

  /** A stack beyond 32 bits that pays costs more than what is due. */
  lemma LastHidden(units: seq<nat>, s: Stack, due: nat)
    requires Currency(units) && 1 in units && Value(s) >= WORD && 0 < due <= Worth(s) && s.count > 0
    requires Through(s, Worth(s), due)
    ensures LastCost(units, s, Worth(s), due) > due
  {
    var worth := Worth(s);
    if due < worth {
      hide Residue, CoinsToBreak, Currency, Change, Worth, SeenUnit, Value;
      var unit := SeenUnit(s, worth);
      HiddenUnit(s);
      var n := CoinsToBreak(due, unit);
      Ceiling(due, unit);
      TimesMore(unit, n, s.count);
      ChangeSmall(unit, n, due);
      NothingLeft(unit * n - due, units);
      TimesLess(unit, s.unit, n);
    }
  }

  lemma HiddenUnit(s: Stack)
    requires Value(s) >= WORD && s.count > 0
    ensures SeenUnit(s, Worth(s)) < s.unit && SeenUnit(s, Worth(s)) * s.count <= Worth(s) < WORD
    ensures Worth(s) < Value(s)
  {
    var unit := SeenUnit(s, Worth(s));
    QuotientTimes(Worth(s), s.count);
    assert unit * s.count < s.unit * s.count;
    if unit >= s.unit {
      TimesMore(s.count, s.unit, unit);
      assert false;
    }
  }

  lemma TimesMore(a: nat, b: nat, c: nat)
    requires b <= c
    ensures a * b <= a * c
  {
  }

  lemma TimesLess(a: nat, b: nat, n: nat)
    requires a < b && n > 0
    ensures a * n < b * n
  {
  }

  /** When the number of coins computed is not in the stack, the purse gets the change and loses nothing. */
  lemma LastRefused(units: seq<nat>, s: Stack, worth: nat, due: nat)
    requires Currency(units) && s.count > 0 && 0 < due < worth && SeenUnit(s, worth) > 0 && !Through(s, worth, due)
    ensures LastCost(units, s, worth, due) <= 0 < due
  {
  }

  lemma QuotientTimes(x: nat, n: nat)
    requires n > 0
    ensures x / n * n <= x
  {
  }

  lemma Ceiling(due: nat, unit: nat)
    requires unit > 0 && due > 0
    ensures CoinsToBreak(due, unit) > 0 && unit * CoinsToBreak(due, unit) >= due
  {
    var n := CoinsToBreak(due, unit);
    assert due + unit - 1 == n * unit + (due + unit - 1) % unit;
    assert n * unit >= due;
    assert n == 0 ==> n * unit == 0;
  }

  /** The first entry at which the entries so far cover the amount. */
  function Covering(entries: seq<Entry>, amount: nat): (k: nat)
    requires 0 < amount <= Sum(entries)
    ensures k < |entries| && Sum(entries[..k]) < amount <= Sum(entries[..k]) + entries[k].worth
    decreases |entries|
  {
    var n := |entries| - 1;
    NoWorthLess(entries, n);
    assert entries[..n + 1] == entries;
    if amount <= Sum(entries[..n]) then
      var k := Covering(entries[..n], amount);
      assert entries[..n][..k] == entries[..k];
      k
    else n
  }

  lemma CoveringIs(entries: seq<Entry>, amount: nat, k: nat)
    requires 0 < amount <= Sum(entries) && k < |entries|
    requires Sum(entries[..k]) < amount <= Sum(entries[..k]) + entries[k].worth
    ensures Covering(entries, amount) == k
  {
    var c := Covering(entries, amount);
    if c < k {
      SumPrefix(entries, c + 1, k);
      NoWorthLess(entries, c);
    } else if k < c {
      SumPrefix(entries, k + 1, c);
      NoWorthLess(entries, k);
    }
  }

  lemma SumPrefix(entries: seq<Entry>, i: nat, j: nat)
    requires i <= j <= |entries|
    ensures Sum(entries[..i]) <= Sum(entries[..j])
  {
    assert entries[..j] == entries[..i] + entries[i..j];
    SumSplit(entries[..i], entries[i..j]);
  }

  // what the stacks of the first k entries really hold
  function Whole(coins: seq<Stack>, entries: seq<Entry>, k: nat): nat
    requires k <= |entries| && forall e :: e in entries ==> e.item < |coins|
  {
    if k == 0 then 0 else Whole(coins, entries, k - 1) + Value(coins[entries[k - 1].item])
  }

  /** What a payment costs the purse: the stacks before the covering one whole, and what that one costs. */
  ghost function Cost(units: seq<nat>, coins: seq<Stack>, amount: nat): int
    requires Currency(units) && 0 < amount <= Seen(coins)
  {
    MapFacts(coins);
    var entries := MoneyMap(coins);
    var k := Covering(entries, amount);
    EntryStack(entries, coins, k);
    Whole(coins, entries, k) + LastCost(units, coins[entries[k].item], entries[k].worth, amount - Sum(entries[..k]))
  }

  lemma MapFacts(coins: seq<Stack>)
    ensures Indexes(MoneyMap(coins), coins, |coins|) && Ascending(MoneyMap(coins))
    ensures Sum(MoneyMap(coins)) == Seen(coins)
    ensures forall e :: e in MoneyMap(coins) ==> e.item < |coins| && coins[e.item].count > 0
  {
    hide MoneyMap, Seen, Sum, Worth, Ascending;
    MapPrefix(coins, |coins|);
    assert coins[..|coins|] == coins;
    forall e | e in MoneyMap(coins) ensures coins[e.item].count > 0 {
      WorthCount(coins[e.item]);
    }
  }

  lemma WorthCount(s: Stack)
    ensures Worth(s) > 0 ==> s.count > 0
  {
  }

  lemma {:induction false} MapPrefix(coins: seq<Stack>, n: nat)
    requires n <= |coins|
    ensures Indexes(MoneyMap(coins[..n]), coins, n) && Ascending(MoneyMap(coins[..n]))
    ensures Sum(MoneyMap(coins[..n])) == Seen(coins[..n])
    decreases n
  {
    hide *;
    if n == 0 {
      GatherNothing(coins);
    } else {
      MapPrefix(coins, n - 1);
      GatherStep(coins, n - 1, MoneyMap(coins[..n - 1]));
    }
  }

  /** The stack that covers the last part of a payment pays. */
  ghost predicate GoesThrough(coins: seq<Stack>, amount: nat)
    requires 0 < amount <= Seen(coins)
  {
    MapFacts(coins);
    var entries := MoneyMap(coins);
    var k := Covering(entries, amount);
    EntryStack(entries, coins, k);
    Through(coins[entries[k].item], entries[k].worth, amount - Sum(entries[..k]))
  }

  /** Every stack that a payment takes coins of is within 32 bits. */
  ghost predicate AllTrue(coins: seq<Stack>, amount: nat)
    requires 0 < amount <= Seen(coins)
  {
    MapFacts(coins);
    var entries := MoneyMap(coins);
    forall i :: 0 <= i <= Covering(entries, amount) ==>
      entries[i] in entries && entries[i].item < |coins| && Value(coins[entries[i].item]) < WORD
  }

  // the true value of whole stacks is what was seen, or more as soon as one is beyond 32 bits
  lemma {:induction false} WholeTrue(coins: seq<Stack>, entries: seq<Entry>, k: nat)
    requires k <= |entries| && Indexes(entries, coins, |coins|)
    ensures forall e :: e in entries ==> e.item < |coins|
    ensures Whole(coins, entries, k) >= Sum(entries[..k])
    ensures Whole(coins, entries, k) == Sum(entries[..k]) <==>
      forall i :: 0 <= i < k ==> entries[i] in entries && Value(coins[entries[i].item]) < WORD
    decreases k
  {
    if k > 0 {
      WholeTrue(coins, entries, k - 1);
      NoWorthLess(entries, k - 1);
      EntryStack(entries, coins, k - 1);
      WorthExact(coins[entries[k - 1].item]);
      assert entries[k - 1] in entries;
      WorthBelow(coins[entries[k - 1].item]);
      hide Worth, Indexes, Sum, Value;
    } else {
      assert entries[..0] == [];
    }
  }

  lemma WorthBelow(s: Stack)
    ensures Worth(s) <= Value(s)
  {
  }

  /** A payment whose covering stack pays costs exactly its amount if and only if it touches no stack beyond 32 bits;
      otherwise it costs more. */
  lemma PaymentExact(units: seq<nat>, coins: seq<Stack>, amount: nat)
    requires Currency(units) && 1 in units && 0 < amount <= Seen(coins) && GoesThrough(coins, amount)
    ensures Cost(units, coins, amount) >= amount
    ensures Cost(units, coins, amount) == amount <==> AllTrue(coins, amount)
  {
    hide Worth, Indexes, Sum, Value, LastCost, MoneyMap, Currency, Through, Covering, Ascending, Whole, Seen;
    MapFacts(coins);
    var entries := MoneyMap(coins);
    var k := Covering(entries, amount);
    EntryStack(entries, coins, k);
    WholeTrue(coins, entries, k);
    var s, due := coins[entries[k].item], amount - Sum(entries[..k]);
    assert entries[k] in entries;
    WorthExact(s);
    if Value(s) < WORD {
      LastTrue(units, s, due);
    } else {
      LastHidden(units, s, due);
    }
  }

  /** Without stacks beyond 32 bits every payment goes through. */
  lemma TruePays(units: seq<nat>, coins: seq<Stack>, amount: nat)
    requires Currency(units) && 0 < amount <= Seen(coins) && forall s :: s in coins ==> Value(s) < WORD
    ensures GoesThrough(coins, amount) && AllTrue(coins, amount) && Cost(units, coins, amount) >= amount
  {
    MapFacts(coins);
    var entries := MoneyMap(coins);
    var k := Covering(entries, amount);
    EntryStack(entries, coins, k);
    WholeTrue(coins, entries, k);
    var s, due := coins[entries[k].item], amount - Sum(entries[..k]);
    assert s in coins;
    WorthExact(s);
    LastTrue(units, s, due);
    hide Worth, Indexes, Sum, Value, LastCost, MoneyMap, Currency, Through;
    assert forall i :: 0 <= i < |entries| ==> entries[i] in entries;
  }

  /** One stack of three coins worth 2^31 each is seen as 2^31, so a coin as 715827882: a payment of 1000 takes one of
      them, hands out 715826882 and costs 1431656766. */
  lemma HiddenCost(units: seq<nat>)
    requires Currency(units) && 1 in units
    ensures var coins := [Stack(0x8000_0000, 3)];
      Seen(coins) == 0x8000_0000 && GoesThrough(coins, 1000) && Cost(units, coins, 1000) == 1_431_656_766
  {
    var coins := [Stack(0x8000_0000, 3)];
    var s := coins[0];
    assert Worth(s) == 0x8000_0000;
    assert coins[..0] == [] && MoneyMap([]) == [];
    var e := Entry(0x8000_0000, 0);
    assert Emplace([], e) == [e];
    assert MoneyMap(coins) == [e];
    assert Seen(coins) == 0x8000_0000;
    MapFacts(coins);
    assert [e][..0] == [] && [e][1..] == [];
    CoveringIs([e], 1000, 0);
    assert SeenUnit(s, 0x8000_0000) == 715_827_882;
    assert CoinsToBreak(1000, 715_827_882) == 1;
    assert Change(715_827_882, 1, 1000) == 715_826_882;
    NothingLeft(715_826_882, units);
  }

  class Purse {
    const units: seq<nat>
    var coins: seq<Stack>  // every stack the search reaches, in the order it reaches them
    var ground: seq<Stack> // coins that found no room

    ghost predicate Valid()
      reads this
    {
      Currency(units)
    }

    ghost function Held(): nat
      reads this
    {
      Total(coins) + Total(ground)
    }

    constructor (units: seq<nat>, coins: seq<Stack>)
      requires Currency(units)
      ensures Valid() && this.units == units && this.coins == coins && ground == []
    {
      this.units, this.coins, ground := units, coins, [];
    }

    // since the purse held was and the ground lay, these stacks were made
    ghost predicate Laid(was: seq<Stack>, lay: seq<Stack>, stacks: seq<Stack>, room: nat -> bool)
      reads this
    {
      coins == was + InPurse(stacks, room) && ground == lay + OnGround(stacks, room)
    }

    // one more stack: to the ground if there is no room
    method AddStack(stack: Stack, room: nat -> bool, made: nat, ghost was: seq<Stack>, ghost lay: seq<Stack>,
                    ghost stacks: seq<Stack>)
      requires Laid(was, lay, stacks, room) && made == |stacks|
      modifies this
      ensures Laid(was, lay, stacks + [stack], room) && Held() == old(Held()) + Value(stack)
    {
      NextStack(stacks, stack, room);
      TotalSplit(coins, [stack]);
      TotalSplit(ground, [stack]);
      assert Total([stack]) == Value(stack);
      if room(made) {
        coins := coins + [stack];
      } else {
        ground := ground + [stack];
      }
    }

    // one denomination
    method AddCoins(unit: nat, number: nat, room: nat -> bool, made: nat, ghost was: seq<Stack>, ghost lay: seq<Stack>,
                    ghost stacks: seq<Stack>) returns (made': nat, ghost more: seq<Stack>)
      requires Laid(was, lay, stacks, room) && made == |stacks|
      modifies this
      ensures Laid(was, lay, stacks + more, room) && made' == |stacks + more| && Piled(more, unit, number)
      ensures Held() == old(Held()) + unit * number
    {
      hide InPurse, OnGround;
      var left := number;
      made', more := made, [];
      assert stacks + [] == stacks;
      while left > 0
        invariant 0 <= left <= number && Laid(was, lay, stacks + more, room) && made' == |stacks + more|
        invariant Held() == old(Held()) + unit * (number - left) && Piled(more, unit, number - left)
        invariant left > 0 ==> forall i :: 0 <= i < |more| ==> more[i].count == STACK_SIZE
      {
        var count := if left < STACK_SIZE then left else STACK_SIZE;
        assert unit * (number - left) + unit * count == unit * (number - (left - count));
        ghost var stack := Stack(unit, count);
        TotalSplit(more, [stack]);
        assert Total([stack]) == Value(stack);
        AddStack(Stack(unit, count), room, made', was, lay, stacks + more);
        assert stacks + (more + [stack]) == stacks + more + [stack];
        more := more + [stack];
        made' := made' + 1;
        left := left - count;
      }
      assert number - left == number;
    }

    // as many coins of one unit as the amount still holds
    method AddUnit(money: nat, unit: nat, room: nat -> bool, made: nat, ghost was: seq<Stack>, ghost lay: seq<Stack>,
                   ghost stacks: seq<Stack>) returns (left: nat, made': nat, ghost more: seq<Stack>)
      requires Laid(was, lay, stacks, room) && made == |stacks| && unit > 0
      modifies this
      ensures Laid(was, lay, stacks + more, room) && made' == |stacks + more|
      ensures Piled(more, unit, Coins(money, unit)) && left == money - unit * Coins(money, unit)
      ensures Held() == old(Held()) + money - left
    {
      left, made', more := money, made, [];
      assert stacks + [] == stacks;
      var number := Coins(money, unit);
      HandedFits(money, unit);
      hide InPurse, OnGround, Coins;
      if number > 0 {
        left := money - unit * number;
        made', more := AddCoins(unit, number, room, made, was, lay, stacks);
      }
    }

    /** Change in stacks of at most 100 and of the largest coins that fit: with room for a stack it goes to the purse,
        without to the ground, each in the order they are made. */
    method AddMoney(amount: nat, room: nat -> bool) returns (ghost stacks: seq<Stack>)
      requires Currency(units)
      modifies this
      ensures Held() == old(Held()) + amount - Residue(amount, units)
      ensures Laid(old(coins), old(ground), stacks, room)
      ensures Greedy(units, |units|, stacks, amount, Residue(amount, units))
      ensures (forall n: nat :: room(n)) ==> ground == old(ground)
      ensures (forall n: nat :: !room(n)) ==> coins == old(coins)
    {
      stacks := [];
      if amount == 0 {
        NoMoney(units);
        return;
      }
      var money: nat := amount;
      var made := 0;
      hide InPurse, OnGround, Greedy, Coins, Total;
      GreedyStart(units, amount);
      NothingLaid(room);
      for i := 0 to |units|
        invariant Held() == old(Held()) + amount - money && made == |stacks|
        invariant Residue(money, units[i..]) == Residue(amount, units)
        invariant Laid(old(coins), old(ground), stacks, room) && Greedy(units, i, stacks, amount, money)
      {
        assert units[i..][1..] == units[i + 1..];
        ghost var more;
        var was := money;
        money, made, more := AddUnit(money, units[i], room, made, old(coins), old(ground), stacks);
        GreedyMore(units, i, stacks, more, amount, was);
        stacks := stacks + more;
      }
      LaidMeans(stacks, room);
    }

    // the stacks by worth: the search and the sum it makes on the way
    method Gather() returns (moneyMap: seq<Entry>, moneyCount: nat)
      ensures moneyMap == MoneyMap(coins) && moneyCount == Sum(moneyMap) == Seen(coins)
      ensures Ascending(moneyMap) && Indexes(moneyMap, coins, |coins|)
    {
      hide *;
      moneyMap, moneyCount := [], 0;
      GatherNothing(coins);
      for i := 0 to |coins|
        invariant Ascending(moneyMap) && Indexes(moneyMap, coins, i) && moneyMap == MoneyMap(coins[..i])
        invariant moneyCount == Sum(moneyMap) == Seen(coins[..i])
      {
        GatherStep(coins, i, moneyMap);
        var worth := Worth(coins[i]);
        if worth != 0 {
          moneyMap := Emplace(moneyMap, Entry(worth, i));
          moneyCount := moneyCount + worth;
        }
      }
      assert coins[..|coins|] == coins;
    }

    // internalRemoveItem: some of a stack's coins
    method RemoveItem(item: nat, count: nat)
      requires item < |coins| && count <= coins[item].count
      modifies this
      ensures ground == old(ground)
      ensures coins == old(coins)[item := Stack(old(coins)[item].unit, old(coins)[item].count - count)]
      ensures Held() == old(Held()) - old(coins)[item].unit * count
    {
      var s := coins[item];
      var t := Stack(s.unit, s.count - count);
      TotalUpdate(coins, item, t);
      assert Value(t) == Value(s) - s.unit * count;
      coins := coins[item := t];
    }

    // the entry that covers what is left to pay: taken whole, or broken
    method PayLast(e: Entry, money: nat, room: nat -> bool) returns (ghost change: seq<Stack>)
      requires Currency(units) && e.item < |coins| && coins[e.item].count > 0 && e.worth == Worth(coins[e.item])
      requires 0 < money <= e.worth
      modifies this
      ensures Held() == old(Held()) - LastCost(units, old(coins)[e.item], e.worth, money)
      ensures TakenFrom(old(coins), coins, e.item) && |old(coins)| <= |coins|
      ensures coins[|old(coins)|..] == InPurse(change, room) && ground == old(ground) + OnGround(change, room)
    {
      change := [];
      NothingLaid(room);
      var s := coins[e.item];
      if e.worth > money {
        var unit := e.worth / s.count;
        if unit == 0 {
          return;
        }
        var remove := CoinsToBreak(money, unit);
        var due := Change(unit, remove, money);
        hide Residue, Total, Currency, CoinsToBreak, Worth, Change, InPurse, OnGround, Greedy;
        change := AddMoney(due, room);
        assert coins[..|old(coins)|] == old(coins);
        // internalRemoveItem refuses more than there is
        if remove <= s.count {
          RemoveItem(e.item, remove);
        }
      } else {
        RemoveItem(e.item, s.count);
      }
    }

    // an entry taken whole
    method RemoveEntry(ghost was: seq<Stack>, moneyMap: seq<Entry>, k: nat)
      requires k < |moneyMap| && Indexes(moneyMap, was, |was|) && Spent(was, coins, moneyMap, k)
      modifies this
      ensures Spent(was, coins, moneyMap, k + 1) && ground == old(ground)
      ensures moneyMap[k].item < |was| && Held() == old(Held()) - Value(was[moneyMap[k].item])
    {
      EntryStack(moneyMap, was, k);
      SpentMore(was, coins, moneyMap, k);
      hide Worth, Total, Indexes, Spent;
      var item := moneyMap[k].item;
      RemoveItem(item, coins[item].count);
    }

    /** A payment of more than what is seen changes nothing; any other takes coins from the stacks of the least worth
        first, and costs the purse what Cost says: with stacks within 32 bits and a coin worth 1, exactly its amount. */
    method RemoveMoney(amount: nat, room: nat -> bool) returns (ok: bool, ghost change: seq<Stack>)
      requires Valid()
      modifies this
      ensures ok <==> amount <= Seen(old(coins))
      ensures ok && amount > 0 ==> Held() == old(Held()) - Cost(units, old(coins), amount)
      ensures ok ==> PaidFrom(old(coins), coins)
      ensures |old(coins)| <= |coins| && coins[|old(coins)|..] == InPurse(change, room)
      ensures ground == old(ground) + OnGround(change, room)
      ensures (forall n: nat :: room(n)) ==> ground == old(ground)
      ensures (forall n: nat :: !room(n)) ==> |coins| == |old(coins)|
      ensures (forall s :: s in old(coins) ==> Value(s) < WORD) ==> (ok <==> amount <= old(Total(coins)))
      ensures ok && (forall s :: s in old(coins) ==> Value(s) < WORD) ==>
        Held() <= old(Held()) - amount && (1 in units ==> Held() == old(Held()) - amount)
      ensures !ok || amount == 0 ==> coins == old(coins) && ground == old(ground)
    {
      hide Total, Sum, Worth, PaidFrom, MoneyMap, Seen, Cost, AllTrue, GoesThrough, InPurse, OnGround;
      change := [];
      NothingLaid(room);
      if forall s :: s in coins ==> Value(s) < WORD {
        SeenExact(coins);
      }
      if amount == 0 {
        PaidNothing(coins);
        return true, [];
      }
      var moneyMap, moneyCount := Gather();
      if moneyCount < amount {
        return false, [];
      }
      if forall s :: s in coins ==> Value(s) < WORD {
        TruePays(units, coins, amount);
        if 1 in units {
          PaymentExact(units, coins, amount);
        }
      }
      change := Pay(moneyMap, amount, room);
      LaidMeans(change, room);
      ok := true;
    }

    // the loop over the map: small stacks whole, and the one that covers the rest
    method Pay(moneyMap: seq<Entry>, amount: nat, room: nat -> bool) returns (ghost change: seq<Stack>)
      requires Valid() && moneyMap == MoneyMap(coins) && 0 < amount <= Seen(coins)
      modifies this
      ensures Held() == old(Held()) - Cost(units, old(coins), amount) && PaidFrom(old(coins), coins)
      ensures |old(coins)| <= |coins| && coins[|old(coins)|..] == InPurse(change, room)
      ensures ground == old(ground) + OnGround(change, room)
    {
      MapFacts(coins);
      hide Total, Sum, Currency, Worth, Value, Indexes, PaidFrom, TakenFrom, Ascending, LastCost, MoneyMap, Seen;
      hide InPurse, OnGround;
      var money: nat := amount;
      ghost var was := coins;
      var k := 0;
      assert moneyMap[0..] == moneyMap && moneyMap[..0] == [];
      SumLeft(moneyMap, 0);
      SumNothing();
      while moneyMap[k].worth < money
        invariant k < |moneyMap| && Spent(was, coins, moneyMap, k)
        invariant 0 < money <= Sum(moneyMap[k..]) && money == amount - Sum(moneyMap[..k])
        invariant Held() == old(Held()) - Whole(was, moneyMap, k) && ground == old(ground)
        decreases |moneyMap| - k
      {
        NoWorthLess(moneyMap, k);
        RemoveEntry(was, moneyMap, k);
        money := money - moneyMap[k].worth;
        k := k + 1;
        SumLeft(moneyMap, k);
      }
      EntryStack(moneyMap, was, k);
      CoveringIs(moneyMap, amount, k);
      ghost var spent := coins;
      SpentLast(was, coins, moneyMap, k);
      change := PayLast(moneyMap[k], money, room);
      PaidInOrder(was, spent, coins, moneyMap, k);
    }
  }

  lemma NothingLaid(room: nat -> bool)
    ensures InPurse([], room) == [] && OnGround([], room) == []
  {
  }

  lemma LaidMeans(stacks: seq<Stack>, room: nat -> bool)
    ensures (forall n: nat :: room(n)) ==> OnGround(stacks, room) == []
    ensures (forall n: nat :: !room(n)) ==> InPurse(stacks, room) == []
  {
  }

  lemma GreedyStart(units: seq<nat>, amount: nat)
    ensures Greedy(units, 0, [], amount, amount)
  {
  }

  lemma SumNothing()
    ensures Sum([]) == 0
  {
  }

  lemma SpentLast(was: seq<Stack>, coins: seq<Stack>, entries: seq<Entry>, k: nat)
    requires k < |entries| && Indexes(entries, was, |was|) && Spent(was, coins, entries, k)
    ensures entries[k].item < |was| == |coins| && coins[entries[k].item] == was[entries[k].item]
    ensures was[entries[k].item].count > 0
  {
    EntryStack(entries, was, k);
    assert Worth(was[entries[k].item]) > 0;
  }
}
