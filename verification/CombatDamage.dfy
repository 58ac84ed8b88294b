/** What becomes of a hit: its conversion by imbuements and the mana shield. */
module CombatDamage {
  import opened Numbers

  // a std::map from kinds or creatures to amounts: ascending keys
  datatype Entry = Entry(key: nat, amount: int)

  type Ledger = seq<Entry>

  predicate Ascending(m: Ledger) {
    forall i, j :: 0 <= i < j < |m| ==> m[i].key < m[j].key
  }

  function Sum(m: Ledger): int {
    if m == [] then 0 else m[0].amount + Sum(m[1..])
  }

  function Get(m: Ledger, key: nat): int {
    if m == [] then 0 else if m[0].key == key then m[0].amount else Get(m[1..], key)
  }

  // m[key] = amount
  function Assign(m: Ledger, key: nat, amount: int): Ledger {
    if m == [] then [Entry(key, amount)]
    else if m[0].key == key then [Entry(key, amount)] + m[1..]
    else if m[0].key > key then [Entry(key, amount)] + m
    else [m[0]] + Assign(m[1..], key, amount)
  }

  lemma AscendingCons(e: Entry, m: Ledger)
    ensures Ascending([e] + m) <==> Ascending(m) && (m != [] ==> e.key < m[0].key)
  {
    var r := [e] + m;
    if Ascending(r) {
      forall i, j | 0 <= i < j < |m| ensures m[i].key < m[j].key {
        assert r[i + 1].key < r[j + 1].key;
      }
      assert m != [] ==> r[0].key < r[1].key;
    } else {
      var i, j :| 0 <= i < j < |r| && r[i].key >= r[j].key;
      assert i > 0 ==> m[i - 1].key >= m[j - 1].key;
      assert i == 0 && j > 1 && Ascending(m) ==> m[0].key < m[j - 1].key;
    }
  }

  lemma SumCons(e: Entry, m: Ledger)
    ensures Sum([e] + m) == e.amount + Sum(m)
  {
    assert ([e] + m)[1..] == m;
  }

  lemma {:induction false} AssignLaws(m: Ledger, key: nat, amount: int)
    requires Ascending(m)
    ensures var r := Assign(m, key, amount);
      && Ascending(r) && r != [] && r[0].key == (if m == [] || key < m[0].key then key else m[0].key)
      && Sum(r) == Sum(m) - Get(m, key) + amount
    decreases |m|
  {
    if m == [] {
      SumCons(Entry(key, amount), []);
    } else {
      assert m == [m[0]] + m[1..];
      AscendingCons(m[0], m[1..]);
      hide Ascending;
      if m[0].key == key {
        AscendingCons(Entry(key, amount), m[1..]);
      } else if m[0].key > key {
        Absent(m, key);
        AscendingCons(Entry(key, amount), m);
        SumCons(Entry(key, amount), m);
      } else {
        AssignLaws(m[1..], key, amount);
        AscendingCons(m[0], Assign(m[1..], key, amount));
        SumCons(m[0], Assign(m[1..], key, amount));
      }
    }
  }

  lemma {:induction false} Absent(m: Ledger, key: nat)
    ensures Ascending(m) && (m != [] ==> m[0].key > key) ==> Get(m, key) == 0
    decreases |m|
  {
    if m != [] {
      Absent(m[1..], key);
    }
  }

  ghost function Keys(m: Ledger): set<nat> {
    set e | e in m :: e.key
  }

  lemma {:induction false} KeysAssign(m: Ledger, key: nat, amount: int)
    ensures Keys(Assign(m, key, amount)) == Keys(m) + {key}
    decreases |m|
  {
    var r := Assign(m, key, amount);
    if m == [] {
      KeysCons(Entry(key, amount), []);
    } else {
      assert m == [m[0]] + m[1..];
      KeysCons(m[0], m[1..]);
      if m[0].key == key {
        KeysCons(Entry(key, amount), m[1..]);
      } else if m[0].key > key {
        KeysCons(Entry(key, amount), m);
      } else {
        KeysAssign(m[1..], key, amount);
        KeysCons(m[0], Assign(m[1..], key, amount));
      }
    }
  }

  lemma KeysCons(e: Entry, m: Ledger)
    ensures Keys([e] + m) == {e.key} + Keys(m) && Keys([]) == {}
  {
    forall k ensures k in Keys([e] + m) <==> k in {e.key} + Keys(m) {
      if k == e.key {
        assert ([e] + m)[0] == e;
      }
      if d :| d in m && d.key == k {
        assert d in [e] + m;
      }
    }
  }

  function Grown(m: Ledger, key: nat, amount: int): int {
    Get(m, key) + amount
  }

  // m[key] += amount
  function Add(m: Ledger, key: nat, amount: int): Ledger {
    Assign(m, key, Grown(m, key, amount))
  }

  lemma {:induction false} GetAssign(m: Ledger, key: nat, amount: int, k: nat)
    requires Ascending(m)
    ensures Get(Assign(m, key, amount), k) == if k == key then amount else Get(m, k)
    decreases |m|
  {
    if m != [] && m[0].key < key {
      GetAssign(m[1..], key, amount, k);
    } else if m != [] && m[0].key > key {
      Absent(m, key);
    }
  }

  lemma AddLaws(m: Ledger, key: nat, amount: int, k: nat)
    requires Ascending(m)
    ensures var r := Add(m, key, amount);
      && Ascending(r) && Sum(r) == Sum(m) + amount && Keys(r) == Keys(m) + {key}
      && Get(r, k) == Get(m, k) + if k == key then amount else 0
  {
    AssignLaws(m, key, Grown(m, key, amount));
    KeysAssign(m, key, Grown(m, key, amount));
    GetAssign(m, key, Grown(m, key, amount), k);
    hide Assign, Ascending, Sum, Keys, Get;
  }

  // ---------- conversion by imbuements ----------

  const PHYSICAL: nat := 1

  // std::round of amount * percent / 100: halves go away from zero
  function Percent(amount: int, percent: nat): int {
    if amount >= 0 then (2 * amount * percent + 100) / 200 else -((2 * -amount * percent + 100) / 200)
  }

  /** The share is the nearest whole number, and of two equally near ones the one farther from zero. */
  lemma NearestPercent(amount: int, percent: nat)
    ensures var twice := 200 * Percent(amount, percent) - 2 * amount * percent;
      if amount >= 0 then -100 < twice <= 100 else -100 <= twice < 100
  {
    var n := 2 * Abs(amount) * percent + 100;
    Hundredths(n);
    assert n == 2 * (if amount >= 0 then amount else -amount) * percent + 100;
    assert 2 * -amount * percent == -(2 * amount * percent);
  }

  lemma Hundredths(n: nat)
    ensures n - 200 < 200 * (n / 200) <= n
  {
  }

  datatype Imbuement = Imbuement(kind: nat, percent: nat)

  datatype Split = Split(kind: nat, value: int)

  function Moved(m: Ledger, from: nat, to: nat, n: int): Ledger {
    Add(Add(m, from, -n), to, n)
  }

  // the first n entries have each given their share back to the physical damage
  function GivenBack(m: Ledger, n: nat, percent: nat): Ledger
    requires n <= |m|
  {
    if n == 0 then m
    else
      var r, kind := GivenBack(m, n - 1, percent), m[n - 1].key;
      if kind == PHYSICAL then r else Moved(r, kind, PHYSICAL, Percent(Get(r, kind), percent))
  }

  lemma BackNext(m: Ledger, n: nat, percent: nat)
    requires n < |m|
    ensures m[n].key == PHYSICAL ==> GivenBack(m, n + 1, percent) == GivenBack(m, n, percent)
    ensures m[n].key != PHYSICAL ==> var r := GivenBack(m, n, percent);
      GivenBack(m, n + 1, percent) == Moved(r, m[n].key, PHYSICAL, Percent(Get(r, m[n].key), percent))
  {
    hide Moved, Percent, Get;
  }

  /** One imbuement: magic damage takes a share of the physical, or each magic damage gives one back. */
  function Imbued(m: Ledger, i: Imbuement): Ledger {
    if i.kind != PHYSICAL then Moved(m, PHYSICAL, i.kind, Percent(Get(m, PHYSICAL), i.percent))
    else GivenBack(m, |m|, i.percent)
  }

  function ImbuedAll(m: Ledger, imbuements: seq<Imbuement>): Ledger {
    if imbuements == [] then m
    else Imbued(ImbuedAll(m, imbuements[..|imbuements| - 1]), imbuements[|imbuements| - 1])
  }

  lemma {:induction false} ImbuedConcat(m: Ledger, a: seq<Imbuement>, b: seq<Imbuement>)
    ensures ImbuedAll(m, a + b) == ImbuedAll(ImbuedAll(m, a), b)
    decreases |b|
  {
    hide Imbued;
    if b == [] {
      assert a + b == a;
    } else {
      assert (a + b)[..|a + b| - 1] == a + b[..|b| - 1];
      ImbuedConcat(m, a, b[..|b| - 1]);
    }
  }

  lemma MovedLaws(m: Ledger, from: nat, to: nat, n: int, k: nat)
    requires Ascending(m)
    ensures var r := Moved(m, from, to, n);
      && Ascending(r) && Sum(r) == Sum(m) && Keys(r) == Keys(m) + {from, to}
      && Get(r, k) == Get(m, k) - (if k == from then n else 0) + if k == to then n else 0
  {
    AddLaws(m, from, -n, k);
    AddLaws(Add(m, from, -n), to, n, k);
    hide Add, Ascending, Sum, Keys, Get;
  }

  method ToMagic(m: Ledger, kind: nat, percent: nat) returns (r: Ledger)
    requires Ascending(m) && kind != PHYSICAL
    ensures r == Imbued(m, Imbuement(kind, percent))
    ensures Ascending(r) && Sum(r) == Sum(m)
    ensures Get(r, PHYSICAL) == Get(m, PHYSICAL) - Percent(Get(m, PHYSICAL), percent)
    ensures Get(r, kind) == Get(m, kind) + Percent(Get(m, PHYSICAL), percent)
    ensures forall k :: k != PHYSICAL && k != kind ==> Get(r, k) == Get(m, k)
    ensures Keys(r) == Keys(m) + {PHYSICAL, kind}
  {
    var n := Percent(Get(m, PHYSICAL), percent);
    MovedLaws(m, PHYSICAL, kind, n, PHYSICAL);
    MovedLaws(m, PHYSICAL, kind, n, kind);
    forall k | k != PHYSICAL && k != kind ensures Get(Moved(m, PHYSICAL, kind, n), k) == Get(m, k) {
      MovedLaws(m, PHYSICAL, kind, n, k);
    }
    r := Add(m, PHYSICAL, -n);
    r := Add(r, kind, n);
  }

  // the map has an entry, of whatever amount, for a kind that is not physical
  ghost predicate Magic(m: Ledger) {
    exists k :: k in Keys(m) && k != PHYSICAL
  }

  lemma KeyAt(m: Ledger, i: nat)
    requires i < |m|
    ensures m[i].key in Keys(m)
  {
    assert m[i] in m;
  }

  lemma MagicAt(m: Ledger)
    ensures Magic(m) <==> exists i :: 0 <= i < |m| && m[i].key != PHYSICAL
  {
    if i :| 0 <= i < |m| && m[i].key != PHYSICAL {
      assert m[i] in m && m[i].key in Keys(m);
    }
  }

  // what an entry among those seen has given
  function Given(seen: Ledger, m: Ledger, key: nat, percent: nat): int {
    if Seen(seen, key) then Percent(Get(m, key), percent) else 0
  }

  predicate Seen(m: Ledger, key: nat) {
    exists i :: 0 <= i < |m| && m[i].key == key
  }

  lemma {:induction false} GetAt(m: Ledger, i: nat)
    requires Ascending(m) && i < |m|
    ensures Get(m, m[i].key) == m[i].amount
    decreases i
  {
    if i > 0 {
      GetAt(m[1..], i - 1);
    }
  }

  lemma NotSeen(m: Ledger, i: nat)
    requires Ascending(m) && i < |m|
    ensures !Seen(m[..i], m[i].key)
    ensures forall k :: Seen(m[..i + 1], k) <==> Seen(m[..i], k) || k == m[i].key
  {
    var a, b := m[..i], m[..i + 1];
    assert b == a + [m[i]];
    forall k ensures Seen(b, k) <==> Seen(a, k) || k == m[i].key {
      assert b[i].key == m[i].key;
      if j :| 0 <= j < |a| && a[j].key == k {
        assert b[j].key == k;
      }
    }
  }

  lemma {:induction false} Unseen(m: Ledger, key: nat)
    ensures !Seen(m, key) ==> Get(m, key) == 0
    decreases |m|
  {
    if m != [] && !Seen(m, key) {
      assert m[0].key != key;
      assert !Seen(m[1..], key) by {
        assert forall i :: 0 <= i < |m[1..]| ==> m[1..][i] == m[i + 1];
      }
      Unseen(m[1..], key);
    }
  }

  lemma AllGiven(m: Ledger, key: nat, percent: nat)
    ensures Given(m[..|m|], m, key, percent) == Percent(Get(m, key), percent)
  {
    assert m[..|m|] == m;
    Unseen(m, key);
  }

  lemma {:induction false} BackLaws(m: Ledger, n: nat, percent: nat, k: nat)
    requires Ascending(m) && n <= |m|
    ensures var r := GivenBack(m, n, percent);
      && Ascending(r) && Sum(r) == Sum(m) && Keys(m) <= Keys(r) <= Keys(m) + {PHYSICAL}
      && (k != PHYSICAL ==> Get(r, k) == Get(m, k) - Given(m[..n], m, k, percent))
    decreases n
  {
    hide Ascending, Sum, Keys, Get, Percent, Moved;
    if n > 0 {
      var kind, before := m[n - 1].key, GivenBack(m, n - 1, percent);
      BackLaws(m, n - 1, percent, k);
      BackLaws(m, n - 1, percent, kind);
      NotSeen(m, n - 1);
      BackNext(m, n - 1, percent);
      if kind != PHYSICAL {
        KeyAt(m, n - 1);
        MovedLaws(before, kind, PHYSICAL, Percent(Get(before, kind), percent), k);
      }
    }
  }

  // each magic amount gives its share; the physical entry may appear on the way
  method ToPhysical(m: Ledger, percent: nat) returns (r: Ledger, converted: bool)
    requires Ascending(m)
    ensures r == Imbued(m, Imbuement(PHYSICAL, percent))
    ensures Ascending(r) && Sum(r) == Sum(m) && (converted <==> exists i :: 0 <= i < |m| && m[i].key != PHYSICAL)
    ensures forall k :: k != PHYSICAL ==> Get(r, k) == Get(m, k) - Percent(Get(m, k), percent)
    ensures Keys(m) <= Keys(r) <= Keys(m) + {PHYSICAL} && (converted <==> Magic(m))
  {
    hide Ascending, Sum, Keys, Get, Percent, Magic, Add, Given;
    MagicAt(m);
    r, converted := m, false;
    assert r == GivenBack(m, 0, percent) && Imbued(m, Imbuement(PHYSICAL, percent)) == GivenBack(m, |m|, percent);
    hide GivenBack, Imbued;
    for i := 0 to |m|
      invariant r == GivenBack(m, i, percent)
      invariant converted <==> exists j :: 0 <= j < i && m[j].key != PHYSICAL
    {
      var kind := m[i].key;
      BackNext(m, i, percent);
      if kind != PHYSICAL {
        var n := Percent(Get(r, kind), percent);
        r := Add(r, kind, -n);
        r := Add(r, PHYSICAL, n);
        converted := true;
      }
    }
    BackLaws(m, |m|, percent, PHYSICAL);
    forall k | k != PHYSICAL ensures Get(r, k) == Get(m, k) - Percent(Get(m, k), percent) {
      BackLaws(m, |m|, percent, k);
      AllGiven(m, k, percent);
    }
  }

  function Total(extra: seq<Split>): int {
    if extra == [] then 0 else Total(extra[..|extra| - 1]) + extra[|extra| - 1].value
  }

  function OfKind(s: Split, kind: nat): int {
    if s.kind == kind then s.value else 0
  }

  function ExtraOf(extra: seq<Split>, kind: nat): int {
    if extra == [] then 0 else ExtraOf(extra[..|extra| - 1], kind) + OfKind(extra[|extra| - 1], kind)
  }

  /** The damage of one kind that a hit deals in all. */
  function Dealt(primary: Split, secondary: Split, extra: seq<Split>, kind: nat): int {
    OfKind(primary, kind) + OfKind(secondary, kind) + ExtraOf(extra, kind)
  }

  lemma {:induction false} GetNext(m: Ledger, i: nat, k: nat)
    requires Ascending(m) && i < |m|
    ensures Get(m[..i + 1], k) == Get(m[..i], k) + if m[i].key == k then m[i].amount else 0
    decreases i
  {
    assert m[..i + 1][0] == m[0];
    if i == 0 {
      assert m[..1][1..] == [] && m[..0] == [];
    } else {
      assert m[..i + 1][1..] == m[1..][..i] && m[..i][1..] == m[1..][..i - 1] && m[..i][0] == m[0];
      GetNext(m[1..], i - 1, k);
    }
  }

  /** The amounts go to the primary and the secondary damage, and to further hits: of each kind all that the map holds,
      and nothing is lost on the way. */
  method HandOut(m: Ledger) returns (primary: Split, secondary: Split, extra: seq<Split>)
    requires Ascending(m)
    ensures primary.value + secondary.value + Total(extra) == Sum(m)
    ensures forall k :: Dealt(primary, secondary, extra, k) == Get(m, k)
  {
    primary, secondary, extra := Split(0, 0), Split(0, 0), [];
    assert m[..0] == [];
    for i := 0 to |m|
      invariant primary.value + secondary.value + Total(extra) + Sum(m[i..]) == Sum(m)
      invariant forall k :: Dealt(primary, secondary, extra, k) == Get(m[..i], k)
    {
      assert m[i..][0] == m[i] && m[i..][1..] == m[i + 1..];
      ghost var first, second, more := primary, secondary, extra;
      if primary.value == 0 {
        primary := Split(m[i].key, m[i].amount);
      } else if secondary.value == 0 {
        secondary := Split(m[i].key, m[i].amount);
      } else {
        assert (extra + [Split(m[i].key, m[i].amount)])[..|extra|] == extra;
        extra := extra + [Split(m[i].key, m[i].amount)];
      }
      forall k ensures Dealt(primary, secondary, extra, k) == Get(m[..i + 1], k) {
        GetNext(m, i, k);
        assert Dealt(first, second, more, k) == Get(m[..i], k);
        hide Get;
      }
    }
    assert m[..|m|] == m;
  }

  // an item worn by the attacker: how it boosts each kind of damage, and its damage imbuements
  datatype Gear = Gear(boost: nat -> nat, imbuements: seq<Imbuement>)

  function AllImbuements(gear: seq<Gear>): seq<Imbuement> {
    if gear == [] then [] else gear[0].imbuements + AllImbuements(gear[1..])
  }

  lemma {:induction false} AllSnoc(gear: seq<Gear>, g: Gear)
    ensures AllImbuements(gear + [g]) == AllImbuements(gear) + g.imbuements
    decreases |gear|
  {
    if gear == [] {
      assert [] + [g] == [g] && [g][1..] == [];
    } else {
      assert (gear + [g])[1..] == gear[1..] + [g];
      AllSnoc(gear[1..], g);
    }
  }

  // every item adds its rounded percentage of what the damage has grown to
  function Boosted(kind: nat, value: int, gear: seq<Gear>): int {
    if gear == [] then value else
      var before := Boosted(kind, value, gear[..|gear| - 1]);
      before + Percent(before, gear[|gear| - 1].boost(kind))
  }

  function Doubled(value: int, n: nat): int {
    if n == 0 then value else 2 * Doubled(value, n - 1)
  }

  /** Boosts build on each other: items that add nothing change nothing, and each that adds the whole doubles. */
  lemma {:induction false} BoostsCompound(kind: nat, value: int, gear: seq<Gear>)
    ensures (forall i :: 0 <= i < |gear| ==> gear[i].boost(kind) == 0) ==> Boosted(kind, value, gear) == value
    ensures (forall i :: 0 <= i < |gear| ==> gear[i].boost(kind) == 100) ==>
      Boosted(kind, value, gear) == Doubled(value, |gear|)
    decreases |gear|
  {
    if gear != [] {
      BoostsCompound(kind, value, gear[..|gear| - 1]);
    }
  }

  predicate SomeMagic(imbuements: seq<Imbuement>) {
    exists i :: 0 <= i < |imbuements| && imbuements[i].kind != PHYSICAL
  }

  lemma SomeMagicConcat(a: seq<Imbuement>, b: seq<Imbuement>)
    ensures SomeMagic(a + b) <==> SomeMagic(a) || SomeMagic(b)
  {
    if i :| 0 <= i < |a| && a[i].kind != PHYSICAL {
      assert (a + b)[i] == a[i];
    }
    if i :| 0 <= i < |b| && b[i].kind != PHYSICAL {
      assert (a + b)[|a| + i] == b[i];
    }
    if i :| 0 <= i < |a + b| && (a + b)[i].kind != PHYSICAL {
      assert i < |a| ==> a[i] == (a + b)[i];
      assert i >= |a| ==> b[i - |a|] == (a + b)[i];
    }
  }

  /** When a hit is converted: some imbuement is magic, or any imbuement meets a damage that is. */
  predicate Converts(first: nat, second: nat, imbuements: seq<Imbuement>) {
    SomeMagic(imbuements) || (imbuements != [] && (first != PHYSICAL || second != PHYSICAL))
  }

  // the imbuements of one item
  method ApplyImbuements(m0: Ledger, imbuements: seq<Imbuement>) returns (m: Ledger, converted: bool)
    requires Ascending(m0)
    ensures Ascending(m) && Sum(m) == Sum(m0) && (Magic(m) <==> Magic(m0) || SomeMagic(imbuements))
    ensures m == ImbuedAll(m0, imbuements)
    ensures converted <==> SomeMagic(imbuements) || (imbuements != [] && Magic(m0))
  {
    hide Ascending, Sum, Get, Keys, Percent, Magic, Imbued;
    m, converted := m0, false;
    assert imbuements[..0] == [];
    for i := 0 to |imbuements|
      invariant m == ImbuedAll(m0, imbuements[..i])
      invariant Ascending(m) && Sum(m) == Sum(m0) && (Magic(m) <==> Magic(m0) || SomeMagic(imbuements[..i]))
      invariant converted <==> SomeMagic(imbuements[..i]) || (i > 0 && Magic(m0))
    {
      assert imbuements[..i + 1] == imbuements[..i] + [imbuements[i]] && imbuements[..i + 1][..i] == imbuements[..i];
      SomeMagicConcat(imbuements[..i], [imbuements[i]]);
      SomeMagicOne(imbuements[i]);
      ghost var was := m;
      if imbuements[i].kind != PHYSICAL {
        m := ToMagic(m, imbuements[i].kind, imbuements[i].percent);
        MagicIn(m, imbuements[i].kind);
        converted := true;
      } else {
        var some: bool;
        m, some := ToPhysical(m, imbuements[i].percent);
        MagicKept(was, m);
        converted := converted || some;
      }
    }
    assert imbuements[..|imbuements|] == imbuements;
  }

  lemma SomeMagicOne(i: Imbuement)
    ensures SomeMagic([i]) <==> i.kind != PHYSICAL
  {
    assert [i][0] == i;
  }

  lemma MagicIn(m: Ledger, kind: nat)
    requires kind in Keys(m) && kind != PHYSICAL
    ensures Magic(m)
  {
  }

  lemma MagicKept(m: Ledger, r: Ledger)
    requires Keys(m) <= Keys(r) <= Keys(m) + {PHYSICAL}
    ensures Magic(r) <==> Magic(m)
  {
  }

  /** The map a hit starts with: a second damage of the same kind takes the place of the first. */
  function Opening(primary: Split, secondary: Split): Ledger {
    Assign(Assign([], primary.kind, primary.value), secondary.kind, secondary.value)
  }

  function Lately(primary: Split, secondary: Split, kind: nat): int {
    if kind == secondary.kind then secondary.value else OfKind(primary, kind)
  }

  lemma OpeningGet(primary: Split, secondary: Split, kind: nat)
    ensures Get(Opening(primary, secondary), kind) == Lately(primary, secondary, kind)
  {
    var m := Assign([], primary.kind, primary.value);
    AssignLaws([], primary.kind, primary.value);
    GetAssign([], primary.kind, primary.value, kind);
    GetAssign(m, secondary.kind, secondary.value, kind);
  }

  method Start(primary: Split, secondary: Split) returns (m: Ledger)
    ensures m == Opening(primary, secondary)
    ensures forall k :: Get(m, k) == Lately(primary, secondary, k)
    ensures Ascending(m) && (Magic(m) <==> primary.kind != PHYSICAL || secondary.kind != PHYSICAL)
    ensures Sum(m) == primary.value + secondary.value - if primary.kind == secondary.kind then primary.value else 0
  {
    m := Assign([], primary.kind, primary.value);
    AssignLaws([], primary.kind, primary.value);
    KeysAssign([], primary.kind, primary.value);
    AssignLaws(m, secondary.kind, secondary.value);
    GetAssign([], primary.kind, primary.value, secondary.kind);
    KeysAssign(m, secondary.kind, secondary.value);
    m := Assign(m, secondary.kind, secondary.value);
    KeysCons(Entry(0, 0), []);
    assert primary.kind in Keys(m) && secondary.kind in Keys(m);
    forall k ensures Get(m, k) == Lately(primary, secondary, k) {
      OpeningGet(primary, secondary, k);
    }
  }

  /** What the imbuements make of the damage of one kind. */
  function DealtBy(primary: Split, secondary: Split, imbuements: seq<Imbuement>, kind: nat): int {
    Get(ImbuedAll(Opening(primary, secondary), imbuements), kind)
  }

  /** A hit is converted exactly when Converts says so.  Then the damages have together the strength the hit came with,
      without any boost, and without the primary damage if both are of one kind.  Otherwise both damages are boosted. */
  method Convert(primary: Split, secondary: Split, gear: seq<Gear>)
      returns (first: Split, second: Split, extra: seq<Split>, converted: bool)
    ensures converted <==> Converts(primary.kind, secondary.kind, AllImbuements(gear))
    ensures converted ==> var lost := if primary.kind == secondary.kind then primary.value else 0;
      first.value + second.value + Total(extra) == primary.value + secondary.value - lost
    ensures converted ==>
      forall k :: Dealt(first, second, extra, k) == DealtBy(primary, secondary, AllImbuements(gear), k)
    ensures !converted ==> extra == []
    ensures !converted ==> first == primary.(value := Boosted(primary.kind, primary.value, gear))
    ensures !converted ==> second == secondary.(value := Boosted(secondary.kind, secondary.value, gear))
  {
    hide Opening, Percent, Ascending, Sum, Get, Magic, Dealt;
    first, second, extra, converted := primary, secondary, [], false;
    var m := Start(primary, secondary);
    ghost var m0 := m;
    assert gear[..0] == [];
    for i := 0 to |gear|
      invariant Ascending(m) && Sum(m) == Sum(m0) && m == ImbuedAll(m0, AllImbuements(gear[..i]))
      invariant Magic(m) <==> Magic(m0) || SomeMagic(AllImbuements(gear[..i]))
      invariant converted <==> Converts(primary.kind, secondary.kind, AllImbuements(gear[..i]))
      invariant first == primary.(value := Boosted(primary.kind, primary.value, gear[..i]))
      invariant second == secondary.(value := Boosted(secondary.kind, secondary.value, gear[..i]))
    {
      assert gear[..i + 1] == gear[..i] + [gear[i]] && gear[..i + 1][..i] == gear[..i];
      AllSnoc(gear[..i], gear[i]);
      SomeMagicConcat(AllImbuements(gear[..i]), gear[i].imbuements);
      ImbuedConcat(m0, AllImbuements(gear[..i]), gear[i].imbuements);
      hide ImbuedAll, SomeMagic, AllImbuements;
      first := first.(value := first.value + Percent(first.value, gear[i].boost(first.kind)));
      second := second.(value := second.value + Percent(second.value, gear[i].boost(second.kind)));
      var some: bool;
      m, some := ApplyImbuements(m, gear[i].imbuements);
      converted := converted || some;
    }
    assert gear[..|gear|] == gear;
    if converted {
      first, second, extra := HandOut(m);
    }
  }

  /** Ten and five of one kind, boosted by a fifth and with an imbuement of half: five are left. */
  method SameKindLoses() returns (left: int)
    ensures left == 5
  {
    var kind := 2;
    var gear := [Gear((k: nat) => 20, [Imbuement(3, 50)])];
    var first, second, extra, converted := Convert(Split(kind, 10), Split(kind, 5), gear);
    assert AllImbuements(gear) == [Imbuement(3, 50)];
    SomeMagicOne(Imbuement(3, 50));
    left := first.value + second.value + Total(extra);
  }

  // ---------- the mana shield ----------

  function Min(a: int, b: int): int {
    if a < b then a else b
  }

  /** A hit of D against a mana shield takes min(mana, D) mana and then min(what is left of D, health) health. */
  method TakeHit(primaryValue: int, secondaryValue: int, mana: nat, health: nat, shielded: bool)
      returns (manaLoss: nat, healthLoss: nat)
    ensures var D := Abs(primaryValue) + Abs(secondaryValue);
      manaLoss == (if shielded then Min(mana, D) else 0) && healthLoss == Min(D - manaLoss, health)
  {
    var primary: int, secondary: int := Abs(primaryValue), Abs(secondaryValue);
    manaLoss, healthLoss := 0, 0;
    var healthChange := primary + secondary;
    if healthChange == 0 {
      return;
    }
    if shielded {
      var manaDamage := Min(mana, healthChange);
      if manaDamage != 0 {
        manaLoss := manaDamage;
        primary := primary - manaDamage;
        if primary < 0 {
          secondary := if secondary + primary > 0 then secondary + primary else 0;
          primary := 0;
        }
      }
    }
    if primary + secondary == 0 {
      return;
    }
    if primary >= health {
      primary := health;
      secondary := 0;
    } else if secondary != 0 {
      secondary := Min(secondary, health - primary);
    }
    healthLoss := primary + secondary;
  }
}
