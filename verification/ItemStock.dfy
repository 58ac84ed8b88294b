// What the item tree holds: how many of a kind lie directly in a given set of containers.
//
// Every conservation statement of the project is made with Stock.  Taking the set to be one
// container, all containers of a tree, or the whole world gives the three readings of "no item is
// created or lost" at once.
module ItemStock {
  import opened Options
  import opened Forest
  import opened ItemTree

  datatype Pile = Pile(kind: Kind, count: nat)

  ghost function Amount(p: Pile, kind: Kind): nat {
    if p.kind == kind then p.count else 0
  }

  ghost function StockSum<T>(m: map<T, Pile>, kind: Kind): nat
    decreases |m|
  {
    if m == map[] then 0
    else
      var x :| x in m;
      assert |m - {x}| < |m| by { assert (m - {x}).Keys == m.Keys - {x}; }
      Amount(m[x], kind) + StockSum(m - {x}, kind)
  }

  /** The sum does not depend on which pile is counted first. */
  lemma {:induction false} StockPick<T>(m: map<T, Pile>, x: T, kind: Kind)
    requires x in m
    ensures StockSum(m, kind) == Amount(m[x], kind) + StockSum(m - {x}, kind)
    decreases |m|
  {
    var y :| y in m && StockSum(m, kind) == Amount(m[y], kind) + StockSum(m - {y}, kind);
    if y != x {
      assert |m - {x}| < |m| by { assert (m - {x}).Keys == m.Keys - {x}; }
      assert |m - {y}| < |m| by { assert (m - {y}).Keys == m.Keys - {y}; }
      StockPick(m - {y}, x, kind);
      StockPick(m - {x}, y, kind);
      assert m - {y} - {x} == m - {x} - {y};
    }
  }

  lemma StockPut<T>(m: map<T, Pile>, x: T, p: Pile, kind: Kind)
    ensures StockSum(m[x := p], kind) ==
            StockSum(m, kind) + Amount(p, kind) - (if x in m then Amount(m[x], kind) else 0)
  {
    var m' := m[x := p];
    StockPick(m', x, kind);
    assert m' - {x} == m - {x};
    if x in m {
      StockPick(m, x, kind);
    } else {
      assert m - {x} == m;
    }
  }

  /** The piles lying directly in one of the containers in cs. */
  ghost function Piles<T>(w: World<T>, cs: set<T>): map<T, Pile> {
    map x | x in w && w[x].parent.Some? && w[x].parent.value in cs :: Pile(w[x].kind, w[x].count)
  }

  ghost function Stock<T>(w: World<T>, cs: set<T>, kind: Kind): nat {
    StockSum(Piles(w, cs), kind)
  }

  lemma BumpStock<T>(w: World<T>, chain: set<T>, d: int, cs: set<T>, kind: Kind)
    ensures Stock(Bump(w, chain, d), cs, kind) == Stock(w, cs, kind)
  {
    assert Piles(Bump(w, chain, d), cs) == Piles(w, cs);
  }

  lemma ReshapeStock<T>(w: World<T>, x: T, kind': Kind, count: nat, cs: set<T>, kind: Kind)
    requires IsForest(Ups(w)) && x in w
    ensures Stock(Reshape(w, x, kind', count), cs, kind) ==
            Stock(w, cs, kind) +
            (if w[x].parent.Some? && w[x].parent.value in cs
             then Amount(Pile(kind', count), kind) - Amount(Pile(w[x].kind, w[x].count), kind) else 0)
  {
    var v := w[x := w[x].(kind := kind', count := count)];
    assert Ups(w)[x] == w[x].parent;
    BumpStock(v, ReachOf(w, w[x].parent), Gain(w, x, kind', count), cs, kind);
    if x in Piles(w, cs) {
      assert Piles(v, cs) == Piles(w, cs)[x := Pile(kind', count)];
      StockPut(Piles(w, cs), x, Pile(kind', count), kind);
    } else {
      assert Piles(v, cs) == Piles(w, cs);
    }
  }

  lemma HangStock<T>(w: World<T>, c: T, i: nat, x: T, cs: set<T>, kind: Kind)
    requires IsForest(Ups(w)) && c in w && x in w && i <= |w[c].kids| && c != x && w[x].parent == None
    ensures Stock(Hang(w, c, i, x), cs, kind) ==
            Stock(w, cs, kind) + (if c in cs then Amount(Pile(w[x].kind, w[x].count), kind) else 0)
  {
    hide IsForest, Reach, Weight, Stock;
    var v := HangLinks(w, c, i, x);
    BumpStock(v, Reach(w, c), Weight(w, x), cs, kind);
    HungPiles(w, c, i, x, cs, kind);
  }

  lemma HungPiles<T>(w: World<T>, c: T, i: nat, x: T, cs: set<T>, kind: Kind)
    requires c in w && x in w && i <= |w[c].kids| && c != x && w[x].parent == None
    ensures Stock(HangLinks(w, c, i, x), cs, kind) ==
            Stock(w, cs, kind) + (if c in cs then Amount(Pile(w[x].kind, w[x].count), kind) else 0)
  {
    var v := HangLinks(w, c, i, x);
    if c in cs {
      assert Piles(v, cs) == Piles(w, cs)[x := Pile(w[x].kind, w[x].count)];
      StockPut(Piles(w, cs), x, Pile(w[x].kind, w[x].count), kind);
    } else {
      assert Piles(v, cs) == Piles(w, cs);
    }
  }

  lemma UnhangStock<T>(w: World<T>, c: T, i: nat, cs: set<T>, kind: Kind)
    requires IsForest(Ups(w)) && c in w && i < |w[c].kids| && w[c].kids[i] in w && w[w[c].kids[i]].parent == Some(c)
    requires w[c].kids[i] != c
    ensures var x := w[c].kids[i];
            Stock(Unhang(w, c, i), cs, kind) ==
            Stock(w, cs, kind) - (if c in cs then Amount(Pile(w[x].kind, w[x].count), kind) else 0)
  {
    UnhangLinksStock(w, c, i, cs, kind);
    BumpStock(UnhangLinks(w, c, i), Reach(w, c), Loss(w, w[c].kids[i]), cs, kind);
  }

  lemma UnhangLinksStock<T>(w: World<T>, c: T, i: nat, cs: set<T>, kind: Kind)
    requires c in w && i < |w[c].kids|
    requires var x := w[c].kids[i]; x in w && x != c && w[x].parent == Some(c)
    ensures var x := w[c].kids[i];
            Stock(UnhangLinks(w, c, i), cs, kind) ==
            Stock(w, cs, kind) - (if c in cs then Amount(Pile(w[x].kind, w[x].count), kind) else 0)
  {
    var x, v := w[c].kids[i], UnhangLinks(w, c, i);
    if c in cs {
      assert Piles(w, cs) == Piles(v, cs)[x := Pile(w[x].kind, w[x].count)];
      StockPut(Piles(v, cs), x, Pile(w[x].kind, w[x].count), kind);
    } else {
      assert Piles(v, cs) == Piles(w, cs);
    }
  }

  lemma EnterStock<T>(w: World<T>, x: T, kind': Kind, count: nat, cs: set<T>, kind: Kind)
    requires x !in w
    ensures Stock(Enter(w, x, kind', count), cs, kind) == Stock(w, cs, kind)
  {
    assert Piles(Enter(w, x, kind', count), cs) == Piles(w, cs);
  }

  lemma LeaveStock<T>(w: World<T>, x: T, cs: set<T>, kind: Kind)
    requires x in w && w[x].parent == None
    ensures Stock(w - {x}, cs, kind) == Stock(w, cs, kind)
  {
    assert Piles(w - {x}, cs) == Piles(w, cs);
  }
}
