/** Container::clone: a copy of an item with copies of everything in it, whose cached total is copied as well. */
module ItemCopy {
  import opened Options
  import opened Forest
  import opened ItemTree
  import opened ItemStock
  import opened ItemWalk
  import opened Descendants
  import opened ItemWeights
  import opened Containers
  import opened ItemAdd

  /** Everything of a kind that lies in a container. */
  ghost function Contents<T>(w: World<T>, kind: Kind): nat {
    Stock(w, w.Keys, kind)
  }

  /** The pieces of a kind inside x, at any depth. */
  ghost function DeepCount<T>(w: World<T>, x: T, kind: Kind): nat
    requires Shaped(w) && x in w
    decreases LevelsLeft(w, x), |w[x].kids| + 1
  {
    DeepCountTo(w, x, |w[x].kids|, kind)
  }

  /** Of the first n children and what is in them. */
  ghost function DeepCountTo<T>(w: World<T>, x: T, n: nat, kind: Kind): nat
    requires Shaped(w) && x in w && n <= |w[x].kids|
    decreases LevelsLeft(w, x), n
  {
    if n == 0 then 0
    else
      var kid := w[x].kids[n - 1];
      KidBelow(w, x, n - 1);
      DepthStep(Ups(w), kid);
      DeepCountTo(w, x, n - 1, kind) + Amount(Pile(w[kid].kind, w[kid].count), kind) + DeepCount(w, kid, kind)
  }

  /** c in v is built like x in w: the same kinds, counts and totals in the same order, at every depth. */
  ghost predicate Mirrors<T>(w: World<T>, x: T, v: World<T>, c: T)
    requires Shaped(w) && x in w
    decreases LevelsLeft(w, x)
  {
    && c in v && v[c].kind == w[x].kind && v[c].count == w[x].count && v[c].total == w[x].total
    && |v[c].kids| == |w[x].kids|
    && forall i :: 0 <= i < |w[x].kids| ==>
      w[x].kids[i] in w && LevelsLeft(w, w[x].kids[i]) < LevelsLeft(w, x) && Mirrors(w, w[x].kids[i], v, v[c].kids[i])
  }

  // but for its place
  predicate SameBut<T(==)>(r: Rec<T>, s: Rec<T>) {
    s.kind == r.kind && s.count == r.count && s.total == r.total && s.kids == r.kids
  }

  /** Changes to the root c alone, or to parents, are not seen from elsewhere. */
  lemma {:induction false} MirrorsKept<T>(w: World<T>, x: T, v: World<T>, v': World<T>, k: T, c: T)
    requires Shaped(w) && x in w && Mirrors(w, x, v, k) && Linked(v) && c in v && v[c].parent == None && k != c
    requires forall y :: y in v && y != c ==> y in v' && SameBut(v[y], v'[y])
    ensures Mirrors(w, x, v', k)
    decreases LevelsLeft(w, x)
  {
    forall i | 0 <= i < |w[x].kids| ensures Mirrors(w, w[x].kids[i], v', v'[k].kids[i]) {
      assert v[k].kids[i] in v[k].kids;
      MirrorsKept(w, w[x].kids[i], v, v', v[k].kids[i], c);
    }
  }

  /** The finished copy k becomes the last child of c, which has no parent: addItem leaves all totals alone. */
  lemma AttachConsistent<T>(w: World<T>, c: T, k: T)
    requires Consistent(w) && c in w && k in w && w[c].parent == None && w[k].parent == None && c != k
    ensures var r := HangLinks(w, c, |w[c].kids|, k);
      Consistent(r) && Ups(r) == Ups(w)[k := Some(c)] && k !in Chain(Ups(w), c)
  {
    var n := |w[c].kids|;
    assert Ups(HangLinks(w, c, n, k)) == Ups(w)[k := Some(c)];
    AboveStep(Ups(w), c);
    LinkForest(Ups(w), k, c);
    HangLinked(w, c, n, k);
  }

  lemma AttachStock<T>(w: World<T>, c: T, k: T, kind: Kind)
    requires c in w && k in w && w[k].parent == None && c != k
    ensures Contents(HangLinks(w, c, |w[c].kids|, k), kind) ==
      Contents(w, kind) + Amount(Pile(w[k].kind, w[k].count), kind)
  {
    var r := HangLinks(w, c, |w[c].kids|, k);
    assert r.Keys == w.Keys;
    assert Piles(r, w.Keys) == Piles(w, w.Keys)[k := Pile(w[k].kind, w[k].count)];
    StockPut(Piles(w, w.Keys), k, Pile(w[k].kind, w[k].count), kind);
  }

  lemma EnterContents<T>(w: World<T>, c: T, kind': Kind, count: nat, kind: Kind)
    requires Linked(w) && c !in w
    ensures Contents(Enter(w, c, kind', count), kind) == Contents(w, kind)
  {
    var r := Enter(w, c, kind', count);
    forall x | x in w && w[x].parent.Some? ensures w[x].parent.value in w {
      assert Adopted(w, x);
    }
    assert Piles(r, r.Keys) == Piles(w, w.Keys);
  }

  /** The total is written once all children are there. */
  lemma TotalWritten<T>(w: World<T>, c: T, total: int)
    requires Consistent(w) && c in w
    ensures var r := w[c := w[c].(total := total)];
      Consistent(r) && Ups(r) == Ups(w) && forall kind :: Contents(r, kind) == Contents(w, kind)
  {
    var r := w[c := w[c].(total := total)];
    SameLinks(w, r);
    forall kind ensures Contents(r, kind) == Contents(w, kind) {
      assert Piles(r, r.Keys) == Piles(w, w.Keys);
    }
  }

  /** w is part of v. */
  ghost predicate PartOf<T>(w: World<T>, v: World<T>) {
    w.Keys <= v.Keys && forall y :: y in w ==> v[y] == w[y]
  }

  /** The i-th child of c is a copy of the i-th child of x, for the first n. */
  ghost predicate CopiedTo<T>(w: World<T>, x: T, v: World<T>, c: T, n: nat)
    requires Shaped(w) && x in w
  {
    && c in v && n <= |w[x].kids| && |v[c].kids| == n
    && forall i :: 0 <= i < n ==> w[x].kids[i] in w && Mirrors(w, w[x].kids[i], v, v[c].kids[i])
  }

  lemma CopiedAll<T>(w: World<T>, x: T, v: World<T>, c: T)
    requires Shaped(w) && x in w && CopiedTo(w, x, v, c, |w[x].kids|)
    requires v[c].kind == w[x].kind && v[c].count == w[x].count && v[c].total == w[x].total
    ensures Mirrors(w, x, v, c)
  {
    forall i | 0 <= i < |w[x].kids| ensures LevelsLeft(w, w[x].kids[i]) < LevelsLeft(w, x) {
      KidBelow(w, x, i);
      DepthStep(Ups(w), w[x].kids[i]);
    }
  }

  /** The copies made so far stay copies while the rest of the world only grows. */
  lemma CopiedKept<T>(w: World<T>, x: T, v: World<T>, v': World<T>, c: T, n: nat)
    requires Shaped(w) && x in w && CopiedTo(w, x, v, c, n) && Linked(v) && v[c].parent == None
    requires c in v' && v'[c].kids == v[c].kids
    requires forall y :: y in v && y != c ==> y in v' && SameBut(v[y], v'[y])
    ensures CopiedTo(w, x, v', c, n)
  {
    forall i | 0 <= i < n ensures Mirrors(w, w[x].kids[i], v', v'[c].kids[i]) {
      assert v[c].kids[i] in v[c].kids;
      MirrorsKept(w, w[x].kids[i], v, v', v[c].kids[i], c);
    }
  }

  lemma CopiedNext<T>(w: World<T>, x: T, v: World<T>, c: T, k: T, n: nat)
    requires Shaped(w) && x in w && CopiedTo(w, x, v, c, n) && n < |w[x].kids| && Linked(v)
    requires v[c].parent == None && k in v && k != c && v[k].parent == None
    requires w[x].kids[n] in w && Mirrors(w, w[x].kids[n], v, k)
    ensures CopiedTo(w, x, HangLinks(v, c, n, k), c, n + 1)
  {
    var r := HangLinks(v, c, n, k);
    assert v[c].kids[..n] == v[c].kids && r[c].kids == v[c].kids + [k];
    forall i | 0 <= i < n ensures Mirrors(w, w[x].kids[i], r, r[c].kids[i]) {
      assert v[c].kids[i] in v[c].kids;
      MirrorsKept(w, w[x].kids[i], v, r, v[c].kids[i], c);
    }
    MirrorsKept(w, w[x].kids[n], v, r, k, c);
  }

  /** What belonged to v0 is unchanged in v; what is new lies in c, is of a plain class or a locker, and holds something
      only if it is a container. */
  ghost predicate Extends(v0: World<Item>, v: World<Item>, c: Item) {
    && Consistent(v) && PartOf(v0, v) && c in v && c !in v0 && v[c].parent == None
    && (forall y {:trigger v[y]} :: y in v && y !in v0 ==> c in Chain(Ups(v), y) && Ordinary(v, y))
  }

  ghost predicate Ordinary(v: World<Item>, y: Item)
    requires y in v
  {
    && (y.role == Plain || y.role == Locker) && !y.pagination && !v[y].skips
    && (!y.isContainer ==> v[y].kids == [])
  }

  /** How far the copy c of x has come: n children are done, its total is not yet written. */
  ghost predicate Copying(w: World<Item>, x: Item, v0: World<Item>, v: World<Item>, c: Item, n: nat)
    requires Shaped(w) && x in w
  {
    && Extends(v0, v, c) && v[c].kind == w[x].kind && v[c].count == w[x].count && CopiedTo(w, x, v, c, n)
    && (forall kind {:trigger Contents(v, kind)} ::
        Contents(v, kind) == Contents(v0, kind) + DeepCountTo(w, x, n, kind))
  }

  /** c is a loose copy of x with all its contents and the same totals, and nothing else has changed. */
  ghost predicate Copied(w: World<Item>, x: Item, v0: World<Item>, v: World<Item>, c: Item)
    requires Shaped(w) && x in w
  {
    && Extends(v0, v, c) && Mirrors(w, x, v, c)
    && (forall kind {:trigger Contents(v, kind)} :: Contents(v, kind) == Contents(v0, kind) + DeepCount(w, x, kind))
  }

  /** The class of what CreateItem makes of the type of an item: chests and inboxes come out as plain containers. */
  function CopyRole(x: Item): Role {
    if x.isContainer && x.role.Locker? then Locker else Plain
  }

  lemma CopyStart(w: World<Item>, x: Item, v0: World<Item>, c: Item)
    requires Consistent(w) && x in w && Consistent(v0) && c !in v0 && c.role == CopyRole(x) && !c.pagination
    ensures Copying(w, x, v0, Enter(v0, c, w[x].kind, w[x].count), c, 0)
  {
    EnterConsistent(v0, c, w[x].kind, w[x].count);
    forall kind ensures Contents(Enter(v0, c, w[x].kind, w[x].count), kind) == Contents(v0, kind) {
      EnterContents(v0, c, w[x].kind, w[x].count, kind);
    }
    hide Shaped, Contents;
  }

  /** What is unchanged lies where it lay. */
  lemma {:induction false} PartChain<T>(up: Up<T>, up': Up<T>, y: T)
    requires IsForest(up) && IsForest(up') && up.Keys <= up'.Keys && y in up
    requires forall x :: x in up ==> up'[x] == up[x]
    ensures Chain(up', y) == Chain(up, y)
    decreases Depth(up, y)
  {
    if up[y].Some? {
      DepthStep(up, y);
      PartChain(up, up', up[y].value);
    }
  }

  lemma {:induction false} ExtendMore(v0: World<Item>, v: World<Item>, u: World<Item>, c: Item, k: Item)
    requires Extends(v0, v, c) && Extends(v, u, k) && c.isContainer && u[c] == v[c] && c != k
    ensures Extends(v0, HangLinks(u, c, |u[c].kids|, k), c)
  {
    var n := |u[c].kids|;
    var r := HangLinks(u, c, n, k);
    AttachConsistent<Item>(u, c, k);
    assert PartOf(v0, r);
    hide Consistent, Linked, Ups, HangLinks, IsForest;
    forall y | y in r && y !in v0 ensures c in Chain(Ups(r), y) && Ordinary(r, y) {
      ExtendedOrdinary(v0, v, u, c, k, y);
      ExtendedChain(v, u, c, k, y);
    }
  }

  lemma {:induction false} ExtendedOrdinary(v0: World<Item>, v: World<Item>, u: World<Item>, c: Item, k: Item, y: Item)
    requires Extends(v0, v, c) && Extends(v, u, k) && c.isContainer && u[c] == v[c] && c != k && y !in v0
    requires y in HangLinks(u, c, |u[c].kids|, k)
    ensures y in u && if y in v then c in Chain(Ups(v), y) else k in Chain(Ups(u), y)
    ensures Ordinary(HangLinks(u, c, |u[c].kids|, k), y)
  {
    hide Consistent, Chain;
    assert y in u;
    assert Ordinary(u, y) by {
      if y in v {
        assert u[y] == v[y];
      }
    }
  }

  lemma {:induction false} ExtendedChain(v: World<Item>, u: World<Item>, c: Item, k: Item, y: Item)
    requires IsForest(Ups(v)) && IsForest(Ups(u)) && PartOf(v, u) && c in v && k in u && k !in v && y in u
    requires k !in Chain(Ups(u), c) && u[k].parent == None
    requires if y in v then c in Chain(Ups(v), y) else k in Chain(Ups(u), y)
    ensures var up := Ups(u)[k := Some(c)]; IsForest(up) && c in Chain(up, y)
  {
    LinkForest<Item>(Ups(u), k, c);
    var up := Ups(u)[k := Some(c)];
    forall x | x in v ensures Ups(u)[x] == Ups(v)[x] {
      assert u[x] == v[x];
    }
    if y in v {
      PartChain<Item>(Ups(v), Ups(u), y);
      ChainUnaffected<Item>(Ups(u), up, k, y);
    } else {
      BelowLink<Item>(Ups(u), k, c, c);
      assert y == k || y in Below(Ups(u), k);
      assert y in Below(up, c);
    }
  }

  lemma {:induction false} CopyStep(w: World<Item>, x: Item, v0: World<Item>, v: World<Item>, u: World<Item>, c: Item,
                                    n: nat, k: Item)
    requires Consistent(w) && x in w && Copying(w, x, v0, v, c, n) && n < |w[x].kids| && w[x].kids[n] in w
    requires Copied(w, w[x].kids[n], v, u, k) && c.isContainer
    ensures Copying(w, x, v0, HangLinks(u, c, n, k), c, n + 1)
  {
    hide Contents, DeepCountTo, DeepCount, IsForest, Stacked, Mirrors, Adopted;
    assert c in u && u[c] == v[c] && |u[c].kids| == n && c != k;
    CopiedKept(w, x, v, u, c, n);
    CopiedNext(w, x, u, c, k, n);
    CopyContents(w, x, v0, v, u, c, n, k);
    hide CopiedTo, Shaped, Extends, PartOf;
    assert Extends(v0, v, c) && Extends(v, u, k);
    ExtendMore(v0, v, u, c, k);
  }

  lemma CopyContents(w: World<Item>, x: Item, v0: World<Item>, v: World<Item>, u: World<Item>, c: Item, n: nat, k: Item)
    requires Shaped(w) && x in w && n < |w[x].kids| && w[x].kids[n] in w && Mirrors(w, w[x].kids[n], u, k)
    requires c in u && |u[c].kids| == n && k in u && c != k && u[k].parent == None
    requires forall kind {:trigger Contents(v, kind)} ::
      Contents(v, kind) == Contents(v0, kind) + DeepCountTo(w, x, n, kind)
    requires forall kind {:trigger Contents(u, kind)} ::
      Contents(u, kind) == Contents(v, kind) + DeepCount(w, w[x].kids[n], kind)
    ensures var r := HangLinks(u, c, n, k);
      forall kind {:trigger Contents(r, kind)} ::
        Contents(r, kind) == Contents(v0, kind) + DeepCountTo(w, x, n + 1, kind)
  {
    var r := HangLinks(u, c, n, k);
    hide Contents;
    forall kind ensures Contents(r, kind) == Contents(v0, kind) + DeepCountTo(w, x, n + 1, kind) {
      AttachStock(u, c, k, kind);
      assert Contents(v, kind) == Contents(v0, kind) + DeepCountTo(w, x, n, kind);
      assert Contents(u, kind) == Contents(v, kind) + DeepCount(w, w[x].kids[n], kind);
    }
  }

  lemma DeepCountIs(w: World<Item>, x: Item)
    requires Shaped(w) && x in w
    ensures forall kind :: DeepCount(w, x, kind) == DeepCountTo(w, x, |w[x].kids|, kind)
  {
  }

  lemma {:induction false} CopyEnd(w: World<Item>, x: Item, v0: World<Item>, v: World<Item>, c: Item)
    requires Consistent(w) && x in w && Copying(w, x, v0, v, c, |w[x].kids|)
    ensures Copied(w, x, v0, v[c := v[c].(total := w[x].total)], c)
  {
    hide IsForest, Linked, Stacked, Contents, Mirrors, DeepCountTo;
    var r := v[c := v[c].(total := w[x].total)];
    DeepCountIs(w, x);
    TotalWritten(v, c, w[x].total);
    CopiedKept(w, x, v, r, c, |w[x].kids|);
    CopiedAll(w, x, r, c);
    hide Shaped, Contents, Mirrors, CopiedTo;
    forall y | y in r && y !in v0 ensures c in Chain(Ups(r), y) && Ordinary(r, y) {
      assert Ordinary(v, y);
    }
  }

  // ---------------------------------------------------------------- totals

  /** What is built alike weighs the same. */
  lemma {:induction false} MirrorsWeigh<T>(w: World<T>, x: T, v: World<T>, c: T)
    requires Shaped(w) && x in w && Shaped(v) && Mirrors(w, x, v, c)
    ensures DeepSum(v, c, 0) == DeepSum(w, x, 0)
    decreases LevelsLeft(w, x), |w[x].kids| + 1
  {
    MirrorsWeighFrom(w, x, v, c, 0);
  }

  lemma {:induction false} MirrorsWeighFrom<T>(w: World<T>, x: T, v: World<T>, c: T, i: nat)
    requires Shaped(w) && x in w && Shaped(v) && Mirrors(w, x, v, c) && i <= |w[x].kids|
    ensures DeepSum(v, c, i) == DeepSum(w, x, i)
    decreases LevelsLeft(w, x), |w[x].kids| - i
  {
    if i < |w[x].kids| {
      KidBelow(v, c, i);
      MirrorsWeigh(w, w[x].kids[i], v, v[c].kids[i]);
      MirrorsWeighFrom(w, x, v, c, i + 1);
    }
  }

  /** So the totals of both are right or both are wrong. */
  lemma MirrorsExact<T>(w: World<T>, x: T, v: World<T>, c: T)
    requires Shaped(w) && x in w && Shaped(v) && Mirrors(w, x, v, c)
    ensures Exact(v, c) <==> Exact(w, x)
  {
    MirrorsWeigh(w, x, v, c);
    InsideIsDeep(w, x);
    InsideIsDeep(v, c);
  }

  /** What is unchanged is built as it was. */
  lemma {:induction false} MirrorsSelf<T>(w: World<T>, v: World<T>, x: T)
    requires Shaped(w) && x in w && PartOf(w, v)
    ensures Mirrors(w, x, v, x)
    decreases LevelsLeft(w, x)
  {
    forall i | 0 <= i < |w[x].kids|
      ensures var k := w[x].kids[i]; k in w && LevelsLeft(w, k) < LevelsLeft(w, x) && Mirrors(w, k, v, v[x].kids[i])
    {
      KidBelow(w, x, i);
      DepthStep(Ups(w), w[x].kids[i]);
      MirrorsSelf(w, v, w[x].kids[i]);
    }
  }

  /** Everything in a copy is a copy of something in the original. */
  lemma {:induction false} Source<T>(w: World<T>, x: T, v: World<T>, c: T, y: T) returns (s: T)
    requires Shaped(w) && x in w && Shaped(v) && Mirrors(w, x, v, c) && y in v && c in Chain(Ups(v), y)
    ensures s in w && x in Chain(Ups(w), s) && Mirrors(w, s, v, y)
    decreases LevelsLeft(w, x)
  {
    if y == c {
      s := x;
    } else {
      var k := ChildOnTheWay(Ups(v), y, c);
      assert Ups(v)[k] == v[k].parent && Adopted(v, k);
      var i := IndexOf(v[c].kids, k);
      var kid := w[x].kids[i];
      s := Source(w, kid, v, k, y);
      KidBelow(w, x, i);
      ChainParent(Ups(w), s, kid);
    }
  }

  /** All totals in x are right, and that of x itself. */
  ghost predicate ExactWithin<T>(w: World<T>, x: T)
    requires IsForest(Ups(w))
  {
    forall s {:trigger Exact(w, s)} :: s in w && x in Chain(Ups(w), s) ==> Exact(w, s)
  }

  /** A copy leaves every other total alone, and its own are right if those of the original are. */
  lemma {:induction false} CopyTotals(w: World<Item>, x: Item, v: World<Item>, c: Item)
    requires Consistent(w) && x in w && Copied(w, x, w, v, c)
    ensures ExactWithin(w, x) ==> TotalsKept(w, v)
    ensures NoNewHosts(w, v)
  {
    if ExactWithin(w, x) {
      forall a | a in v && (a in w ==> Right(w, a)) ensures Exact(v, a) {
        CopyTotal(w, x, v, c, a);
      }
    }
    forall a | a in v && Hosts(v, a) ensures a in w && Hosts(w, a) {
      var k :| k in v && v[k].parent == Some(a) && v[k].skips;
      assert k in w;
      assert w[k] == v[k] && Adopted(w, k);
      hide IsForest, Chain, Mirrors;
    }
  }

  lemma {:induction false} CopyTotal(w: World<Item>, x: Item, v: World<Item>, c: Item, a: Item)
    requires Consistent(w) && x in w && Copied(w, x, w, v, c) && a in v
    requires if a in w then Exact(w, a) else ExactWithin(w, x)
    ensures Exact(v, a)
  {
    if a in w {
      MirrorsSelf<Item>(w, v, a);
      MirrorsExact<Item>(w, a, v, a);
    } else {
      assert c in Chain(Ups(v), a) by { assert v[a] == v[a]; }
      var s := Source<Item>(w, x, v, c, a);
      MirrorsExact<Item>(w, s, v, a);
    }
  }

  // ---------------------------------------------------------------- the methods

  lemma InWorld(items: set<Item>, x: Item, w: World<Item>)
    requires Consistent(w) && x in w && PartOf(w, Snap(items))
    ensures x in items && x.itemlist == w[x].kids && x.totalWeight == w[x].total && Shaped(w)
  {
    assert Snap(items)[x] == w[x];
  }

  /** The copy is loose, and its total is copied from x. */
  method Clone(ghost items: set<Item>, x: Item, ghost w: World<Item>) returns (c: Item, ghost items': set<Item>)
    requires Consistent(w) && Hollow(w) && x in w && PartOf(w, Snap(items)) && Consistent(Snap(items))
    ensures items <= items' && fresh(items' - items) && c in items' - items && c.role == CopyRole(x)
    ensures Copied(w, x, Snap(items), Snap(items'), c)
    decreases LevelsLeft(w, x)
  {
    hide *;
    ghost var v0 := Snap(items);
    InWorld(items, x, w);
    c, items' := Blank(items, x, w);
    for n := 0 to |x.itemlist|
      invariant items <= items' && fresh(items' - items) && c in items' - items && fresh(c)
      invariant c.isContainer == x.isContainer
      invariant Copying(w, x, v0, Snap(items'), c, n)
    {
      items' := CopyChild(items', x, n, w, v0, c);
    }
    SetTotal(c, items', x.totalWeight, x, w, v0);
  }

  // Item::clone: a fresh item of the same type
  method Blank(ghost items: set<Item>, x: Item, ghost w: World<Item>) returns (c: Item, ghost items': set<Item>)
    requires Consistent(w) && x in w && PartOf(w, Snap(items)) && Consistent(Snap(items))
    ensures fresh(c) && items' == items + {c} && c.isContainer == x.isContainer && c.role == CopyRole(x)
    ensures Copying(w, x, Snap(items), Snap(items'), c, 0)
  {
    ghost var v0 := Snap(items);
    assert x in items && v0[x] == w[x];
    if x.isContainer {
      c := new Item.Container(x.kind, x.count, x.maxSize, x.role.Locker?);
    } else {
      c := new Item(x.kind, x.count);
    }
    items' := items + {c};
    assert Snap(items') == Enter(v0, c, w[x].kind, w[x].count);
    CopyStart(w, x, v0, c);
    hide Copying, Consistent;
  }

  method SetTotal(c: Item, ghost items: set<Item>, total: int, ghost x: Item, ghost w: World<Item>,
                  ghost v0: World<Item>)
    requires Consistent(w) && x in w && c in items && Copying(w, x, v0, Snap(items), c, |w[x].kids|)
    requires total == w[x].total
    modifies c`totalWeight
    ensures Copied(w, x, v0, Snap(items), c)
  {
    hide *;
    CopyEnd(w, x, v0, Snap(items), c);
    WriteTotal(c, items, total);
  }

  method WriteTotal(c: Item, ghost items: set<Item>, total: int)
    requires c in items
    modifies c`totalWeight
    ensures c in old(Snap(items)) && Snap(items) == old(Snap(items))[c := old(Snap(items))[c].(total := total)]
  {
    c.totalWeight := total;
  }

  // addItem of a copy of the n-th child
  method CopyChild(ghost items: set<Item>, x: Item, n: nat, ghost w: World<Item>, ghost v0: World<Item>, c: Item)
      returns (ghost items': set<Item>)
    requires Consistent(w) && Hollow(w) && x in w && PartOf(w, v0) && x.itemlist == w[x].kids
    requires n < |x.itemlist| && c in items && c.isContainer == x.isContainer
    requires Copying(w, x, v0, Snap(items), c, n)
    modifies c
    ensures items <= items' && fresh(items' - items)
    ensures Copying(w, x, v0, Snap(items'), c, n + 1)
    decreases LevelsLeft(w, x), 0
  {
    ghost var v := Snap(items);
    var kid := x.itemlist[n];
    KidBelow(w, x, n);
    DepthStep<Item>(Ups(w), kid);
    var k;
    k, items' := Clone(items, kid, w);
    ghost var u := Snap(items');
    CopyStep(w, x, v0, v, u, c, n, k);
    assert c in u && u[c] == v[c] && |c.itemlist| == n;
    hide Copying, Copied, Consistent, Shaped, HangLinks;
    c.AddItem(items', k);
  }
}
