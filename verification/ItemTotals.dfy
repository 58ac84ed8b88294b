// What whole operations do to the cached totals: a move, an exchange, a new item.
//
// ItemWeights says for the elementary edits whose total stays right.  Put together: when what moves has a right total
// itself, every total that was right stays right, except perhaps in a container in which a chest or inbox hangs.
module ItemTotals {
  import opened Options
  import opened Forest
  import opened ItemTree
  import opened ItemMove
  import opened ItemWalk
  import opened ItemWeights
  import opened Containers

  // ---------------------------------------------------------------- moves

  /** What is taken out takes its right total along. */
  lemma {:induction false} UnhangSelf<T>(w: World<T>, c: T, i: nat)
    requires Shaped(w) && c in w && i < |w[c].kids| && w[c].kids[i] in w && w[c].kids[i] != c && Exact(w, w[c].kids[i])
    ensures var r, x := Unhang(w, c, i), w[c].kids[i]; IsForest(Ups(r)) && x in r && Exact(r, x)
  {
    KidBelow(w, c, i);
    UnhangOff(w, c, i, w[c].kids[i]);
    ReachIff(w, c, w[c].kids[i]);
    hide Unhang, Inside, Shielded, IsForest, Chain, Reach, Linked;
  }

  lemma {:induction false} ReshapeSelf<T>(w: World<T>, x: T, kind: Kind, count: nat)
    requires Shaped(w) && x in w && Exact(w, x)
    ensures var r := Reshape(w, x, kind, count); IsForest(Ups(r)) && x in r && Exact(r, x)
  {
    ReshapeOff(w, x, kind, count, x);
    if w[x].parent.Some? {
      ReachIff(w, w[x].parent.value, x);
      KidAbove(Ups(w), w[x].parent.value, x);
    }
    hide Reshape, Inside, Shielded, IsForest, Chain, Reach, Linked;
  }

  lemma {:induction false} TakenTotals<T>(w: World<T>, from: T, item: T, m: nat)
    requires CanTake(w, from, item, m) && Exact(w, item)
    ensures var v := Taken(w, from, item, m);
      IsForest(Ups(v)) && TotalsKept(w, v) && NoNewHosts(w, v) && item in v && Exact(v, item)
  {
    var i := IndexOf(w[from].kids, item);
    KidBelow(w, from, i);
    hide Unhang, Reshape, Exact, Hosts, IsForest, Chain, Linked, TotalsKept, NoNewHosts;
    if TakesAll(w, item, m) {
      UnhangTotals(w, from, i);
      UnhangSelf(w, from, i);
    } else {
      ReshapeTotals(w, item, w[item].kind, w[item].count - m);
      ReshapeSelf(w, item, w[item].kind, w[item].count - m);
    }
  }

  lemma {:induction false} TopUpTotals<T>(v: World<T>, to: T, item: T, m: nat, toItem: Option<T>)
    requires Ready(v, to, item, m, toItem) && v[item].kind.stackable
    ensures toItem.Some? && v[toItem.value].kind.stackable ==> v[toItem.value].count <= MAX_STACK
    ensures var u := TopUp(v, item, m, toItem); IsForest(Ups(u)) && TotalsKept(v, u) && NoNewHosts(v, u)
  {
    TopUpConsistent(v, to, item, m, toItem);
    if toItem.Some? && v[toItem.value].kind == v[item].kind {
      ReshapeTotals(v, toItem.value, v[toItem.value].kind, v[toItem.value].count + Merge(v, item, m, toItem));
    } else {
      NothingTotals(v);
    }
    hide Hosts, Exact, IsForest, Reshape;
  }

  lemma {:induction false} NothingTotals<T>(w: World<T>)
    requires Shaped(w)
    ensures TotalsKept(w, w) && NoNewHosts(w, w)
  {
  }

  lemma {:induction false} CopyTotalsKept<T>(u: World<T>, to: T, clone: T, kind: Kind, count: nat, drop: bool)
    requires CanCopy(u, to, clone, kind, count)
    ensures var r := AddCopy(u, to, clone, kind, count, drop); IsForest(Ups(r)) && TotalsKept(u, r)
  {
    NothingTotals(u);
    if count > 0 {
      EnterReady(u, to, clone, kind, count);
      EnterTotals(u, clone, kind, count);
      var e := Enter(u, clone, kind, count);
      if !drop {
        HangConsistent(e, to, 0, clone);
        HangTotals(e, to, 0, clone);
        TotalsTwice(u, e, Hang(e, to, 0, clone));
      }
    }
    hide Hosts, Exact, IsForest, Hang, Enter, Linked;
  }

  lemma {:induction false} LandedTotals<T>(v: World<T>, to: T, item: T, m: nat, toItem: Option<T>, clone: T, drop: bool)
    requires CanLand(v, to, item, m, toItem, clone) && Exact(v, item)
    ensures var r := Landed(v, to, item, m, toItem, clone, drop); IsForest(Ups(r)) && TotalsKept(v, r)
  {
    NothingTotals(v);
    if v[item].kind.stackable {
      var u := TopUp(v, item, m, toItem);
      TopUpConsistent(v, to, item, m, toItem);
      TopUpTotals(v, to, item, m, toItem);
      CopyTotalsKept(u, to, clone, v[item].kind, Rest(v, item, m, toItem), drop);
      TotalsTwice(v, u, AddCopy(u, to, clone, v[item].kind, Rest(v, item, m, toItem), drop));
    } else if !drop {
      HangConsistent(v, to, 0, item);
      HangTotals(v, to, 0, item);
    }
    hide Hosts, Exact, IsForest, Hang, TopUp, AddCopy, Linked;
  }

  /** A move of something with a right total keeps the totals right. */
  lemma {:induction false} MovedTotals<T>(w: World<T>, from: T, to: T, item: T, m: nat, toItem: Option<T>, clone: T,
                                          drop: bool)
    requires CanMove(w, from, to, item, m, toItem, clone) && Exact(w, item)
    ensures var r := Moved(w, from, to, item, m, toItem, clone, drop); IsForest(Ups(r)) && TotalsKept(w, r)
  {
    TakenReady(w, from, to, item, m, toItem);
    TakenTotals(w, from, item, m);
    var v := Taken(w, from, item, m);
    LandedTotals(v, to, item, m, toItem, clone, drop);
    TotalsTwice(w, v, Landed(v, to, item, m, toItem, clone, drop));
    hide Hosts, Exact, IsForest, Taken, Landed, Linked;
  }

  // ---------------------------------------------------------------- exchanges

  /** So does an exchange of one child for another, when the totals of both are right. */
  lemma {:induction false} SwapTotals(w: World<Item>, c: Item, i: nat, x: Item)
    requires Consistent(w) && CanSwap(w, c, i, x) && Exact(w, x) && Exact(w, w[c].kids[i])
    ensures var r := Swap(w, c, i, x); IsForest(Ups(r)) && TotalsKept(w, r)
  {
    KidBelow(w, c, i);
    UnhangConsistent(w, c, i);
    UnhangUps(w, c, i);
    UnhangTotals(w, c, i);
    UnhangOff(w, c, i, x);
    UnhangFrame(w, c, i);
    ReachIff(w, c, x);
    var u := Unhang(w, c, i);
    HangConsistent(u, c, i, x);
    hide Unhang, Hang, Inside, Hosts, Shielded, IsForest, Chain, Reach, Linked;
    HangTotals<Item>(u, c, i, x);
    TotalsTwice<Item>(w, u, Hang(u, c, i, x));
  }

  /** Lying on a tile weighs nothing. */
  lemma {:induction false} PlaceTotals(w: World<Item>, x: Item, placed: bool)
    requires Consistent(w) && x in w
    ensures var r := w[x := w[x].(placed := placed)];
      Consistent(r) && Ups(r) == Ups(w) && TotalsKept(w, r) && NoNewHosts(w, r)
  {
    var r := w[x := w[x].(placed := placed)];
    SameLinks<Item>(w, r);
    SameLinksHosts<Item>(w, r);
    hide IsForest, Hosts, Linked;
    forall a | a in w ensures Inside(r, a) == Inside(w, a) {
      SumOwnSame<Item>(w, r, Below(Ups(w), a));
    }
  }

  // ---------------------------------------------------------------- what hangs in what

  /** The class tells whether getParent passes over a container. */
  ghost predicate Typed(w: World<Item>) {
    forall x {:trigger w[x]} :: x in w ==> w[x].skips == x.role.Skips()
  }

  lemma SnapTyped(items: set<Item>)
    ensures Typed(Snap(items))
  {
  }

  /** Chests and inboxes hang in the same containers. */
  ghost predicate SameHosts(w: World<Item>, w': World<Item>) {
    forall a {:trigger Hosts(w', a)} :: a in w' ==> (Hosts(w', a) <==> a in w && Hosts(w, a))
  }

  /** They do when no chest or inbox changes its place, comes or goes. */
  lemma {:induction false} HostsStay(w: World<Item>, w': World<Item>)
    requires Linked(w) && Typed(w) && Typed(w')
    requires forall k {:trigger w'[k]} :: k in w' && k.role.Skips() ==> k in w && w'[k].parent == w[k].parent
    requires forall k {:trigger w[k]} :: k in w && k.role.Skips() && w[k].parent.Some? ==> k in w'
    ensures SameHosts(w, w')
  {
    forall a | a in w' ensures Hosts(w', a) <==> a in w && Hosts(w, a) {
      if Hosts(w', a) {
        var k :| k in w' && w'[k].parent == Some(a) && w'[k].skips;
        assert k in w && w[k].skips && w[k].parent == Some(a) && Adopted(w, k);
      }
      if a in w && Hosts(w, a) {
        var k :| k in w && w[k].parent == Some(a) && w[k].skips;
        assert k in w' && w'[k].skips && w'[k].parent == Some(a);
      }
    }
  }

  /** The total of everything in which no chest or inbox hangs is right. */
  ghost predicate Sound(w: World<Item>)
    requires IsForest(Ups(w))
  {
    forall a {:trigger Exact(w, a)} :: a in w && !Hosts(w, a) ==> Exact(w, a)
  }

  lemma {:induction false} SoundStep(w: World<Item>, w': World<Item>)
    requires IsForest(Ups(w)) && IsForest(Ups(w')) && Sound(w) && TotalsKept(w, w') && SameHosts(w, w')
    ensures Sound(w')
  {
    hide IsForest;
    forall a | a in w' && !Hosts(w', a) ensures Exact(w', a) {
      assert a in w ==> !Hosts(w, a) && Exact(w, a);
    }
  }
}
