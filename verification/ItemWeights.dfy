// Whether the cached totals are right (updateItemWeight and getParentContainer, src/container.cpp).
//
// Every change of a container is added to the totals of the containers that a walk by getParent meets.  A depot chest
// and an inbox answer getParent with the parent of the container that holds them, so that container never hears of
// what changes inside them.  Here is exactly whose total stays right, for every elementary edit.
module ItemWeights {
  import opened Options
  import opened Forest
  import opened ItemTree
  import opened ItemWalk
  import opened Descendants

  // ---------------------------------------------------------------- what lies inside

  ghost function Own<T>(w: World<T>, x: T): int {
    if x in w then OwnWeight(w[x].kind, w[x].count) else 0
  }

  ghost function SumOwn<T>(w: World<T>, s: set<T>): int
    decreases s
  {
    if s == {} then 0 else
      var x :| x in s;
      Own(w, x) + SumOwn(w, s - {x})
  }

  /** The sum does not depend on which item is counted first. */
  lemma {:induction false} SumOwnPick<T>(w: World<T>, s: set<T>, x: T)
    requires x in s
    ensures SumOwn(w, s) == Own(w, x) + SumOwn(w, s - {x})
    decreases s
  {
    var y :| y in s && SumOwn(w, s) == Own(w, y) + SumOwn(w, s - {y});
    if y != x {
      SumOwnPick(w, s - {y}, x);
      SumOwnPick(w, s - {x}, y);
      assert s - {y} - {x} == s - {x} - {y};
    }
  }

  lemma {:induction false} SumOwnJoin<T>(w: World<T>, s: set<T>, t: set<T>)
    requires s !! t
    ensures SumOwn(w, s + t) == SumOwn(w, s) + SumOwn(w, t)
    decreases t
  {
    if t == {} {
      assert s + t == s;
    } else {
      var x :| x in t;
      SumOwnPick(w, s + t, x);
      SumOwnPick(w, t, x);
      SumOwnJoin(w, s, t - {x});
      assert s + t - {x} == s + (t - {x});
    }
  }

  lemma {:induction false} SumOwnSame<T>(w: World<T>, w': World<T>, s: set<T>)
    requires forall y :: y in s ==> Own(w', y) == Own(w, y)
    ensures SumOwn(w', s) == SumOwn(w, s)
    decreases s
  {
    if s != {} {
      var x :| x in s;
      SumOwnPick(w, s, x);
      SumOwnPick(w', s, x);
      SumOwnSame(w, w', s - {x});
    }
  }

  /** The true weight of everything in x; no cached total is read. */
  ghost function Inside<T>(w: World<T>, x: T): int
    requires IsForest(Ups(w))
  {
    SumOwn(w, Below(Ups(w), x))
  }

  ghost predicate Exact<T>(w: World<T>, x: T)
    requires IsForest(Ups(w)) && x in w
  {
    w[x].total == Inside(w, x)
  }

  /** By how much the cached total of x is too large. */
  ghost function Off<T>(w: World<T>, x: T): int
    requires IsForest(Ups(w)) && x in w
  {
    w[x].total - Inside(w, x)
  }

  /** The true weight of x with everything in it. */
  ghost function Full<T>(w: World<T>, x: T): int
    requires IsForest(Ups(w))
  {
    Own(w, x) + Inside(w, x)
  }

  // ---------------------------------------------------------------- who hears of a change

  /** A chest or inbox hangs directly in a. */
  ghost predicate Hosts<T>(w: World<T>, a: T) {
    exists k :: k in w && w[k].parent == Some(a) && w[k].skips
  }

  /** A chest or inbox hangs directly in a on the way from a to c. */
  ghost predicate Shielded<T>(w: World<T>, a: T, c: T)
    requires IsForest(Ups(w)) && c in w
  {
    exists k :: k in Chain(Ups(w), c) && k in w && w[k].parent == Some(a) && w[k].skips
  }

  /** An enclosing container hears of a change in c exactly when no chest or inbox hangs directly in it on the way. */
  lemma ReachIff<T>(w: World<T>, c: T, a: T)
    requires IsForest(Ups(w)) && c in w
    ensures a in Reach(w, c) <==> a in Chain(Ups(w), c) && !Shielded(w, a, c)
    ensures Shielded(w, a, c) ==> a in Chain(Ups(w), c) && a != c
  {
    var up := Ups(w);
    TrailInChain(up, Skips(w), c);
    forall k | k in Chain(up, c) && k in w && w[k].parent == Some(a)
      ensures a in Chain(up, c) && a != c && (a in Reach(w, c) <==> !w[k].skips)
    {
      assert up[k] == Some(a);
      ChainParent(up, c, k);
      DepthStep(up, k);
      ChainMember(up, c, k);
      TrailMeets(up, Skips(w), c, k);
    }
    if a in Chain(up, c) && a != c {
      var k := ChildOnTheWay(up, c, a);
      TrailMeets(up, Skips(w), c, k);
      assert w[k].parent == Some(a);
    }
  }

  lemma UnhostedHears<T>(w: World<T>, c: T, a: T)
    requires IsForest(Ups(w)) && c in w && !Hosts(w, a)
    ensures !Shielded(w, a, c)
  {
  }

  // ---------------------------------------------------------------- what the edits do to the totals

  lemma BumpInside<T>(w: World<T>, cs: set<T>, d: int, a: T)
    requires IsForest(Ups(w)) && a in w
    ensures IsForest(Ups(Bump(w, cs, d))) && Off(Bump(w, cs, d), a) == Off(w, a) + if a in cs then d else 0
  {
    BumpKeeps(w, cs, d);
    SumOwnSame(w, Bump(w, cs, d), Below(Ups(w), a));
  }

  /** One stack becomes larger or smaller. */
  lemma ReshapeInside<T>(w: World<T>, x: T, kind: Kind, count: nat, a: T)
    requires IsForest(Ups(w)) && x in w && a in w
    ensures var v := w[x := w[x].(kind := kind, count := count)];
      && Ups(v) == Ups(w)
      && Inside(v, a) == Inside(w, a) + if x in Below(Ups(w), a) then Gain(w, x, kind, count) else 0
  {
    var v, s := w[x := w[x].(kind := kind, count := count)], Below(Ups(w), a);
    assert Ups(v) == Ups(w);
    if x in s {
      SumOwnPick(w, s, x);
      SumOwnPick(v, s, x);
      SumOwnSame(w, v, s - {x});
    } else {
      SumOwnSame(w, v, s);
    }
  }

  lemma BelowAbove<T>(w: World<T>, x: T, a: T)
    requires Shaped(w) && x in w && a in w
    ensures w[x].parent.Some? ==> w[x].parent.value in w
    ensures x in Below(Ups(w), a) <==> w[x].parent.Some? && a in Chain(Ups(w), w[x].parent.value)
  {
    assert Ups(w)[x] == w[x].parent;
    AboveStep(Ups(w), x);
  }

  /** A stack that changes leaves right what hears of it, and puts the others off by the difference. */
  lemma ReshapeOff<T>(w: World<T>, x: T, kind: Kind, count: nat, a: T)
    requires Shaped(w) && x in w && a in w
    ensures w[x].parent.Some? ==> w[x].parent.value in w
    ensures var r := Reshape(w, x, kind, count);
      && IsForest(Ups(r)) && a in r
      && Off(r, a) == Off(w, a)
         - if w[x].parent.Some? && Shielded(w, a, w[x].parent.value) then Gain(w, x, kind, count) else 0
  {
    var v := w[x := w[x].(kind := kind, count := count)];
    BelowAbove(w, x, a);
    if w[x].parent.Some? {
      ReachIff(w, w[x].parent.value, a);
    }
    ReshapeInside(w, x, kind, count, a);
    BumpInside(v, ReachOf(w, w[x].parent), Gain(w, x, kind, count), a);
    hide Inside, Shielded, Reach, IsForest, Gain;
  }

  lemma LinkInside<T>(w: World<T>, c: T, i: nat, x: T, a: T)
    requires IsForest(Ups(w)) && c in w && x in w && i <= |w[c].kids| && w[x].parent == None && x !in Chain(Ups(w), c)
    requires a in w
    ensures var v := HangLinks(w, c, i, x);
      IsForest(Ups(v)) && Inside(v, a) == Inside(w, a) + if a in Chain(Ups(w), c) then Full(w, x) else 0
  {
    var up, v := Ups(w), HangLinks(w, c, i, x);
    assert Ups(v) == up[x := Some(c)];
    LinkForest(up, x, c);
    if a in Chain(up, c) {
      BelowLink(up, x, c, a);
      AboveStep(up, x);
      var all := Below(up, a) + {x} + Below(up, x);
      SumOwnApart(w, all, x, Below(up, x));
      assert all - {x} - Below(up, x) == Below(up, a);
    } else {
      LinkElsewhere(up, x, c, a);
    }
    SumOwnSame(w, v, Below(Ups(v), a));
  }

  /** An item that is put in: who hears of it takes over what x itself is off by, and a shielded one misses all of x. */
  lemma HangOff<T>(w: World<T>, c: T, i: nat, x: T, a: T)
    requires IsForest(Ups(w)) && c in w && x in w && i <= |w[c].kids| && w[x].parent == None && x !in Chain(Ups(w), c)
    requires a in w
    ensures var r := Hang(w, c, i, x);
      && IsForest(Ups(r)) && a in r
      && Off(r, a) == Off(w, a) + (if a in Reach(w, c) then Off(w, x) else 0)
         - if Shielded(w, a, c) then Full(w, x) else 0
  {
    LinkInside(w, c, i, x, a);
    ReachIff(w, c, a);
    BumpInside(HangLinks(w, c, i, x), Reach(w, c), Weight(w, x), a);
    hide Inside, Shielded, Reach, IsForest;
  }

  lemma CutInside<T>(w: World<T>, c: T, i: nat, a: T)
    requires Shaped(w) && c in w && i < |w[c].kids| && a in w && w[c].kids[i] in w && w[c].kids[i] != c
    ensures var v := UnhangLinks(w, c, i);
      && IsForest(Ups(v))
      && Inside(v, a) == Inside(w, a) - if a in Chain(Ups(w), c) then Full(w, w[c].kids[i]) else 0
  {
    var up, v, x := Ups(w), UnhangLinks(w, c, i), w[c].kids[i];
    KidBelow(w, c, i);
    assert Ups(v) == up[x := None] && up[x] == Some(c);
    if a in Chain(up, c) {
      BelowCut(up, x, a);
      SumOwnApart(w, Below(up, a), x, Below(up, x));
    } else if a == x {
      AboveStep(up, x);
      BelowCutSelf(up, x);
    } else {
      AboveStep(up, x);
      BelowCutElsewhere(up, x, a);
    }
    SumOwnSame(w, v, Below(Ups(v), a));
    hide IsForest, Chain;
  }

  /** The sum over s, and over what remains of it without x and t. */
  lemma SumOwnApart<T>(w: World<T>, s: set<T>, x: T, t: set<T>)
    requires x in s && t <= s && x !in t
    ensures SumOwn(w, s) == SumOwn(w, s - {x} - t) + SumOwn(w, t) + Own(w, x)
  {
    SumOwnJoin(w, s - {x} - t, t + {x});
    SumOwnJoin(w, t, {x});
    SumOwnPick(w, {x}, x);
    assert {x} - {x} == {};
    assert s - {x} - t + (t + {x}) == s;
  }

  /** An item that is taken out: the same the other way round. */
  lemma UnhangOff<T>(w: World<T>, c: T, i: nat, a: T)
    requires Shaped(w) && c in w && i < |w[c].kids| && a in w && w[c].kids[i] in w && w[c].kids[i] != c
    ensures var r, x := Unhang(w, c, i), w[c].kids[i];
      && IsForest(Ups(r)) && a in r
      && Off(r, a) == Off(w, a) - (if a in Reach(w, c) then Off(w, x) else 0)
         + if Shielded(w, a, c) then Full(w, x) else 0
  {
    CutInside(w, c, i, a);
    ReachIff(w, c, a);
    BumpInside(UnhangLinks(w, c, i), Reach(w, c), Loss(w, w[c].kids[i]), a);
    hide Inside, Shielded, Reach, IsForest;
  }

  /** What holds a nonzero change and was right stays right exactly when it is not shielded from it. */
  lemma ChangeStaysRight<T>(w: World<T>, x: T, kind: Kind, count: nat, a: T)
    requires Shaped(w) && x in w && a in w && w[x].parent.Some? && Exact(w, a) && Gain(w, x, kind, count) != 0
    ensures w[x].parent.value in w
    ensures var r := Reshape(w, x, kind, count);
      IsForest(Ups(r)) && a in r && (Exact(r, a) <==> !Shielded(w, a, w[x].parent.value))
  {
    ReshapeOff(w, x, kind, count, a);
    hide Inside, Shielded, Reach, IsForest, Gain;
  }

  lemma ArrivalStaysRight<T>(w: World<T>, c: T, i: nat, x: T, a: T)
    requires Shaped(w) && c in w && x in w && i <= |w[c].kids| && w[x].parent == None && x !in Chain(Ups(w), c)
    requires a in w && Exact(w, a) && Exact(w, x) && Full(w, x) != 0
    ensures var r := Hang(w, c, i, x); IsForest(Ups(r)) && a in r && (Exact(r, a) <==> !Shielded(w, a, c))
  {
    HangOff(w, c, i, x, a);
    hide Inside, Shielded, Reach, IsForest;
  }

  lemma DepartureStaysRight<T>(w: World<T>, c: T, i: nat, a: T)
    requires Shaped(w) && c in w && i < |w[c].kids| && a in w && w[c].kids[i] in w && w[c].kids[i] != c
    requires Exact(w, a) && Exact(w, w[c].kids[i]) && Full(w, w[c].kids[i]) != 0
    ensures var r := Unhang(w, c, i); IsForest(Ups(r)) && a in r && (Exact(r, a) <==> !Shielded(w, a, c))
  {
    UnhangOff(w, c, i, a);
    hide Inside, Shielded, Reach, IsForest, Unhang;
  }

  // ---------------------------------------------------------------- what operations keep right

  /** The total of a is right, and nothing hangs in a that could put it off. */
  ghost predicate Right<T>(w: World<T>, a: T)
    requires IsForest(Ups(w)) && a in w
  {
    Exact(w, a) && !Hosts(w, a)
  }

  /** Totals that were right and safe are right, and so are those of new items. */
  ghost predicate TotalsKept<T>(w: World<T>, w': World<T>)
    requires IsForest(Ups(w)) && IsForest(Ups(w'))
  {
    forall a {:trigger Exact(w', a)} :: a in w' && (a in w ==> Right(w, a)) ==> Exact(w', a)
  }

  /** No item has come to hold a chest or inbox directly. */
  ghost predicate NoNewHosts<T>(w: World<T>, w': World<T>) {
    forall a {:trigger Hosts(w', a)} :: a in w' && Hosts(w', a) ==> a in w && Hosts(w, a)
  }

  lemma TotalsTwice<T>(w: World<T>, w1: World<T>, w2: World<T>)
    requires IsForest(Ups(w)) && IsForest(Ups(w1)) && IsForest(Ups(w2)) && w.Keys <= w1.Keys
    requires TotalsKept(w, w1) && NoNewHosts(w, w1) && TotalsKept(w1, w2)
    ensures TotalsKept(w, w2)
  {
    hide IsForest, Exact, Hosts;
    forall a | a in w2 && (a in w ==> Right(w, a)) ensures Exact(w2, a) {
      assert a in w1 ==> Exact(w1, a);
    }
  }

  lemma ReshapeTotals<T>(w: World<T>, x: T, kind: Kind, count: nat)
    requires Shaped(w) && x in w
    ensures var r := Reshape(w, x, kind, count); IsForest(Ups(r)) && TotalsKept(w, r) && NoNewHosts(w, r)
  {
    hide Reshape, Inside, IsForest, Hosts, Off, Shielded, Chain, Gain;
    var r := Reshape(w, x, kind, count);
    ReshapeOff(w, x, kind, count, x);
    ReshapeFrame(w, x, kind, count);
    SameLinksHosts(w, r);
    forall a | a in r && (a in w ==> Right(w, a)) ensures Exact(r, a) {
      ReshapeTotal(w, x, kind, count, a);
    }
  }

  lemma ReshapeTotal<T>(w: World<T>, x: T, kind: Kind, count: nat, a: T)
    requires Shaped(w) && x in w && a in w && Right(w, a)
    ensures var r := Reshape(w, x, kind, count); IsForest(Ups(r)) && a in r && Exact(r, a)
  {
    ReshapeOff(w, x, kind, count, a);
    if w[x].parent.Some? {
      UnhostedHears(w, w[x].parent.value, a);
    }
    hide Inside, Reshape, IsForest;
  }

  lemma SameLinksHosts<T>(w: World<T>, r: World<T>)
    requires r.Keys == w.Keys
    requires forall y {:trigger r[y]} :: y in w ==> r[y].parent == w[y].parent && r[y].skips == w[y].skips
    requires Linked(w)
    ensures NoNewHosts(w, r)
  {
    forall a | a in r && Hosts(r, a) ensures a in w && Hosts(w, a) {
      var k :| k in r && r[k].parent == Some(a) && r[k].skips;
      assert Adopted(w, k);
    }
  }

  lemma HangTotals<T>(w: World<T>, c: T, i: nat, x: T)
    requires Shaped(w) && c in w && x in w && i <= |w[c].kids| && w[x].parent == None && x !in Chain(Ups(w), c)
    requires Exact(w, x)
    ensures var r := Hang(w, c, i, x); IsForest(Ups(r)) && TotalsKept(w, r)
  {
    var r := Hang(w, c, i, x);
    HangOff(w, c, i, x, x);
    HangFrame(w, c, i, x);
    forall a | a in r && (a in w ==> Right(w, a)) ensures Exact(r, a) {
      HangOff(w, c, i, x, a);
      UnhostedHears(w, c, a);
      hide Inside, Hang, IsForest, Shielded, Hosts;
    }
  }

  lemma UnhangTotals<T>(w: World<T>, c: T, i: nat)
    requires Shaped(w) && c in w && i < |w[c].kids| && w[c].kids[i] in w && w[c].kids[i] != c && Exact(w, w[c].kids[i])
    ensures var r := Unhang(w, c, i); IsForest(Ups(r)) && TotalsKept(w, r) && NoNewHosts(w, r)
  {
    hide Unhang, Inside, IsForest, Shielded, Chain, Reach;
    var r, x := Unhang(w, c, i), w[c].kids[i];
    UnhangOff(w, c, i, x);
    UnhangFrame(w, c, i);
    forall a | a in r && (a in w ==> Right(w, a)) ensures Exact(r, a) {
      UnhangOff(w, c, i, a);
      UnhostedHears(w, c, a);
    }
    forall a | a in r && Hosts(r, a) ensures a in w && Hosts(w, a) {
      var k :| k in r && r[k].parent == Some(a) && r[k].skips;
      assert Adopted(w, k) && k != x;
    }
  }

  lemma EnterInside<T>(w: World<T>, x: T, kind: Kind, count: nat, a: T)
    requires Shaped(w) && x !in w && a in w
    ensures var r := Enter(w, x, kind, count); IsForest(Ups(r)) && Off(r, a) == Off(w, a) && Exact(r, x)
  {
    var r := Enter(w, x, kind, count);
    assert Ups(r) == Ups(w)[x := None];
    JoinCount(Ups(w), x, a);
    JoinElsewhere(Ups(w), x, a);
    assert x !in Below(Ups(w), a);
    SumOwnSame(w, r, Below(Ups(w), a));
  }

  lemma EnterTotals<T>(w: World<T>, x: T, kind: Kind, count: nat)
    requires Shaped(w) && x !in w
    ensures var r := Enter(w, x, kind, count); IsForest(Ups(r)) && TotalsKept(w, r) && NoNewHosts(w, r) && Exact(r, x)
  {
    var r := Enter(w, x, kind, count);
    assert Ups(r) == Ups(w)[x := None];
    JoinForest(Ups(w), x);
    EnterAlone(w, x, kind, count);
    forall a | a in r && (a in w ==> Right(w, a)) ensures Exact(r, a) {
      if a != x {
        EnterInside(w, x, kind, count, a);
      }
      hide IsForest, Inside, Hosts;
    }
    forall a | a in r && Hosts(r, a) ensures a in w && Hosts(w, a) {
      var k :| k in r && r[k].parent == Some(a) && r[k].skips;
      assert Adopted(w, k);
      hide IsForest;
    }
  }

  lemma EnterAlone<T>(w: World<T>, x: T, kind: Kind, count: nat)
    requires Shaped(w) && x !in w
    ensures var r := Enter(w, x, kind, count); IsForest(Ups(r)) && Exact(r, x)
  {
    var r := Enter(w, x, kind, count);
    assert Ups(r) == Ups(w)[x := None];
    JoinForest(Ups(w), x);
    forall y | y in w ensures x !in Chain(Ups(r), y) {
      JoinSame(Ups(w), x, y);
    }
    assert Below(Ups(r), x) == {};
  }

  lemma LeaveTotals<T>(w: World<T>, x: T)
    requires Consistent(w) && x in w && w[x].parent == None && w[x].kids == []
    ensures IsForest(Ups(w - {x})) && TotalsKept(w, w - {x}) && NoNewHosts(w, w - {x})
  {
    var r := w - {x};
    LeaveConsistent(w, x);
    KidlessBelow(w, x);
    forall a | a in r && (a in w ==> Right(w, a)) ensures Exact(r, a) {
      LeaveElsewhere(Ups(w), x, a);
      AboveStep(Ups(w), x);
      assert x !in Below(Ups(w), a);
      SumOwnSame(w, r, Below(Ups(w), a));
      hide IsForest, Hosts;
    }
    forall a | a in r && Hosts(r, a) ensures a in w && Hosts(w, a) {
      var k :| k in r && r[k].parent == Some(a) && r[k].skips;
      assert Adopted(w, k);
      hide IsForest;
    }
  }

  // ---------------------------------------------------------------- the totals against a full descent

  /** What lies in the children of x from the i-th on, and these children. */
  ghost function BelowFrom<T>(w: World<T>, x: T, i: nat): (s: set<T>)
    requires Shaped(w) && x in w && i <= |w[x].kids|
  {
    set y | y in w && exists j :: i <= j < |w[x].kids| && w[x].kids[j] in Chain(Ups(w), y)
  }

  lemma KidsApart<T>(w: World<T>, x: T, i: nat, j: nat, y: T)
    requires Shaped(w) && x in w && i < j < |w[x].kids| && y in w
    ensures !(w[x].kids[i] in Chain(Ups(w), y) && w[x].kids[j] in Chain(Ups(w), y))
  {
    KidBelow(w, x, i);
    KidBelow(w, x, j);
    assert NoDup(w[x].kids);
    if w[x].kids[i] in Chain(Ups(w), y) && w[x].kids[j] in Chain(Ups(w), y) {
      OneChildOnTheWay(Ups(w), y, x, w[x].kids[i], w[x].kids[j]);
    }
  }

  lemma BelowFromStep<T>(w: World<T>, x: T, i: nat)
    requires Shaped(w) && x in w && i < |w[x].kids|
    ensures var k := w[x].kids[i];
      && k in w && k !in Below(Ups(w), k)
      && BelowFrom(w, x, i) == {k} + Below(Ups(w), k) + BelowFrom(w, x, i + 1)
      && ({k} + Below(Ups(w), k)) !! BelowFrom(w, x, i + 1)
  {
    var up, kids, k := Ups(w), w[x].kids, w[x].kids[i];
    KidBelow(w, x, i);
    forall y | y in w ensures y in BelowFrom(w, x, i) <==> y in {k} + Below(up, k) + BelowFrom(w, x, i + 1) {
      assert k in Chain(up, y) <==> y in {k} + Below(up, k);
    }
    forall y, j | y in w && i < j < |kids| && k in Chain(up, y) ensures kids[j] !in Chain(up, y) {
      KidsApart(w, x, i, j, y);
    }
  }

  lemma {:induction false} InsideIsDeepFrom<T>(w: World<T>, x: T, i: nat)
    requires Shaped(w) && x in w && i <= |w[x].kids|
    ensures SumOwn(w, BelowFrom(w, x, i)) == DeepSum(w, x, i)
    decreases LevelsLeft(w, x), |w[x].kids| - i
  {
    if i == |w[x].kids| {
      assert BelowFrom(w, x, i) == {};
    } else {
      var k := w[x].kids[i];
      KidBelow(w, x, i);
      DepthStep(Ups(w), k);
      BelowFromStep(w, x, i);
      InsideIsDeep(w, k);
      InsideIsDeepFrom(w, x, i + 1);
      hide BelowFrom, Below, IsForest, Linked, SumOwn;
      var below, rest := Below(Ups(w), k), BelowFrom(w, x, i + 1);
      SumOwnApart(w, BelowFrom(w, x, i), k, below);
      assert BelowFrom(w, x, i) - {k} - below == rest;
    }
  }

  lemma BelowFromAll<T>(w: World<T>, x: T, y: T)
    requires Shaped(w) && x in w && y in w
    ensures y in Below(Ups(w), x) <==> y in BelowFrom(w, x, 0)
  {
    var up := Ups(w);
    forall j | 0 <= j < |w[x].kids| && w[x].kids[j] in Chain(up, y) ensures y in Below(up, x) {
      var k := w[x].kids[j];
      KidBelow(w, x, j);
      ChainParent(up, y, k);
      ChainMember(up, y, k);
      DepthStep(up, k);
    }
    if y in Below(up, x) {
      var k := ChildOnTheWay(up, y, x);
      assert Adopted(w, k);
      var j := IndexOf(w[x].kids, k);
    }
  }

  /** Descending through the child lists finds the same weight as adding up everything that lies inside. */
  lemma {:induction false} InsideIsDeep<T>(w: World<T>, x: T)
    requires Shaped(w) && x in w
    ensures Inside(w, x) == DeepSum(w, x, 0)
    decreases LevelsLeft(w, x), |w[x].kids| + 1
  {
    InsideIsDeepFrom(w, x, 0);
    forall y | y in w ensures y in Below(Ups(w), x) <==> y in BelowFrom(w, x, 0) {
      BelowFromAll(w, x, y);
    }
    assert Below(Ups(w), x) == BelowFrom(w, x, 0);
  }

  /** What getWeight answers from a right total is what a full descent would compute. */
  lemma CachedIsDeep<T>(w: World<T>, x: T)
    requires Shaped(w) && x in w
    ensures Exact(w, x) <==> Weight(w, x) == DeepWeight(w, x)
  {
    InsideIsDeep(w, x);
  }
}
