// Moving a stack between two containers, as one edit of the item tree.
//
// Moved composes the elementary edits in the order in which Game::internalMoveItem performs them:
// take m pieces out, top up the chosen stack, put the rest in as a new stack.  The lemmas say what
// the composition keeps and, for every set of containers at once, how the stock flows.
module ItemMove {
  import opened Options
  import opened Forest
  import opened ItemTree
  import opened ItemStock

  ghost function Minimum(a: int, b: int): int {
    if a < b then a else b
  }

  /** m pieces of item leave the container from. */
  ghost predicate CanTake<T>(w: World<T>, from: T, item: T, m: nat) {
    && Consistent(w) && from in w && item in w[from].kids && 1 <= m
    && item in w && (w[item].kind.stackable ==> m <= w[item].count)
  }

  ghost predicate TakesAll<T>(w: World<T>, item: T, m: nat)
    requires item in w
  {
    !w[item].kind.stackable || m == w[item].count
  }

  ghost function Taken<T>(w: World<T>, from: T, item: T, m: nat): World<T>
    requires CanTake(w, from, item, m)
  {
    if TakesAll(w, item, m) then
      KidBelow(w, from, IndexOf(w[from].kids, item));
      Unhang(w, from, IndexOf(w[from].kids, item))
    else
      Reshape(w, item, w[item].kind, w[item].count - m)
  }

  /** How many pieces leave: the whole of a thing that does not stack, m of a stack. */
  ghost function Pieces<T>(w: World<T>, item: T, m: nat): nat
    requires item in w
  {
    if w[item].kind.stackable then m else w[item].count
  }

  /** What the merge target can still take of m pieces. */
  ghost function Merge<T>(w: World<T>, item: T, m: nat, toItem: Option<T>): (n: int)
    requires item in w
  {
    if toItem.Some? && toItem.value in w && w[toItem.value].kind == w[item].kind
    then Minimum(MAX_STACK - w[toItem.value].count, m) else 0
  }

  /** What the merge target cannot take becomes a new stack. */
  ghost function Rest<T>(w: World<T>, item: T, m: nat, toItem: Option<T>): int
    requires item in w
  {
    m - Merge(w, item, m, toItem)
  }

  lemma TakenConsistent<T>(w: World<T>, from: T, item: T, m: nat)
    requires CanTake(w, from, item, m)
    ensures Consistent(Taken(w, from, item, m))
    ensures Ups(Taken(w, from, item, m)) == if TakesAll(w, item, m) then Ups(w)[item := None] else Ups(w)
  {
    if TakesAll(w, item, m) {
      UnhangConsistent(w, from, IndexOf(w[from].kids, item));
    } else {
      ReshapeConsistent(w, item, w[item].kind, w[item].count - m);
    }
  }

  /** The other records keep everything but their cached totals. */
  ghost predicate OnlyTaken<T>(w: World<T>, v: World<T>, from: T, item: T, m: nat, all: bool)
    requires from in w && item in w
  {
    && v.Keys == w.Keys && v[item].kind == w[item].kind && v[item].skips == w[item].skips
    && (forall x {:trigger v[x]} :: x in w && x != from ==> v[x].kids == w[x].kids)
    && (forall x {:trigger v[x]} :: x in w && x != item ==>
        v[x].kind == w[x].kind && v[x].count == w[x].count && v[x].parent == w[x].parent
        && v[x].placed == w[x].placed && v[x].skips == w[x].skips)
    && (forall k :: k in w ==> (k in v[from].kids <==> k in w[from].kids && !(all && k == item)))
    && |v[from].kids| == |w[from].kids| - (if all then 1 else 0)
    && v[item].count == (if all then w[item].count else w[item].count - m)
  }

  lemma {:induction false} TakenFrame<T>(w: World<T>, from: T, item: T, m: nat)
    requires CanTake(w, from, item, m)
    ensures OnlyTaken(w, Taken(w, from, item, m), from, item, m, TakesAll(w, item, m))
  {
    var i := IndexOf(w[from].kids, item);
    KidBelow(w, from, i);
    hide Unhang, Reshape, OnlyTaken, Linked, IsForest, Stacked;
    if TakesAll(w, item, m) {
      LinkedNoDup(w, from);
      UnhangTakes(w, from, i, m);
    } else {
      ReshapeTakes(w, from, item, m);
    }
  }

  lemma LinkedNoDup<T>(w: World<T>, c: T)
    requires Linked(w) && c in w
    ensures NoDup(w[c].kids)
  {
  }

  lemma {:induction false} ReshapeTakes<T>(w: World<T>, from: T, item: T, m: nat)
    requires IsForest(Ups(w)) && from in w && item in w && m <= w[item].count
    ensures OnlyTaken(w, Reshape(w, item, w[item].kind, w[item].count - m), from, item, m, false)
  {
    hide *;
    ReshapeFrame(w, item, w[item].kind, w[item].count - m);
    ResizedTakes(w, Reshape(w, item, w[item].kind, w[item].count - m), from, item, m);
  }

  lemma {:induction false} ResizedTakes<T>(w: World<T>, r: World<T>, from: T, item: T, m: nat)
    requires from in w && item in w && m <= w[item].count && r.Keys == w.Keys
    requires r[item] == w[item].(kind := w[item].kind, count := w[item].count - m, total := r[item].total)
    requires forall y {:trigger r[y]} :: y in w && y != item ==> Same(w, r, y)
    ensures OnlyTaken(w, r, from, item, m, false)
  {
  }

  lemma UnhangTakes<T>(w: World<T>, c: T, i: nat, m: nat)
    requires IsForest(Ups(w)) && c in w && i < |w[c].kids| && w[c].kids[i] in w && w[c].kids[i] != c
    requires NoDup(w[c].kids)
    ensures OnlyTaken(w, Unhang(w, c, i), c, w[c].kids[i], m, true)
  {
    var r, x, kids := Unhang(w, c, i), w[c].kids[i], w[c].kids;
    DeleteMembers(kids, i);
    UnhangFrame(w, c, i);
    hide *;
    assert r.Keys == w.Keys && r[c].kids == kids[..i] + kids[i + 1..];
    forall k | k in w ensures k in r[c].kids <==> k in kids && k != x {
    }
    UnhangOthers(w, r, c, x);
  }

  lemma UnhangOthers<T>(w: World<T>, r: World<T>, c: T, x: T)
    requires c in w && x in w && x != c && r.Keys == w.Keys
    requires r[x] == w[x].(parent := None, placed := false, total := r[x].total)
    requires r[c] == w[c].(kids := r[c].kids, total := r[c].total)
    requires forall y {:trigger r[y]} :: y in w && y != x && y != c ==> Same(w, r, y)
    ensures r[x].kind == w[x].kind && r[x].skips == w[x].skips && r[x].count == w[x].count
    ensures forall y {:trigger r[y]} :: y in w && y != c ==> r[y].kids == w[y].kids
    ensures forall y {:trigger r[y]} :: y in w && y != x ==>
      r[y].kind == w[y].kind && r[y].count == w[y].count && r[y].parent == w[y].parent
      && r[y].placed == w[y].placed && r[y].skips == w[y].skips
  {
  }

  lemma TakenStock<T>(w: World<T>, from: T, item: T, m: nat, cs: set<T>, kind: Kind)
    requires CanTake(w, from, item, m)
    ensures Stock(Taken(w, from, item, m), cs, kind) ==
            Stock(w, cs, kind) - (if from in cs && kind == w[item].kind then Pieces(w, item, m) else 0)
  {
    var i := IndexOf(w[from].kids, item);
    KidBelow(w, from, i);
    if TakesAll(w, item, m) {
      UnhangStock(w, from, i, cs, kind);
    } else {
      ReshapeStock(w, item, w[item].kind, w[item].count - m, cs, kind);
    }
  }

  // ---------------------------------------------------------------- the whole move

  ghost predicate Movable<T>(w: World<T>, from: T, to: T, item: T, m: nat, toItem: Option<T>) {
    && CanTake(w, from, item, m) && to in w && item !in Chain(Ups(w), to)
    && (toItem.Some? ==> toItem.value in w[to].kids && toItem.value != item)
  }

  ghost predicate CanMove<T>(w: World<T>, from: T, to: T, item: T, m: nat, toItem: Option<T>, clone: T) {
    && Movable(w, from, to, item, m, toItem)
    && (w[item].kind.stackable && Rest(w, item, m, toItem) > 0 ==> clone !in w)
  }

  /** A fresh stack of `count` pieces is created and, unless dropped, becomes the first child of `to`. */
  ghost function AddCopy<T>(u: World<T>, to: T, clone: T, kind: Kind, count: nat, drop: bool): World<T>
    requires CanCopy(u, to, clone, kind, count)
  {
    if count == 0 then u else
      EnterReady(u, to, clone, kind, count);
      var e := Enter(u, clone, kind, count);
      if drop then e else Hang(e, to, 0, clone)
  }

  ghost predicate CanCopy<T>(u: World<T>, to: T, clone: T, kind: Kind, count: nat) {
    Consistent(u) && to in u && (count > 0 ==> clone !in u && (kind.stackable ==> count <= MAX_STACK))
  }

  /** The part of the move that happens at the destination, after the pieces were taken. */
  ghost function Landed<T>(v: World<T>, to: T, item: T, m: nat, toItem: Option<T>, clone: T, drop: bool): World<T>
    requires CanLand(v, to, item, m, toItem, clone)
  {
    if v[item].kind.stackable then
      TopUpConsistent(v, to, item, m, toItem);
      AddCopy(TopUp(v, item, m, toItem), to, clone, v[item].kind, Rest(v, item, m, toItem), drop)
    else
      if drop then v else Hang(v, to, 0, item)
  }

  /** The pieces are out, and what Merge says fits the merge target. */
  ghost predicate Ready<T>(v: World<T>, to: T, item: T, m: nat, toItem: Option<T>) {
    && Consistent(v) && to in v && item in v
    && (v[item].kind.stackable ==> m <= MAX_STACK)
    && (!v[item].kind.stackable ==> v[item].parent == None && item !in Chain(Ups(v), to) && item != to)
    && (toItem.Some? ==> toItem.value in v && v[toItem.value].parent == Some(to))
  }

  ghost predicate CanLand<T>(v: World<T>, to: T, item: T, m: nat, toItem: Option<T>, clone: T) {
    Ready(v, to, item, m, toItem) && (v[item].kind.stackable && Rest(v, item, m, toItem) > 0 ==> clone !in v)
  }

  ghost function TopUp<T>(v: World<T>, item: T, m: nat, toItem: Option<T>): World<T>
    requires item in v && IsForest(Ups(v))
    requires toItem.Some? ==>
      toItem.value in v && (v[toItem.value].kind.stackable ==> v[toItem.value].count <= MAX_STACK)
  {
    if toItem.Some? && v[toItem.value].kind == v[item].kind && v[item].kind.stackable
    then Reshape(v, toItem.value, v[toItem.value].kind, v[toItem.value].count + Merge(v, item, m, toItem))
    else v
  }

  lemma TopUpConsistent<T>(v: World<T>, to: T, item: T, m: nat, toItem: Option<T>)
    requires Ready(v, to, item, m, toItem)
    ensures toItem.Some? && v[toItem.value].kind.stackable ==> v[toItem.value].count <= MAX_STACK
    ensures v[item].kind.stackable ==> 0 <= Rest(v, item, m, toItem) <= MAX_STACK
    ensures Consistent(TopUp(v, item, m, toItem)) && Ups(TopUp(v, item, m, toItem)) == Ups(v)
    ensures TopUp(v, item, m, toItem).Keys == v.Keys
  {
    if toItem.Some? && v[toItem.value].kind == v[item].kind && v[item].kind.stackable {
      ReshapeConsistent(v, toItem.value, v[toItem.value].kind, v[toItem.value].count + Merge(v, item, m, toItem));
    }
  }

  /** A fresh stack may be hung anywhere. */
  lemma EnterReady<T>(u: World<T>, to: T, clone: T, kind: Kind, count: nat)
    requires Consistent(u) && to in u && clone !in u && (kind.stackable ==> 1 <= count <= MAX_STACK)
    ensures var e := Enter(u, clone, kind, count);
      && Consistent(e) && to in e && clone != to && clone !in Chain(Ups(e), to) && e[clone].parent == None
      && Chain(Ups(e), to) == Chain(Ups(u), to)
  {
    EnterConsistent(u, clone, kind, count);
    ChainUnaffected(Ups(u), Ups(Enter(u, clone, kind, count)), clone, to);
  }

  lemma AddCopyConsistent<T>(u: World<T>, to: T, clone: T, kind: Kind, count: nat, drop: bool)
    requires CanCopy(u, to, clone, kind, count)
    ensures Consistent(AddCopy(u, to, clone, kind, count, drop))
  {
    if count > 0 {
      EnterReady(u, to, clone, kind, count);
      HangConsistent(Enter(u, clone, kind, count), to, 0, clone);
    }
  }

  lemma AddCopyStock<T>(u: World<T>, to: T, clone: T, kind: Kind, count: nat, drop: bool, cs: set<T>, kind': Kind)
    requires CanCopy(u, to, clone, kind, count)
    ensures Stock(AddCopy(u, to, clone, kind, count, drop), cs, kind') ==
            Stock(u, cs, kind') + (if to in cs && kind' == kind && !drop then count else 0)
  {
    if count > 0 {
      EnterReady(u, to, clone, kind, count);
      EnterStock(u, clone, kind, count, cs, kind');
      HangStock(Enter(u, clone, kind, count), to, 0, clone, cs, kind');
    }
  }

  lemma LandedConsistent<T>(v: World<T>, to: T, item: T, m: nat, toItem: Option<T>, clone: T, drop: bool)
    requires CanLand(v, to, item, m, toItem, clone)
    ensures Consistent(Landed(v, to, item, m, toItem, clone, drop))
  {
    if v[item].kind.stackable {
      TopUpConsistent(v, to, item, m, toItem);
      AddCopyConsistent(TopUp(v, item, m, toItem), to, clone, v[item].kind, Rest(v, item, m, toItem), drop);
    } else {
      HangConsistent(v, to, 0, item);
    }
  }

  /** The pieces that never reach the destination: a dropped remainder or a dropped thing. */
  ghost function Shortfall<T>(v: World<T>, item: T, m: nat, toItem: Option<T>, drop: bool): int
    requires item in v
  {
    if !drop then 0 else if v[item].kind.stackable then Rest(v, item, m, toItem) else v[item].count
  }

  lemma TopUpStock<T>(v: World<T>, to: T, item: T, m: nat, toItem: Option<T>, cs: set<T>, kind: Kind)
    requires Ready(v, to, item, m, toItem) && v[item].kind.stackable
    ensures toItem.Some? && v[toItem.value].kind.stackable ==> v[toItem.value].count <= MAX_STACK
    ensures Stock(TopUp(v, item, m, toItem), cs, kind) ==
            Stock(v, cs, kind) + (if to in cs && kind == v[item].kind then Merge(v, item, m, toItem) else 0)
  {
    if toItem.Some? && v[toItem.value].kind == v[item].kind {
      ReshapeStock(v, toItem.value, v[toItem.value].kind, v[toItem.value].count + Merge(v, item, m, toItem), cs, kind);
    }
  }

  lemma LandedStock<T>(v: World<T>, to: T, item: T, m: nat, toItem: Option<T>, clone: T, drop: bool, cs: set<T>,
                       kind: Kind)
    requires CanLand(v, to, item, m, toItem, clone)
    ensures Stock(Landed(v, to, item, m, toItem, clone, drop), cs, kind) ==
            Stock(v, cs, kind) +
            (if to in cs && kind == v[item].kind then Pieces(v, item, m) - Shortfall(v, item, m, toItem, drop) else 0)
  {
    if v[item].kind.stackable {
      TopUpConsistent(v, to, item, m, toItem);
      TopUpStock(v, to, item, m, toItem, cs, kind);
      AddCopyStock(TopUp(v, item, m, toItem), to, clone, v[item].kind, Rest(v, item, m, toItem), drop, cs, kind);
    } else {
      HangStock(v, to, 0, item, cs, kind);
    }
  }

  lemma TakenReady<T>(w: World<T>, from: T, to: T, item: T, m: nat, toItem: Option<T>)
    requires Movable(w, from, to, item, m, toItem)
    ensures var v := Taken(w, from, item, m);
      && Ready(v, to, item, m, toItem) && Merge(v, item, m, toItem) == Merge(w, item, m, toItem)
      && v.Keys == w.Keys && v[item].kind == w[item].kind
      && (!w[item].kind.stackable ==> v[item].count == w[item].count)
    ensures toItem.Some? ==> toItem.value in Taken(w, from, item, m)[to].kids && toItem.value in w
    ensures toItem.Some? && w[toItem.value].kind.stackable ==> Taken(w, from, item, m)[toItem.value].count <= MAX_STACK
  {
    TakenConsistent(w, from, item, m);
    TakenFrame(w, from, item, m);
    var v := Taken(w, from, item, m);
    if !w[item].kind.stackable {
      ChainUnaffected(Ups(w), Ups(v), item, to);
      assert v[item].parent == Ups(v)[item];
    }
  }

  /** The snapshot after moving m pieces of item from `from` to `to`. */
  ghost function Moved<T>(w: World<T>, from: T, to: T, item: T, m: nat, toItem: Option<T>, clone: T,
                          drop: bool): World<T>
    requires CanMove(w, from, to, item, m, toItem, clone)
  {
    TakenReady(w, from, to, item, m, toItem);
    Landed(Taken(w, from, item, m), to, item, m, toItem, clone, drop)
  }

  lemma MovedConsistent<T>(w: World<T>, from: T, to: T, item: T, m: nat, toItem: Option<T>, clone: T, drop: bool)
    requires CanMove(w, from, to, item, m, toItem, clone)
    ensures Consistent(Moved(w, from, to, item, m, toItem, clone, drop))
  {
    TakenReady(w, from, to, item, m, toItem);
    LandedConsistent(Taken(w, from, item, m), to, item, m, toItem, clone, drop);
  }

  /**
   * For every set of containers and every kind: the set gains what arrives in it and loses what
   * leaves it.  With nothing dropped, any set that holds both ends or neither keeps its stock.
   */
  lemma MovedStock<T>(w: World<T>, from: T, to: T, item: T, m: nat, toItem: Option<T>, clone: T, drop: bool,
                      cs: set<T>, kind: Kind)
    requires CanMove(w, from, to, item, m, toItem, clone)
    ensures Stock(Moved(w, from, to, item, m, toItem, clone, drop), cs, kind) ==
            Stock(w, cs, kind) +
            (if kind != w[item].kind then 0 else
               (if to in cs then Pieces(w, item, m) - Shortfall(w, item, m, toItem, drop) else 0)
               - (if from in cs then Pieces(w, item, m) else 0))
  {
    TakenReady(w, from, to, item, m, toItem);
    TakenStock(w, from, item, m, cs, kind);
    LandedStock(Taken(w, from, item, m), to, item, m, toItem, clone, drop, cs, kind);
  }

  /** A new object appears among the children of the destination. */
  ghost predicate AddsObject<T>(w: World<T>, item: T, m: nat, toItem: Option<T>, drop: bool)
    requires item in w
  {
    !drop && (w[item].kind.stackable ==> Rest(w, item, m, toItem) > 0)
  }

  /** Child lists: only the source loses an entry and only the destination gains one. */
  lemma MovedSizes<T>(w: World<T>, from: T, to: T, item: T, m: nat, toItem: Option<T>, clone: T, drop: bool, x: T)
    requires CanMove(w, from, to, item, m, toItem, clone) && x in w
    ensures var r := Moved(w, from, to, item, m, toItem, clone, drop);
      && x in r
      && |r[x].kids| == |w[x].kids| - (if x == from && TakesAll(w, item, m) then 1 else 0)
                                    + (if x == to && AddsObject(w, item, m, toItem, drop) then 1 else 0)
  {
    TakenReady(w, from, to, item, m, toItem);
    TakenFrame(w, from, item, m);
    LandedSizes(Taken(w, from, item, m), to, item, m, toItem, clone, drop, x);
  }

  lemma LandedSizes<T>(v: World<T>, to: T, item: T, m: nat, toItem: Option<T>, clone: T, drop: bool, x: T)
    requires CanLand(v, to, item, m, toItem, clone) && x in v
    ensures var r := Landed(v, to, item, m, toItem, clone, drop);
      && x in r
      && |r[x].kids| == |v[x].kids| + (if x == to && AddsObject(v, item, m, toItem, drop) then 1 else 0)
  {
    if v[item].kind.stackable {
      TopUpConsistent(v, to, item, m, toItem);
      var u := TopUp(v, item, m, toItem);
      assert u[x].kids == v[x].kids;
      CopySizes(u, to, clone, v[item].kind, Rest(v, item, m, toItem), drop, x);
    } else if !drop {
      HangFrame(v, to, 0, item);
      hide Hang, IsForest;
    }
  }

  lemma CopySizes<T>(u: World<T>, to: T, clone: T, kind: Kind, count: nat, drop: bool, x: T)
    requires CanCopy(u, to, clone, kind, count) && x in u
    ensures var r := AddCopy(u, to, clone, kind, count, drop);
      x in r && |r[x].kids| == |u[x].kids| + (if x == to && !drop && count > 0 then 1 else 0)
  {
    if count > 0 {
      EnterReady(u, to, clone, kind, count);
      if !drop {
        HangFrame(Enter(u, clone, kind, count), to, 0, clone);
      }
    }
    hide Hang, IsForest, Linked;
  }
}
