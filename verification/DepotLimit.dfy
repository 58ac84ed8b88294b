// The recursive item limit of depot chests (src/depotchest.cpp).
//
// DepotChest::queryAdd counts everything inside the chest and everything a new item brings along.  It is asked about
// everything put in at any depth exactly where the walks of getParent lead to it and then to a tile: in the boxes of a
// depot that is open.  The lemmas follow the set of descendants through a move and show that an accepted move never
// leaves such a chest with more items inside than its limit; where the depot stands nowhere the limit can be passed.
module DepotLimit {
  import opened Options
  import opened Forest
  import opened ItemTree
  import opened ItemMove
  import opened ItemWalk
  import opened Descendants
  import opened ItemWeights
  import opened Containers
  import opened ItemAdd
  import opened GameItems

  // ---------------------------------------------------------------- the chest

  /** The move goes into a watched chest, at any depth. */
  ghost predicate UnderChest(w: World<Item>, plan: Plan, chest: Item, limit: nat)
    requires Shaped(w) && plan.dest in w
  {
    chest in Chain(Ups(w), plan.dest) && Watched(w, chest) && chest.role == DepotChest(limit)
  }

  /** A query of a container inside a chest asks the chest exactly when the chest's walk ends at a tile and no other
      chest or inbox hangs directly in it on the way. */
  lemma {:induction false} ChestAskedIff(w: World<Item>, dest: Item, c: Item)
    requires IsForest(Ups(w)) && dest in w && c in w && c in Chain(Ups(w), dest) && c != dest && dest.isContainer
    requires ShownParent(w, c) == None
    ensures TopOf(w, dest) == c <==> OnTile(w, c) && !Shielded(w, c, dest)
  {
    ReachIff(w, dest, c);
    if c in Reach(w, dest) {
      TrailEndUnique<Item>(Ups(w), Skips(w), dest, c);
    }
    hide IsForest, OnTile, Shielded, Chain;
  }

  /** When a piece of a stack stays behind inside the chest, queryAdd had counted one more object. */
  lemma SplitWasCounted(w: World<Item>, from: Item, item: Item, count: nat, flags: Flags, tradeItem: Item?,
                        plan: Plan, chest: Item)
    requires Settled(w, from, item, count, flags, tradeItem, plan) && !flags.noLimit && !flags.childIsOwner
    requires AddsObject(w, item, plan.m, Opt(plan.toItem), Drops(plan)) && !TakesAll(w, item, plan.m)
    ensures w[item].count != count
    ensures DepotAdds(w, chest, item, count) >= 1
  {
    hide TopOf, IsForest, Clear, TopTakes;
    var dest := plan.dest;
    if plan.toItem != null {
      assert w[dest].kids[plan.slot] == plan.toItem && w[dest].kids[plan.slot] in w[dest].kids;
    }
  }

  /** How the parent links up1, taken after the pieces left, change when they arrive. */
  ghost function Arrival(w: World<Item>, up1: Up<Item>, item: Item, m: nat, to: Item, toItem: Option<Item>,
                         drop: bool, clone: Item): Up<Item>
    requires item in w
  {
    if w[item].kind.stackable then
      if Rest(w, item, m, toItem) <= 0 then up1
      else if drop then up1[clone := None]
      else up1[clone := None][clone := Some(to)]
    else if drop then up1
    else up1[item := Some(to)]
  }

  lemma MovedUps(w: World<Item>, w': World<Item>, from: Item, item: Item, plan: Plan, clone: Item)
    requires Carried(w, w', from, item, plan, clone)
    ensures var up1 := if TakesAll(w, item, plan.m) then Ups(w)[item := None] else Ups(w);
      Ups(w') == Arrival(w, up1, item, plan.m, plan.dest, Opt(plan.toItem), Drops(plan), clone)
  {
    var m, dest, toItem, drop := plan.m, plan.dest, Opt(plan.toItem), Drops(plan);
    TakenConsistent(w, from, item, m);
    TakenReady(w, from, dest, item, m, toItem);
    LandedUps(Taken(w, from, item, m), dest, item, m, toItem, clone, drop);
  }

  lemma LandedUps(v: World<Item>, to: Item, item: Item, m: nat, toItem: Option<Item>, clone: Item, drop: bool)
    requires CanLand(v, to, item, m, toItem, clone)
    ensures Ups(Landed(v, to, item, m, toItem, clone, drop)) == Arrival(v, Ups(v), item, m, to, toItem, drop, clone)
  {
    if v[item].kind.stackable {
      var u, k := TopUp(v, item, m, toItem), Rest(v, item, m, toItem);
      TopUpConsistent(v, to, item, m, toItem);
      if k > 0 {
        EnterReady(u, to, clone, v[item].kind, k);
        EnterConsistent(u, clone, v[item].kind, k);
        HangConsistent(Enter(u, clone, v[item].kind, k), to, 0, clone);
      }
    } else {
      HangConsistent(v, to, 0, item);
    }
  }

  /** What any container holds after a move, by what left it and what came in. */
  lemma {:induction false} SizeAfter(w: World<Item>, w': World<Item>, from: Item, item: Item, plan: Plan, clone: Item,
                                     c: Item)
    requires Carried(w, w', from, item, plan, clone) && Consistent(w') && c in w
    ensures var up := Ups(w);
      |Below(Ups(w'), c)| == |Below(up, c)|
        - (if TakesAll(w, item, plan.m) && c in Enclosers(up, item) then 1 + |Below(up, item)| else 0)
        + (if c !in Chain(up, plan.dest) || !AddsObject(w, item, plan.m, Opt(plan.toItem), Drops(plan)) then 0
           else if w[item].kind.stackable then 1 else 1 + |Below(up, item)|)
  {
    var up, dest, all := Ups(w), plan.dest, TakesAll(w, item, plan.m);
    KidBelow(w, from, IndexOf(w[from].kids, item));
    MovedUps(w, w', from, item, plan, clone);
    if all {
      CutCount<Item>(up, item, c);
      CutRoot<Item>(up, item, dest);
      ArrivalCount(w, up[item := None], item, plan.m, dest, Opt(plan.toItem), Drops(plan), clone, c);
    } else {
      ArrivalCount(w, up, item, plan.m, dest, Opt(plan.toItem), Drops(plan), clone, c);
    }
    hide IsForest, Moved, Chain;
  }

  lemma {:induction false} ArrivalCount(w: World<Item>, up1: Up<Item>, item: Item, m: nat, to: Item,
                                        toItem: Option<Item>, drop: bool, clone: Item, r: Item)
    requires IsForest(up1) && item in w && item in up1 && to in up1 && r in up1
    requires w[item].kind.stackable && Rest(w, item, m, toItem) > 0 ==> clone !in up1
    requires !w[item].kind.stackable ==> up1[item] == None && item !in Chain(up1, to)
    ensures IsForest(Arrival(w, up1, item, m, to, toItem, drop, clone))
    ensures |Below(Arrival(w, up1, item, m, to, toItem, drop, clone), r)| == |Below(up1, r)|
            + (if r !in Chain(up1, to) || !AddsObject(w, item, m, toItem, drop) then 0
               else if w[item].kind.stackable then 1 else 1 + |Below(up1, item)|)
  {
    if w[item].kind.stackable {
      if Rest(w, item, m, toItem) > 0 {
        JoinCount<Item>(up1, clone, to);
        JoinSame<Item>(up1, clone, to);
        JoinSame<Item>(up1, clone, r);
        LinkCount<Item>(up1[clone := None], clone, to, r);
      }
    } else {
      LinkCount<Item>(up1, item, to, r);
    }
    hide IsForest, Chain;
  }

  /** getTopParent of an item finds a watched chest exactly when the item lies in it. */
  lemma {:induction false} WatchedTop(w: World<Item>, c: Item, item: Item)
    requires IsForest(Ups(w)) && c in w && item in w && Watched(w, c) && c != item
    ensures TopOf(w, item) == c <==> c in Enclosers(Ups(w), item)
  {
    AboveStep<Item>(Ups(w), item);
    TopInChain(w, item);
    if c in Chain(Ups(w), item) {
      OnTileEnds(w, c);
      ReachIff(w, item, c);
      UnhostedHears(w, item, c);
      TrailEndUnique<Item>(Ups(w), Skips(w), item, c);
    }
  }

  /**
   * A move into a watched depot chest, accepted without FLAG_NOLIMIT, leaves the chest holding at
   * most its limit, wherever the item comes from: outside, or another place inside the same chest.
   */
  lemma {:induction false} MoveRespectsDepotLimit(w: World<Item>, w': World<Item>, from: Item, item: Item, count: nat,
                                                  flags: Flags, tradeItem: Item?, plan: Plan, clone: Item, chest: Item,
                                                  limit: nat)
    requires Settled(w, from, item, count, flags, tradeItem, plan) && Carried(w, w', from, item, plan, clone)
    requires !flags.noLimit && !flags.childIsOwner && UnderChest(w, plan, chest, limit) && Hollow(w)
    ensures Consistent(w')
    ensures |Below(Ups(w'), chest)| <= limit
  {
    MoveConserves(w, w', from, item, count, flags, tradeItem, plan, clone, {}, w[item].kind);
    ChestCounted(w, plan.dest, plan.slot, item, count, flags, chest, limit);
    SizeAfter(w, w', from, item, plan, clone, chest);
    WatchedTop(w, chest, item);
    if !item.isContainer {
      KidlessBelow<Item>(w, item);
    }
    hide TopOf, IsForest, Linked, Moved, Takes, Chain, Watched;
    if AddsObject(w, item, plan.m, Opt(plan.toItem), Drops(plan)) && !TakesAll(w, item, plan.m) {
      SplitWasCounted(w, from, item, count, flags, tradeItem, plan, chest);
    }
  }

  /** A move without FLAG_NOLIMIT keeps every watched depot chest within its limit. */
  lemma {:induction false} MoveKeepsLimits(w: World<Item>, w': World<Item>, from: Item, item: Item, count: nat,
                                           flags: Flags, tradeItem: Item?, plan: Plan, clone: Item)
    requires Settled(w, from, item, count, flags, tradeItem, plan) && Carried(w, w', from, item, plan, clone)
    requires !flags.noLimit && !flags.childIsOwner && Hollow(w) && Consistent(w')
    ensures KeepsLimits(w, w')
  {
    forall c | c in w && c in w' && Watched(w, c) && WithinLimit(w, c) ensures WithinLimit(w', c) {
      if c.role.DepotChest? {
        if c in Chain(Ups(w), plan.dest) {
          MoveRespectsDepotLimit(w, w', from, item, count, flags, tradeItem, plan, clone, c, c.role.maxDepotItems);
        } else {
          SizeAfter(w, w', from, item, plan, clone, c);
        }
      }
      hide IsForest, Linked, Moved, Settled, Watched;
    }
  }

  /** An addition that the queries accept without FLAG_NOLIMIT, with all the stacks it fills and creates on the way,
      leaves a watched chest that it goes into holding at most its limit. */
  lemma {:induction false} AddRespectsDepotLimit(w: World<Item>, w': World<Item>, to: Item, item: Item, index: int,
                                                 flags: Flags, k: int, chest: Item, limit: nat)
    requires CanAsk(w, to, item, index, flags) && MayAdd(w, to, item, index, flags) && !flags.noLimit
    requires var dest := Destination(w, to, index, item, flags).dest;
      && Added(w, w', dest, w[item].kind, k, flags)
      && chest in Chain(Ups(w), dest) && Watched(w, chest) && chest.role == DepotChest(limit)
    ensures |Below(Ups(w), chest)| < limit && |Below(Ups(w'), chest)| <= limit
  {
    var p := Destination(w, to, index, item, flags);
    ChestCounted(w, p.dest, p.slot, item, w[item].count, flags, chest, limit);
    TakesFar(w, p.dest, p.slot, item, w[item].count, flags);
    TopOfRoot(w, item);
    assert WithinLimit(w, chest);
    assert WithinLimit(w', chest);
  }
}
