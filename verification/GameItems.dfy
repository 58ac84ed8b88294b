// The Game operations that move and add items between containers (src/game.cpp).
module GameItems {
  import opened Options
  import opened Forest
  import opened ItemTree
  import opened ItemStock
  import opened ItemMove
  import opened ItemWalk
  import opened ItemWeights
  import opened Containers
  import opened ItemAdd

  const MAP_MAX_LAYERS := 16

  /** What internalMoveItem did: nothing, or a move of m pieces with the given placement. */
  datatype Move =
    | Nothing
    | Done(plan: Plan, clone: Item)

  /** The placement the checks settled on: m pieces into dest, which was asked for slot `asked`. */
  datatype Plan = Plan(dest: Item, asked: int, slot: int, toItem: Item?, m: nat)

  /** The object that arrives: the item itself, or a stack made for the move. */
  predicate Arrives(clone: Item, item: Item) {
    clone == item || (clone.role == Plain && !clone.pagination)
  }

  /** The remainder is dropped silently when the slot picked lies beyond the capacity. */
  ghost predicate Drops(plan: Plan) {
    plan.slot >= plan.dest.maxSize
  }

  class Game {
    /** Every item that exists, in a container or loose. */
    ghost var world: set<Item>
    var toReleaseItems: seq<Item>

    ghost predicate Valid()
      reads this, world
    {
      Consistent(Snap(world))
    }

    lemma ValidMeans()
      requires Valid()
      ensures Consistent(Snap(world)) && Shaped(Snap(world))
    {
    }

    /** Follows queryDestination until a cylinder answers with itself. */
    method ResolveDestination(to: Item, index: int, item: Item, flags: Flags)
        returns (dest: Item, slot: int, toItem: Item?, hops: nat)
      requires Valid() && to in world && item in world && index >= INDEX_WHEREEVER
      ensures Place(dest, slot, toItem) == Resolved(Snap(world), to, index, item, flags) && hops <= 1
      ensures hops == 0 <==> dest == Destination(Snap(world), to, index, item, flags).dest == to
    {
      ghost var w := Snap(world);
      dest, hops := to, 0;
      var subCylinder;
      subCylinder, slot, toItem := dest.QueryDestination(world, index, item, flags);
      while subCylinder != dest
        invariant dest in world && subCylinder in world && hops <= 1
        invariant hops == 0 ==> dest == to && Place(subCylinder, slot, toItem) == Destination(w, to, index, item, flags)
        invariant hops == 1 ==> dest == subCylinder && Place(dest, slot, toItem) == Resolved(w, to, index, item, flags)
        invariant hops == 1 ==> Destination(w, to, index, item, flags).dest != to
        decreases 1 - hops
      {
        dest := subCylinder;
        hops := hops + 1;
        if hops >= MAP_MAX_LAYERS {
          break;
        }
        subCylinder, slot, toItem := dest.QueryDestination(world, slot, item, flags);
      }
    }

    /** Moves up to count pieces of item from one container to another.  The plan is a function of the state before; it
        is carried out exactly when every query and check lets it, and nothing changes otherwise. */
    method InternalMoveItem(from: Item, to: Item, index: int, item: Item, count: nat, flags: Flags, tradeItem: Item?)
        returns (ret: ReturnValue, ghost move: Move)
      requires Valid() && from in world && to in world && item in world
      requires index >= INDEX_WHEREEVER && !flags.childIsOwner
      requires Noticed(Snap(world), item, PlanFor(Snap(world), to, index, item, count, flags).dest)
      modifies this, world
      ensures old(world) <= world && fresh(world - old(world))
      ensures move == Nothing ==> Snap(world) == old(Snap(world)) && world == old(world)
      ensures var w := old(Snap(world));
        var plan := PlanFor(w, to, index, item, count, flags);
        && (move.Done? <==> MayMove(w, from, item, count, flags, tradeItem, plan))
        && (move == Nothing && ret == NoError <==> plan.toItem == item)
        && (move.Done? ==> move.plan == plan && Arrives(move.clone, item))
        && (move.Done? ==> (ret == NoError <==> !w[item].kind.stackable || plan.m == count))
      ensures move.Done? ==>
        && Settled(old(Snap(world)), from, item, count, flags, tradeItem, move.plan)
        && Carried(old(Snap(world)), Snap(world), from, item, move.plan, move.clone)
        && Leads(old(Snap(world)), to, index, item, flags, move.plan)
        && Measured(old(Snap(world)), item, count, flags, move.plan)
        && Brought(old(Snap(world)), Snap(world), from, item, move.plan)
      ensures var w := old(Snap(world));
        var removed := move.Done? && w[item].kind.stackable && (TakesAll(w, item, move.plan.m) || !IsPlaced(w, item));
        toReleaseItems == old(toReleaseItems) + if removed then [item] else []
    {
      hide *;
      ValidMeans();
      SnapKeys(world);
      SnapAt(world, item);
      ghost var w := Snap(world);
      move := Nothing;
      var plan, proceed, late;
      ret, proceed, plan, late := PlanMove(from, to, index, item, count, flags, tradeItem, Snap(world));
      if !proceed {
        return;
      }
      var stacks := item.kind.stackable;
      var moveItem;
      ghost var clone;
      SettledFacts(w, from, item, count, flags, tradeItem, plan);
      moveItem, clone := Transfer(from, plan.dest, plan.slot, item, plan.m, plan.toItem);
      CarriedIs(w, Snap(world), from, item, plan, clone);
      MoveBrings(w, Snap(world), from, item, count, flags, tradeItem, plan, clone);
      SettledLaws(w, from, to, index, item, count, flags, tradeItem, plan);
      move := Done(plan, clone);
      if stacks {
        CarriedPlaced(w, Snap(world), from, item, plan, clone);
        SnapKeys(world);
        var removed := item.IsRemoved(world);
        if removed {
          ReleaseItem(item);
        }
      }
      ret := late;
    }

    /** The checks of internalMoveItem on the snapshot w.  When they pass, late is the value returned after the move. */
    method PlanMove(from: Item, to: Item, index: int, item: Item, count: nat, flags: Flags, tradeItem: Item?,
                    ghost w: World<Item>)
        returns (ret: ReturnValue, proceed: bool, plan: Plan, late: ReturnValue)
      requires w == Snap(world) && Consistent(w) && from in world && to in world && item in world
      requires index >= INDEX_WHEREEVER && !flags.childIsOwner
      requires Noticed(w, item, PlanFor(w, to, index, item, count, flags).dest)
      ensures proceed <==> MayMove(w, from, item, count, flags, tradeItem, PlanFor(w, to, index, item, count, flags))
      ensures !proceed ==> (ret == NoError <==> PlanFor(w, to, index, item, count, flags).toItem == item)
      ensures proceed ==> plan == PlanFor(w, to, index, item, count, flags) && plan.toItem != item
      ensures proceed ==> Settled(w, from, item, count, flags, tradeItem, plan)
      ensures proceed ==> (late == NoError <==> !w[item].kind.stackable || plan.m == count)
    {
      proceed, late := false, NoError;
      var dest, slot, toItem, hops := ResolveDestination(to, index, item, flags);
      assert Snap(world) == w;
      var asked := if hops == 0 then index else INDEX_WHEREEVER;
      plan := Plan(dest, asked, slot, toItem, 0);
      ResolvedPlaced(w, to, index, item, flags);
      PlanForIs(w, to, index, item, count, flags);
      hide PlanFor, Resolved, Takes;
      if item == toItem {
        return NoError, false, plan, NoError;
      }
      var retMaxCount, m;
      ret, retMaxCount, m := AskAdd(dest, slot, item, count, flags, w);
      if ret != NoError {
        return;
      }
      plan := Plan(dest, asked, slot, toItem, m);
      ret := AskRemove(from, dest, item, m, flags, tradeItem, w);
      if ret != NoError {
        return;
      }
      proceed := true;
      Settle(w, from, item, count, flags, tradeItem, plan);
      late := if item.kind.stackable && m < count then retMaxCount else NoError;
    }

    /** queryAdd and queryMaxCount at the destination, and the amount that follows from them. */
    method AskAdd(dest: Item, slot: int, item: Item, count: nat, flags: Flags, ghost w: World<Item>)
        returns (ret: ReturnValue, retMaxCount: ReturnValue, m: nat)
      requires w == Snap(world) && Consistent(w) && dest in world && item in world && slot >= INDEX_WHEREEVER
      ensures ret == NoError <==>
        Takes(w, dest, slot, item, count, flags) && RoomForSome(w, dest, slot, item, count, flags)
      ensures ret == NoError ==> m == MoveAmount(w, dest, slot, item, count, flags)
      ensures ret == NoError && w[item].kind.stackable ==> m <= count && (m < count ==> retMaxCount != NoError)
    {
      retMaxCount, m := NoError, 0;
      ret := dest.QueryAdd(world, slot, item, count, flags);
      assert Snap(world) == w;
      hide Takes;
      if ret != NoError {
        return;
      }
      var maxQueryCount;
      retMaxCount, maxQueryCount := dest.QueryMaxCount(world, slot, item, count, flags);
      assert Snap(world) == w;
      if retMaxCount != NoError && maxQueryCount == 0 {
        return retMaxCount, retMaxCount, 0;
      }
      m := if item.kind.stackable then (if count < maxQueryCount then count else maxQueryCount) else maxQueryCount;
    }

    /** queryRemove at the source, and the check that a traded item is not put into itself. */
    method AskRemove(from: Item, dest: Item, item: Item, m: nat, flags: Flags, tradeItem: Item?, ghost w: World<Item>)
        returns (ret: ReturnValue)
      requires w == Snap(world) && Consistent(w) && from in world && dest in world && item in world
      ensures ret == NoError <==> MayLeave(w, from, item, m, flags) && ApartFrom(w, tradeItem, dest)
    {
      ret := from.QueryRemove(item, m, flags);
      if ret != NoError {
        return;
      }
      if tradeItem != null {
        var inside := LiesIn(dest, tradeItem);
        if inside {
          return NotEnoughRoom;
        }
      }
    }

    /** The loop over the destination's parents that keeps a traded item from being put into itself. */
    method LiesIn(dest: Item, tradeItem: Item) returns (inside: bool)
      requires dest in world && IsForest(Ups(Snap(world)))
      ensures inside <==> tradeItem in Reach(Snap(world), dest)
    {
      hide IsForest, Snap, OnTile, ShownParent, Reach;
      ghost var w := Snap(world);
      SnapKeys(world);
      ReachStep(w, dest);
      if dest == tradeItem {
        return true;
      }
      var tmpCylinder, outside := dest.GetParent(world);
      while tmpCylinder != null
        invariant tmpCylinder != null ==> tmpCylinder in w
        invariant tradeItem in Reach(w, dest) <==> tradeItem in ReachOf(w, Opt(tmpCylinder))
        decreases if tmpCylinder == null then 0 else 1 + Depth<Item>(Ups(w), tmpCylinder)
      {
        ReachStep(w, tmpCylinder);
        if tmpCylinder == tradeItem {
          return true;
        }
        tmpCylinder, outside := tmpCylinder.GetParent(world);
      }
      inside := false;
    }

    /**
     * Adds the loose item to a container, topping up one stack after another; dest is where it goes.
     * The recursion hands the remainder back to the container first asked.
     */
    method InternalAddItem(to: Item, item: Item, index: int, flags: Flags, test: bool, ghost w: World<Item>)
        returns (ret: ReturnValue, remainderCount: nat, ghost dest: Item)
      requires w == Snap(world) && CanAsk(w, to, item, index, flags)
      modifies this, world
      ensures old(world) <= world && fresh(world - old(world)) && dest in w
      ensures ret == NoError <==> MayAdd(w, to, item, index, flags)
      ensures dest == Destination(w, to, index, item, flags).dest
      ensures IsForest(Ups(w)) && Aimed(w, to, index, flags, dest)
      ensures ret == NoError && !test && !w[item].kind.stackable ==>
        item in Snap(world) && Snap(world)[item].parent == Some(dest)
      ensures ret != NoError || test ==> Snap(world) == w && world == old(world)
      ensures remainderCount <= w[item].count
      ensures ret == NoError && !test ==>
        Added(w, Snap(world), dest, w[item].kind, Arrived(w, item, remainderCount), flags)
      ensures ret == NoError && !test ==> remainderCount == Leftover(w, to, item, index, flags)
      ensures old(toReleaseItems) <= toReleaseItems
      ensures ret != NoError || test ==> toReleaseItems == old(toReleaseItems)
      ensures ret == NoError && !test ==>
        Fate(w, Snap(world), dest, item, toReleaseItems[|old(toReleaseItems)|..], Absorbed(w, to, item, index, flags),
          PutIn(w, to, item, index, flags))
      ensures !flags.ignoreAutoStack ==> remainderCount == 0
      ensures index == INDEX_WHEREEVER ==> dest == to && remainderCount == 0
      ensures index == INDEX_WHEREEVER && EnoughRoom(w, to, item, flags) ==> ret == NoError
      ensures IsForest(Ups(w)) && IsForest(Ups(Snap(world))) && (Exact(w, item) ==> TotalsKept(w, Snap(world)))
      decreases item.count, 1
    {
      hide *;
      remainderCount := 0;
      var slot, toItem, maxQueryCount, toCylinder;
      AskedFacts(w, to, item, index, flags);
      SnapKeys(world);
      SnapAt(world, item);
      ret, toCylinder, slot, toItem, maxQueryCount := PlanAdd(to, item, index, flags, w);
      dest := toCylinder;
      AskedAims(w, to, item, index, flags);
      if ret != NoError || test {
        NoTotals(w);
        return;
      }
      MergesMeans(w, item, toItem);
      if item.kind.stackable && toItem != null && item.kind == toItem.kind {
        MergesHere(w, to, dest, item, index, slot, toItem, maxQueryCount, flags);
        remainderCount := AddByMerging(to, item, index, slot, toItem, maxQueryCount, flags, w);
      } else {
        if toItem != null && toItem in world {
          SnapAt(world, toItem);
        }
        WholeFacts(w, to, dest, item, index, slot, toItem, maxQueryCount, flags);
        Unmerged(w, to, item, index, dest, slot, toItem, flags);
        ArrivedIs(w, item, 0);
        PutWhole(toCylinder, slot, item, flags, w);
        assert toReleaseItems[|old(toReleaseItems)|..] == [];
        if !w[item].kind.stackable {
          UnstackedLies(w, Snap(world), to, item, index, flags, dest, []);
        }
      }
    }

    /** The branch that tops up toItem: the rest is handed on, put down whole, or there is none. */
    method AddByMerging(to: Item, item: Item, index: int, slot: int, toItem: Item, maxQueryCount: nat, flags: Flags,
                        ghost w: World<Item>)
        returns (remainderCount: nat)
      requires w == Snap(world) && CanAsk(w, to, item, index, flags)
      requires Accepted(w, to, to, item, index, slot, toItem, maxQueryCount, flags)
      requires item.kind.stackable && toItem.kind == item.kind
      requires Place(to, slot, toItem) == Destination(w, to, index, item, flags)
      modifies this, world
      ensures old(world) <= world && fresh(world - old(world))
      ensures remainderCount <= w[item].count && remainderCount == Leftover(w, to, item, index, flags)
      ensures Added(w, Snap(world), to, w[item].kind, Arrived(w, item, remainderCount), flags)
      ensures !flags.ignoreAutoStack || index == INDEX_WHEREEVER ==> remainderCount == 0
      ensures old(toReleaseItems) <= toReleaseItems
      ensures Fate(w, Snap(world), to, item, toReleaseItems[|old(toReleaseItems)|..],
        Absorbed(w, to, item, index, flags), PutIn(w, to, item, index, flags))
      ensures IsForest(Ups(w)) && IsForest(Ups(Snap(world))) && (Exact(w, item) ==> TotalsKept(w, Snap(world)))
      decreases item.count, 0
    {
      hide *;
      remainderCount := 0;
      var all, kind := item.count, item.kind;
      AskedFacts(w, to, item, index, flags);
      SnapKeys(world);
      SnapAt(world, item);
      MergeFacts(w, to, item, index, slot, toItem, maxQueryCount, flags);
      SnapAt(world, toItem);
      LeftoverAt(w, to, item, index, slot, toItem, flags);
      FateAt(w, to, item, index, slot, toItem, flags);
      ghost var was := toReleaseItems;
      var count, n;
      ghost var w1;
      count, n, w1 := Fill(to, item, index, slot, toItem, maxQueryCount, flags, w);
      ArrivedIs(w, item, 0);
      if count == 0 {
        ReleaseItem(item);
        AbsorbedFate(w, w1, to, item);
        assert toReleaseItems[|was|..] == [item];
      } else if all != count {
        FilledFacts(w, w1, to, kind, n, flags);
        ghost var arrived;
        remainderCount, arrived := HandOn(to, item, index, slot, toItem, maxQueryCount, count, kind, flags, w, w1);
        ArrivedIs(w, item, remainderCount);
        AddedTwice(w, w1, Snap(world), to, kind, n, arrived, Arrived(w, item, remainderCount), flags);
        TotalsTwice<Item>(w, w1, Snap(world));
        PartedFate(w, w1, Snap(world), to, item, toReleaseItems[|was|..]);
      } else {
        WholeFacts(w, to, to, item, index, slot, toItem, maxQueryCount, flags);
        PutWhole(to, slot, item, flags, w);
        assert toReleaseItems[|was|..] == [];
      }
    }

    /** Tops up toItem with as much of item as fits; count is what is left. */
    method Fill(to: Item, item: Item, index: int, slot: int, toItem: Item, maxQueryCount: nat, flags: Flags,
                ghost w: World<Item>)
        returns (count: nat, n: nat, ghost w1: World<Item>)
      requires w == Snap(world) && CanAsk(w, to, item, index, flags)
      requires Accepted(w, to, to, item, index, slot, toItem, maxQueryCount, flags) && item.kind.stackable
      requires toItem.kind == item.kind
      modifies world
      ensures w1 == Snap(world) && Added(w, w1, to, w[item].kind, n, flags) && to in w1 && Ups(w1) == Ups(w)
      ensures count + n == w[item].count <= MAX_STACK && toItem in w && w[toItem].kind == w[item].kind
      ensures (n == 0 <==> w[toItem].count == MAX_STACK) && (n == 0 ==> w1 == w) && w[toItem].count <= MAX_STACK
      ensures count > 0 ==> w1 == Reshape(w, toItem, w[item].kind, MAX_STACK) && count == Excess(w, item, toItem)
      ensures count == 0 ==> Excess(w, item, toItem) <= 0
      ensures index == INDEX_WHEREEVER ==> !flags.ignoreAutoStack
      ensures IsForest(Ups(w)) && IsForest(Ups(w1)) && KeepsWatch(w, w1) && TotalsKept(w, w1) && NoNewHosts(w, w1)
    {
      MergeFacts(w, to, item, index, slot, toItem, maxQueryCount, flags);
      ReshapeSame<Item>(w, toItem);
      hide Accepted, Added, Stacked, KeepsWatch, TotalsKept;
      var m := if item.count < maxQueryCount then item.count else maxQueryCount;
      n := if MAX_STACK - toItem.count < m then MAX_STACK - toItem.count else m;
      var size := toItem.count + n;
      count := m - n;
      to.UpdateThing(world, toItem, toItem.kind, size);
      w1 := Snap(world);
      Filled(w, to, item, toItem, size, n, w1, flags);
    }

    /** The remainder becomes a fresh stack that is added by a recursive call. */
    method HandOn(to: Item, ghost item: Item, ghost index: int, ghost slot: int, ghost toItem: Item,
                  ghost maxQueryCount: nat,
                  count: nat, kind: Kind, flags: Flags, ghost w: World<Item>, ghost w1: World<Item>)
        returns (remainderCount: nat, ghost arrived: nat)
      requires w1 == Snap(world) && to in w1 && CanAsk(w, to, item, index, flags) && Consistent(w1)
      requires Hollow(w1)
      requires Accepted(w, to, to, item, index, slot, toItem, maxQueryCount, flags)
      requires toItem in w && kind == w[item].kind == w[toItem].kind && kind.stackable && 1 <= count <= MAX_STACK
      requires w1 == Reshape(w, toItem, kind, MAX_STACK) && count == Excess(w, item, toItem)
      modifies this, world
      ensures old(world) <= world && fresh(world - old(world))
      ensures arrived + remainderCount == count
      ensures Added(w1, Snap(world), to, kind, arrived, flags)
      ensures remainderCount == if !flags.ignoreAutoStack || SlotFree(w, to, flags) then 0 else count
      ensures old(toReleaseItems) <= toReleaseItems
      ensures Aside(w1, Snap(world), toReleaseItems[|old(toReleaseItems)|..])
      ensures IsForest(Ups(w1)) && IsForest(Ups(Snap(world))) && TotalsKept(w1, Snap(world))
      decreases count, 3
    {
      hide *;
      AskedFacts(w, to, item, index, flags);
      CopyFacts(w, w1, toItem, kind);
      ghost var w2;
      var copy;
      copy, w2 := Create(to, kind, count, flags, w1);
      EnteredAt(w1, copy, kind, count);
      EnteredUps(w1, copy, kind, count);
      RoomSurvives(w, to, item, index, slot, toItem, maxQueryCount, flags, copy, kind, count);
      AskedFacts(w2, to, copy, INDEX_WHEREEVER, flags);
      RestMayAdd(w2, to, copy, flags);
      remainderCount, arrived := Recurse(to, copy, count, kind, flags, w1, w2);
    }

    method Recurse(to: Item, copy: Item, count: nat, kind: Kind, flags: Flags, ghost w1: World<Item>,
                   ghost w2: World<Item>)
        returns (remainderCount: nat, ghost arrived: nat)
      requires w2 == Snap(world) && CanAsk(w2, to, copy, INDEX_WHEREEVER, flags)
      requires IsForest(Ups(w1)) && to in w1 && Added(w1, w2, to, kind, 0, flags)
      requires w2[copy].kind == kind && w2[copy].count == count
      requires copy !in w1 && Ups(w2) == Ups(w1)[copy := None] && w1.Keys <= w2.Keys
      requires IsForest(Ups(w2)) && KeepsWatch(w1, w2) && TotalsKept(w1, w2) && NoNewHosts(w1, w2)
      requires copy in w2 && Exact(w2, copy)
      modifies this, world
      ensures old(world) <= world && fresh(world - old(world))
      ensures arrived + remainderCount == count
      ensures Added(w1, Snap(world), to, kind, arrived, flags)
      ensures remainderCount == if MayAdd(w2, to, copy, INDEX_WHEREEVER, flags) then 0 else count
      ensures old(toReleaseItems) <= toReleaseItems
      ensures Aside(w1, Snap(world), toReleaseItems[|old(toReleaseItems)|..])
      ensures IsForest(Ups(w1)) && IsForest(Ups(Snap(world))) && TotalsKept(w1, Snap(world))
      decreases count, 2
    {
      var ret, rest;
      ghost var dest;
      ghost var was := toReleaseItems;
      ret, rest, dest := InternalAddItem(to, copy, INDEX_WHEREEVER, flags, false, w2);
      if ret != NoError {
        ReleaseItem(copy);
        remainderCount, arrived := count, 0;
        assert Snap(world) == w2;
        RefusedAside(w1, w2, copy);
        assert toReleaseItems[|was|..] == [copy];
      } else {
        remainderCount, arrived := 0, count;
        ghost var w3 := Snap(world);
        assert dest == to && Arrived(w2, copy, rest) == count;
        AddedTwice(w1, w2, w3, to, kind, 0, count, count, flags);
        TotalsTwice<Item>(w1, w2, w3);
        CopyAside(w1, w2, w3, to, copy, toReleaseItems[|was|..],
          Absorbed(w2, to, copy, INDEX_WHEREEVER, flags), PutIn(w2, to, copy, INDEX_WHEREEVER, flags));
      }
    }

    /** Item::clone with the remaining count: a loose stack. */
    method Create(to: Item, kind: Kind, count: nat, flags: Flags, ghost w1: World<Item>)
        returns (copy: Item, ghost w2: World<Item>)
      requires w1 == Snap(world) && Consistent(w1) && Hollow(w1) && to in w1 && !flags.childIsOwner
      requires kind.stackable && to.isContainer && 1 <= count <= MAX_STACK
      modifies this`world
      ensures fresh(copy) && world == old(world) + {copy} && copy.role == Plain && !copy.isContainer && copy !in w1
      ensures w2 == Snap(world) == Enter(w1, copy, kind, count)
      ensures CanAsk(w2, to, copy, INDEX_WHEREEVER, flags) && Added(w1, w2, to, kind, 0, flags)
      ensures IsForest(Ups(w1)) && IsForest(Ups(w2)) && KeepsWatch(w1, w2) && w1.Keys <= w2.Keys && copy in w2
      ensures TotalsKept(w1, w2) && NoNewHosts(w1, w2) && Exact(w2, copy)
    {
      copy := new Item(kind, count);
      world := world + {copy};
      w2 := Snap(world);
      assert w2 == Enter(w1, copy, kind, count);
      EnteredAdded(w1, to, copy, kind, count, flags);
      hide Added, CanAsk, KeepsWatch, TotalsKept, Exact;
    }

    /** addThing of the whole item. */
    method PutWhole(dest: Item, slot: int, item: Item, flags: Flags, ghost w: World<Item>)
      requires w == Snap(world) && Consistent(w) && Hollow(w) && dest in w && item in w
      requires w[item].parent == None && !w[item].placed && item !in Chain(Ups(w), dest)
      requires slot < dest.maxSize && dest.isContainer
      requires !flags.childIsOwner && Takes(w, dest, slot, item, w[item].count, flags)
      modifies world
      ensures HasSlot(w, dest, flags) || flags.ignoreAutoStack ==>
        Added(w, Snap(world), dest, w[item].kind, w[item].count, flags)
      ensures Fate(w, Snap(world), dest, item, [], false, true)
      ensures IsForest(Ups(w)) && IsForest(Ups(Snap(world))) && (Exact(w, item) ==> TotalsKept(w, Snap(world)))
    {
      PutTotals(w, dest, item);
      if HasSlot(w, dest, flags) || flags.ignoreAutoStack {
        HungAdded(w, dest, slot, item, flags);
      }
      hide Added, HasSlot, Fate, TotalsKept, Exact;
      dest.AddThing(world, slot, item);
      HungFate(w, Snap(world), dest, item);
    }

    /** The queries of internalAddItem. */
    method PlanAdd(to: Item, item: Item, index: int, flags: Flags, ghost w: World<Item>)
        returns (ret: ReturnValue, dest: Item, slot: int, toItem: Item?, maxQueryCount: nat)
      requires w == Snap(world) && CanAsk(w, to, item, index, flags)
      ensures dest in world && dest.isContainer && (index == INDEX_WHEREEVER ==> dest == to)
      ensures Place(dest, slot, toItem) == Destination(w, to, index, item, flags)
      ensures ret == NoError <==> MayAdd(w, to, item, index, flags)
      ensures ret == NoError ==> Accepted(w, to, dest, item, index, slot, toItem, maxQueryCount, flags)
      ensures index == INDEX_WHEREEVER && EnoughRoom(w, to, item, flags) ==> ret == NoError
    {
      hide Aimed, PutOn;
      dest, slot, toItem := to.QueryDestination(world, index, item, flags);
      assert Snap(world) == w;
      DestinationPlaced(w, to, index, item, flags);
      DestinationHolds(w, to, index, item, flags);
      maxQueryCount := 0;
      if index == INDEX_WHEREEVER && EnoughRoom(w, to, item, flags) {
        RoomAccepts(w, to, item, slot, toItem, flags);
      }
      hide Destination, Placed;
      var count := item.count;
      ret := dest.QueryAdd(world, slot, item, count, flags);
      assert Snap(world) == w;
      if ret != NoError {
        return;
      }
      TakesFar(w, dest, slot, item, count, flags);
      ret, maxQueryCount := to.QueryMaxCount(world, INDEX_WHEREEVER, item, count, flags);
      assert Snap(world) == w;
    }

    // the removal itself: an item that counts as removed is released
    method TakeAway(from: Item, item: Item, n: nat, ghost w: World<Item>)
      requires w == Snap(world) && CanTake(w, from, item, n) && item in w
      modifies this`toReleaseItems, world
      ensures Snap(world) == Taken(w, from, item, n) && IsForest(Ups(w))
      ensures toReleaseItems == old(toReleaseItems) +
        if TakesAll(w, item, n) || !IsPlaced(w, item) then [item] else []
    {
      hide *;
      TakenPlaced(w, from, item, n);
      SnapKeys(world);
      TakeOff(from, item, n);
      SnapKeys(world);
      var removed := item.IsRemoved(world);
      if removed {
        ReleaseItem(item);
      }
    }

    /** Takes count pieces (-1: all of them) of an item out of the container it lies in.  Depot chests and inboxes
        refuse; canRemove is what any other item says, and only a bed in a house says no. */
    method InternalRemoveItem(item: Item, count: int, test: bool, flags: Flags, canRemove: bool, ghost w: World<Item>)
        returns (ret: ReturnValue)
      requires w == Snap(world) && Consistent(w) && item in w && count >= -1
      requires w[item].placed ==> w[item].parent.Some?
      modifies this, world
      ensures world == old(world)
      ensures ret == NoError <==> MayRemove(w, item, count, canRemove)
      ensures ret == NoError <==>
        (var n := if count == -1 then w[item].count else count;
         && w[item].parent.Some? && item.role == Plain && canRemove && n != 0
         && (w[item].kind.stackable ==> n <= w[item].count))
      ensures ret == NoError && !test ==>
        && item in Snap(world) && Left(w, Snap(world), item, if count == -1 then w[item].count else count)
      ensures ret != NoError || test ==> Snap(world) == w
      ensures ret == NoError && !test ==>
        var n := Wanted(w, item, count);
        CanTake(w, w[item].parent.value, item, n) && Snap(world) == Taken(w, w[item].parent.value, item, n)
      ensures toReleaseItems == old(toReleaseItems) +
        if ret == NoError && !test && (TakesAll(w, item, Wanted(w, item, count)) || !IsPlaced(w, item)) then [item]
        else []
    {
      hide *;
      SnapKeys(world);
      SnapAt(world, item);
      ForestOf(w);
      var cylinder, outside := item.GetParent(world);
      var n := if count == -1 then item.count else count;
      RemoveVerdict(w, item, count, canRemove, cylinder, n);
      RemoveMeans(w, item, count, canRemove);
      if cylinder == null {
        return NotPossible;
      }
      ret := AskTake(cylinder, item, n, flags, w);
      if ret != NoError {
        return;
      }
      if item.role != Plain || !canRemove {
        return NotPossible;
      }
      if test {
        return;
      }
      TakenLeft(w, cylinder, item, n);
      TakeAway(cylinder, item, n, w);
    }

    // queryRemove with FLAG_IGNORENOTMOVEABLE
    method AskTake(cylinder: Item, item: Item, n: nat, flags: Flags, ghost w: World<Item>) returns (ret: ReturnValue)
      requires w == Snap(world) && cylinder in w && item in w
      ensures ret == NoError <==> item in w[cylinder].kids && Removable(w, item, n)
    {
      ret := cylinder.QueryRemove(item, n, flags.(ignoreNotMoveable := true));
    }

    method ReleaseItem(item: Item)
      modifies this`toReleaseItems
      ensures toReleaseItems == old(toReleaseItems) + [item]
    {
      toReleaseItems := toReleaseItems + [item];
    }

    /** Removing, topping up and adding: the part of internalMoveItem after all checks passed. */
    method Transfer(from: Item, to: Item, slot: int, item: Item, m: nat, toItem: Item?)
        returns (moveItem: Item?, ghost clone: Item)
      requires Movable(Snap(world), from, to, item, m, Opt(toItem)) && slot >= INDEX_WHEREEVER
      modifies this`world, world
      ensures old(world) <= world && fresh(world - old(world))
      ensures CanMove(old(Snap(world)), from, to, item, m, Opt(toItem), clone)
      ensures Snap(world) == Moved(old(Snap(world)), from, to, item, m, Opt(toItem), clone, slot >= to.maxSize)
      ensures Arrives(clone, item)
    {
      ghost var w := Snap(world);
      TakenReady(w, from, to, item, m, Opt(toItem));
      TakeOff(from, item, m);
      moveItem, clone := Land(to, slot, item, m, toItem);
    }

    method TakeOff(from: Item, item: Item, m: nat)
      requires CanTake(Snap(world), from, item, m)
      modifies world
      ensures Snap(world) == Taken(old(Snap(world)), from, item, m)
    {
      from.RemoveThing(world, item, m);
    }

    /** Tops up toItem when it is of the same kind; says by how much. */
    method TopUpStack(to: Item, item: Item, m: nat, toItem: Item?) returns (n: nat)
      requires to in world && item in world && Shaped(Snap(world)) && item.kind.stackable
      requires toItem != null ==>
        toItem in world && toItem in to.itemlist && (toItem.kind.stackable ==> toItem.count <= MAX_STACK)
      modifies world
      ensures n == Merge(old(Snap(world)), item, m, Opt(toItem))
      ensures Snap(world) == TopUp(old(Snap(world)), item, m, Opt(toItem))
    {
      ghost var v := Snap(world);
      n := 0;
      if toItem != null {
        assert toItem in v[to].kids && toItem in v;
        if item.kind == toItem.kind {
          n := if MAX_STACK - toItem.count < m then MAX_STACK - toItem.count else m;
          to.UpdateThing(world, toItem, toItem.kind, toItem.count + n);
        }
      }
    }

    /** Creates a stack of the remaining size, if any remains, and adds it. */
    method PutRest(to: Item, slot: int, kind: Kind, count: nat, ghost spare: Item)
        returns (moveItem: Item?, ghost clone: Item)
      requires Valid() && to in world && (kind.stackable ==> count <= MAX_STACK)
      modifies this`world, world
      ensures old(world) <= world && fresh(world - old(world))
      ensures CanCopy(old(Snap(world)), to, clone, kind, count)
      ensures Snap(world) == AddCopy(old(Snap(world)), to, clone, kind, count, slot >= to.maxSize)
      ensures Arrives(clone, spare)
    {
      hide Snap, IsForest, Consistent, Shaped, Enter, AddCopy, CanCopy, Hang, Chain, Ups;
      ghost var u := Snap(world);
      ValidMeans();
      SnapKeys(world);
      moveItem, clone := null, spare;
      if count > 0 {
        var copy := MakeStack(kind, count);
        moveItem, clone := copy, copy;
        CopyReady(u, to, copy, kind, count, slot >= to.maxSize);
        to.AddThing(world, slot, copy);
      } else {
        CopyNothing(u, to, spare, kind, slot >= to.maxSize);
      }
    }

    method MakeStack(kind: Kind, count: nat) returns (copy: Item)
      modifies this`world
      ensures fresh(copy) && world == old(world) + {copy} && copy !in old(Snap(world)) && copy.parent == null
      ensures copy.role == Plain && !copy.pagination && !copy.isContainer
      ensures Snap(world) == Enter(old(Snap(world)), copy, kind, count)
    {
      copy := new Item(kind, count);
      world := world + {copy};
    }

    /** Topping up and adding, once the pieces left the source. */
    method Land(to: Item, slot: int, item: Item, m: nat, toItem: Item?) returns (moveItem: Item?, ghost clone: Item)
      requires slot >= INDEX_WHEREEVER && item in world
      requires toItem != null ==>
        toItem in world && toItem in to.itemlist && (toItem.kind.stackable ==> toItem.count <= MAX_STACK)
      requires Ready(Snap(world), to, item, m, Opt(toItem))
      modifies this`world, world
      ensures old(world) <= world && fresh(world - old(world))
      ensures CanLand(old(Snap(world)), to, item, m, Opt(toItem), clone)
      ensures Snap(world) == Landed(old(Snap(world)), to, item, m, Opt(toItem), clone, slot >= to.maxSize)
      ensures Arrives(clone, item)
    {
      if item.kind.stackable {
        moveItem, clone := LandStack(to, slot, item, m, toItem);
      } else {
        moveItem, clone := item, item;
        to.AddThing(world, slot, item);
      }
    }

    method LandStack(to: Item, slot: int, item: Item, m: nat, toItem: Item?)
        returns (moveItem: Item?, ghost clone: Item)
      requires slot >= INDEX_WHEREEVER && item in world
      requires toItem != null ==>
        toItem in world && toItem in to.itemlist && (toItem.kind.stackable ==> toItem.count <= MAX_STACK)
      requires Ready(Snap(world), to, item, m, Opt(toItem)) && item.kind.stackable
      modifies this`world, world
      ensures old(world) <= world && fresh(world - old(world))
      ensures CanLand(old(Snap(world)), to, item, m, Opt(toItem), clone)
      ensures Snap(world) == Landed(old(Snap(world)), to, item, m, Opt(toItem), clone, slot >= to.maxSize)
      ensures Arrives(clone, item)
    {
      ghost var v := Snap(world);
      var kind := item.kind;
      TopUpConsistent(v, to, item, m, Opt(toItem));
      var n := TopUpStack(to, item, m, toItem);
      var rest: nat := m - n;
      assert rest == Rest(v, item, m, Opt(toItem));
      moveItem, clone := PutRest(to, slot, kind, rest, item);
    }
  }

  /** How many pieces the move tries to take: no more than asked, no more than the destination reports. */
  ghost function MoveAmount(w: World<Item>, dest: Item, slot: int, item: Item, count: nat, flags: Flags): int
    requires Shaped(w) && dest in w && item in w && slot >= INDEX_WHEREEVER
  {
    var most := MaxCount(w, dest, slot, item, count, flags);
    if w[item].kind.stackable then Minimum(count, most) else most
  }

  /** The place at which the queries settle: a redirected query is asked again, for any slot. */
  ghost function Resolved(w: World<Item>, to: Item, index: int, item: Item, flags: Flags): (p: Place)
    requires Shaped(w) && to in w && item in w
    ensures p.dest in w
  {
    var p := Destination(w, to, index, item, flags);
    if p.dest == to then p else Destination(w, p.dest, INDEX_WHEREEVER, item, flags)
  }

  /** What a move is going to do, as the state and its arguments determine it. */
  ghost function PlanFor(w: World<Item>, to: Item, index: int, item: Item, count: nat, flags: Flags): (plan: Plan)
    requires Shaped(w) && to in w && item in w && index >= INDEX_WHEREEVER
    ensures plan.dest in w
  {
    var p := Resolved(w, to, index, item, flags);
    var asked := if Destination(w, to, index, item, flags).dest == to then index else INDEX_WHEREEVER;
    DestinationPlaced(w, to, index, item, flags);
    DestinationPlaced(w, p.dest, INDEX_WHEREEVER, item, flags);
    Plan(p.dest, asked, p.slot, p.toItem, MoveAmount(w, p.dest, p.slot, item, count, flags))
  }

  /** The destination reports room, or has not been asked for any. */
  ghost predicate RoomForSome(w: World<Item>, dest: Item, slot: int, item: Item, count: nat, flags: Flags)
    requires Shaped(w) && dest in w && item in w && slot >= INDEX_WHEREEVER
  {
    MaxCount(w, dest, slot, item, count, flags) > 0 || (w[item].kind.stackable && count == 0)
  }

  /** What queryRemove demands of m pieces. */
  ghost predicate MayLeave(w: World<Item>, from: Item, item: Item, m: nat, flags: Flags)
    requires from in w && item in w
  {
    item in w[from].kids && Removable(w, item, m) && (w[item].kind.moveable || flags.ignoreNotMoveable)
  }

  /** The destination is not the traded item and does not lie in it. */
  ghost predicate ApartFrom(w: World<Item>, tradeItem: Item?, dest: Item)
    requires Shaped(w) && dest in w
  {
    tradeItem != null ==> tradeItem !in Reach(w, dest)
  }

  /** Every check of internalMoveItem passes. */
  ghost predicate MayMove(w: World<Item>, from: Item, item: Item, count: nat, flags: Flags, tradeItem: Item?,
                          plan: Plan)
    requires Shaped(w) && from in w && item in w && plan.dest in w
  {
    && plan.toItem != item && plan.slot >= INDEX_WHEREEVER
    && Takes(w, plan.dest, plan.slot, item, count, flags)
    && RoomForSome(w, plan.dest, plan.slot, item, count, flags)
    && MayLeave(w, from, item, plan.m, flags)
    && ApartFrom(w, tradeItem, plan.dest)
  }

  lemma PlanForIs(w: World<Item>, to: Item, index: int, item: Item, count: nat, flags: Flags)
    requires Shaped(w) && to in w && item in w && index >= INDEX_WHEREEVER
    ensures var p, plan := Resolved(w, to, index, item, flags), PlanFor(w, to, index, item, count, flags);
      && plan.dest == p.dest && plan.slot == p.slot >= INDEX_WHEREEVER && plan.toItem == p.toItem
      && plan.m == MoveAmount(w, p.dest, p.slot, item, count, flags)
      && plan.asked == if Destination(w, to, index, item, flags).dest == to then index else INDEX_WHEREEVER
  {
  }

  lemma ResolvedPlaced(w: World<Item>, to: Item, index: int, item: Item, flags: Flags)
    requires Shaped(w) && to in w && item in w && index >= INDEX_WHEREEVER
    ensures var p := Resolved(w, to, index, item, flags);
      var asked := if Destination(w, to, index, item, flags).dest == to then index else INDEX_WHEREEVER;
      p.slot >= INDEX_WHEREEVER
      && (p.dest.unlocked || flags.noLimit ==> Placed(w, p.dest, item, flags, asked, p.slot, p.toItem))
  {
    DestinationPlaced(w, to, index, item, flags);
    DestinationPlaced(w, Destination(w, to, index, item, flags).dest, INDEX_WHEREEVER, item, flags);
  }

  /** What the checks established about a move before it is carried out. */
  ghost predicate Settled(w: World<Item>, from: Item, item: Item, count: nat, flags: Flags, tradeItem: Item?,
                          plan: Plan) {
    && Movable(w, from, plan.dest, item, plan.m, Opt(plan.toItem))
    && plan.slot >= INDEX_WHEREEVER
    && Takes(w, plan.dest, plan.slot, item, count, flags)
    && Placed(w, plan.dest, item, flags, plan.asked, plan.slot, plan.toItem)
    && plan.m == MoveAmount(w, plan.dest, plan.slot, item, count, flags)
    && (tradeItem != null ==> tradeItem !in Reach(w, plan.dest))
  }

  /** w' is w after the planned move. */
  ghost predicate Carried(w: World<Item>, w': World<Item>, from: Item, item: Item, plan: Plan, clone: Item) {
    && CanMove(w, from, plan.dest, item, plan.m, Opt(plan.toItem), clone)
    && w' == Moved(w, from, plan.dest, item, plan.m, Opt(plan.toItem), clone, Drops(plan))
  }

  lemma SettledFacts(w: World<Item>, from: Item, item: Item, count: nat, flags: Flags, tradeItem: Item?, plan: Plan)
    requires Settled(w, from, item, count, flags, tradeItem, plan)
    ensures Movable(w, from, plan.dest, item, plan.m, Opt(plan.toItem)) && plan.slot >= INDEX_WHEREEVER
  {
  }

  /** What is left of a stack lies where it lay; of a whole one only the loose object is left. */
  lemma {:induction false} TakenPlaced(w: World<Item>, from: Item, item: Item, m: nat)
    requires CanTake(w, from, item, m)
    ensures var v := Taken(w, from, item, m);
      && IsForest(Ups(w)) && IsForest(Ups(v)) && item in v
      && (IsPlaced(v, item) <==> !TakesAll(w, item, m) && IsPlaced(w, item))
  {
    TakenConsistent(w, from, item, m);
    TakenFrame(w, from, item, m);
    var v := Taken(w, from, item, m);
    if TakesAll(w, item, m) {
      KidBelow(w, from, IndexOf(w[from].kids, item));
      UnhangFrame<Item>(w, from, IndexOf(w[from].kids, item));
      assert Ups(v)[item] == None;
    } else {
      ReshapeFrame(w, item, w[item].kind, w[item].count - m);
      var root := Root<Item>(Ups(w), item);
      assert root == item || Same(w, v, root);
    }
    hide Taken;
  }

  lemma {:induction false} CarriedPlaced(w: World<Item>, w': World<Item>, from: Item, item: Item, plan: Plan,
                                         clone: Item)
    requires Carried(w, w', from, item, plan, clone) && w[item].kind.stackable
    ensures IsForest(Ups(w)) && IsForest(Ups(w')) && item in w'
    ensures IsPlaced(w', item) <==> !TakesAll(w, item, plan.m) && IsPlaced(w, item)
  {
    hide Taken, Landed, TakesAll, IsPlaced;
    TakenPlaced(w, from, item, plan.m);
    TakenReady(w, from, plan.dest, item, plan.m, Opt(plan.toItem));
    LandedPlaced(Taken(w, from, item, plan.m), plan.dest, item, plan.m, Opt(plan.toItem), clone, Drops(plan));
  }

  lemma {:induction false} LandedPlaced(v: World<Item>, to: Item, item: Item, m: nat, toItem: Option<Item>, clone: Item,
                                        drop: bool)
    requires CanLand(v, to, item, m, toItem, clone) && v[item].kind.stackable
    ensures var r := Landed(v, to, item, m, toItem, clone, drop);
      IsForest(Ups(v)) && IsForest(Ups(r)) && item in r && (IsPlaced(r, item) <==> IsPlaced(v, item))
  {
    TopUpConsistent(v, to, item, m, toItem);
    var u, k := TopUp(v, item, m, toItem), Rest(v, item, m, toItem);
    TopUpPlaced(v, to, item, m, toItem);
    if k > 0 {
      EnterReady(u, to, clone, v[item].kind, k);
      EnterConsistent(u, clone, v[item].kind, k);
      var e := Enter(u, clone, v[item].kind, k);
      JoinedPlaced(u, e, clone, item);
      if !drop {
        HangConsistent(e, to, 0, clone);
        HangFrame(e, to, 0, clone);
        HungPlaced(e, Hang(e, to, 0, clone), to, clone, item);
      }
    }
    hide IsPlaced, IsForest, Linked;
  }

  lemma {:induction false} TopUpPlaced(v: World<Item>, to: Item, item: Item, m: nat, toItem: Option<Item>)
    requires Ready(v, to, item, m, toItem) && v[item].kind.stackable
    ensures toItem.Some? && v[toItem.value].kind.stackable ==> v[toItem.value].count <= MAX_STACK
    ensures var u := TopUp(v, item, m, toItem);
      IsForest(Ups(u)) && item in u && (IsPlaced(u, item) <==> IsPlaced(v, item))
  {
    TopUpConsistent(v, to, item, m, toItem);
    var root := Root<Item>(Ups(v), item);
    assert TopUp(v, item, m, toItem)[root].placed == v[root].placed;
  }

  lemma {:induction false} JoinedPlaced(u: World<Item>, e: World<Item>, clone: Item, item: Item)
    requires IsForest(Ups(u)) && clone !in u && clone in e && e == u[clone := e[clone]] && e[clone].parent == None
    requires item in u
    ensures IsForest(Ups(e)) && (IsPlaced(e, item) <==> IsPlaced(u, item)) && clone !in Chain(Ups(e), item)
  {
    assert Ups(e) == Ups(u)[clone := None];
    JoinSame<Item>(Ups(u), clone, item);
  }

  lemma {:induction false} HungPlaced(e: World<Item>, r: World<Item>, to: Item, clone: Item, item: Item)
    requires IsForest(Ups(e)) && IsForest(Ups(r)) && clone in e && item in e && clone !in Chain(Ups(e), item)
    requires Ups(r) == Ups(e)[clone := Some(to)] && r.Keys == e.Keys
    requires forall y {:trigger r[y]} :: y in e && y != clone ==> r[y].placed == e[y].placed
    ensures IsPlaced(r, item) <==> IsPlaced(e, item)
  {
    var root := Root<Item>(Ups(e), item);
    ChainUnaffected<Item>(Ups(e), Ups(r), clone, item);
    RootUnique<Item>(Ups(r), item, root);
  }

  lemma CopyReady(u: World<Item>, to: Item, copy: Item, kind: Kind, count: nat, drop: bool)
    requires Consistent(u) && to in u && copy !in u && 0 < count && (kind.stackable ==> count <= MAX_STACK)
    ensures CanCopy(u, to, copy, kind, count)
    ensures var e := Enter(u, copy, kind, count);
      && IsForest(Ups(e)) && to in e && copy in e && to != copy && copy !in Chain(Ups(e), to)
      && AddCopy(u, to, copy, kind, count, drop) == if drop then e else Hang(e, to, 0, copy)
  {
    EnterReady<Item>(u, to, copy, kind, count);
    hide Hang, IsForest;
  }

  lemma CopyNothing(u: World<Item>, to: Item, clone: Item, kind: Kind, drop: bool)
    requires Consistent(u) && to in u
    ensures CanCopy(u, to, clone, kind, 0) && AddCopy(u, to, clone, kind, 0, drop) == u
  {
  }

  lemma {:induction false} NoTotals(w: World<Item>)
    requires IsForest(Ups(w))
    ensures TotalsKept(w, w)
  {
  }

  lemma {:induction false} PutTotals(w: World<Item>, dest: Item, item: Item)
    requires Consistent(w) && dest in w && item in w && w[item].parent == None && item !in Chain(Ups(w), dest)
    ensures var r := Hang(w, dest, 0, item); IsForest(Ups(r)) && (Exact(w, item) ==> TotalsKept(w, r))
  {
    HangConsistent(w, dest, 0, item);
    if Exact(w, item) {
      HangTotals<Item>(w, dest, 0, item);
    }
  }

  lemma UnstackedLies(w: World<Item>, w': World<Item>, to: Item, item: Item, index: int, flags: Flags, dest: Item,
                      released: seq<Item>)
    requires CanAsk(w, to, item, index, flags) && !w[item].kind.stackable
    requires Fate(w, w', dest, item, released, Absorbed(w, to, item, index, flags), PutIn(w, to, item, index, flags))
    ensures item in w' && w'[item].parent == Some(dest)
  {
  }

  lemma AskedAims(w: World<Item>, to: Item, item: Item, index: int, flags: Flags)
    requires CanAsk(w, to, item, index, flags)
    ensures IsForest(Ups(w)) && Aimed(w, to, index, flags, Destination(w, to, index, item, flags).dest)
  {
    DestinationAims(w, to, index, item, flags);
  }

  lemma ForestOf(w: World<Item>)
    requires Consistent(w)
    ensures IsForest(Ups(w))
  {
  }

  // what a removal asks, by the container that getParent answers with
  lemma {:induction false} RemoveVerdict(w: World<Item>, item: Item, count: int, canRemove: bool, cylinder: Item?,
                                         n: nat)
    requires Consistent(w) && item in w && count >= -1 && Opt(cylinder) == ShownParent(w, item)
    requires w[item].skips == item.role.Skips() && n == if count == -1 then w[item].count else count
    ensures IsForest(Ups(w)) && n == Wanted(w, item, count)
    ensures cylinder == null ==> !MayRemove(w, item, count, canRemove)
    ensures cylinder != null ==>
      && cylinder in w
      && (MayRemove(w, item, count, canRemove) <==>
            item in w[cylinder].kids && Removable(w, item, n) && item.role == Plain && canRemove)
      && (item in w[cylinder].kids && Removable(w, item, n) ==>
            w[item].parent == Some(cylinder) && CanTake(w, cylinder, item, n))
  {
    assert Ups(w)[item] == w[item].parent && Adopted(w, item);
  }

  lemma CarriedIs(w: World<Item>, w': World<Item>, from: Item, item: Item, plan: Plan, clone: Item)
    requires CanMove(w, from, plan.dest, item, plan.m, Opt(plan.toItem), clone)
    requires w' == Moved(w, from, plan.dest, item, plan.m, Opt(plan.toItem), clone, plan.slot >= plan.dest.maxSize)
    ensures Carried(w, w', from, item, plan, clone)
  {
  }

  lemma Settle(w: World<Item>, from: Item, item: Item, count: nat, flags: Flags, tradeItem: Item?, plan: Plan)
    requires Consistent(w) && !flags.childIsOwner && item in w && from in w && plan.dest in w
    requires Noticed(w, item, plan.dest)
    requires plan.slot >= INDEX_WHEREEVER && Opt(plan.toItem) != Some(item)
    requires Takes(w, plan.dest, plan.slot, item, count, flags)
    requires plan.dest.unlocked || flags.noLimit ==>
      Placed(w, plan.dest, item, flags, plan.asked, plan.slot, plan.toItem)
    requires item in w[from].kids && plan.m != 0 && !(w[item].kind.stackable && plan.m > w[item].count)
    requires plan.m == MoveAmount(w, plan.dest, plan.slot, item, count, flags)
    requires tradeItem != null ==> tradeItem !in Reach(w, plan.dest)
    ensures Settled(w, from, item, count, flags, tradeItem, plan)
  {
    TakesFar(w, plan.dest, plan.slot, item, count, flags);
  }

  // ---------------------------------------------------------------- where a move leads, and how much it takes

  /** The place of a plan, by the index and the children of the container first asked. */
  ghost predicate Leads(w: World<Item>, to: Item, index: int, item: Item, flags: Flags, plan: Plan)
    requires IsForest(Ups(w)) && to in w && item in w && plan.dest in w
  {
    && Aimed(w, to, index, flags, plan.dest)
    && PutOn(w, plan.dest, if plan.dest == to then index else INDEX_WHEREEVER, item, flags, plan.toItem)
  }

  lemma PlanLeads(w: World<Item>, to: Item, index: int, item: Item, count: nat, flags: Flags)
    requires Shaped(w) && to in w && item in w && index >= INDEX_WHEREEVER
    ensures var plan := PlanFor(w, to, index, item, count, flags);
      && Aimed(w, to, index, flags, plan.dest)
      && (plan.dest.unlocked || flags.noLimit ==> Leads(w, to, index, item, flags, plan))
  {
    PlanForIs(w, to, index, item, count, flags);
    RedirectedHere(w, to, index, item, flags);
    DestinationAims(w, to, index, item, flags);
    DestinationAims(w, Resolved(w, to, index, item, flags).dest, INDEX_WHEREEVER, item, flags);
    hide PlanFor, Resolved, Destination, Aimed, PutOn, IsForest;
  }

  /** What the stack at the slot lacks to 100, if item merges with it. */
  ghost function Lack(w: World<Item>, toItem: Item?, item: Item): int
    requires item in w
  {
    if toItem != null && Alike(w, toItem, item) then MAX_STACK - w[toItem].count else 0
  }

  /** How much a move takes, by the children of its destination: all that is asked, up to a whole stack, if there is no
      limit or a slot is free, and else as much of it as the stack there lacks; a thing that does not stack needs a
      free slot. */
  ghost predicate Measured(w: World<Item>, item: Item, count: nat, flags: Flags, plan: Plan)
    requires item in w && plan.dest in w
  {
    var slotFree := flags.noLimit || plan.dest.pagination || |w[plan.dest].kids| < plan.dest.maxSize;
    && (w[item].kind.stackable && slotFree ==> Minimum(count, MAX_STACK) <= plan.m <= count)
    && (w[item].kind.stackable && !slotFree ==> plan.m == Minimum(count, Lack(w, plan.toItem, item)))
    && (!w[item].kind.stackable ==> (plan.m > 0 <==> slotFree))
  }

  /** There is room if and only if a slot is free, or the stack at the slot is like the item and not full. */
  lemma PlanMeasures(w: World<Item>, item: Item, count: nat, flags: Flags, plan: Plan)
    requires Consistent(w) && plan.dest in w && item in w && plan.slot >= INDEX_WHEREEVER && !flags.childIsOwner
    requires Takes(w, plan.dest, plan.slot, item, count, flags)
    requires plan.m == MoveAmount(w, plan.dest, plan.slot, item, count, flags)
    requires plan.dest.unlocked || flags.noLimit ==>
      Placed(w, plan.dest, item, flags, plan.asked, plan.slot, plan.toItem)
    ensures Measured(w, item, count, flags, plan)
    ensures count > 0 ==> (RoomForSome(w, plan.dest, plan.slot, item, count, flags) <==>
      flags.noLimit || plan.dest.pagination || |w[plan.dest].kids| < plan.dest.maxSize
      || (w[item].kind.stackable && Lack(w, plan.toItem, item) > 0))
  {
    var kids := w[plan.dest].kids;
    if plan.toItem != null {
      assert kids[plan.slot] == plan.toItem && kids[plan.slot] in kids;
    }
    hide IsForest, Linked, TopOf, Clear, Met, RoleTakes, TopTakes, ShownParent;
  }

  /** A move that leaves pieces of a stack behind ends with no free slot and a full stack. */
  lemma {:induction false} PartlyMovedFull(w: World<Item>, w': World<Item>, from: Item, item: Item, count: nat,
                                           flags: Flags, tradeItem: Item?, plan: Plan, clone: Item)
    requires Settled(w, from, item, count, flags, tradeItem, plan) && Carried(w, w', from, item, plan, clone)
    requires w[item].kind.stackable && plan.m < count <= w[item].count && !flags.childIsOwner
    ensures !flags.noLimit && !plan.dest.pagination
    ensures plan.dest in w' && |w'[plan.dest].kids| >= plan.dest.maxSize
    ensures plan.toItem != null && plan.toItem in w' && w'[plan.toItem].count == MAX_STACK
  {
    PlanMeasures(w, item, count, flags, plan);
    MovedSizes(w, from, plan.dest, item, plan.m, Opt(plan.toItem), clone, Drops(plan), plan.dest);
    hide Settled, Measured, Takes, Placed;
    assert plan.toItem != null && plan.m == Lack(w, plan.toItem, item) > 0 by {
      assert Measured(w, item, count, flags, plan);
    }
    FilledUp(w, from, plan.dest, item, plan.m, plan.toItem, clone, Drops(plan));
  }

  lemma {:induction false} FilledUp(w: World<Item>, from: Item, to: Item, item: Item, m: nat, toItem: Item, clone: Item,
                                    drop: bool)
    requires CanMove(w, from, to, item, m, Some(toItem), clone) && w[item].kind.stackable && toItem in w
    requires w[toItem].kind == w[item].kind && m == MAX_STACK - w[toItem].count
    ensures var r := Moved(w, from, to, item, m, Some(toItem), clone, drop); toItem in r && r[toItem].count == MAX_STACK
  {
    TakenReady(w, from, to, item, m, Some(toItem));
    TakenFrame(w, from, item, m);
    var v := Taken(w, from, item, m);
    TopUpConsistent(v, to, item, m, Some(toItem));
    assert v[toItem].count == w[toItem].count && v[toItem].kind == w[toItem].kind;
    ReshapeFrame<Item>(v, toItem, v[toItem].kind, v[toItem].count + m);
    hide Taken, Reshape, IsForest, Linked, Stacked;
  }

  lemma SettledLaws(w: World<Item>, from: Item, to: Item, index: int, item: Item, count: nat, flags: Flags,
                    tradeItem: Item?, plan: Plan)
    requires Settled(w, from, item, count, flags, tradeItem, plan) && to in w && index >= INDEX_WHEREEVER
    requires IsForest(Ups(w)) && Shaped(w) && !flags.childIsOwner
    requires plan == PlanFor(w, to, index, item, count, flags) && Noticed(w, item, plan.dest)
    ensures item in w && plan.dest in w && Leads(w, to, index, item, flags, plan)
    ensures Measured(w, item, count, flags, plan)
  {
    PlanLeads(w, to, index, item, count, flags);
    TakesFar(w, plan.dest, plan.slot, item, count, flags);
    PlanMeasures(w, item, count, flags, plan);
    hide PlanFor, Takes, Placed, Leads, Measured, Aimed;
  }

  /** What a move brings lies in its destination. */
  lemma {:induction false} MoveBrings(w: World<Item>, w': World<Item>, from: Item, item: Item, count: nat, flags: Flags,
                                      tradeItem: Item?, plan: Plan, clone: Item)
    requires Settled(w, from, item, count, flags, tradeItem, plan) && Carried(w, w', from, item, plan, clone)
    ensures Brought(w, w', from, item, plan)
  {
    if w[item].kind.stackable {
      MoveConserves(w, w', from, item, count, flags, tradeItem, plan, clone, {plan.dest}, w[item].kind);
    } else {
      TakenReady(w, from, plan.dest, item, plan.m, Opt(plan.toItem));
      var v := Taken(w, from, item, plan.m);
      HangFrame<Item>(v, plan.dest, 0, item);
      hide Taken, Hang, IsForest;
    }
  }

  /** The pieces taken are in the destination, less those lost; a thing that does not stack lies there itself. */
  ghost predicate Brought(w: World<Item>, w': World<Item>, from: Item, item: Item, plan: Plan)
    requires item in w
  {
    if w[item].kind.stackable
    then Stock(w', {plan.dest}, w[item].kind) == Stock(w, {plan.dest}, w[item].kind) + plan.m - Lost(w, item, plan)
      - (if plan.dest == from then plan.m else 0)
    else item in w' && w'[item].parent == Some(plan.dest)
  }

  // ---------------------------------------------------------------- what a move keeps

  /** The remainder that the destination's slot test makes addThing drop. */
  ghost predicate Overflows(w: World<Item>, item: Item, plan: Plan)
    requires item in w
  {
    Drops(plan) && w[item].kind.stackable && Rest(w, item, plan.m, Opt(plan.toItem)) > 0
  }

  /**
   * Every move that passes the checks leaves a consistent world, and for every set of containers and
   * every kind the stock changes by what enters and leaves the set.  Pieces are lost exactly when
   * the stack picked for merging lies beyond the capacity and cannot take everything.
   */
  lemma MoveConserves(w: World<Item>, w': World<Item>, from: Item, item: Item, count: nat, flags: Flags,
                      tradeItem: Item?,
                      plan: Plan, clone: Item, cs: set<Item>, kind: Kind)
    requires Settled(w, from, item, count, flags, tradeItem, plan) && Carried(w, w', from, item, plan, clone)
    ensures Consistent(w')
    ensures Stock(w', cs, kind) == Stock(w, cs, kind) +
      (if kind != w[item].kind then 0 else
         (if plan.dest in cs then Pieces(w, item, plan.m) - Lost(w, item, plan) else 0)
         - (if from in cs then Pieces(w, item, plan.m) else 0))
    ensures Lost(w, item, plan) > 0 <==> Overflows(w, item, plan)
    ensures |w[plan.dest].kids| <= plan.dest.maxSize ==> Lost(w, item, plan) == 0
  {
    MovedConsistent(w, from, plan.dest, item, plan.m, Opt(plan.toItem), clone, Drops(plan));
    MovedStock(w, from, plan.dest, item, plan.m, Opt(plan.toItem), clone, Drops(plan), cs, kind);
  }

  ghost function Lost(w: World<Item>, item: Item, plan: Plan): int
    requires item in w
  {
    Shortfall(w, item, plan.m, Opt(plan.toItem), Drops(plan))
  }

  /** Stacking is on, dest may be filled beyond its capacity, and the first stack that item could be merged into lies
      there and cannot take count pieces. */
  ghost predicate StacksBeyond(w: World<Item>, dest: Item, asked: int, item: Item, count: nat, flags: Flags)
    requires IsForest(Ups(w)) && dest in w && item in w
  {
    var kids := w[dest].kids;
    var first := FirstStack(w, kids, item);
    && asked != INDEX_MOVE_UP && AutoStacks(w, dest, item, flags) && (flags.noLimit || dest.pagination)
    && dest.maxSize <= first < |kids| && w[kids[first]].count + count > MAX_STACK
  }

  /** The pieces that such a move loses. */
  ghost function Missing(w: World<Item>, dest: Item, asked: int, item: Item, count: nat, flags: Flags): int
    requires IsForest(Ups(w)) && dest in w && item in w
  {
    var kids := w[dest].kids;
    if StacksBeyond(w, dest, asked, item, count, flags)
    then w[kids[FirstStack(w, kids, item)]].count + count - MAX_STACK else 0
  }

  /** Which moves lose pieces, and how many, by what a caller can see before the call. */
  lemma MoveLosesExactly(w: World<Item>, from: Item, to: Item, index: int, item: Item, count: nat, flags: Flags,
                         tradeItem: Item?)
    requires Consistent(w) && from in w && to in w && item in w && index >= INDEX_WHEREEVER
    requires !flags.childIsOwner && Noticed(w, item, PlanFor(w, to, index, item, count, flags).dest)
    requires MayMove(w, from, item, count, flags, tradeItem, PlanFor(w, to, index, item, count, flags))
    ensures var place, plan := Destination(w, to, index, item, flags), PlanFor(w, to, index, item, count, flags);
      var asked := if place.dest == to then index else INDEX_WHEREEVER;
      plan.dest == place.dest && Lost(w, item, plan) == Missing(w, place.dest, asked, item, count, flags)
  {
    var place, plan := Destination(w, to, index, item, flags), PlanFor(w, to, index, item, count, flags);
    TakesFar(w, plan.dest, plan.slot, item, count, flags);
    PlanForIs(w, to, index, item, count, flags);
    RedirectedHere(w, to, index, item, flags);
    hide PlanFor, Takes, ApartFrom, RoomForSome, Destination, Resolved, FirstStack, AutoStacks, MoveAmount, Missing;
    hide Shaped, Stacked, Lost, Removable;
    PickedBeyond(w, plan.dest, plan.asked, item, flags);
    LostBeyond(w, from, item, count, flags, plan);
  }

  /** How much is lost once the slot is known. */
  lemma LostBeyond(w: World<Item>, from: Item, item: Item, count: nat, flags: Flags, plan: Plan)
    requires Consistent(w) && plan.dest in w && item in w && from in w && plan.slot >= INDEX_WHEREEVER
    requires plan.m == MoveAmount(w, plan.dest, plan.slot, item, count, flags) && MayLeave(w, from, item, plan.m, flags)
    requires var kids := w[plan.dest].kids;
      var first := FirstStack(w, kids, item);
      && (plan.slot >= plan.dest.maxSize <==>
            plan.asked != INDEX_MOVE_UP && AutoStacks(w, plan.dest, item, flags) && plan.dest.maxSize <= first < |kids|)
      && (plan.slot >= plan.dest.maxSize ==> plan.slot == first && plan.toItem == kids[first])
    ensures Lost(w, item, plan) == Missing(w, plan.dest, plan.asked, item, count, flags)
  {
    if Drops(plan) {
      OverfullTakes(w, plan.dest, plan.slot, item, count, flags);
    }
    hide Shaped, Takes;
  }

  /** A move to a plain container that lies in nothing proceeds exactly when item may be picked up and moved, the
      container is unlocked and neither item nor what is being traded, a slot or the stack picked has room, and the
      pieces that fit lie in from.  Each flag lifts its condition. */
  lemma RootMove(w: World<Item>, from: Item, to: Item, index: int, item: Item, count: nat, flags: Flags,
                 tradeItem: Item?, plan: Plan)
    requires Consistent(w) && from in w && to in w && item in w && index >= INDEX_WHEREEVER
    requires !flags.childIsOwner && count > 0 && plan == PlanFor(w, to, index, item, count, flags)
    requires w[plan.dest].parent == None && plan.dest.role == Plain
    ensures MayMove(w, from, item, count, flags, tradeItem, plan) <==> (
      && (plan.dest.unlocked || flags.noLimit)
      && (w[item].kind.pickupable || flags.ignoreNotPickupable) && (w[item].kind.moveable || flags.ignoreNotMoveable)
      && item != plan.dest && tradeItem != plan.dest && item != plan.toItem && item in w[from].kids
      && (|| flags.noLimit || plan.dest.pagination || |w[plan.dest].kids| < plan.dest.maxSize
          || (w[item].kind.stackable && Lack(w, plan.toItem, item) > 0))
      && (w[item].kind.stackable ==> plan.m <= w[item].count))
  {
    PlanForIs(w, to, index, item, count, flags);
    ResolvedPlaced(w, to, index, item, flags);
    RootTakes(w, plan.dest, plan.slot, item, count, flags);
    assert Reach(w, plan.dest) == {plan.dest};
    hide PlanFor, Resolved, Takes, Reach;
    if Takes(w, plan.dest, plan.slot, item, count, flags) {
      PlanMeasures(w, item, count, flags, plan);
    }
    hide MoveAmount, RoomForSome, Placed;
  }

  lemma RedirectedHere(w: World<Item>, to: Item, index: int, item: Item, flags: Flags)
    requires Shaped(w) && to in w && item in w && index >= INDEX_WHEREEVER
    ensures var place, p := Destination(w, to, index, item, flags), Resolved(w, to, index, item, flags);
      p.dest == place.dest
      && p == Destination(w, p.dest, if place.dest == to then index else INDEX_WHEREEVER, item, flags)
  {
  }

  /** A slot beyond the capacity is picked exactly when the first stack with room lies there. */
  lemma PickedBeyond(w: World<Item>, c: Item, asked: int, item: Item, flags: Flags)
    requires Shaped(w) && c in w && item in w && asked >= INDEX_WHEREEVER && (c.unlocked || flags.noLimit)
    requires Destination(w, c, asked, item, flags).dest == c && Destination(w, c, asked, item, flags).toItem != item
    ensures var p, kids := Destination(w, c, asked, item, flags), w[c].kids;
      var first := FirstStack(w, kids, item);
      && (p.slot >= c.maxSize <==>
          asked != INDEX_MOVE_UP && AutoStacks(w, c, item, flags) && c.maxSize <= first < |kids|)
      && (p.slot >= c.maxSize ==> p.slot == first && p.toItem == kids[first])
  {
    assert IsForest(Ups(w));
    hide Shaped, FirstStack, AutoStacks, Mergeable, Stacking;
    var slot := SlotAsked(c, asked);
    if KidAt(w, c, slot) != null {
      KidBelow(w, c, slot);
    }
    if asked != INDEX_MOVE_UP {
      assert Destination(w, c, asked, item, flags) == Stacking(w, c, slot, item, flags);
      StackingBeyond(w, c, slot, item, flags);
    }
  }

  lemma StackingBeyond(w: World<Item>, c: Item, slot: int, item: Item, flags: Flags)
    requires IsForest(Ups(w)) && c in w && item in w && slot < c.maxSize
    requires Stacking(w, c, slot, item, flags).toItem != item
    ensures var p, kids := Stacking(w, c, slot, item, flags), w[c].kids;
      var first := FirstStack(w, kids, item);
      && (p.slot >= c.maxSize <==> AutoStacks(w, c, item, flags) && c.maxSize <= first < |kids|)
      && (p.slot >= c.maxSize ==> p.slot == first && p.toItem == kids[first])
  {
    hide FirstStack, ShownParent;
  }

  /** A container that is neither paginated nor without limit reports no more than the stack at the slot can take once
      it is full. */
  lemma OverfullTakes(w: World<Item>, c: Item, slot: int, item: Item, count: nat, flags: Flags)
    requires Shaped(w) && c in w && item in w && w[item].kind.stackable && c.maxSize <= slot < |w[c].kids|
    requires w[c].kids[slot] in w && w[w[c].kids[slot]].count <= MAX_STACK
    ensures var most := MaxCount(w, c, slot, item, count, flags);
      if flags.noLimit || c.pagination then most == (if count < 1 then 1 else count)
      else most <= MAX_STACK - w[w[c].kids[slot]].count
  {
  }

  /** Without FLAG_NOLIMIT and pagination a container within its capacity stays within it. */
  lemma {:induction false} MoveFits(w: World<Item>, w': World<Item>, from: Item, item: Item, count: nat, flags: Flags,
                                    tradeItem: Item?, plan: Plan, clone: Item, x: Item)
    requires Settled(w, from, item, count, flags, tradeItem, plan) && Carried(w, w', from, item, plan, clone) && x in w
    requires !flags.childIsOwner
    ensures x in w'
    ensures x != plan.dest ==> |w'[x].kids| <= |w[x].kids|
    ensures !flags.noLimit && !x.pagination && |w[x].kids| <= x.maxSize ==> |w'[x].kids| <= x.maxSize
  {
    MovedSizes(w, from, plan.dest, item, plan.m, Opt(plan.toItem), clone, Drops(plan), x);
    hide Settled, Moved, CanMove;
    if x == plan.dest && !flags.noLimit && !x.pagination && AddsObject(w, item, plan.m, Opt(plan.toItem), Drops(plan)) {
      assert |w[x].kids| < x.maxSize by { ObjectNeedsSlot(w, from, item, count, flags, tradeItem, plan); }
    }
  }

  /** Whenever a new object appears at a limited destination, queryMaxCount had counted a free slot. */
  lemma ObjectNeedsSlot(w: World<Item>, from: Item, item: Item, count: nat, flags: Flags, tradeItem: Item?, plan: Plan)
    requires Settled(w, from, item, count, flags, tradeItem, plan) && !flags.noLimit && !plan.dest.pagination
    requires !flags.childIsOwner
    requires AddsObject(w, item, plan.m, Opt(plan.toItem), Drops(plan))
    requires |w[plan.dest].kids| <= plan.dest.maxSize
    ensures |w[plan.dest].kids| < plan.dest.maxSize
  {
    var dest, kids := plan.dest, w[plan.dest].kids;
    if plan.toItem != null {
      assert kids[plan.slot] == plan.toItem && kids[plan.slot] in w[dest].kids;
    }
  }

  /** How many pieces a removal is about: -1 stands for all. */
  ghost function Wanted(w: World<Item>, item: Item, count: int): nat
    requires item in w && count >= -1
  {
    if count == -1 then w[item].count else count
  }

  /** When internalRemoveItem succeeds. */
  ghost predicate MayRemove(w: World<Item>, item: Item, count: int, canRemove: bool)
    requires item in w && count >= -1
  {
    w[item].parent.Some? && Removable(w, item, Wanted(w, item, count)) && item.role == Plain && canRemove
  }

  lemma RemoveMeans(w: World<Item>, item: Item, count: int, canRemove: bool)
    requires item in w && count >= -1
    ensures MayRemove(w, item, count, canRemove) <==>
      (var n := if count == -1 then w[item].count else count;
       && w[item].parent.Some? && item.role == Plain && canRemove && n != 0
       && (w[item].kind.stackable ==> n <= w[item].count))
  {
  }

  /** What n pieces taken leave of item: a smaller stack in its place, or item out of its container. */
  ghost predicate Left(w: World<Item>, w': World<Item>, item: Item, n: int)
    requires item in w && item in w'
  {
    if w[item].kind.stackable && n < w[item].count
    then w'[item].parent == w[item].parent && w'[item].count == w[item].count - n
    else w'[item].parent == None
  }

  lemma TakenLeft(w: World<Item>, from: Item, item: Item, n: nat)
    requires CanTake(w, from, item, n)
    ensures item in Taken(w, from, item, n) && Left(w, Taken(w, from, item, n), item, n)
  {
    if TakesAll(w, item, n) {
      KidBelow(w, from, IndexOf(w[from].kids, item));
    }
    hide Consistent;
  }

  /** queryRemove with FLAG_IGNORENOTMOVEABLE. */
  ghost predicate Removable(w: World<Item>, item: Item, n: int)
    requires item in w
  {
    n != 0 && !(w[item].kind.stackable && n > w[item].count)
  }
}
