// Adding a loose item to a container: what the checks mean, and what each step of the addition keeps.
//
// Game::internalAddItem tops up one stack after another.  Added says what every such step, and any number of them in a
// row, makes of a world; the lemmas below establish it for the single steps.
module ItemAdd {
  import opened Options
  import opened Forest
  import opened ItemTree
  import opened ItemStock
  import opened ItemWalk
  import opened Descendants
  import opened ItemWeights
  import opened Containers

  /** If item encloses dest, a query of dest notices it: item is dest itself, or the walk of queryAdd meets it.  An
      inbox does not walk. */
  ghost predicate Noticed(w: World<Item>, item: Item, dest: Item)
    requires IsForest(Ups(w)) && dest in w
  {
    item in Chain(Ups(w), dest) ==> item == dest || (dest.role != Inbox && !Shielded(w, item, dest))
  }

  /** Only containers hold items. */
  ghost predicate Hollow(w: World<Item>) {
    forall x {:trigger w[x]} :: x in w && !x.isContainer ==> w[x].kids == []
  }

  /** An accepted item does not enclose the destination, if a query would notice. */
  lemma TakesFar(w: World<Item>, dest: Item, slot: int, item: Item, count: nat, flags: Flags)
    requires Shaped(w) && dest in w && item in w && Noticed(w, item, dest) && !flags.childIsOwner
    requires Takes(w, dest, slot, item, count, flags)
    ensures item !in Chain(Ups(w), dest)
    ensures dest.unlocked || flags.noLimit
  {
    MetIs(w, dest);
    ReachIff(w, dest, item);
  }

  /** The walk of queryAdd overlooks an enclosing item exactly when a chest or inbox hangs directly in it on the way. */
  lemma OverlooksIff(w: World<Item>, dest: Item, item: Item)
    requires Shaped(w) && dest in w && item in Chain(Ups(w), dest) && item != dest
    ensures item !in Met(w, dest) <==> Shielded(w, item, dest)
  {
    MetIs(w, dest);
    ReachIff(w, dest, item);
  }

  ghost predicate CanAsk(w: World<Item>, to: Item, item: Item, index: int, flags: Flags) {
    && Consistent(w) && to in w && item in w && w[item].parent == None && !w[item].placed
    && Hollow(w) && to.isContainer && index >= INDEX_WHEREEVER && !flags.childIsOwner
    && Noticed(w, item, Destination(w, to, index, item, flags).dest)
  }

  /** Whatever answers a query is a container. */
  lemma DestinationHolds(w: World<Item>, c: Item, asked: int, item: Item, flags: Flags)
    requires Shaped(w) && Hollow(w) && c in w && item in w && c.isContainer
    ensures Destination(w, c, asked, item, flags).dest.isContainer
  {
    if ShownParent(w, c).Some? {
      ShownHolds(w, c);
    }
    hide IsForest, ShownParent;
  }

  /** What getParent answers with holds something. */
  lemma {:induction false} ShownHolds(w: World<Item>, x: Item)
    requires Shaped(w) && x in w && ShownParent(w, x).Some?
    ensures w[ShownParent(w, x).value].kids != []
    decreases Depth<Item>(Ups(w), x)
  {
    assert Ups(w)[x] == w[x].parent && Adopted(w, x);
    DepthStep<Item>(Ups(w), x);
    if w[x].skips {
      ShownHolds(w, w[x].parent.value);
    }
  }

  /** The queries of internalAddItem accepted: into dest at slot, with room for everything at `to`. */
  ghost predicate Accepted(w: World<Item>, to: Item, dest: Item, item: Item, index: int, slot: int, toItem: Item?,
                           maxQueryCount: nat, flags: Flags)
    requires CanAsk(w, to, item, index, flags)
  {
    && dest in w && slot >= INDEX_WHEREEVER && Noticed(w, item, dest)
    && Takes(w, dest, slot, item, w[item].count, flags)
    && (dest == to ==> Placed(w, dest, item, flags, index, slot, toItem))
    && (dest != to ==> slot == INDEX_WHEREEVER && toItem == null)
    && maxQueryCount == MaxCount(w, to, INDEX_WHEREEVER, item, w[item].count, flags)
    && Sufficient(w, to, item, maxQueryCount, flags)
  }

  ghost predicate Sufficient(w: World<Item>, to: Item, item: Item, most: nat, flags: Flags)
    requires item in w
  {
    flags.noLimit || to.pagination || (if w[item].kind.stackable then most >= w[item].count else most > 0)
  }

  /** Both queries of internalAddItem accept: the place the item would go to takes it, and the container first asked has
      room for all of it. */
  ghost predicate MayAdd(w: World<Item>, to: Item, item: Item, index: int, flags: Flags)
    requires CanAsk(w, to, item, index, flags)
  {
    var p := Destination(w, to, index, item, flags);
    && Takes(w, p.dest, p.slot, item, w[item].count, flags)
    && Sufficient(w, to, item, MaxCount(w, to, INDEX_WHEREEVER, item, w[item].count, flags), flags)
  }

  /** `to` would take every piece of item if asked without a slot. */
  ghost predicate EnoughRoom(w: World<Item>, to: Item, item: Item, flags: Flags)
    requires Shaped(w) && to in w && item in w
  {
    !flags.ignoreAutoStack && RoomForAll(w, to, item, flags)
  }

  ghost predicate RoomForAll(w: World<Item>, to: Item, item: Item, flags: Flags)
    requires Shaped(w) && to in w && item in w
  {
    && w[item].kind.stackable && Takes(w, to, 0, item, w[item].count, flags)
    && Sufficient(w, to, item, MaxCount(w, to, INDEX_WHEREEVER, item, w[item].count, flags), flags)
  }

  /** Another child fits into c, or is not asked to. */
  ghost predicate SlotFree(w: World<Item>, c: Item, flags: Flags)
    requires c in w
  {
    flags.noLimit || c.pagination || |w[c].kids| < c.maxSize
  }

  /** The pieces that an accepted addition cannot place: those beyond the stack at the slot, when stacking is off and
      there is no slot for them. */
  ghost function Leftover(w: World<Item>, to: Item, item: Item, index: int, flags: Flags): int
    requires CanAsk(w, to, item, index, flags)
  {
    var p := Destination(w, to, index, item, flags);
    if && w[item].kind.stackable && p.toItem != null && p.toItem in w && w[p.toItem].kind == w[item].kind
       && w[p.toItem].count < MAX_STACK && Excess(w, item, p.toItem) > 0
       && flags.ignoreAutoStack && !SlotFree(w, to, flags)
    then Excess(w, item, p.toItem) else 0
  }

  lemma LeftoverAt(w: World<Item>, to: Item, item: Item, index: int, slot: int, toItem: Item, flags: Flags)
    requires CanAsk(w, to, item, index, flags) && Place(to, slot, toItem) == Destination(w, to, index, item, flags)
    requires w[item].kind.stackable && toItem in w && w[toItem].kind == w[item].kind
    ensures Leftover(w, to, item, index, flags) ==
      if w[toItem].count < MAX_STACK && Excess(w, item, toItem) > 0 && flags.ignoreAutoStack && !SlotFree(w, to, flags)
      then Excess(w, item, toItem) else 0
  {
  }

  /** Asked for any slot, a container with room for everything refuses only if stacking is off and no slot is free. */
  lemma RestMayAdd(w: World<Item>, to: Item, item: Item, flags: Flags)
    requires CanAsk(w, to, item, INDEX_WHEREEVER, flags) && RoomForAll(w, to, item, flags)
    ensures MayAdd(w, to, item, INDEX_WHEREEVER, flags) <==> !flags.ignoreAutoStack || SlotFree(w, to, flags)
  {
    TakesFar(w, to, 0, item, w[item].count, flags);
    DestinationPlaced(w, to, INDEX_WHEREEVER, item, flags);
    var p := Destination(w, to, INDEX_WHEREEVER, item, flags);
    if !flags.ignoreAutoStack {
      RoomAccepts(w, to, item, p.slot, p.toItem, flags);
    } else {
      assert p == Place(to, INDEX_WHEREEVER, null);
    }
  }

  lemma {:induction false} NoRoom(w: World<Item>, s: seq<Item>, item: Item)
    requires item in w && forall k :: k in s ==> !Mergeable(w, k, item)
    ensures RoomFor(w, s, item) == 0
  {
    if s != [] { NoRoom(w, s[1..], item); }
  }

  /** A stack that item merges with takes what it lacks to 100, and leaves the room in the others. */
  lemma {:induction false} RoomAt(w: World<Item>, s: seq<Item>, i: nat, item: Item)
    requires item in w && i < |s| && Mergeable(w, s[i], item)
    ensures RoomFor(w, s, item) == RoomFor(w, s[..i], item) + (MAX_STACK - w[s[i]].count) + RoomFor(w, s[i + 1..], item)
  {
    if i > 0 {
      assert s[..i][1..] == s[1..][..i - 1] && s[1..][i..] == s[i + 1..];
      RoomAt(w, s[1..], i - 1, item);
    }
  }

  /** A container has room for an item to be added if and only if it knows no limit, a slot is free, or the stacks that
      item merges with lack as many pieces. */
  lemma AddMeasures(w: World<Item>, to: Item, item: Item, flags: Flags)
    requires Consistent(w) && to in w && item in w && !flags.childIsOwner
    ensures Sufficient(w, to, item, MaxCount(w, to, INDEX_WHEREEVER, item, w[item].count, flags), flags) <==>
      flags.noLimit || to.pagination || |w[to].kids| < to.maxSize
      || (w[item].kind.stackable && Takes(w, to, 0, item, w[item].count, flags)
          && RoomFor(w, w[to].kids, item) >= w[item].count)
  {
    hide IsForest, Linked, Takes, RoomFor;
  }

  /** An addition to a plain container that lies in nothing and hands the item to no other is accepted exactly when item
      may be picked up, the container is unlocked and not item, and it has a free slot or a stack was picked and the
      stacks of the kind take all of it. */
  lemma RootAdd(w: World<Item>, to: Item, item: Item, index: int, flags: Flags)
    requires CanAsk(w, to, item, index, flags)
    requires Destination(w, to, index, item, flags).dest == to && w[to].parent == None && to.role == Plain
    ensures MayAdd(w, to, item, index, flags) <==> (
      && (to.unlocked || flags.noLimit) && (w[item].kind.pickupable || flags.ignoreNotPickupable) && item != to
      && (|| flags.noLimit || to.pagination || |w[to].kids| < to.maxSize
          || (Destination(w, to, index, item, flags).slot != INDEX_WHEREEVER && w[item].kind.stackable
              && RoomFor(w, w[to].kids, item) >= w[item].count)))
  {
    var p := Destination(w, to, index, item, flags);
    RootTakes(w, to, p.slot, item, w[item].count, flags);
    RootTakes(w, to, 0, item, w[item].count, flags);
    AddMeasures(w, to, item, flags);
    hide Destination, Takes, Sufficient, RoomFor, MaxCount;
  }

  /** With enough room the query at the slot that queryDestination picks accepts as well. */
  lemma RoomAccepts(w: World<Item>, to: Item, item: Item, slot: int, toItem: Item?, flags: Flags)
    requires CanAsk(w, to, item, INDEX_WHEREEVER, flags) && EnoughRoom(w, to, item, flags)
    requires slot >= INDEX_WHEREEVER
    requires (to.unlocked || flags.noLimit ==> Placed(w, to, item, flags, INDEX_WHEREEVER, slot, toItem))
    ensures Takes(w, to, slot, item, w[item].count, flags)
  {
    TakesFar(w, to, 0, item, w[item].count, flags);
    if slot == INDEX_WHEREEVER {
      NoRoom(w, w[to].kids, item);
    }
  }

  /** w' holds everything w held, is consistent again, only dest has a different child list, and new items hold
      nothing. */
  ghost predicate Grown(w: World<Item>, w': World<Item>, dest: Item) {
    && Consistent(w') && Hollow(w') && w.Keys <= w'.Keys
    && (forall x {:trigger w'[x]} :: x in w && x != dest ==> w'[x].kids == w[x].kids)
    && (forall x {:trigger w'[x]} :: x in w' && x !in w ==> w'[x].kids == [] && !x.pagination && x.role == Plain)
  }

  /** Of kind `kind`, container c holds what it held, plus k pieces if c is dest and the kind is the one added. */
  ghost predicate Flow(w: World<Item>, w': World<Item>, dest: Item, of: Kind, k: int, c: Item, kind: Kind) {
    Stock(w', {c}, kind) == Stock(w, {c}, kind) + (if c == dest && kind == of then k else 0)
  }

  /** dest gained exactly k pieces of one kind; every other container and kind is as before. */
  ghost predicate Flows(w: World<Item>, w': World<Item>, dest: Item, of: Kind, k: int) {
    forall c, kind {:trigger Flow(w, w', dest, of, k, c, kind)} :: c in w ==> Flow(w, w', dest, of, k, c, kind)
  }

  ghost function Less(count: nat, remainder: nat): int { count - remainder }

  ghost function Arrived(w: World<Item>, item: Item, remainder: nat): int
    requires item in w
  {
    Less(w[item].count, remainder)
  }

  lemma ArrivedIs(w: World<Item>, item: Item, remainder: nat)
    requires item in w
    ensures Arrived(w, item, remainder) == w[item].count - remainder
  {
  }

  /** What is left of item once toItem is full. */
  ghost function Excess(w: World<Item>, item: Item, toItem: Item): int
    requires item in w && toItem in w
  {
    w[item].count + w[toItem].count - MAX_STACK
  }

  ghost predicate HasSlot(w: World<Item>, dest: Item, flags: Flags)
    requires dest in w
  {
    !flags.noLimit && !dest.pagination && |w[dest].kids| <= dest.maxSize ==> |w[dest].kids| < dest.maxSize
  }

  /** Limited containers that were within their capacity still are. */
  ghost predicate KeepsFit(w: World<Item>, w': World<Item>, flags: Flags) {
    !flags.noLimit && !flags.ignoreAutoStack ==>
      forall x {:trigger w'[x]} :: x in w && x in w' && !x.pagination && |w[x].kids| <= x.maxSize ==>
        |w'[x].kids| <= x.maxSize
  }

  /** Nothing is put into c unnoticed: c is met by every walk from within, and is the last before a tile. */
  ghost predicate Watched(w: World<Item>, c: Item)
    requires IsForest(Ups(w)) && c in w
  {
    OnTile(w, c) && !Hosts(w, c)
  }

  /** The chest c, if it is one, holds no more than its limit, counted through everything in it. */
  ghost predicate WithinLimit(w: World<Item>, c: Item)
    requires IsForest(Ups(w))
  {
    c.role.DepotChest? ==> |Below(Ups(w), c)| <= c.role.maxDepotItems
  }

  /** Watched depot chests that were within their limit still are. */
  ghost predicate KeepsLimits(w: World<Item>, w': World<Item>)
    requires IsForest(Ups(w)) && IsForest(Ups(w'))
  {
    forall c {:trigger WithinLimit(w', c)} :: c in w && c in w' && Watched(w, c) && WithinLimit(w, c) ==>
      WithinLimit(w', c)
  }

  /** Every chest that was watched still is. */
  ghost predicate KeepsWatch(w: World<Item>, w': World<Item>)
    requires IsForest(Ups(w)) && IsForest(Ups(w'))
  {
    forall c {:trigger Watched(w', c)} :: c in w && Watched(w, c) ==> c in w' && Watched(w', c)
  }

  /** Placement and class are as before for everything that was there. */
  ghost predicate SamePlaces(w: World<Item>, w': World<Item>) {
    && w.Keys <= w'.Keys
    && forall x {:trigger w'[x]} :: x in w ==> w'[x].placed == w[x].placed && w'[x].skips == w[x].skips
  }

  lemma {:induction false} OnTileSame(w: World<Item>, w': World<Item>, x: Item)
    requires IsForest(Ups(w)) && IsForest(Ups(w')) && SamePlaces(w, w') && x in w
    requires forall y :: y in w ==> Ups(w')[y] == Ups(w)[y]
    ensures OnTile(w', x) <==> OnTile(w, x)
    decreases Depth<Item>(Ups(w), x)
  {
    assert Ups(w)[x] == w[x].parent && Ups(w')[x] == w'[x].parent;
    if w[x].parent.Some? {
      DepthStep<Item>(Ups(w), x);
      OnTileSame(w, w', w[x].parent.value);
    }
  }

  /** Where no link changes and only loose items join, everything is watched as before. */
  lemma {:induction false} SameWatch(w: World<Item>, w': World<Item>)
    requires IsForest(Ups(w)) && IsForest(Ups(w')) && SamePlaces(w, w')
    requires forall y :: y in w ==> Ups(w')[y] == Ups(w)[y]
    requires forall y :: y in w' && y !in w ==> w'[y].parent == None
    ensures KeepsWatch(w, w')
  {
    forall c | c in w && Watched(w, c) ensures c in w' && Watched(w', c) {
      OnTileSame(w, w', c);
      forall k | k in w' && w'[k].parent == Some(c) ensures !w'[k].skips {
        assert Ups(w')[k] == w'[k].parent;
        assert k in w && Ups(w)[k] == w[k].parent;
      }
    }
  }

  /** w' is a consistent world in which dest holds k more pieces of one kind and all else is as in w. */
  ghost predicate Added(w: World<Item>, w': World<Item>, dest: Item, of: Kind, k: int, flags: Flags)
    requires IsForest(Ups(w))
  {
    && Grown(w, w', dest) && Flows(w, w', dest, of, k) && KeepsFit(w, w', flags)
    && (!flags.noLimit ==> KeepsLimits(w, w'))
  }

  // ---------------------------------------------------------------- what becomes of the objects

  ghost predicate Merges(w: World<Item>, item: Item, toItem: Item?)
    requires item in w
  {
    w[item].kind.stackable && toItem != null && toItem in w && w[toItem].kind == w[item].kind
  }

  /** The item merges with the stack that queryDestination picks, and nothing of it is left. */
  ghost predicate Absorbed(w: World<Item>, to: Item, item: Item, index: int, flags: Flags)
    requires CanAsk(w, to, item, index, flags)
  {
    var toItem := Destination(w, to, index, item, flags).toItem;
    Merges(w, item, toItem) && Excess(w, item, toItem) <= 0
  }

  /** The item finds no such stack, or a full one. */
  ghost predicate PutIn(w: World<Item>, to: Item, item: Item, index: int, flags: Flags)
    requires CanAsk(w, to, item, index, flags)
  {
    var toItem := Destination(w, to, index, item, flags).toItem;
    !Merges(w, item, toItem) || Excess(w, item, toItem) >= w[item].count
  }

  /** The item is in dest if it was put in and loose otherwise, and released if it was absorbed; what else is released
      is new and loose, each once; nobody else was moved. */
  ghost predicate Fate(w: World<Item>, w': World<Item>, dest: Item, item: Item, released: seq<Item>, absorbed: bool,
                       putIn: bool)
  {
    && item in w' && w'[item].parent == (if putIn then Some(dest) else None) && (item in released <==> absorbed)
    && NoDup(released)
    && (forall x :: x in released ==> (x == item || x !in w) && x in w' && w'[x].parent == None)
    && w.Keys <= w'.Keys && forall x {:trigger w'[x]} :: x in w && x != item ==> w'[x].parent == w[x].parent
  }

  /** Nobody was moved, and what is released is new and loose, each once. */
  ghost predicate Aside(w: World<Item>, w': World<Item>, released: seq<Item>) {
    && NoDup(released) && (forall x :: x in released ==> x !in w && x in w' && w'[x].parent == None)
    && w.Keys <= w'.Keys && forall x {:trigger w'[x]} :: x in w ==> w'[x].parent == w[x].parent
  }

  lemma HungFate(w: World<Item>, w': World<Item>, dest: Item, item: Item)
    requires Consistent(w) && dest in w && item in w && w[item].parent == None && item !in Chain(Ups(w), dest)
    requires dest != item && w' == Hang(w, dest, 0, item)
    ensures Fate(w, w', dest, item, [], false, true)
  {
  }

  lemma SameParents(w: World<Item>, w': World<Item>)
    requires Ups(w') == Ups(w)
    ensures w'.Keys == w.Keys && forall x {:trigger w'[x]} {:trigger w[x]} :: x in w ==> w'[x].parent == w[x].parent
  {
    assert forall x :: x in w <==> x in Ups(w);
    assert forall x :: x in w' <==> x in Ups(w');
    assert forall x :: x in w ==> Ups(w')[x] == Ups(w)[x];
  }

  lemma AbsorbedFate(w: World<Item>, w': World<Item>, dest: Item, item: Item)
    requires Ups(w') == Ups(w) && item in w && w[item].parent == None
    ensures Fate(w, w', dest, item, [item], true, false)
  {
    SameParents(w, w');
  }

  lemma PartedFate(w: World<Item>, w1: World<Item>, w': World<Item>, dest: Item, item: Item, released: seq<Item>)
    requires Ups(w1) == Ups(w) && item in w && w[item].parent == None && Aside(w1, w', released)
    ensures Fate(w, w', dest, item, released, false, false)
  {
    SameParents(w, w1);
    forall x | x in w ensures x in w' && w'[x].parent == w[x].parent {
      assert x in w1 && w1[x].parent == w[x].parent;
    }
  }

  lemma CopyAside(w1: World<Item>, w2: World<Item>, w3: World<Item>, dest: Item, copy: Item, released: seq<Item>,
                  absorbed: bool, putIn: bool)
    requires copy !in w1 && copy in w2 && Ups(w2) == Ups(w1)[copy := None]
    requires Fate(w2, w3, dest, copy, released, absorbed, putIn)
    ensures Aside(w1, w3, released)
  {
    CopyUps(w1, w2, copy);
    forall x | x in w1 ensures x in w3 && w3[x].parent == w1[x].parent {
      assert x in w2 && w2[x].parent == w1[x].parent;
    }
  }

  lemma CopyUps(w1: World<Item>, w2: World<Item>, copy: Item)
    requires copy !in w1 && copy in w2 && Ups(w2) == Ups(w1)[copy := None]
    ensures w2[copy].parent == None
    ensures forall x {:trigger w2[x]} {:trigger w1[x]} :: x in w1 ==> x in w2 && w2[x].parent == w1[x].parent
  {
    assert Ups(w2)[copy] == None;
    forall x | x in w1 ensures x in w2 && w2[x].parent == w1[x].parent {
      assert x in Ups(w1) && x != copy;
      assert x in Ups(w2) && Ups(w2)[x] == Ups(w1)[x];
    }
  }

  lemma RefusedAside(w1: World<Item>, w2: World<Item>, copy: Item)
    requires copy !in w1 && copy in w2 && Ups(w2) == Ups(w1)[copy := None]
    ensures Aside(w1, w2, [copy])
  {
    CopyUps(w1, w2, copy);
    forall x | x in w1 ensures x in w2 && w2[x].parent == w1[x].parent {
      assert w1[x].parent == w1[x].parent;
    }
  }

  lemma FateAt(w: World<Item>, to: Item, item: Item, index: int, slot: int, toItem: Item, flags: Flags)
    requires CanAsk(w, to, item, index, flags) && Place(to, slot, toItem) == Destination(w, to, index, item, flags)
    requires w[item].kind.stackable && toItem in w && w[toItem].kind == w[item].kind
    ensures Absorbed(w, to, item, index, flags) <==> Excess(w, item, toItem) <= 0
    ensures PutIn(w, to, item, index, flags) <==> Excess(w, item, toItem) >= w[item].count
  {
  }

  lemma EnteredUps(w1: World<Item>, copy: Item, kind: Kind, count: nat)
    ensures Ups(Enter(w1, copy, kind, count)) == Ups(w1)[copy := None]
  {
  }

  lemma MergesMeans(w: World<Item>, item: Item, toItem: Item?)
    requires item in w
    ensures Merges(w, item, toItem) <==>
      w[item].kind.stackable && toItem != null && toItem in w && w[toItem].kind == w[item].kind
  {
  }

  /** An item that does not merge is put in whole. */
  lemma Unmerged(w: World<Item>, to: Item, item: Item, index: int, dest: Item, slot: int, toItem: Item?, flags: Flags)
    requires CanAsk(w, to, item, index, flags) && Place(dest, slot, toItem) == Destination(w, to, index, item, flags)
    requires !Merges(w, item, toItem)
    ensures !Absorbed(w, to, item, index, flags) && PutIn(w, to, item, index, flags)
    ensures Leftover(w, to, item, index, flags) == 0
  {
  }

  lemma MergesHere(w: World<Item>, to: Item, dest: Item, item: Item, index: int, slot: int, toItem: Item?,
                   maxQueryCount: nat, flags: Flags)
    requires CanAsk(w, to, item, index, flags) && Accepted(w, to, dest, item, index, slot, toItem, maxQueryCount, flags)
    requires toItem != null
    ensures dest == to && dest in w
  {
  }

  /** The object of an added stack is left behind, in no container and not released, exactly when the stack it merges
      with takes a part of it. */
  lemma LeftBehind(w: World<Item>, w': World<Item>, to: Item, item: Item, index: int, flags: Flags, dest: Item,
                   released: seq<Item>)
    requires CanAsk(w, to, item, index, flags)
    requires Fate(w, w', dest, item, released, Absorbed(w, to, item, index, flags), PutIn(w, to, item, index, flags))
    ensures var toItem := Destination(w, to, index, item, flags).toItem;
      w'[item].parent == None && item !in released <==>
        Merges(w, item, toItem) && 0 < Excess(w, item, toItem) < w[item].count
  {
  }

  lemma {:induction false} SameUpsLimits(w: World<Item>, w': World<Item>)
    requires IsForest(Ups(w)) && Ups(w') == Ups(w)
    ensures KeepsLimits(w, w')
  {
    assert forall c :: c in w ==> c in Ups(w);
  }

  lemma JoinLimits(w: World<Item>, w': World<Item>, x: Item)
    requires IsForest(Ups(w)) && x !in w && Ups(w') == Ups(w)[x := None]
    ensures IsForest(Ups(w')) && KeepsLimits(w, w')
  {
    JoinForest<Item>(Ups(w), x);
    forall c | c in w ensures Below(Ups(w'), c) == Below(Ups(w), c) {
      JoinElsewhere<Item>(Ups(w), x, c);
    }
  }

  /** What queryAdd compared with the limit of a watched chest that dest stands in. */
  lemma {:induction false} ChestCounted(w: World<Item>, dest: Item, slot: int, item: Item, count: nat, flags: Flags,
                                        c: Item, limit: nat)
    requires Shaped(w) && dest in w && item in w && Takes(w, dest, slot, item, count, flags)
    requires !flags.noLimit && !flags.childIsOwner && c in Chain(Ups(w), dest) && Watched(w, c)
    requires c.role == DepotChest(limit)
    ensures |Below(Ups(w), c)| + DepotAdds(w, c, item, count) <= limit
  {
    if c != dest {
      OnTileEnds(w, c);
      ReachIff(w, dest, c);
      UnhostedHears(w, dest, c);
      TrailEndUnique<Item>(Ups(w), Skips(w), dest, c);
      assert TopOf(w, dest) == c;
    }
  }

  lemma TopOfRoot(w: World<Item>, x: Item)
    requires IsForest(Ups(w)) && x in w && w[x].parent == None
    ensures TopOf(w, x) == if x.isContainer then x else null
  {
    assert Ups(w)[x] == None;
  }

  /** Hanging an accepted loose item keeps every watched chest within its limit. */
  lemma {:induction false} HungLimits(w: World<Item>, w': World<Item>, dest: Item, slot: int, item: Item, flags: Flags)
    requires Shaped(w) && Hollow(w) && dest in w && item in w
    requires w[item].parent == None && !w[item].placed && item !in Chain(Ups(w), dest)
    requires !flags.noLimit && !flags.childIsOwner
    requires Takes(w, dest, slot, item, w[item].count, flags) && Ups(w') == Ups(w)[item := Some(dest)]
    ensures IsForest(Ups(w')) && KeepsLimits(w, w')
  {
    var up := Ups(w);
    LinkForest<Item>(up, item, dest);
    forall c | c in w && c in w' && Watched(w, c) && WithinLimit(w, c) ensures WithinLimit(w', c) {
      LinkCount<Item>(up, item, dest, c);
      if c.role.DepotChest? && c in Chain(up, dest) {
        ChestCounted(w, dest, slot, item, w[item].count, flags, c, c.role.maxDepotItems);
        TopOfRoot(w, item);
        if !item.isContainer {
          KidlessBelow<Item>(w, item);
        }
      }
      hide IsForest, TopOf, Takes;
    }
  }

  lemma AskedFacts(w: World<Item>, to: Item, item: Item, index: int, flags: Flags)
    requires CanAsk(w, to, item, index, flags)
    ensures Consistent(w) && Shaped(w) && IsForest(Ups(w)) && Hollow(w) && to in w && item in w
    ensures w[item].parent == None && !w[item].placed && to.isContainer && !flags.childIsOwner
    ensures index >= INDEX_WHEREEVER && (w[item].kind.stackable ==> 1 <= w[item].count <= MAX_STACK)
  {
  }

  lemma CopyFacts(w: World<Item>, w1: World<Item>, toItem: Item, kind: Kind)
    requires IsForest(Ups(w)) && toItem in w && w1 == Reshape(w, toItem, kind, MAX_STACK) && Consistent(w1)
    ensures w1.Keys == w.Keys && IsForest(Ups(w1))
  {
  }

  lemma EnteredAt(w1: World<Item>, copy: Item, kind: Kind, count: nat)
    ensures var w2 := Enter(w1, copy, kind, count); copy in w2 && w2[copy].kind == kind && w2[copy].count == count
  {
  }

  lemma FilledFacts(w: World<Item>, w1: World<Item>, to: Item, of: Kind, n: int, flags: Flags)
    requires IsForest(Ups(w)) && Added(w, w1, to, of, n, flags)
    ensures Consistent(w1) && Hollow(w1) && w.Keys <= w1.Keys
  {
  }

  /** When nothing was topped up, the whole item fits into a slot below the capacity. */
  lemma WholeFacts(w: World<Item>, to: Item, dest: Item, item: Item, index: int, slot: int, toItem: Item?,
                   maxQueryCount: nat, flags: Flags)
    requires CanAsk(w, to, item, index, flags) && Accepted(w, to, dest, item, index, slot, toItem, maxQueryCount, flags)
    requires w[item].kind.stackable && toItem != null && toItem in w && w[toItem].kind == w[item].kind ==>
      w[toItem].count == MAX_STACK
    ensures item !in Chain(Ups(w), dest) && slot < dest.maxSize
    ensures Takes(w, dest, slot, item, w[item].count, flags)
    ensures !flags.ignoreAutoStack ==> HasSlot(w, dest, flags)
  {
    TakesFar(w, dest, slot, item, w[item].count, flags);
    if toItem != null { assert toItem in w[dest].kids; }
    if slot >= 0 && !flags.ignoreAutoStack && w[item].kind.stackable {
      NoRoom(w, w[dest].kids, item);
    }
  }

  /** In the merging branch toItem is a child of `to`, and queryMaxCount covers the whole item. */
  lemma MergeFacts(w: World<Item>, to: Item, item: Item, index: int, slot: int, toItem: Item, maxQueryCount: nat,
                   flags: Flags)
    requires CanAsk(w, to, item, index, flags) && Accepted(w, to, to, item, index, slot, toItem, maxQueryCount, flags)
    requires w[item].kind.stackable
    ensures toItem in w[to].kids && toItem in w && toItem != item && w[toItem].parent == Some(to)
    ensures w[toItem].kind == w[item].kind ==> 1 <= w[toItem].count <= MAX_STACK
    ensures maxQueryCount >= w[item].count >= 1
    ensures index == INDEX_WHEREEVER ==> !flags.ignoreAutoStack
  {
    assert toItem in w[to].kids;
  }

  /** Topping up toItem. */
  lemma Filled(w: World<Item>, to: Item, item: Item, toItem: Item, size: nat, n: int, w1: World<Item>, flags: Flags)
    requires Consistent(w) && Hollow(w) && to in w && item in w && toItem in w[to].kids && toItem != item
    requires toItem in w && w[toItem].kind == w[item].kind && w[item].kind.stackable && 1 <= size <= MAX_STACK
    requires w1 == Reshape(w, toItem, w[toItem].kind, size) && n == size - w[toItem].count
    ensures Added(w, w1, to, w[item].kind, n, flags) && w1.Keys == w.Keys && Ups(w1) == Ups(w)
    ensures IsForest(Ups(w)) && IsForest(Ups(w1)) && KeepsWatch(w, w1) && TotalsKept(w, w1) && NoNewHosts(w, w1)
    ensures w1[to].kids == w[to].kids
    ensures w1[item].kind == w[item].kind && w1[item].count == w[item].count && w1[item].parent == w[item].parent
  {
    ReshapeConsistent(w, toItem, w[toItem].kind, size);
    ReshapeTotals(w, toItem, w[toItem].kind, size);
    ReshapeFrame(w, toItem, w[toItem].kind, size);
    FilledWatch(w, w1, toItem);
    FilledFlows(w, to, item, toItem, size, n, w1);
    SameShape(w, w1, to, flags);
    SameUpsLimits(w, w1);
    hide Flows, Consistent, Grown, KeepsFit, KeepsLimits;
  }

  lemma {:induction false} FilledWatch(w: World<Item>, w1: World<Item>, x: Item)
    requires IsForest(Ups(w)) && Ups(w1) == Ups(w) && x in w && w1.Keys == w.Keys
    requires w1[x].placed == w[x].placed && w1[x].skips == w[x].skips
    requires forall y {:trigger w1[y]} :: y in w && y != x ==> Same(w, w1, y)
    ensures KeepsWatch(w, w1)
  {
    assert SamePlaces(w, w1);
    SameWatch(w, w1);
  }

  lemma SameShape(w: World<Item>, w1: World<Item>, to: Item, flags: Flags)
    requires Consistent(w1) && Hollow(w) && w1.Keys == w.Keys
    requires forall x :: x in w ==> w1[x].kids == w[x].kids && w1[x].parent == w[x].parent
    ensures Grown(w, w1, to) && KeepsFit(w, w1, flags)
  {
    hide Consistent;
  }

  lemma FilledFlows(w: World<Item>, to: Item, item: Item, toItem: Item, size: nat, n: int, w1: World<Item>)
    requires Consistent(w) && to in w && item in w && toItem in w[to].kids
    requires toItem in w && w[toItem].kind == w[item].kind && w[item].kind.stackable
    requires w1 == Reshape(w, toItem, w[toItem].kind, size) && n == size - w[toItem].count
    ensures Flows(w, w1, to, w[item].kind, n)
  {
    assert w[toItem].parent == Some(to);
    forall c, kind: Kind | c in w ensures Flow(w, w1, to, w[item].kind, n, c, kind) {
      ReshapeStock(w, toItem, w[toItem].kind, size, {c}, kind);
      hide Consistent, Stock, Reshape;
    }
  }

  /** Hanging the whole item. */
  lemma HungAdded(w: World<Item>, dest: Item, slot: int, item: Item, flags: Flags)
    requires Consistent(w) && Hollow(w) && dest in w && item in w && dest.isContainer
    requires w[item].parent == None && !w[item].placed && item !in Chain(Ups(w), dest)
    requires (HasSlot(w, dest, flags) || flags.ignoreAutoStack)
    requires !flags.childIsOwner && Takes(w, dest, slot, item, w[item].count, flags)
    ensures dest != item && Added(w, Hang(w, dest, 0, item), dest, w[item].kind, w[item].count, flags)
  {
    hide Flows, Takes, KeepsLimits, Linked, IsForest, Stacked, Hang, Grown, KeepsFit;
    HangConsistent(w, dest, 0, item);
    HungFlows(w, dest, item);
    HungShape(w, dest, item, flags);
    if !flags.noLimit {
      HungLimits(w, Hang(w, dest, 0, item), dest, slot, item, flags);
    }
  }

  lemma {:induction false} HungShape(w: World<Item>, dest: Item, item: Item, flags: Flags)
    requires Consistent(w) && Hollow(w) && dest in w && item in w && dest.isContainer
    requires w[item].parent == None && item !in Chain(Ups(w), dest)
    requires (HasSlot(w, dest, flags) || flags.ignoreAutoStack)
    ensures dest != item && Grown(w, Hang(w, dest, 0, item), dest) && KeepsFit(w, Hang(w, dest, 0, item), flags)
  {
    HangConsistent(w, dest, 0, item);
    HangFrame<Item>(w, dest, 0, item);
    hide Hang, Consistent;
    forall x | x in w && x != dest ensures Hang(w, dest, 0, item)[x].kids == w[x].kids {
      assert x != item ==> Same(w, Hang(w, dest, 0, item), x);
    }
  }

  lemma HungFlows(w: World<Item>, dest: Item, item: Item)
    requires Consistent(w) && dest in w && item in w && dest != item
    requires w[item].parent == None && item !in Chain(Ups(w), dest)
    ensures Flows(w, Hang(w, dest, 0, item), dest, w[item].kind, w[item].count)
  {
    forall c, kind: Kind | c in w ensures Flow(w, Hang(w, dest, 0, item), dest, w[item].kind, w[item].count, c, kind) {
      HangStock(w, dest, 0, item, {c}, kind);
      hide Consistent, Stock, Hang;
    }
  }

  /** Two additions to the same container in a row. */
  lemma AddedTwice(w: World<Item>, w1: World<Item>, w2: World<Item>, to: Item, of: Kind, n: int, k: int, total: int,
                   flags: Flags)
    requires IsForest(Ups(w)) && to in w && Added(w, w1, to, of, n, flags) && Added(w1, w2, to, of, k, flags)
    requires n + k == total && KeepsWatch(w, w1)
    ensures Added(w, w2, to, of, total, flags)
  {
    forall x | x in w && x != to ensures w2[x].kids == w[x].kids {
      assert w1[x].kids == w[x].kids;
    }
    forall x | x in w2 && x !in w ensures w2[x].kids == [] && !x.pagination && x.role == Plain {
      assert x in w1 ==> w1[x].kids == [];
    }
    forall c, kind: Kind | c in w ensures Flow(w, w2, to, of, total, c, kind) {
      assert Flow(w, w1, to, of, n, c, kind) && Flow(w1, w2, to, of, k, c, kind);
    }
    forall x | x in w && !flags.noLimit && !flags.ignoreAutoStack && !x.pagination && |w[x].kids| <= x.maxSize
      ensures |w2[x].kids| <= x.maxSize
    {
      assert |w1[x].kids| <= x.maxSize;
    }
  }

  /** A fresh copy may be asked about, and adds nothing by itself. */
  lemma EnteredAdded(w1: World<Item>, to: Item, copy: Item, kind: Kind, count: nat, flags: Flags)
    requires Consistent(w1) && Hollow(w1) && to in w1 && to.isContainer && !flags.childIsOwner
    requires copy !in w1 && copy.role == Plain && !copy.isContainer && !copy.pagination
    requires kind.stackable && 1 <= count <= MAX_STACK
    ensures var w2 := Enter(w1, copy, kind, count);
      && CanAsk(w2, to, copy, INDEX_WHEREEVER, flags) && Added(w1, w2, to, kind, 0, flags)
      && IsForest(Ups(w1)) && IsForest(Ups(w2)) && KeepsWatch(w1, w2)
      && TotalsKept(w1, w2) && NoNewHosts(w1, w2) && Exact(w2, copy)
  {
    var w2 := Enter(w1, copy, kind, count);
    EnterConsistent(w1, copy, kind, count);
    EnterTotals(w1, copy, kind, count);
    JoinLimits(w1, w2, copy);
    JoinWatch(w1, w2, copy);
    EnteredFlows(w1, to, copy, kind, count);
    EnteredAsk(w1, to, copy, kind, count, flags);
    hide Flows, Consistent, KeepsLimits, Destination, KeepsWatch, TotalsKept, Exact;
  }

  lemma {:induction false} JoinWatch(w1: World<Item>, w2: World<Item>, copy: Item)
    requires IsForest(Ups(w1)) && copy !in w1 && copy in w2 && w2 == w1[copy := w2[copy]] && w2[copy].parent == None
    ensures IsForest(Ups(w2)) && KeepsWatch(w1, w2)
  {
    assert Ups(w2) == Ups(w1)[copy := None];
    JoinForest<Item>(Ups(w1), copy);
    SameWatch(w1, w2);
  }

  // nothing lies in the copy
  lemma EnteredAsk(w1: World<Item>, to: Item, copy: Item, kind: Kind, count: nat, flags: Flags)
    requires Consistent(w1) && to in w1 && copy !in w1 && (kind.stackable ==> 1 <= count <= MAX_STACK)
    ensures var w2 := Enter(w1, copy, kind, count);
      Shaped(w2) && Noticed(w2, copy, Destination(w2, to, INDEX_WHEREEVER, copy, flags).dest)
  {
    EnterConsistent(w1, copy, kind, count);
    JoinSame<Item>(Ups(w1), copy, to);
  }

  lemma EnteredFlows(w1: World<Item>, to: Item, copy: Item, kind: Kind, count: nat)
    requires copy !in w1
    ensures Flows(w1, Enter(w1, copy, kind, count), to, kind, 0)
  {
    forall c, kind': Kind | c in w1 ensures Flow(w1, Enter(w1, copy, kind, count), to, kind, 0, c, kind') {
      EnterStock(w1, copy, kind, count, {c}, kind');
    }
  }

  lemma {:induction false} RoomFill(w: World<Item>, w2: World<Item>, s: seq<Item>, item: Item, copy: Item, toItem: Item)
    requires item in w && copy in w2 && w2[copy].kind == w[item].kind && item !in s && copy !in s && NoDup(s)
    requires forall k :: k in s ==> k in w && k in w2 && w2[k].kind == w[k].kind
    requires forall k :: k in s && k != toItem ==> w2[k].count == w[k].count
    requires toItem in s ==>
      w[toItem].kind == w[item].kind && w[toItem].count <= MAX_STACK && w2[toItem].count == MAX_STACK
    ensures RoomFor(w2, s, copy) == RoomFor(w, s, item) - (if toItem in s then MAX_STACK - w[toItem].count else 0)
  {
    if s != [] {
      RoomFill(w, w2, s[1..], item, copy, toItem);
    }
  }

  /** The room queryMaxCount saw is still there for the remainder after toItem was filled. */
  lemma RoomSurvives(w: World<Item>, to: Item, item: Item, index: int, slot: int, toItem: Item, maxQueryCount: nat,
                     flags: Flags,
                     copy: Item, kind: Kind, count: nat)
    requires CanAsk(w, to, item, index, flags) && Accepted(w, to, to, item, index, slot, toItem, maxQueryCount, flags)
    requires toItem in w && kind == w[item].kind == w[toItem].kind && kind.stackable
    requires 1 <= count == Excess(w, item, toItem)
    requires copy !in w && !copy.isContainer
    requires CanAsk(Enter(Reshape(w, toItem, kind, MAX_STACK), copy, kind, count), to, copy, INDEX_WHEREEVER, flags)
    ensures RoomForAll(Enter(Reshape(w, toItem, kind, MAX_STACK), copy, kind, count), to, copy, flags)
    ensures SlotFree(Enter(Reshape(w, toItem, kind, MAX_STACK), copy, kind, count), to, flags) == SlotFree(w, to, flags)
  {
    var w1 := Reshape(w, toItem, kind, MAX_STACK);
    var w2 := Enter(w1, copy, kind, count);
    MergeFacts(w, to, item, index, slot, toItem, maxQueryCount, flags);
    ReshapeConsistent(w, toItem, kind, MAX_STACK);
    EnterConsistent<Item>(w1, copy, kind, count);
    assert w2[to].kids == w[to].kids;
    hide IsForest, Linked, Stacked, Placed, Reshape, Takes;
    TakesFar(w, to, slot, item, w[item].count, flags);
    SurvivesFacts(w, w1, w2, toItem, kind, copy, count);
    TakesSurvives(w, w2, to, slot, item, copy, flags);
    if !flags.noLimit && !to.pagination {
      RoomLeft(w, to, item, copy, toItem, kind, count);
      RoomNeeds(w, to, item, flags);
      RoomNeeds(w2, to, copy, flags);
    }
  }

  lemma SurvivesFacts(w: World<Item>, w1: World<Item>, w2: World<Item>, toItem: Item, kind: Kind, copy: Item,
                      count: nat)
    requires IsForest(Ups(w)) && toItem in w && w1 == Reshape(w, toItem, kind, MAX_STACK) && copy !in w
    requires w2 == Enter(w1, copy, kind, count)
    ensures SamePlaces(w, w2) && !w2[copy].skips
  {
    hide Reshape, IsForest;
    ReshapeFrame(w, toItem, kind, MAX_STACK);
    forall x | x in w ensures w2[x].placed == w[x].placed && w2[x].skips == w[x].skips {
      assert x == toItem || Same(w, w1, x);
    }
  }

  /** Filling toItem takes exactly its own room away. */
  lemma RoomLeft(w: World<Item>, to: Item, item: Item, copy: Item, toItem: Item, kind: Kind, count: nat)
    requires Shaped(w) && to in w && item in w && w[item].parent == None && copy !in w && toItem in w[to].kids
    requires toItem in w
    requires w[toItem].kind == w[item].kind == kind && w[toItem].count <= MAX_STACK
    ensures var w2 := Enter(Reshape(w, toItem, kind, MAX_STACK), copy, kind, count);
      && w2[to].kids == w[to].kids
      && RoomFor(w2, w2[to].kids, copy) == RoomFor(w, w[to].kids, item) - (MAX_STACK - w[toItem].count)
  {
    var w2 := Enter(Reshape(w, toItem, kind, MAX_STACK), copy, kind, count);
    assert item !in w[to].kids && copy !in w[to].kids && NoDup(w[to].kids);
    RoomFill(w, w2, w[to].kids, item, copy, toItem);
  }

  /** Room in existing stacks counts only when the container takes the item at all. */
  lemma RoomNeeds(w: World<Item>, to: Item, item: Item, flags: Flags)
    requires Shaped(w) && to in w && item in w && w[item].kind.stackable && !flags.noLimit && !to.pagination
    ensures var most := MaxCount(w, to, INDEX_WHEREEVER, item, w[item].count, flags);
      most <= FreeSlots(to.maxSize, |w[to].kids|) * MAX_STACK + RoomFor(w, w[to].kids, item)
    ensures Takes(w, to, 0, item, w[item].count, flags) ==>
      MaxCount(w, to, INDEX_WHEREEVER, item, w[item].count, flags)
      == FreeSlots(to.maxSize, |w[to].kids|) * MAX_STACK + RoomFor(w, w[to].kids, item)
  {
  }

  /** What took the item at a slot takes a fresh copy of it: the tree above has not changed. */
  lemma {:induction false} TakesSurvives(w: World<Item>, w2: World<Item>, to: Item, slot: int, item: Item, copy: Item,
                                         flags: Flags)
    requires Consistent(w) && Consistent(w2) && to in w && item in w && w[item].parent == None && !flags.childIsOwner
    requires copy !in w && !copy.isContainer && Ups(w2) == Ups(w)[copy := None] && copy in w2 && SamePlaces(w, w2)
    requires !w2[copy].skips && w2[copy].kind == w[item].kind && item !in Chain(Ups(w), to)
    requires to in w2 && Takes(w, to, slot, item, w[item].count, flags)
    ensures Takes(w2, to, 0, copy, w2[copy].count, flags)
  {
    hide IsForest, Linked, Stacked, RoleTakes, TopOf, Clear, Met, Chain;
    TopSurvives(w, w2, to, copy);
    TopInChain(w, to);
    RoleSurvives(w, w2, to, item, copy, flags);
    if to.role != Inbox {
      var top := TopOf(w, to);
      if top != null && top != to {
        RoleSurvives(w, w2, top, item, copy, flags);
      }
      ClearSurvives(Met(w, to), item, copy, flags);
    }
  }

  lemma ClearSurvives(m: set<Item>, item: Item, copy: Item, flags: Flags)
    requires Clear(m, item, flags) && copy !in m
    ensures Clear(m, copy, flags)
  {
  }

  lemma {:induction false} TopInChain(w: World<Item>, x: Item)
    requires IsForest(Ups(w)) && x in w
    ensures TopOf(w, x) != null ==> TopOf(w, x) in Chain(Ups(w), x)
    ensures x in Chain(Ups(w), x)
  {
    TrailInChain<Item>(Ups(w), Skips(w), x);
  }

  /** The walk from `to` meets what it met before a loose copy joined. */
  lemma {:induction false} TopSurvives(w: World<Item>, w2: World<Item>, to: Item, copy: Item)
    requires IsForest(Ups(w)) && IsForest(Ups(w2)) && to in w && to in w2 && copy !in w && SamePlaces(w, w2)
    requires Ups(w2) == Ups(w)[copy := None]
    ensures TopOf(w2, to) == TopOf(w, to) && Met(w2, to) == Met(w, to) && copy !in Met(w2, to)
  {
    hide IsForest, OnTile, Met, Reach, SamePlaces, Ups, ShownParent;
    TrailSurvives(w, w2, to, copy);
    EndSurvives(w, w2, to, copy);
    MetIs(w, to);
    MetIs(w2, to);
    assert Met(w2, to) == Met(w, to);
    SameTop(w, w2, to);
  }

  lemma {:induction false} SameTop(w: World<Item>, w2: World<Item>, to: Item)
    requires IsForest(Ups(w)) && IsForest(Ups(w2)) && to in w && to in w2
    requires var end := TrailEnd<Item>(Ups(w), Skips(w), to);
      TrailEnd<Item>(Ups(w2), Skips(w2), to) == end && end in w2 && (OnTile(w2, end) <==> OnTile(w, end))
    requires ShownParent(w2, to) == ShownParent(w, to)
    requires ShownParent(w, to).Some? ==>
      BeforeEnd<Item>(Ups(w2), Skips(w2), to) == BeforeEnd<Item>(Ups(w), Skips(w), to)
    ensures TopOf(w2, to) == TopOf(w, to)
  {
    hide IsForest, OnTile;
    if ShownParent(w, to).Some? {
      TrailEndBeyond(w, to);
    }
  }

  lemma {:induction false} EndSurvives(w: World<Item>, w2: World<Item>, to: Item, copy: Item)
    requires IsForest(Ups(w)) && IsForest(Ups(w2)) && to in w && to in w2 && copy !in w && SamePlaces(w, w2)
    requires Ups(w2) == Ups(w)[copy := None]
    ensures var end := TrailEnd<Item>(Ups(w), Skips(w), to); end in w2 && (OnTile(w2, end) <==> OnTile(w, end))
  {
    OnTileSame(w, w2, TrailEnd<Item>(Ups(w), Skips(w), to));
  }

  lemma {:induction false} TrailSurvives(w: World<Item>, w2: World<Item>, to: Item, copy: Item)
    requires IsForest(Ups(w)) && IsForest(Ups(w2)) && to in w && to in w2 && copy !in w && SamePlaces(w, w2)
    requires Ups(w2) == Ups(w)[copy := None]
    ensures ShownParent(w2, to) == ShownParent(w, to) && Reach(w2, to) == Reach(w, to) <= w.Keys
    ensures TrailEnd<Item>(Ups(w2), Skips(w2), to) == TrailEnd<Item>(Ups(w), Skips(w), to)
    ensures ShownParent(w, to).Some? ==>
      BeforeEnd<Item>(Ups(w2), Skips(w2), to) == BeforeEnd<Item>(Ups(w), Skips(w), to)
  {
    TrailUnaffected<Item>(Ups(w), Ups(w2), Skips(w), Skips(w2), to);
  }

  lemma {:induction false} RoleSurvives(w: World<Item>, w2: World<Item>, c: Item, item: Item, copy: Item, flags: Flags)
    requires Shaped(w) && Shaped(w2) && c in w && item in w && w[item].parent == None && c != item
    requires copy !in w && !copy.isContainer && Ups(w2) == Ups(w)[copy := None] && copy in w2
    requires w2[copy].kind == w[item].kind && RoleTakes(w, c, item, w[item].count, flags)
    ensures RoleTakes(w2, c, copy, w2[copy].count, flags)
  {
    JoinSame<Item>(Ups(w), copy, c);
    TopOfRoot(w, item);
    assert Ups(w2)[copy] == w2[copy].parent;
    TopOfRoot(w2, copy);
    hide IsForest, Linked, TopOf;
  }
}
