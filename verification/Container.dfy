// Items and containers as the mutable objects of the source (src/container.cpp, src/item.h).
//
// An Item carries the fields of Item and, when isContainer holds, those of Container.  Every
// mutator is specified by the elementary edit it performs on the snapshot of a set of items; the
// lemmas of ItemTree and ItemStock then say what the edit keeps and conserves.
module Containers {
  import opened Options
  import opened Forest
  import opened ItemTree
  import opened ItemWalk

  const INDEX_WHEREEVER := -1
  const INDEX_MOVE_UP := 254
  const INDEX_ADD_WHEREVER := 255

  datatype ReturnValue =
    | NoError | NotPossible | CannotPickup | ThisIsImpossible | NotMoveable
    | NotEnoughRoom | ContainerNotEnoughRoom | DepotIsFull

  datatype Flags = Flags(noLimit: bool, ignoreAutoStack: bool, childIsOwner: bool,
                         ignoreNotPickupable: bool, ignoreNotMoveable: bool)

  /** The classes that override queryAdd: all but Plain are a player's own and cannot be removed. */
  datatype Role = Plain | Locker | DepotChest(maxDepotItems: nat) | Inbox {
    /** They override getParent as well, and answer with the parent of the container that holds them. */
    predicate Skips() {
      DepotChest? || Inbox?
    }
  }

  function Opt(p: Item?): Option<Item> {
    if p == null then None else Some(p)
  }

  ghost function Snap(items: set<Item>): World<Item>
    reads items
  {
    map x | x in items :: Rec(Opt(x.parent), x.itemlist, x.kind, x.count, x.totalWeight, x.placed, x.role.Skips())
  }

  lemma SnapAt(items: set<Item>, x: Item)
    requires x in items
    ensures x in Snap(items) && Snap(items)[x].kids == x.itemlist && Snap(items)[x].parent == Opt(x.parent)
    ensures Snap(items)[x].kind == x.kind && Snap(items)[x].count == x.count && Snap(items)[x].total == x.totalWeight
    ensures Snap(items)[x].parent == None <==> x.parent == null
    ensures Snap(items)[x].placed == x.placed && Snap(items)[x].skips == x.role.Skips()
  {
  }

  lemma SnapKeys(items: set<Item>)
    ensures Snap(items).Keys == items
  {
  }

  // ---------------------------------------------------------------- what lies on a tile

  /** The container that getParent answers with. */
  ghost function ShownParent(w: World<Item>, x: Item): (p: Option<Item>)
    requires IsForest(Ups(w)) && x in w
    ensures p.Some? ==> p.value in w
  {
    Forest.GetParent(Ups(w), Skips(w), x)
  }

  /** getParent of x answers with a tile. */
  ghost predicate OnTile(w: World<Item>, x: Item)
    requires IsForest(Ups(w)) && x in w
    decreases Depth<Item>(Ups(w), x)
  {
    assert Ups(w)[x] == w[x].parent;
    if w[x].parent.Some? then
      DepthStep<Item>(Ups(w), x);
      w[x].skips && OnTile(w, w[x].parent.value)
    else
      w[x].placed && !w[x].skips
  }

  lemma {:induction false} OnTileEnds(w: World<Item>, x: Item)
    requires IsForest(Ups(w)) && x in w && OnTile(w, x)
    ensures Forest.GetParent(Ups(w), Skips(w), x) == None
    decreases Depth<Item>(Ups(w), x)
  {
    assert Ups(w)[x] == w[x].parent;
    if w[x].parent.Some? {
      DepthStep<Item>(Ups(w), x);
      OnTileEnds(w, w[x].parent.value);
    }
  }

  /** The outermost container of x, or x itself, lies on a tile: otherwise x counts as removed. */
  ghost predicate IsPlaced(w: World<Item>, x: Item)
    requires IsForest(Ups(w)) && x in w
  {
    w[Root(Ups(w), x)].placed
  }

  lemma ReachStep(w: World<Item>, x: Item)
    requires IsForest(Ups(w)) && x in w
    ensures var p := ShownParent(w, x);
      if p.Some? then Depth(Ups(w), p.value) < Depth(Ups(w), x) && Reach(w, x) == {x} + Reach(w, p.value)
        && x !in Reach(w, p.value)
      else Reach(w, x) == {x}
  {
  }

  lemma SameReach(w: World<Item>, v: World<Item>, x: Item)
    requires IsForest(Ups(w)) && Ups(v) == Ups(w) && Skips(v) == Skips(w) && x in w
    ensures x in v && ShownParent(v, x) == ShownParent(w, x) && Reach(v, x) == Reach(w, x)
  {
    assert x in Ups(v);
  }

  /** What getTopParent answers, if it is an item: the last one before the tile, or else the last but one. */
  ghost function TopOf(w: World<Item>, x: Item): (top: Item?)
    requires IsForest(Ups(w)) && x in w
    ensures top != null ==> top in w
  {
    var up, skips := Ups(w), Skips(w);
    var end := TrailEnd(up, skips, x);
    if x == end then (if x.isContainer then x else null)
    else if OnTile(w, end) || (!x.isContainer && ShownParent(w, x) == Some(end)) then end
    else BeforeEnd(up, skips, x)
  }

  /** The answer of getTopParent once its walk stands at aux and has come from prevaux. */
  ghost function TopAfter(w: World<Item>, prevaux: Item?, aux: Item): Item?
    requires IsForest(Ups(w)) && aux in w
  {
    var end := TrailEnd<Item>(Ups(w), Skips(w), aux);
    if OnTile(w, end) then end
    else if aux == end then (if prevaux == null then end else prevaux)
    else BeforeEnd<Item>(Ups(w), Skips(w), aux)
  }

  lemma TopStarts(w: World<Item>, x: Item)
    requires IsForest(Ups(w)) && x in w
    ensures var p := ShownParent(w, x);
      TopOf(w, x) == if p == None then (if x.isContainer then x else null)
        else TopAfter(w, if x.isContainer then x else null, p.value)
  {
    if ShownParent(w, x).Some? {
      TrailEndBeyond(w, x);
    }
  }

  lemma TopGoesOn(w: World<Item>, prevaux: Item?, aux: Item)
    requires IsForest(Ups(w)) && aux in w && ShownParent(w, aux).Some?
    ensures var p := ShownParent(w, aux).value;
      Depth(Ups(w), p) < Depth(Ups(w), aux) && TopAfter(w, prevaux, aux) == TopAfter(w, aux, p)
  {
    TrailEndBeyond(w, aux);
  }

  lemma {:induction false} TopStops(w: World<Item>, prevaux: Item?, aux: Item)
    requires IsForest(Ups(w)) && aux in w && ShownParent(w, aux) == None
    ensures OnTile(w, aux) || prevaux == null ==> TopAfter(w, prevaux, aux) == aux
    ensures !OnTile(w, aux) && prevaux != null ==> TopAfter(w, prevaux, aux) == prevaux
  {
    assert TrailEnd<Item>(Ups(w), Skips(w), aux) == aux;
  }

  lemma TrailEndBeyond(w: World<Item>, x: Item)
    requires IsForest(Ups(w)) && x in w && ShownParent(w, x).Some?
    ensures var p := ShownParent(w, x).value;
      && TrailEnd<Item>(Ups(w), Skips(w), x) == TrailEnd<Item>(Ups(w), Skips(w), p) != x
      && (if ShownParent(w, p) == None
          then BeforeEnd<Item>(Ups(w), Skips(w), x) == x && TrailEnd<Item>(Ups(w), Skips(w), p) == p
          else BeforeEnd<Item>(Ups(w), Skips(w), x) == BeforeEnd<Item>(Ups(w), Skips(w), p)
               && TrailEnd<Item>(Ups(w), Skips(w), p) != p)
  {
    var end := TrailEnd<Item>(Ups(w), Skips(w), ShownParent(w, x).value);
    assert ShownParent(w, end) == None;
  }

  // ---------------------------------------------------------------- what the queries mean

  /** Free slots of a container, never negative. */
  function FreeSlots(capacity: nat, size: nat): nat {
    if capacity > size then capacity - size else 0
  }

  /** k is like item and not full. */
  ghost predicate Alike(w: World<Item>, k: Item, item: Item)
    requires item in w
  {
    k in w && w[k].kind == w[item].kind && w[k].count < MAX_STACK
  }

  /** item could be merged into k. */
  ghost predicate Mergeable(w: World<Item>, k: Item, item: Item)
    requires item in w
  {
    k != item && Alike(w, k, item)
  }

  /** What the stacks in s could still take of item. */
  ghost function RoomFor(w: World<Item>, s: seq<Item>, item: Item): nat
    requires item in w
  {
    if s == [] then 0 else
    (if Mergeable(w, s[0], item) then MAX_STACK - w[s[0]].count else 0) + RoomFor(w, s[1..], item)
  }

  lemma {:induction false} RoomSnoc(w: World<Item>, s: seq<Item>, k: Item, item: Item)
    requires item in w
    ensures RoomFor(w, s + [k], item) == RoomFor(w, s, item) + RoomFor(w, [k], item)
  {
    if s == [] {
      assert s + [k] == [k];
    } else {
      assert (s + [k])[1..] == s[1..] + [k];
      RoomSnoc(w, s[1..], k, item);
    }
  }

  /** How many new objects a depot chest would have to hold. */
  ghost function DepotAdds(w: World<Item>, chest: Item, item: Item, count: nat): nat
    requires Shaped(w) && item in w
  {
    if TopOf(w, item) != chest then
      (if item.isContainer then |Below(Ups(w), item)| + 1 else 1)
    else if w[item].kind.stackable && w[item].count != count then 1
    else 0
  }

  /** What an override of queryAdd asks beyond Container::queryAdd. */
  ghost predicate RoleTakes(w: World<Item>, c: Item, item: Item, count: nat, flags: Flags)
    requires Shaped(w) && item in w
  {
    match c.role
    case Plain => true
    case Locker => false
    case DepotChest(limit) => flags.noLimit || |Below(Ups(w), c)| + DepotAdds(w, c, item, count) <= limit
    case Inbox => flags.noLimit && item != c && (w[item].kind.pickupable || flags.ignoreNotPickupable)
  }

  /** The containers that the walk of queryAdd meets from c, which starts with getParent. */
  ghost function Met(w: World<Item>, c: Item): (m: set<Item>)
    requires IsForest(Ups(w)) && c in w
  {
    ReachOf(w, ShownParent(w, c))
  }

  lemma MetIs(w: World<Item>, c: Item)
    requires IsForest(Ups(w)) && c in w
    ensures Met(w, c) == Reach(w, c) - {c}
  {
  }

  /** item is none of these cylinders and, unless limits are off, none of them is an inbox. */
  ghost predicate Clear(enclosing: set<Item>, item: Item, flags: Flags) {
    item !in enclosing && (!flags.noLimit ==> forall x :: x in enclosing ==> x.role != Inbox)
  }

  /** One cylinder of the walk. */
  lemma ClearStep(w: World<Item>, c: Item, item: Item, flags: Flags)
    requires IsForest(Ups(w)) && c in w
    ensures Clear(ReachOf(w, Some(c)), item, flags) <==>
      c != item && (flags.noLimit || c.role != Inbox) && Clear(Met(w, c), item, flags)
  {
    MetIs(w, c);
  }

  lemma WalkStarts(w: World<Item>, c: Item)
    requires IsForest(Ups(w)) && c in w
    ensures Met(w, c) == ReachOf(w, ShownParent(w, c))
  {
  }

  lemma WalkGoesOn(w: World<Item>, c: Item, item: Item, flags: Flags)
    requires IsForest(Ups(w)) && c in w
    ensures var p := ShownParent(w, c);
      && (p.Some? ==> Depth(Ups(w), p.value) < Depth(Ups(w), c))
      && (Clear(ReachOf(w, Some(c)), item, flags) <==>
           c != item && (flags.noLimit || c.role != Inbox) && Clear(ReachOf(w, p), item, flags))
  {
    ClearStep(w, c, item, flags);
  }

  lemma ClearNothing(item: Item, flags: Flags)
    ensures Clear({}, item, flags)
  {
  }

  /** The top parent of c, if it is another container, adds no objection of its class. */
  ghost predicate TopTakes(w: World<Item>, c: Item, item: Item, count: nat, flags: Flags)
    requires Shaped(w) && c in w && item in w
  {
    var top := TopOf(w, c);
    top != null && top != c ==> RoleTakes(w, top, item, count, flags)
  }

  /** When Container::queryAdd answers that item may be put into c. */
  ghost predicate ContainerTakes(w: World<Item>, c: Item, index: int, item: Item, count: nat, flags: Flags)
    requires Shaped(w) && c in w && item in w
  {
    flags.childIsOwner || (
      && (c.unlocked || flags.noLimit)
      && (w[item].kind.pickupable || flags.ignoreNotPickupable)
      && item != c && Clear(Met(w, c), item, flags)
      && (!flags.noLimit && index == INDEX_WHEREEVER ==> |w[c].kids| < c.maxSize || c.pagination)
      && TopTakes(w, c, item, count, flags))
  }

  /** When c, whatever its class, accepts item. */
  ghost predicate Takes(w: World<Item>, c: Item, index: int, item: Item, count: nat, flags: Flags)
    requires Shaped(w) && c in w && item in w
  {
    RoleTakes(w, c, item, count, flags) && (c.role != Inbox ==> ContainerTakes(w, c, index, item, count, flags))
  }

  /** What a plain container that lies in nothing accepts: everything but itself that can be picked up, while it is
      unlocked and, asked for any place, not full.  Each flag lifts its condition. */
  lemma RootTakes(w: World<Item>, c: Item, index: int, item: Item, count: nat, flags: Flags)
    requires Shaped(w) && c in w && item in w && w[c].parent == None && c.role == Plain
    ensures Takes(w, c, index, item, count, flags) <==> (flags.childIsOwner || (
      && (c.unlocked || flags.noLimit) && (w[item].kind.pickupable || flags.ignoreNotPickupable) && item != c
      && (flags.noLimit || c.pagination || index != INDEX_WHEREEVER || |w[c].kids| < c.maxSize)))
  {
  }

  /** A child asking its top parent only meets what the top parent's own class adds. */
  lemma AskedAsOwner(w: World<Item>, top: Item, item: Item, count: nat, flags: Flags)
    requires Shaped(w) && top in w && item in w
    ensures Takes(w, top, INDEX_WHEREEVER, item, count, flags.(childIsOwner := true)) <==>
      RoleTakes(w, top, item, count, flags)
  {
  }

  /** The amount queryMaxCount reports. */
  ghost function MaxCount(w: World<Item>, c: Item, index: int, item: Item, count: nat, flags: Flags): nat
    requires Shaped(w) && c in w && item in w && index >= INDEX_WHEREEVER
  {
    var kids, free := w[c].kids, FreeSlots(c.maxSize, |w[c].kids|);
    if flags.noLimit || c.pagination then (if count < 1 then 1 else count)
    else if !w[item].kind.stackable then free
    else if index == INDEX_WHEREEVER then
      free * MAX_STACK + (if Takes(w, c, 0, item, count, flags) then RoomFor(w, kids, item) else 0)
    else
      free * MAX_STACK +
      (if index < |kids| && kids[index] in w && w[kids[index]].kind == w[item].kind && w[kids[index]].count < MAX_STACK
          && Takes(w, c, index, item, count, flags)
       then MAX_STACK - w[kids[index]].count else 0)
  }

  /** When queryRemove lets count pieces of thing leave c. */
  predicate Gives(c: Item, thing: Item, count: nat, flags: Flags)
    reads c, thing
  {
    && thing in c.itemlist && count != 0
    && !(thing.kind.stackable && count > thing.count)
    && (thing.kind.moveable || flags.ignoreNotMoveable)
  }

  /** The first stack of s that item could be merged into, or the length of s. */
  ghost function FirstStack(w: World<Item>, s: seq<Item>, item: Item): (k: nat)
    requires item in w
    ensures k <= |s| && (k < |s| ==> Mergeable(w, s[k], item))
    ensures forall j :: 0 <= j < k ==> !Mergeable(w, s[j], item)
  {
    if s == [] || Mergeable(w, s[0], item) then 0 else 1 + FirstStack(w, s[1..], item)
  }

  lemma {:induction false} FirstStackIs(w: World<Item>, s: seq<Item>, item: Item, k: nat)
    requires item in w && k <= |s| && (k < |s| ==> Mergeable(w, s[k], item))
    requires forall j :: 0 <= j < k ==> !Mergeable(w, s[j], item)
    ensures k == FirstStack(w, s, item)
  {
    if k > 0 {
      FirstStackIs(w, s[1..], item, k - 1);
    }
  }

  /** Where an item would go: a container, a slot in it, and what lies at the slot. */
  datatype Place = Place(dest: Item, slot: int, toItem: Item?)

  /** A slot of c; any other number means any slot. */
  function SlotAsked(c: Item, asked: int): int {
    if asked == INDEX_ADD_WHEREVER || asked >= c.maxSize then INDEX_WHEREEVER else asked
  }

  ghost function KidAt(w: World<Item>, c: Item, slot: int): Item?
    requires c in w
  {
    if 0 <= slot < |w[c].kids| then w[c].kids[slot] else null
  }

  /** Stacks are looked for only when stacking is on, and not within the container the item already lies in. */
  ghost predicate AutoStacks(w: World<Item>, c: Item, item: Item, flags: Flags)
    requires IsForest(Ups(w)) && item in w
  {
    !flags.ignoreAutoStack && w[item].kind.stackable && ShownParent(w, item) != Some(c)
  }

  /** In c itself: the stack at the slot if item can be merged into it, else the first stack it can be merged into, else
      the slot. */
  ghost function Stacking(w: World<Item>, c: Item, slot: int, item: Item, flags: Flags): (p: Place)
    requires IsForest(Ups(w)) && c in w && item in w
    ensures p.dest == c
  {
    var there, kids := KidAt(w, c, slot), w[c].kids;
    var first := FirstStack(w, kids, item);
    if !AutoStacks(w, c, item, flags) || first == |kids| || (there != null && Alike(w, there, item))
    then Place(c, slot, there) else Place(c, first, kids[first])
  }

  /** The answer of queryDestination: the parent, a container at the slot, or c itself. */
  ghost function Destination(w: World<Item>, c: Item, asked: int, item: Item, flags: Flags): (p: Place)
    requires Shaped(w) && c in w && item in w
    ensures p.dest in w && (p.dest != c ==> asked != INDEX_WHEREEVER && p.slot == INDEX_WHEREEVER && p.toItem == null)
  {
    assert Adopted(w, c);
    if !c.unlocked && !flags.noLimit then Place(c, asked, null)
    else if asked == INDEX_MOVE_UP then
      Place(if ShownParent(w, c).Some? then ShownParent(w, c).value else c, INDEX_WHEREEVER, null)
    else
      var slot := SlotAsked(c, asked);
      var there := KidAt(w, c, slot);
      assert there != null ==> there in w[c].kids;
      if there != null && there.isContainer then Place(there, INDEX_WHEREEVER, null)
      else Stacking(w, c, slot, item, flags)
  }

  /** What queryDestination promises about the slot and the stack it picks in c, asked for slot `asked`. */
  ghost predicate Placed(w: World<Item>, c: Item, item: Item, flags: Flags, asked: int, index: int, destItem: Item?)
    requires Shaped(w) && c in w && item in w
  {
    var kids := w[c].kids;
    && index >= INDEX_WHEREEVER
    && (destItem != null ==> 0 <= index < |kids| && kids[index] == destItem)
    && (index >= c.maxSize ==> destItem != null && Mergeable(w, destItem, item) && w[item].kind.stackable)
    && (destItem == null && index >= 0 ==> index >= |kids|)
    && (asked == INDEX_MOVE_UP ==> index == INDEX_WHEREEVER && destItem == null)
    && (asked == INDEX_WHEREEVER && flags.ignoreAutoStack ==> destItem == null)
    && (asked != INDEX_MOVE_UP && AutoStacks(w, c, item, flags) ==>
          || (destItem != null && Alike(w, destItem, item))
          || (forall k :: k in kids ==> !Mergeable(w, k, item)))
  }

  lemma DestinationPlaced(w: World<Item>, c: Item, asked: int, item: Item, flags: Flags)
    requires Shaped(w) && c in w && item in w && asked >= INDEX_WHEREEVER
    ensures var p := Destination(w, c, asked, item, flags);
      && p.slot >= INDEX_WHEREEVER
      && (p.dest == c && (c.unlocked || flags.noLimit) ==> Placed(w, c, item, flags, asked, p.slot, p.toItem))
      && (p.dest == c && !(c.unlocked || flags.noLimit) ==> p.slot == asked && p.toItem == null)
  {
    var slot := SlotAsked(c, asked);
    var there := KidAt(w, c, slot);
    if there != null {
      KidBelow(w, c, slot);
    }
    var kids, first := w[c].kids, FirstStack(w, w[c].kids, item);
    if first == |kids| {
      forall k | k in kids ensures !Mergeable(w, k, item) {
        var j :| 0 <= j < |kids| && kids[j] == k;
      }
    }
  }

  /** What an index asks for in c, if a child lies there: the indices for the parent and for any slot, and those beyond
      the capacity, name none. */
  ghost function Named(w: World<Item>, c: Item, index: int): Item?
    requires c in w
  {
    if index == 254 || index == 255 || index < 0 || index >= c.maxSize || index >= |w[c].kids| then null
    else w[c].kids[index]
  }

  /** Where an index leads: into the container it names, for 254 to what getParent answers, and else to c itself. */
  ghost predicate Aimed(w: World<Item>, c: Item, index: int, flags: Flags, dest: Item)
    requires IsForest(Ups(w)) && c in w
  {
    var named, opens := Named(w, c, index), c.unlocked || flags.noLimit;
    if opens && named != null && named.isContainer then dest == named
    else if opens && index == 254 && ShownParent(w, c).Some? then Some(dest) == ShownParent(w, c)
    else dest == c
  }

  ghost predicate FirstLike(w: World<Item>, kids: seq<Item>, i: nat, item: Item)
    requires i < |kids| && item in w
  {
    Mergeable(w, kids[i], item) && forall j :: 0 <= j < i ==> !Mergeable(w, kids[j], item)
  }

  /** What an item put into c at an index is put on: the child named, if it merges with it; else, where stacks are
      looked for, the first child that it merges with; else the child named, whatever that is. */
  ghost predicate PutOn(w: World<Item>, c: Item, index: int, item: Item, flags: Flags, toItem: Item?)
    requires IsForest(Ups(w)) && c in w && item in w
  {
    var named, kids := Named(w, c, index), w[c].kids;
    var looks := index != 254 && !flags.ignoreAutoStack && w[item].kind.stackable && ShownParent(w, item) != Some(c);
    if named != null && Alike(w, named, item) then toItem == named
    else if looks && exists k :: k in kids && Mergeable(w, k, item)
    then exists i :: 0 <= i < |kids| && toItem == kids[i] && FirstLike(w, kids, i, item)
    else toItem == named
  }

  lemma DestinationAims(w: World<Item>, c: Item, index: int, item: Item, flags: Flags)
    requires Shaped(w) && c in w && item in w && index >= INDEX_WHEREEVER
    ensures var p := Destination(w, c, index, item, flags);
      && Aimed(w, c, index, flags, p.dest)
      && (p.dest == c && (c.unlocked || flags.noLimit) ==> PutOn(w, c, index, item, flags, p.toItem))
  {
    hide IsForest, ShownParent, FirstStack, Alike, Mergeable;
    assert Named(w, c, index) == if index == INDEX_MOVE_UP then null else KidAt(w, c, SlotAsked(c, index));
    var kids := w[c].kids;
    var first := FirstStack(w, kids, item);
    if exists k :: k in kids && Mergeable(w, k, item) {
      var k :| k in kids && Mergeable(w, k, item);
      var j :| 0 <= j < |kids| && kids[j] == k;
      assert first < |kids| && FirstLike(w, kids, first, item);
    }
    if KidAt(w, c, SlotAsked(c, index)) != null {
      KidBelow(w, c, SlotAsked(c, index));
    }
  }

  class Item {
    var kind: Kind
    var count: nat
    var parent: Item?
    var itemlist: seq<Item>
    var totalWeight: int
    var placed: bool            // the parent pointer names a tile
    const isContainer: bool
    const maxSize: nat
    const unlocked: bool
    const pagination: bool
    const role: Role

    /** A fresh parentless item, as CreateItem and clone make it. */
    constructor (kind: Kind, count: nat)
      ensures this.kind == kind && this.count == count && parent == null && itemlist == []
      ensures totalWeight == 0 && !placed && !isContainer && !pagination && role == Plain
    {
      this.kind, this.count, parent, itemlist, totalWeight, placed := kind, count, null, [], 0, false;
      isContainer, maxSize, unlocked, pagination, role := false, 0, true, false, Plain;
    }

    /** A fresh container or locker of a type with maxSize slots. */
    constructor Container(kind: Kind, count: nat, maxSize: nat, locker: bool)
      ensures this.kind == kind && this.count == count && parent == null && itemlist == [] && totalWeight == 0
      ensures !placed && isContainer && this.maxSize == maxSize && unlocked && !pagination
      ensures role == if locker then Locker else Plain
    {
      this.kind, this.count, parent, itemlist, totalWeight, placed := kind, count, null, [], 0, false;
      isContainer, this.maxSize, unlocked, pagination, role := true, maxSize, true, false,
        if locker then Locker else Plain;
    }

    function GetWeight(): (r: int)
      reads this
    {
      OwnWeight(kind, count) + totalWeight
    }

    /** getParent: a depot chest or inbox asks the container that holds it; outside stands for a tile. */
    method GetParent(ghost items: set<Item>) returns (p: Item?, outside: bool)
      requires this in items && IsForest(Ups(Snap(items)))
      ensures Opt(p) == ShownParent(Snap(items), this) && (outside <==> OnTile(Snap(items), this))
      decreases Depth<Item>(Ups(Snap(items)), this)
    {
      ghost var w := Snap(items);
      assert Ups(w)[this] == w[this].parent;
      if role.Skips() && parent != null {
        DepthStep<Item>(Ups(w), this);
        p, outside := parent.GetParent(items);
      } else {
        p, outside := parent, parent == null && placed && !role.Skips();
      }
    }

    method IsRemoved(ghost items: set<Item>) returns (removed: bool)
      requires this in items && IsForest(Ups(Snap(items)))
      ensures removed <==> !IsPlaced(Snap(items), this)
      decreases Depth<Item>(Ups(Snap(items)), this)
    {
      ghost var w := Snap(items);
      assert Ups(w)[this] == w[this].parent;
      if parent == null {
        removed := !placed;
      } else {
        DepthStep<Item>(Ups(w), this);
        removed := parent.IsRemoved(items);
      }
    }

    /** setParent of a loose item with a tile, or with nothing when the tile lets go of it. */
    method SetTile(ghost items: set<Item>, placed': bool)
      requires this in items && parent == null
      modifies this`placed
      ensures this in old(Snap(items))
      ensures Snap(items) == old(Snap(items))[this := old(Snap(items))[this].(placed := placed')]
    {
      placed := placed';
    }

    /** Adds diff here and in every container that a walk by getParent meets. */
    method UpdateItemWeight(ghost items: set<Item>, diff: int)
      requires this in items && IsForest(Ups(Snap(items)))
      modifies items`totalWeight
      ensures Snap(items) == Bump(old(Snap(items)), Reach(old(Snap(items)), this), diff)
      decreases Depth<Item>(Ups(Snap(items)), this)
    {
      hide IsForest, Snap, Reach, ShownParent, OnTile, Bump, Ups, Skips;
      ghost var w := Snap(items);
      SnapKeys(items);
      BumpKeeps(w, {this}, diff);
      ReachStep(w, this);
      AddWeight(items, diff);
      var parentContainer, outside := GetParent(items);
      SameReach(w, Snap(items), this);
      if parentContainer != null {
        ghost var p: Item := parentContainer;
        SameReach(w, Snap(items), p);
        BumpJoin(w, {this}, Reach(w, p), diff);
        parentContainer.UpdateItemWeight(items, diff);
      }
    }

    method AddWeight(ghost items: set<Item>, diff: int)
      requires this in items
      modifies this`totalWeight
      ensures Snap(items) == Bump(old(Snap(items)), {this}, diff)
    {
      totalWeight := totalWeight + diff;
    }

    method GetThingIndex(thing: Item) returns (index: int)
      ensures index == -1 ==> thing !in itemlist
      ensures index != -1 ==> thing in itemlist && index == IndexOf(itemlist, thing)
    {
      index := 0;
      while index < |itemlist|
        invariant 0 <= index <= |itemlist|
        invariant thing !in itemlist[..index]
      {
        if itemlist[index] == thing {
          FirstIndex(itemlist, thing, index);
          return;
        }
        index := index + 1;
      }
      index := -1;
    }

    method AddThing(ghost items: set<Item>, index: int, item: Item)
      requires this in items && item in items && IsForest(Ups(Snap(items)))
      requires item.parent == null && item !in Chain(Ups(Snap(items)), this)
      modifies items
      ensures index >= maxSize ==> Snap(items) == old(Snap(items))
      ensures index < maxSize ==> Snap(items) == Hang(old(Snap(items)), this, 0, item)
    {
      if index >= maxSize {
        return;
      }
      PushAt(items, 0, item);
    }

    /** push_back with the parent link alone, for containers that are being built. */
    method AddItem(ghost items: set<Item>, item: Item)
      requires this in items && item in items && this != item
      modifies this`itemlist, item`parent, item`placed
      ensures Snap(items) == HangLinks(old(Snap(items)), this, |old(itemlist)|, item)
    {
      ghost var kids := itemlist;
      itemlist := itemlist + [item];
      item.parent, item.placed := this, false;
      assert kids[..|kids|] + [item] + kids[|kids|..] == itemlist;
    }

    method AddItemBack(ghost items: set<Item>, item: Item)
      requires this in items && item in items && IsForest(Ups(Snap(items)))
      requires item.parent == null && item !in Chain(Ups(Snap(items)), this)
      modifies items
      ensures Snap(items) == Hang(old(Snap(items)), this, |old(itemlist)|, item)
    {
      PushAt(items, |itemlist|, item);
    }

    /** push_front and push_back of the deque, with the parent link and the weight. */
    method PushAt(ghost items: set<Item>, i: nat, item: Item)
      requires this in items && item in items && IsForest(Ups(Snap(items))) && i <= |itemlist|
      requires item.parent == null && item !in Chain(Ups(Snap(items)), this)
      modifies items
      ensures Snap(items) == Hang(old(Snap(items)), this, i, item)
    {
      ghost var w := Snap(items);
      item.parent, item.placed := this, false;
      itemlist := itemlist[..i] + [item] + itemlist[i..];
      ghost var v := Snap(items);
      assert v == HangLinks(w, this, i, item);
      HungReach(w, v, this, i, item);
      var diff := item.GetWeight();
      assert diff == Weight(w, item);
      UpdateItemWeight(items, diff);
    }

    /** Changes one stack in this container and tells every enclosing container the difference. */
    method Resize(ghost items: set<Item>, item: Item, kind': Kind, count': nat)
      requires this in items && item in items && IsForest(Ups(Snap(items))) && item.parent == this
      modifies items
      ensures Snap(items) == Reshape(old(Snap(items)), item, kind', count')
    {
      ghost var w := Snap(items);
      ReshapeBelow(w, this, item, kind', count');
      var oldWeight := item.GetWeight();
      item.kind := kind';
      item.count := count';
      assert Snap(items) == w[item := w[item].(kind := kind', count := count')];
      var diff := -oldWeight + item.GetWeight();
      assert diff == Gain(w, item, kind', count');
      UpdateItemWeight(items, diff);
    }

    method UpdateThing(ghost items: set<Item>, item: Item, kind': Kind, count': nat)
      requires this in items && item in items && Shaped(Snap(items))
      modifies items
      ensures item !in old(itemlist) ==> Snap(items) == old(Snap(items))
      ensures item in old(itemlist) ==> Snap(items) == Reshape(old(Snap(items)), item, kind', count')
    {
      var index := GetThingIndex(item);
      if index == -1 {
        return;
      }
      assert item in Snap(items)[this].kids && Snap(items)[item].parent == Some(this);
      Resize(items, item, kind', count');
    }

    method ReplaceThing(ghost items: set<Item>, index: nat, item: Item)
      requires this in items && item in items && Shaped(Snap(items))
      requires item.parent == null && item !in Chain(Ups(Snap(items)), this)
      modifies items
      ensures index >= |old(itemlist)| ==> Snap(items) == old(Snap(items))
      ensures index < |old(itemlist)| ==>
        CanSwap(old(Snap(items)), this, index, item) && Snap(items) == Swap(old(Snap(items)), this, index, item)
    {
      if index >= |itemlist| {
        return;
      }
      ghost var w := Snap(items);
      KidBelow(w, this, index);
      Exchange(items, index, item);
    }

    method Exchange(ghost items: set<Item>, index: nat, item: Item)
      requires this in items && item in items && CanSwap(Snap(items), this, index, item)
      modifies items
      ensures Snap(items) == Swap(old(Snap(items)), this, index, item)
    {
      hide *;
      ghost var w := Snap(items);
      SnapKeys(items);
      SnapAt(items, this);
      SwapForest(w, this, index, item);
      var replacedItem := itemlist[index];
      assert replacedItem == w[this].kids[index];
      var diff := WeightGap(items, replacedItem, item);
      PutInPlace(items, index, item);
      UpdateItemWeight(items, diff);
      ghost var b := Snap(items);
      SwapReady(w, this, index, item, diff, b);
      LetGo(items, replacedItem);
      SwapLate(w, this, index, item, diff, b, Snap(items));
    }

    // the new child is linked; the old one still names its parent
    method PutInPlace(ghost items: set<Item>, index: nat, item: Item)
      requires this in items && item in items && index < |itemlist| && this != item
      modifies this`itemlist, item`parent, item`placed
      ensures Snap(items) == SwapLinks(old(Snap(items)), this, index, item)
    {
      itemlist := itemlist[index := item];
      item.parent, item.placed := this, false;
    }

    method WeightGap(ghost items: set<Item>, replacedItem: Item, item: Item) returns (diff: int)
      requires replacedItem in items && item in items
      ensures diff == -Weight(Snap(items), replacedItem) + Weight(Snap(items), item)
    {
      diff := -replacedItem.GetWeight() + item.GetWeight();
    }

    // setParent(nullptr)
    static method LetGo(ghost items: set<Item>, item: Item)
      requires item in items
      modifies item`parent, item`placed
      ensures item in old(Snap(items)) && Snap(items).Keys == old(Snap(items)).Keys
      ensures Snap(items)[item] == old(Snap(items))[item].(parent := None, placed := false)
      ensures forall y {:trigger Snap(items)[y]} :: y in items && y != item ==> Snap(items)[y] == old(Snap(items))[y]
    {
      item.parent, item.placed := null, false;
    }

    method RemoveThing(ghost items: set<Item>, item: Item, n: nat)
      requires this in items && item in items && Shaped(Snap(items))
      modifies items
      ensures item !in old(itemlist) ==> Snap(items) == old(Snap(items))
      ensures item in old(itemlist) && old(item.kind.stackable) && n != old(item.count) ==>
        Snap(items) == Reshape(old(Snap(items)), item, old(item.kind),
                               if old(item.count) < n then 0 else old(item.count) - n)
      ensures item in old(itemlist) && (!old(item.kind.stackable) || n == old(item.count)) ==>
        item != this && Snap(items) == Unhang(old(Snap(items)), this, IndexOf(old(itemlist), item))
    {
      var index := GetThingIndex(item);
      if index == -1 {
        return;
      }
      assert item in Snap(items)[this].kids && Snap(items)[item].parent == Some(this);
      if item.kind.stackable && n != item.count {
        var newCount := if item.count < n then 0 else item.count - n;
        Resize(items, item, item.kind, newCount);
      } else {
        KidBelow(Snap(items), this, index);
        TakeOut(items, index);
      }
    }

    method TakeOut(ghost items: set<Item>, index: nat)
      requires this in items && IsForest(Ups(Snap(items))) && index < |itemlist|
      requires itemlist[index] in items && itemlist[index] != this
      modifies items
      ensures Snap(items) == Unhang(old(Snap(items)), this, index)
    {
      ghost var w := Snap(items);
      var item := itemlist[index];
      var diff := -item.GetWeight();
      assert diff == Loss(w, w[this].kids[index]);
      UpdateItemWeight(items, diff);
      ghost var b := Snap(items);
      item.parent, item.placed := null, false;
      itemlist := itemlist[..index] + itemlist[index + 1..];
      UnhangLate(w, this, index, diff, b, Snap(items));
    }

    // -------------------------------------------------------------- walking the tree

    /** Everything inside, nearest level first. */
    method GetItems(ghost items: set<Item>) returns (all: seq<Item>)
      requires this in items && Shaped(Snap(items))
      ensures NoDup(all) && (set x | x in all) == Below(Ups(Snap(items)), this)
      ensures LevelOrder(Ups(Snap(items)), all)
    {
      ghost var w := Snap(items);
      all := [];
      var it := new ContainerIterator(this);
      WalkStart(w, this);
      while it.HasNext()
        invariant fresh(it) && Snap(items) == w
        invariant WalkingByLevel(w, this, it.over, it.cur, all)
        decreases |Below(Ups(w), this)| - |all|
      {
        LevelTurn(w, this, it.over, it.cur, all);
        var item := it.Current();
        it.Advance(items, w);
        all := all + [item];
      }
      WalkDone(w, this, it.cur, all);
    }

    method GetItemHoldingCount(ghost items: set<Item>) returns (counter: nat)
      requires this in items && Shaped(Snap(items))
      ensures counter == |Below(Ups(Snap(items)), this)|
    {
      ghost var w := Snap(items);
      ghost var seen := [];
      counter := 0;
      var it := new ContainerIterator(this);
      WalkStart(w, this);
      while it.HasNext()
        invariant fresh(it) && Snap(items) == w && counter == |seen|
        invariant Walking(w, this, it.over, it.cur, seen)
        decreases |Below(Ups(w), this)| - |seen|
      {
        WalkTurn(w, this, it.over, it.cur, seen);
        seen := seen + [w[it.over[0]].kids[it.cur]];
        counter := counter + 1;
        it.Advance(items, w);
      }
      VisitedBound(w, this, it.over, it.cur, seen);
    }

    method IsHoldingItem(ghost items: set<Item>, item: Item) returns (holds: bool)
      requires this in items && Shaped(Snap(items))
      ensures holds <==> item in Below(Ups(Snap(items)), this)
    {
      ghost var w := Snap(items);
      ghost var seen := [];
      var it := new ContainerIterator(this);
      WalkStart(w, this);
      while it.HasNext()
        invariant fresh(it) && Snap(items) == w && item !in seen
        invariant Walking(w, this, it.over, it.cur, seen)
        decreases |Below(Ups(w), this)| - |seen|
      {
        WalkTurn(w, this, it.over, it.cur, seen);
        var current := it.Current();
        if current == item {
          return true;
        }
        seen := seen + [current];
        it.Advance(items, w);
      }
      WalkDone(w, this, it.cur, seen);
      holds := false;
    }

    /** The last item before the tile; where there is no tile, the last but one. */
    method GetTopParent(ghost items: set<Item>) returns (top: Item?)
      requires this in items && IsForest(Ups(Snap(items)))
      ensures top == TopOf(Snap(items), this)
    {
      hide IsForest, Snap, OnTile, ShownParent, TopOf;
      ghost var w := Snap(items);
      SnapKeys(items);
      TopStarts(w, this);
      var prevaux: Item? := if isContainer then this else null;
      var aux, outside := GetParent(items);
      if aux == null {
        return prevaux;
      }
      var next;
      next, outside := aux.GetParent(items);
      while next != null
        invariant aux != null && aux in w && Opt(next) == ShownParent(w, aux) && (outside <==> OnTile(w, aux))
        invariant TopOf(w, this) == TopAfter(w, prevaux, aux)
        decreases Depth<Item>(Ups(w), aux)
      {
        TopGoesOn(w, prevaux, aux);
        prevaux := aux;
        aux := next;
        next, outside := aux.GetParent(items);
      }
      TopStops(w, prevaux, aux);
      top := if outside then aux else if prevaux != null then prevaux else aux;
    }

    // -------------------------------------------------------------- queries

    /** The virtual queryAdd: Locker, DepotChest and Inbox override it, and a plain container asks its top parent. */
    method QueryAdd(ghost items: set<Item>, index: int, item: Item, count: nat, flags: Flags) returns (ret: ReturnValue)
      requires this in items && item in items && Shaped(Snap(items))
      ensures ret == NoError <==> Takes(Snap(items), this, index, item, count, flags)
      ensures role == Locker ==> ret != NoError
      ensures role == Inbox ==> (ret == NoError <==>
        flags.noLimit && item != this && (item.kind.pickupable || flags.ignoreNotPickupable))
      ensures role != Inbox && !flags.childIsOwner && ret == NoError ==>
        && (unlocked || flags.noLimit) && (item.kind.pickupable || flags.ignoreNotPickupable) && item != this
        && (flags.noLimit || pagination || index != INDEX_WHEREEVER || |itemlist| < maxSize)
      decreases if flags.childIsOwner then 0 else 1, 1
    {
      match role {
        case Plain =>
          ret := ContainerQueryAdd(items, index, item, count, flags);
        case Locker =>
          ret := NotEnoughRoom;
        case DepotChest(maxDepotItems) =>
          if !flags.noLimit {
            var full := IsFull(items, item, count, maxDepotItems);
            if full {
              return DepotIsFull;
            }
          }
          ret := ContainerQueryAdd(items, index, item, count, flags);
        case Inbox =>
          if !flags.noLimit {
            return ContainerNotEnoughRoom;
          }
          if item == this {
            return ThisIsImpossible;
          }
          if !(item.kind.pickupable || flags.ignoreNotPickupable) {
            return CannotPickup;
          }
          ret := NoError;
      }
    }

    // the limit test of DepotChest::queryAdd
    method IsFull(ghost items: set<Item>, item: Item, count: nat, maxDepotItems: nat) returns (full: bool)
      requires this in items && item in items && Shaped(Snap(items))
      ensures var w := Snap(items);
        full <==> |Below(Ups(w), this)| + DepotAdds(w, this, item, count) > maxDepotItems
    {
      hide TopOf, IsForest;
      var addCount := 0;
      if item.kind.stackable && item.count != count {
        addCount := 1;
      }
      var top := item.GetTopParent(items);
      if top != this {
        if item.isContainer {
          var held := item.GetItemHoldingCount(items);
          addCount := held + 1;
        } else {
          addCount := 1;
        }
      }
      var holding := GetItemHoldingCount(items);
      full := holding + addCount > maxDepotItems;
    }

    method ContainerQueryAdd(ghost items: set<Item>, index: int, item: Item, count: nat, flags: Flags)
        returns (ret: ReturnValue)
      requires this in items && item in items && Shaped(Snap(items))
      ensures ret == NoError <==> ContainerTakes(Snap(items), this, index, item, count, flags)
      decreases if flags.childIsOwner then 0 else 1, 0
    {
      if flags.childIsOwner {
        return NoError;
      }
      if !unlocked && !flags.noLimit {
        return NotPossible;
      }
      if !item.kind.pickupable && !flags.ignoreNotPickupable {
        return CannotPickup;
      }
      if item == this {
        return ThisIsImpossible;
      }
      ret := WalkUp(items, item, flags);
      if ret != NoError {
        return;
      }
      hide Clear, Met, RoleTakes, Shaped;
      if !flags.noLimit && index == INDEX_WHEREEVER && |itemlist| >= maxSize && !pagination {
        return ContainerNotEnoughRoom;
      }
      ret := AskTop(items, item, count, flags);
    }

    /** The top parent, if it is another container, is asked as the owner of a child. */
    method AskTop(ghost items: set<Item>, item: Item, count: nat, flags: Flags) returns (ret: ReturnValue)
      requires this in items && item in items && Shaped(Snap(items)) && !flags.childIsOwner
      ensures ret == NoError <==> TopTakes(Snap(items), this, item, count, flags)
      decreases 0, 2
    {
      var top := GetTopParent(items);
      hide TopOf;
      if top != null && top != this {
        var up := flags.(childIsOwner := true);
        AskedAsOwner(Snap(items), top, item, count, flags);
        ret := top.QueryAdd(items, INDEX_WHEREEVER, item, count, up);
        return;
      }
      ret := NoError;
    }

    /** The loop over the cylinders that getParent leads to. */
    method WalkUp(ghost items: set<Item>, item: Item, flags: Flags) returns (ret: ReturnValue)
      requires this in items && IsForest(Ups(Snap(items)))
      ensures ret == NoError || ret == ThisIsImpossible || ret == ContainerNotEnoughRoom
      ensures ret == NoError <==> Clear(Met(Snap(items), this), item, flags)
    {
      hide IsForest, Clear, Met, Snap, OnTile, ShownParent;
      ghost var w := Snap(items);
      SnapKeys(items);
      WalkStarts(w, this);
      var cylinder, outside := GetParent(items);
      while cylinder != null
        invariant cylinder != null ==> cylinder in w
        invariant Clear(Met(w, this), item, flags) <==> Clear(ReachOf(w, Opt(cylinder)), item, flags)
        decreases if cylinder == null then 0 else 1 + Depth<Item>(Ups(w), cylinder)
      {
        WalkGoesOn(w, cylinder, item, flags);
        if cylinder == item {
          return ThisIsImpossible;
        }
        if !flags.noLimit && cylinder.role == Inbox {
          return ContainerNotEnoughRoom;
        }
        cylinder, outside := cylinder.GetParent(items);
      }
      ClearNothing(item, flags);
      ret := NoError;
    }

    // the room in the stacks that item could be merged into
    method CountRoom(ghost items: set<Item>, item: Item, count: nat, flags: Flags) returns (n: nat)
      requires this in items && item in items && Shaped(Snap(items)) && !flags.noLimit && !pagination
      ensures var w := Snap(items); n == if Takes(w, this, 0, item, count, flags) then RoomFor(w, itemlist, item) else 0
    {
      ghost var w := Snap(items);
      ghost var ok := Takes(w, this, 0, item, count, flags);
      assert forall k :: 0 <= k ==> Takes(w, this, k, item, count, flags) == ok;
      hide Takes;
      n := 0;
      var slotIndex := 0;
      var i := 0;
      while i < |itemlist|
        invariant i <= |itemlist| && slotIndex >= 0
        invariant n == if ok then RoomFor(w, itemlist[..i], item) else 0
      {
        assert itemlist[..i + 1] == itemlist[..i] + [itemlist[i]];
        RoomSnoc(w, itemlist[..i], itemlist[i], item);
        var containerItem := itemlist[i];
        assert containerItem in w[this].kids;
        if containerItem != item && containerItem.kind == item.kind && containerItem.count < MAX_STACK {
          var taken := QueryAdd(items, slotIndex, item, count, flags);
          slotIndex := slotIndex + 1;
          if taken == NoError {
            n := n + (MAX_STACK - containerItem.count);
          }
        }
        i := i + 1;
      }
      assert itemlist[..i] == itemlist;
    }

    method QueryMaxCount(ghost items: set<Item>, index: int, item: Item, count: nat, flags: Flags)
        returns (ret: ReturnValue, maxQueryCount: nat)
      requires this in items && item in items && Shaped(Snap(items)) && index >= INDEX_WHEREEVER
      ensures maxQueryCount == MaxCount(Snap(items), this, index, item, count, flags)
      ensures flags.noLimit || pagination ==> maxQueryCount == if count < 1 then 1 else count
      ensures !flags.noLimit && !pagination ==>
        var free := if |itemlist| < maxSize then maxSize - |itemlist| else 0;
        && (item.kind.stackable ==> maxQueryCount >= free * MAX_STACK)
        && (!item.kind.stackable ==> maxQueryCount == free)
        && (item.kind.stackable && index != INDEX_WHEREEVER ==>
              maxQueryCount == free * MAX_STACK +
                if 0 <= index < |itemlist| && itemlist[index] in items && itemlist[index].kind == item.kind
                  && itemlist[index].count < MAX_STACK && Takes(Snap(items), this, index, item, count, flags)
                then MAX_STACK - itemlist[index].count else 0)
      ensures ret == NoError <==>
        (flags.noLimit || pagination || (if item.kind.stackable then maxQueryCount >= count else maxQueryCount > 0))
    {
      hide Takes;
      ghost var w := Snap(items);
      if flags.noLimit || pagination {
        return NoError, if count < 1 then 1 else count;
      }
      var freeSlots := FreeSlots(maxSize, |itemlist|);
      if item.kind.stackable {
        var n := 0;
        if index == INDEX_WHEREEVER {
          n := CountRoom(items, item, count, flags);
        } else if index < |itemlist| {
          var destItem := itemlist[index];
          assert destItem in w[this].kids;
          if destItem.kind == item.kind && destItem.count < MAX_STACK {
            var taken := QueryAdd(items, index, item, count, flags);
            if taken == NoError {
              n := MAX_STACK - destItem.count;
            }
          }
        }
        maxQueryCount := freeSlots * MAX_STACK + n;
        ret := if maxQueryCount < count then ContainerNotEnoughRoom else NoError;
      } else {
        maxQueryCount := freeSlots;
        ret := if maxQueryCount == 0 then ContainerNotEnoughRoom else NoError;
      }
    }

    method QueryRemove(thing: Item, count: nat, flags: Flags) returns (ret: ReturnValue)
      ensures ret == NoError <==> Gives(this, thing, count, flags)
      ensures ret == NotPossible <==> thing !in itemlist || count == 0 || (thing.kind.stackable && count > thing.count)
      ensures ret == NotMoveable <==> ret != NotPossible && !thing.kind.moveable && !flags.ignoreNotMoveable
      ensures ret == NoError || ret == NotPossible || ret == NotMoveable
    {
      var index := GetThingIndex(thing);
      if index == -1 {
        return NotPossible;
      }
      if count == 0 || (thing.kind.stackable && count > thing.count) {
        return NotPossible;
      }
      if !thing.kind.moveable && !flags.ignoreNotMoveable {
        return NotMoveable;
      }
      ret := NoError;
    }

    /** Where the item would really go: this container, the parent, or a container lying at the index. */
    method QueryDestination(ghost items: set<Item>, index: int, item: Item, flags: Flags)
        returns (dest: Item, index': int, destItem: Item?)
      requires this in items && item in items && Shaped(Snap(items)) && index >= INDEX_WHEREEVER
      ensures Place(dest, index', destItem) == Destination(Snap(items), this, index, item, flags)
      ensures Aimed(Snap(items), this, index, flags, dest)
      ensures dest == this && (unlocked || flags.noLimit) ==> PutOn(Snap(items), this, index, item, flags, destItem)
    {
      hide IsForest, ShownParent, FirstStack, Alike, Aimed, PutOn;
      ghost var w := Snap(items);
      DestinationAims(w, this, index, item, flags);
      index' := index;
      destItem := null;
      dest := this;
      if !unlocked && !flags.noLimit {
        return;
      }
      if index == INDEX_MOVE_UP {
        index' := INDEX_WHEREEVER;
        var parentContainer, outside := GetParent(items);
        if parentContainer != null {
          dest := parentContainer;
        }
        return;
      }
      if index == INDEX_ADD_WHEREVER || index >= maxSize {
        index' := INDEX_WHEREEVER;
      }
      if index' != INDEX_WHEREEVER && index' < |itemlist| {
        destItem := itemlist[index'];
        assert destItem in w[this].kids;
        if destItem.isContainer {
          dest := destItem;
          index' := INDEX_WHEREEVER;
          destItem := null;
          return;
        }
      }
      var autoStack := !flags.ignoreAutoStack;
      var itemParent, outside := item.GetParent(items);
      if autoStack && item.kind.stackable && itemParent != this {
        index', destItem := FindStack(items, index', item, destItem);
      }
    }

    /** The stack at the slot, or else the first that item can be merged into. */
    method FindStack(ghost items: set<Item>, slot: int, item: Item, there: Item?) returns (index: int, destItem: Item?)
      requires this in items && item in items && Shaped(Snap(items))
      requires there == KidAt(Snap(items), this, slot)
      ensures var w, first := Snap(items), FirstStack(Snap(items), itemlist, item);
        if first == |itemlist| || (there != null && Alike(w, there, item)) then index == slot && destItem == there
        else index == first && destItem == itemlist[first]
    {
      ghost var w := Snap(items);
      index, destItem := slot, there;
      if destItem != null && destItem.kind == item.kind && destItem.count < MAX_STACK {
        assert destItem in w[this].kids;
        return;
      }
      var n := 0;
      while n < |itemlist|
        invariant n <= |itemlist|
        invariant forall j :: 0 <= j < n ==> !Mergeable(w, itemlist[j], item)
      {
        var listItem := itemlist[n];
        assert listItem in w[this].kids;
        if listItem != item && listItem.kind == item.kind && listItem.count < MAX_STACK {
          destItem := listItem;
          index := n;
          FirstStackIs(w, itemlist, item, n);
          return;
        }
        n := n + 1;
      }
      FirstStackIs(w, itemlist, item, n);
    }
  }

  /** The cursor of a breadth-first walk: a queue of non-empty containers and a place in the first. */
  class ContainerIterator {
    var over: seq<Item>
    var cur: nat

    constructor (root: Item)
      ensures over == (if root.itemlist == [] then [] else [root]) && cur == 0
    {
      over, cur := if root.itemlist == [] then [] else [root], 0;
    }

    predicate HasNext()
      reads this
    {
      over != []
    }

    method Current() returns (item: Item)
      requires HasNext() && cur < |over[0].itemlist|
      ensures item == over[0].itemlist[cur]
    {
      item := over[0].itemlist[cur];
    }

    method Advance(ghost items: set<Item>, ghost w: World<Item>)
      requires w == Snap(items)
      requires HasNext() && over[0] in w && cur < |w[over[0]].kids| && w[over[0]].kids[cur] in w
      modifies this
      ensures over == Advanced(w, old(over), old(cur)).0
      ensures cur == Advanced(w, old(over), old(cur)).1
      ensures Snap(items) == w
    {
      var i := over[0].itemlist[cur];
      if |i.itemlist| != 0 {
        over := over + [i];
      }
      cur := cur + 1;
      if cur == |over[0].itemlist| {
        over := over[1..];
        cur := 0;
      }
    }
  }

  /** x is a free root and the i-th child of c may give way to it. */
  ghost predicate CanSwap(w: World<Item>, c: Item, i: nat, x: Item) {
    && IsForest(Ups(w)) && c in w && x in w && i < |w[c].kids| && w[c].kids[i] in w
    && w[w[c].kids[i]].parent == Some(c) && w[x].parent == None && x !in Chain(Ups(w), c)
  }

  /** The i-th child of c is exchanged for the root x. */
  ghost function Swap(w: World<Item>, c: Item, i: nat, x: Item): World<Item>
    requires CanSwap(w, c, i, x)
  {
    KidAbove(Ups(w), c, w[c].kids[i]);
    UnhangUps(w, c, i);
    Hang(Unhang(w, c, i), c, i, x)
  }

  /** The links at the moment replaceThing propagates the weight: the old child still names its parent. */
  ghost function SwapLinks(w: World<Item>, c: Item, i: nat, x: Item): World<Item>
    requires c in w && x in w && i < |w[c].kids| && c != x
  {
    w[x := w[x].(parent := Some(c), placed := false)][c := w[c].(kids := w[c].kids[i := x])]
  }

  lemma SwapForest(w: World<Item>, c: Item, i: nat, x: Item)
    requires CanSwap(w, c, i, x)
    ensures c in w && x in w && c != x && i < |w[c].kids| && w[c].kids[i] != c && w[c].kids[i] != x && w[c].kids[i] in w
    ensures IsForest(Ups(SwapLinks(w, c, i, x))) && Reach(SwapLinks(w, c, i, x), c) == Reach(w, c)
  {
    KidAbove(Ups(w), c, w[c].kids[i]);
    var v := SwapLinks(w, c, i, x);
    assert Ups(v) == Ups(w)[x := Some(c)] && Skips(v) == Skips(w);
    LinkForest(Ups(w), x, c);
    TrailUnaffected<Item>(Ups(w), Ups(v), Skips(w), Skips(v), c);
  }

  /** Linking x below c is not seen by a walk from c. */
  lemma HungReach(w: World<Item>, v: World<Item>, c: Item, i: nat, x: Item)
    requires IsForest(Ups(w)) && c in w && x in w && i <= |w[c].kids| && w[x].parent == None && x !in Chain(Ups(w), c)
    requires v == HangLinks(w, c, i, x)
    ensures IsForest(Ups(v)) && Reach(v, c) == Reach(w, c)
  {
    assert Ups(v) == Ups(w)[x := Some(c)] && Skips(v) == Skips(w);
    LinkForest(Ups(w), x, c);
    TrailUnaffected<Item>(Ups(w), Ups(v), Skips(w), Skips(v), c);
  }

  lemma SwapReady(w: World<Item>, c: Item, i: nat, x: Item, d: int, b: World<Item>)
    requires CanSwap(w, c, i, x) && c != x && IsForest(Ups(SwapLinks(w, c, i, x)))
    requires Reach(SwapLinks(w, c, i, x), c) == Reach(w, c)
    requires b == Bump(SwapLinks(w, c, i, x), Reach(SwapLinks(w, c, i, x), c), d)
    ensures b == Bump(SwapLinks(w, c, i, x), Reach(w, c), d) && b.Keys == w.Keys && w[c].kids[i] in b
  {
    hide IsForest, Reach;
  }

  lemma SwapLate(w: World<Item>, c: Item, i: nat, x: Item, d: int, b: World<Item>, r: World<Item>)
    requires CanSwap(w, c, i, x) && c != x && w[c].kids[i] != c && w[c].kids[i] != x
    requires d == -Weight(w, w[c].kids[i]) + Weight(w, x)
    requires b == Bump(SwapLinks(w, c, i, x), Reach(w, c), d)
    requires r.Keys == b.Keys && r[w[c].kids[i]] == b[w[c].kids[i]].(parent := None, placed := false)
    requires forall y :: y in b && y != w[c].kids[i] ==> r[y] == b[y]
    ensures r == Swap(w, c, i, x)
  {
    var e, l, cs := Weight(w, x), Loss(w, w[c].kids[i]), Reach(w, c);
    SwapIs(w, c, i, x);
    SwapKeys(w, c, i, x);
    hide IsForest, Chain, Reach, Weight, Swap, SwapLinks, Unhang, Ups, HangLinks, UnhangLinks, Bump;
    forall z | z in w ensures r[z] == Swap(w, c, i, x)[z] {
      SwapLateAt(w, c, i, x, cs, l, e, b, r, z);
    }
  }

  lemma SwapIs(w: World<Item>, c: Item, i: nat, x: Item)
    requires CanSwap(w, c, i, x) && c != x && w[c].kids[i] != c
    ensures var e, l, cs := Weight(w, x), Loss(w, w[c].kids[i]), Reach(w, c);
      Swap(w, c, i, x) == Bump(HangLinks(Bump(UnhangLinks(w, c, i), cs, l), c, i, x), cs, e)
  {
    UnhangUps(w, c, i);
    SwapWeight(w, c, i, x);
    SwapReach(w, c, i);
    hide Weight, HangLinks, UnhangLinks, Bump, Chain, Reach, IsForest;
  }

  lemma SwapKeys(w: World<Item>, c: Item, i: nat, x: Item)
    requires CanSwap(w, c, i, x) && c != x && w[c].kids[i] != c
    ensures Swap(w, c, i, x).Keys == SwapLinks(w, c, i, x).Keys == w.Keys
  {
    SwapIs(w, c, i, x);
    hide IsForest, Swap;
  }

  lemma SwapReach(w: World<Item>, c: Item, i: nat)
    requires IsForest(Ups(w)) && c in w && i < |w[c].kids| && w[c].kids[i] in w && w[c].kids[i] != c
    requires w[w[c].kids[i]].parent == Some(c)
    ensures IsForest(Ups(Unhang(w, c, i))) && c in Unhang(w, c, i) && Reach(Unhang(w, c, i), c) == Reach(w, c)
  {
    UnhangUps(w, c, i);
    UnhangFrame(w, c, i);
    hide Unhang, IsForest;
  }

  /** Taking the old child out does not change the weight of the new one. */
  lemma SwapWeight(w: World<Item>, c: Item, i: nat, x: Item)
    requires CanSwap(w, c, i, x) && w[c].kids[i] != c
    ensures Weight(Unhang(w, c, i), x) == Weight(w, x)
  {
    TrailInChain(Ups(w), Skips(w), c);
  }

  lemma SwapLateAt(w: World<Item>, c: Item, i: nat, x: Item, cs: set<Item>, l: int, e: int, b: World<Item>,
                   r: World<Item>, z: Item)
    requires c in w && x in w && i < |w[c].kids| && w[c].kids[i] in w && c != x && z in w
    requires w[c].kids[i] != c && w[c].kids[i] != x
    requires b == Bump(SwapLinks(w, c, i, x), cs, l + e)
    requires r.Keys == b.Keys && r[w[c].kids[i]] == b[w[c].kids[i]].(parent := None, placed := false)
    requires z != w[c].kids[i] ==> r[z] == b[z]
    ensures r[z] == Bump(HangLinks(Bump(UnhangLinks(w, c, i), cs, l), c, i, x), cs, e)[z]
  {
    hide Bump;
    var v := UnhangLinks(w, c, i);
    var u := Bump(v, cs, l);
    BumpAt(v, cs, l, c);
    BumpAt(v, cs, l, x);
    BumpAt(v, cs, l, z);
    Spliced(w[c].kids, i, x);
    BumpAt(HangLinks(u, c, i, x), cs, e, z);
    BumpAt(SwapLinks(w, c, i, x), cs, l + e, z);
  }

  lemma Spliced(s: seq<Item>, i: nat, x: Item)
    requires i < |s|
    ensures var rest := s[..i] + s[i + 1..]; rest[..i] + [x] + rest[i..] == s[i := x]
  {
  }

  lemma BumpAt(w: World<Item>, cs: set<Item>, d: int, z: Item)
    requires z in w
    ensures var r := Bump(w, cs, d);
      r.Keys == w.Keys && r[z] == if z in cs then w[z].(total := w[z].total + d) else w[z]
  {
  }

  /** Replacing a child keeps every total right. */
  lemma SwapConsistent(w: World<Item>, c: Item, i: nat, x: Item)
    requires Consistent(w) && CanSwap(w, c, i, x)
    ensures Consistent(Swap(w, c, i, x))
  {
    KidBelow(w, c, i);
    UnhangConsistent(w, c, i);
    UnhangUps(w, c, i);
    HangConsistent(Unhang(w, c, i), c, i, x);
  }

  /** Subtracting the weight before the links are cut gives the same snapshot as after. */
  lemma UnhangLate(w: World<Item>, c: Item, i: nat, d: int, b: World<Item>, r: World<Item>)
    requires IsForest(Ups(w)) && c in w && i < |w[c].kids| && w[c].kids[i] in w && w[c].kids[i] != c
    requires d == Loss(w, w[c].kids[i]) && b == Bump(w, Reach(w, c), d)
    requires var x := w[c].kids[i];
      && r.Keys == w.Keys
      && (forall y :: y in w && y != x && y != c ==> r[y] == b[y])
      && r[x] == b[x].(parent := None, placed := false)
      && r[c] == b[c].(kids := w[c].kids[..i] + w[c].kids[i + 1..])
    ensures r == Unhang(w, c, i)
  {
    hide IsForest, Reach;
    var u := Unhang(w, c, i);
    assert u == Bump(UnhangLinks(w, c, i), Reach(w, c), Loss(w, w[c].kids[i]));
    assert u.Keys == w.Keys;
    forall y | y in w ensures r[y] == u[y] {
      if y == c {
      } else if y == w[c].kids[i] {
      } else {
        assert r[y] == b[y];
      }
    }
  }
}
