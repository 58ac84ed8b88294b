/** Single operations on items: what each keeps, and what it makes or loses. */
module ItemSteps {
  import opened Options
  import opened Forest
  import opened ItemTree
  import opened ItemStock
  import opened ItemMove
  import opened ItemWalk
  import opened Descendants
  import opened ItemWeights
  import opened Containers
  import opened ItemAdd
  import opened ItemCopy
  import opened GameItems
  import opened DepotLimit
  import opened ItemTotals

  /** An operation on items, which are named by handles or are the objects themselves. */
  datatype Command<T> =
    | MoveItem(from: T, to: T, index: int, item: T, count: nat, flags: Flags, tradeItem: Option<T>)
    | AddItem(to: T, item: T, index: int, flags: Flags)
    | RemoveItem(item: T, pieces: int, flags: Flags, canRemove: bool)
    | UpdateItem(container: T, item: T, kind: Kind, count: nat)
    | ReplaceItem(container: T, slot: nat, item: T)
    | CreateItem(kind: Kind, count: nat)
    | CloneItem(item: T)
    | PlaceItem(item: T, placed: bool)        // a tile takes a loose item, or lets it go
    | FreeItem(item: T)                       // a cleanup deletes a loose item

  function Ref(o: Option<Item>): Item? {
    if o.Some? then o.value else null
  }

  /** What holds between operations. */
  ghost predicate Formed(w: World<Item>) {
    Consistent(w) && Hollow(w) && Typed(w)
  }

  ghost predicate StackFits(kind: Kind, count: nat) {
    kind.stackable ==> 1 <= count <= MAX_STACK
  }

  /** What the operations ask of their callers. */
  ghost predicate Doable(c: Command<Item>, w: World<Item>)
    requires Formed(w)
  {
    match c
    case MoveItem(from, to, index, item, count, flags, tradeItem) =>
      && from in w && to in w && item in w && to.isContainer && index >= INDEX_WHEREEVER && !flags.childIsOwner
      && Noticed(w, item, PlanFor(w, to, index, item, count, flags).dest)
    case AddItem(to, item, index, flags) => CanAsk(w, to, item, index, flags)
    case RemoveItem(item, pieces, flags, canRemove) =>
      item in w && pieces >= -1 && (w[item].placed ==> w[item].parent.Some?)
    case UpdateItem(container, item, kind, count) => container in w && item in w && StackFits(kind, count)
    case ReplaceItem(container, slot, item) =>
      && container in w && item in w && container.isContainer
      && w[item].parent == None && !w[item].placed && item !in Chain(Ups(w), container)
    case CreateItem(kind, count) => StackFits(kind, count)
    case CloneItem(item) => item in w
    case PlaceItem(item, placed) => item in w && w[item].parent == None
    case FreeItem(item) => item in w && w[item].parent == None && !w[item].placed && w[item].kids == []
  }

  ghost function Of(w: World<Item>, x: Item): Pile
    requires x in w
  {
    Pile(w[x].kind, w[x].count)
  }

  /** By how much an operation changes what lies in all containers together, per kind. */
  ghost function Change(c: Command<Item>, w: World<Item>, kind: Kind): int
    requires Formed(w) && Doable(c, w)
  {
    match c
    case MoveItem(from, to, index, item, count, flags, tradeItem) =>
      var plan := PlanFor(w, to, index, item, count, flags);
      if kind == w[item].kind && MayMove(w, from, item, count, flags, Ref(tradeItem), plan)
      then -Missing(w, plan.dest, plan.asked, item, count, flags) else 0
    case AddItem(to, item, index, flags) =>
      if kind == w[item].kind && MayAdd(w, to, item, index, flags)
      then w[item].count - Leftover(w, to, item, index, flags) else 0
    case RemoveItem(item, pieces, flags, canRemove) =>
      var n: int := Pieces(w, item, Wanted(w, item, pieces));
      if kind == w[item].kind && MayRemove(w, item, pieces, canRemove) then -n else 0
    case UpdateItem(container, item, kind', count) =>
      if item in w[container].kids then Amount(Pile(kind', count), kind) - Amount(Of(w, item), kind) else 0
    case ReplaceItem(container, slot, item) =>
      if slot < |w[container].kids|
      then assert w[container].kids[slot] in w[container].kids;
        Amount(Of(w, item), kind) - Amount(Of(w, w[container].kids[slot]), kind)
      else 0
    case CreateItem(_, _) => 0
    case CloneItem(item) => DeepCount(w, item, kind)
    case PlaceItem(_, _) => 0
    case FreeItem(_) => 0
  }

  /** Operations that respect limits: no FLAG_NOLIMIT, and what replaces a child holds nothing. */
  ghost predicate Polite(c: Command<Item>, w: World<Item>)
    requires Formed(w) && Doable(c, w)
  {
    match c
    case MoveItem(_, _, _, _, _, flags, _) => !flags.noLimit
    case AddItem(_, _, _, flags) => !flags.noLimit
    case ReplaceItem(_, _, item) => w[item].kids == []
    case _ => true
  }

  /** Those that respect capacities. */
  predicate Tidy(c: Command<Item>) {
    match c
    case MoveItem(_, _, _, _, _, flags, _) => !flags.noLimit
    case AddItem(_, _, _, flags) => !flags.noLimit && !flags.ignoreAutoStack
    case _ => true
  }

  /** Limited containers that are within their capacity stay within it. */
  ghost predicate KeepsFits(w: World<Item>, w': World<Item>) {
    forall x {:trigger w'[x]} ::
      x in w && x in w' && !x.pagination && |w[x].kids| <= x.maxSize ==> |w'[x].kids| <= x.maxSize
  }

  /** The contents of all containers change by exactly Change. */
  ghost predicate Accounted(c: Command<Item>, w: World<Item>, w': World<Item>)
    requires Formed(w) && Doable(c, w)
  {
    forall kind {:trigger Contents(w', kind)} :: Contents(w', kind) == Contents(w, kind) + Change(c, w, kind)
  }

  /** The totals of what an operation moves, takes out or copies are right. */
  ghost predicate MovesExact(c: Command<Item>, w: World<Item>)
    requires Formed(w) && Doable(c, w)
  {
    match c
    case MoveItem(_, _, _, item, _, _, _) => Exact(w, item)
    case AddItem(_, item, _, _) => Exact(w, item)
    case RemoveItem(item, _, _, _) => Exact(w, item)
    case ReplaceItem(container, slot, item) =>
      && Exact(w, item)
      && (slot < |w[container].kids| ==>
            assert w[container].kids[slot] in w[container].kids; Exact(w, w[container].kids[slot]))
    case CloneItem(item) => ExactWithin(w, item)
    case _ => true
  }

  /** Nothing that an operation moves or takes out is a chest or inbox. */
  ghost predicate MovesPlain(c: Command<Item>, w: World<Item>)
    requires Formed(w) && Doable(c, w)
  {
    match c
    case MoveItem(_, _, _, item, _, _, _) => !item.role.Skips()
    case AddItem(_, item, _, _) => !item.role.Skips()
    case RemoveItem(item, _, _, _) => !item.role.Skips()
    case ReplaceItem(container, slot, item) =>
      !item.role.Skips() && (slot < |w[container].kids| ==> !w[container].kids[slot].role.Skips())
    case _ => true
  }

  /** Totals stay right, and chests and inboxes where they are, as far as the operation lets them. */
  ghost predicate KeepsTotals(c: Command<Item>, w: World<Item>, w': World<Item>)
    requires Formed(w) && Doable(c, w) && Formed(w')
  {
    (MovesExact(c, w) ==> TotalsKept(w, w')) && (MovesPlain(c, w) ==> SameHosts(w, w'))
  }

  /** What one operation makes of a world. */
  ghost predicate Kept(c: Command<Item>, w: World<Item>, w': World<Item>)
    requires Formed(w) && Doable(c, w)
  {
    && Formed(w') && Accounted(c, w, w') && (forall x :: x in w ==> x in w' || c == FreeItem(x))
    && (Polite(c, w) ==> KeepsLimits(w, w')) && (Tidy(c) ==> KeepsFits(w, w')) && KeepsTotals(c, w, w')
  }

  // ---------------------------------------------------------------- moves

  // a move changes the parents of the item and of the stack it makes, and both end up in a container there was before
  lemma ParentsAfter(w: World<Item>, w': World<Item>, from: Item, item: Item, plan: Plan, clone: Item, x: Item)
    requires Carried(w, w', from, item, plan, clone) && x in w'
    ensures x in w || x == clone
    ensures x != item && x != clone ==> w'[x].parent == w[x].parent
    ensures w'[x].parent.Some? ==> w'[x].parent.value in w
  {
    MovedUps(w, w', from, item, plan, clone);
    assert x in w ==> Adopted(w, x);
    hide Moved;
    assert Ups(w')[x] == w'[x].parent;
    assert x in w ==> Ups(w)[x] == w[x].parent;
  }

  lemma CarriedLinked(w: World<Item>, w': World<Item>, from: Item, item: Item, plan: Plan, clone: Item)
    requires Carried(w, w', from, item, plan, clone)
    ensures Linked(w) && from in w && plan.dest in w && item in w
  {
  }

  lemma MoveTotals(w: World<Item>, w': World<Item>, from: Item, item: Item, plan: Plan, clone: Item)
    requires Carried(w, w', from, item, plan, clone) && Consistent(w') && Typed(w) && Typed(w') && Arrives(clone, item)
    ensures Exact(w, item) ==> TotalsKept(w, w')
    ensures !item.role.Skips() ==> SameHosts(w, w')
  {
    if Exact(w, item) {
      MovedTotals<Item>(w, from, plan.dest, item, plan.m, Opt(plan.toItem), clone, Drops(plan));
    }
    if !item.role.Skips() {
      MoveStays(w, w', from, item, plan, clone);
      CarriedLinked(w, w', from, item, plan, clone);
      hide Carried, Consistent, TotalsKept, Exact;
      forall k | k in w' && k.role.Skips() ensures k in w && w'[k].parent == w[k].parent {
        ParentsAfter(w, w', from, item, plan, clone, k);
      }
      HostsStay(w, w');
    }
  }

  lemma MoveHollow(w: World<Item>, w': World<Item>, from: Item, item: Item, plan: Plan, clone: Item)
    requires Carried(w, w', from, item, plan, clone) && Consistent(w') && Arrives(clone, item)
    requires Hollow(w) && plan.dest.isContainer
    ensures Hollow(w')
  {
    forall x | x in w' && !x.isContainer ensures w'[x].kids == [] {
      if x in w {
        assert w[x].kids == [];
        MovedSizes(w, from, plan.dest, item, plan.m, Opt(plan.toItem), clone, Drops(plan), x);
      } else {
        NewIsEmpty(w, w', from, item, plan, clone, x);
      }
    }
  }

  lemma MoveKeepsFits(w: World<Item>, w': World<Item>, from: Item, item: Item, count: nat, flags: Flags,
                      tradeItem: Item?, plan: Plan, clone: Item)
    requires Settled(w, from, item, count, flags, tradeItem, plan) && Carried(w, w', from, item, plan, clone)
    requires !flags.noLimit && !flags.childIsOwner
    ensures KeepsFits(w, w')
  {
    hide Settled, Carried;
    forall x | x in w && x in w' && !x.pagination && |w[x].kids| <= x.maxSize ensures |w'[x].kids| <= x.maxSize {
      MoveFits(w, w', from, item, count, flags, tradeItem, plan, clone, x);
    }
  }

  lemma NewIsEmpty(w: World<Item>, w': World<Item>, from: Item, item: Item, plan: Plan, clone: Item, x: Item)
    requires Carried(w, w', from, item, plan, clone) && Consistent(w') && x in w' && x !in w && Arrives(clone, item)
    ensures w'[x].kids == [] && !x.pagination
  {
    ParentsAfter(w, w', from, item, plan, clone, x);
    assert item in w;
    if w'[x].kids != [] {
      var k := w'[x].kids[0];
      assert k in w'[x].kids;
      ParentsAfter(w, w', from, item, plan, clone, k);
    }
  }

  lemma {:induction false} MoveContents(w: World<Item>, w': World<Item>, from: Item, item: Item, count: nat,
                                        flags: Flags, tradeItem: Item?, plan: Plan, clone: Item, kind: Kind)
    requires Settled(w, from, item, count, flags, tradeItem, plan) && Carried(w, w', from, item, plan, clone)
    ensures Consistent(w')
    ensures Contents(w', kind) == Contents(w, kind) - (if kind == w[item].kind then Lost(w, item, plan) else 0)
  {
    CarriedLinked(w, w', from, item, plan, clone);
    hide Settled, Carried, Stock, Pieces, IsForest, Lost, Overflows;
    MoveConserves(w, w', from, item, count, flags, tradeItem, plan, clone, w.Keys, kind);
    forall x | x in w' && w'[x].parent.Some? ensures w'[x].parent.value in w {
      ParentsAfter(w, w', from, item, plan, clone, x);
    }
    MoveStays(w, w', from, item, plan, clone);
    OldHolders(w, w', kind);
  }

  /** When everything lies in what was there before, only that has contents. */
  lemma OldHolders(w: World<Item>, w': World<Item>, kind: Kind)
    requires w.Keys <= w'.Keys
    requires forall x {:trigger w'[x]} :: x in w' && w'[x].parent.Some? ==> w'[x].parent.value in w
    ensures Contents(w', kind) == Stock(w', w.Keys, kind)
  {
    assert Piles(w', w'.Keys) == Piles(w', w.Keys);
    SamePiles(w', w'.Keys, w.Keys, kind);
  }

  lemma SamePiles(w: World<Item>, cs: set<Item>, ds: set<Item>, kind: Kind)
    requires Piles(w, cs) == Piles(w, ds)
    ensures Stock(w, cs, kind) == Stock(w, ds, kind)
  {
  }

  lemma MoveStays(w: World<Item>, w': World<Item>, from: Item, item: Item, plan: Plan, clone: Item)
    requires Carried(w, w', from, item, plan, clone)
    ensures w.Keys <= w'.Keys
  {
    forall x | x in w ensures x in w' {
      MovedSizes(w, from, plan.dest, item, plan.m, Opt(plan.toItem), clone, Drops(plan), x);
    }
  }

  lemma PlanHolds(w: World<Item>, to: Item, index: int, item: Item, count: nat, flags: Flags)
    requires Shaped(w) && Hollow(w) && to in w && item in w && to.isContainer && index >= INDEX_WHEREEVER
    ensures PlanFor(w, to, index, item, count, flags).dest.isContainer
  {
    DestinationHolds(w, to, index, item, flags);
    DestinationHolds(w, Destination(w, to, index, item, flags).dest, INDEX_WHEREEVER, item, flags);
  }

  lemma MoveKept(w: World<Item>, w': World<Item>, c: Command<Item>, clone: Item)
    requires Formed(w) && c.MoveItem? && Doable(c, w)
    requires var plan := PlanFor(w, c.to, c.index, c.item, c.count, c.flags);
      && MayMove(w, c.from, c.item, c.count, c.flags, Ref(c.tradeItem), plan)
      && Settled(w, c.from, c.item, c.count, c.flags, Ref(c.tradeItem), plan)
      && Carried(w, w', c.from, c.item, plan, clone) && Arrives(clone, c.item)
    requires Typed(w')
    ensures Kept(c, w, w')
  {
    hide Settled, Carried, Missing, Lost, PlanFor, MayMove, Contents, IsForest, KeepsLimits, KeepsFits, Stacked, Linked,
      TotalsKept, SameHosts, Exact, Noticed, Typed;
    var from, item, count, flags, trade := c.from, c.item, c.count, c.flags, Ref(c.tradeItem);
    var plan := PlanFor(w, c.to, c.index, item, count, flags);
    PlanHolds(w, c.to, c.index, item, count, flags);
    PlanForIs(w, c.to, c.index, item, count, flags);
    RedirectedHere(w, c.to, c.index, item, flags);
    MoveLosesExactly(w, from, c.to, c.index, item, count, flags, trade);
    MoveContents(w, w', from, item, count, flags, trade, plan, clone, item.kind);
    forall kind ensures Contents(w', kind) == Contents(w, kind) + Change(c, w, kind) {
      MoveContents(w, w', from, item, count, flags, trade, plan, clone, kind);
    }
    MoveStays(w, w', from, item, plan, clone);
    MoveTotals(w, w', from, item, plan, clone);
    MoveHollow(w, w', from, item, plan, clone);
    if !flags.noLimit {
      MoveKeepsLimits(w, w', from, item, count, flags, trade, plan, clone);
      MoveKeepsFits(w, w', from, item, count, flags, trade, plan, clone);
    }
  }

  lemma NothingKept(w: World<Item>, c: Command<Item>)
    requires Formed(w) && Doable(c, w) && forall kind :: Change(c, w, kind) == 0
    ensures Kept(c, w, w)
  {
    NothingTotals(w);
    hide Consistent, Hollow, Typed, Change, Contents, Doable, MovesExact, MovesPlain, Exact;
  }

  // ---------------------------------------------------------------- additions

  /** The pieces that lie in one container or another. */
  lemma StockSplit(w: World<Item>, cs: set<Item>, c: Item, kind: Kind)
    requires c in cs
    ensures Stock(w, cs, kind) == Stock(w, cs - {c}, kind) + Stock(w, {c}, kind)
  {
    assert Piles(w, cs) == Piles(w, cs - {c}) + Piles(w, {c});
    StockJoin(Piles(w, cs - {c}), Piles(w, {c}), kind);
  }

  lemma {:induction false} StockJoin(m: map<Item, Pile>, n: map<Item, Pile>, kind: Kind)
    requires m.Keys !! n.Keys
    ensures StockSum(m + n, kind) == StockSum(m, kind) + StockSum(n, kind)
    decreases |n|
  {
    if n == map[] {
      assert m + n == m;
    } else {
      hide StockSum;
      var x :| x in n;
      var rest := n - {x};
      MapSplit(m, n, x);
      StockJoin(m, rest, kind);
      StockPut<Item>(rest, x, n[x], kind);
      StockPut<Item>(m + rest, x, n[x], kind);
    }
  }

  lemma MapSplit(m: map<Item, Pile>, n: map<Item, Pile>, x: Item)
    requires x in n
    ensures |n - {x}| < |n| && n == (n - {x})[x := n[x]] && m + n == (m + (n - {x}))[x := n[x]]
  {
    assert (n - {x}).Keys == n.Keys - {x};
  }

  /** What flows into one container flows into any set that holds it. */
  lemma {:induction false} FlowsTotal(w: World<Item>, w': World<Item>, dest: Item, of: Kind, k: int, cs: set<Item>,
                                      kind: Kind)
    requires Flows(w, w', dest, of, k) && cs <= w.Keys
    ensures Stock(w', cs, kind) == Stock(w, cs, kind) + (if dest in cs && kind == of then k else 0)
    decreases cs
  {
    if cs == {} {
      assert Piles(w, cs) == map[] && Piles(w', cs) == map[];
    } else {
      var c :| c in cs;
      FlowsTotal(w, w', dest, of, k, cs - {c}, kind);
      StockSplit(w, cs, c, kind);
      StockSplit(w', cs, c, kind);
      assert Flow(w, w', dest, of, k, c, kind);
    }
  }

  lemma AddContents(w: World<Item>, w': World<Item>, dest: Item, of: Kind, k: int, kind: Kind)
    requires Consistent(w) && dest in w && Grown(w, w', dest) && Flows(w, w', dest, of, k)
    ensures Contents(w', kind) == Contents(w, kind) + (if kind == of then k else 0)
  {
    FlowsTotal(w, w', dest, of, k, w.Keys, kind);
    forall x | x in w' && w'[x].parent.Some? ensures w'[x].parent.value in w {
      assert Adopted(w', x);
    }
    OldHolders(w, w', kind);
  }

  lemma {:induction false} AddKept(w: World<Item>, w': World<Item>, c: Command<Item>)
    requires Formed(w) && c.AddItem? && Doable(c, w) && MayAdd(w, c.to, c.item, c.index, c.flags)
    requires Added(w, w', Destination(w, c.to, c.index, c.item, c.flags).dest, w[c.item].kind,
      w[c.item].count - Leftover(w, c.to, c.item, c.index, c.flags), c.flags)
    requires Typed(w') && (forall x {:trigger w'[x]} :: x in w && x != c.item ==> w'[x].parent == w[x].parent)
    requires IsForest(Ups(w')) && (Exact(w, c.item) ==> TotalsKept(w, w'))
    ensures Kept(c, w, w')
  {
    hide Leftover, MayAdd, Destination, Contents, KeepsLimits, Flows, IsForest, Exact, TotalsKept, SameHosts;
    var dest := Destination(w, c.to, c.index, c.item, c.flags).dest;
    var k := w[c.item].count - Leftover(w, c.to, c.item, c.index, c.flags);
    forall kind ensures Contents(w', kind) == Contents(w, kind) + Change(c, w, kind) {
      AddContents(w, w', dest, w[c.item].kind, k, kind);
    }
    if !c.item.role.Skips() {
      HostsStay(w, w');
    }
    hide Consistent, Hollow, Typed;
  }

  // ---------------------------------------------------------------- removals

  lemma {:induction false} RemoveAccounted(w: World<Item>, w': World<Item>, c: Command<Item>)
    requires Formed(w) && c.RemoveItem? && Doable(c, w) && MayRemove(w, c.item, c.pieces, c.canRemove)
    requires var n := Wanted(w, c.item, c.pieces);
      CanTake(w, w[c.item].parent.value, c.item, n) && w' == Taken(w, w[c.item].parent.value, c.item, n)
    requires w'.Keys == w.Keys
    ensures Accounted(c, w, w')
  {
    hide Taken, Consistent, Hollow, Typed;
    forall kind ensures Contents(w', kind) == Contents(w, kind) + Change(c, w, kind) {
      TakenStock(w, w[c.item].parent.value, c.item, Wanted(w, c.item, c.pieces), w.Keys, kind);
    }
  }

  lemma {:induction false} RemoveKept(w: World<Item>, w': World<Item>, c: Command<Item>)
    requires Formed(w) && c.RemoveItem? && Doable(c, w) && MayRemove(w, c.item, c.pieces, c.canRemove)
    requires var n := Wanted(w, c.item, c.pieces);
      CanTake(w, w[c.item].parent.value, c.item, n) && w' == Taken(w, w[c.item].parent.value, c.item, n)
    requires Typed(w')
    ensures Kept(c, w, w')
  {
    hide Taken, Consistent, Hollow, Typed, KeepsLimits, KeepsFits, TotalsKept, SameHosts, Exact, Accounted, IsForest;
    var item, from, n := c.item, w[c.item].parent.value, Wanted(w, c.item, c.pieces);
    TakenConsistent(w, from, item, n);
    RemoveLimits(w, w', from, item, n);
    RemoveShape(w, w', from, item, n);
    RemoveTotals(w, w', from, item, n);
    RemoveAccounted(w, w', c);
  }

  lemma RemoveShape(w: World<Item>, w': World<Item>, from: Item, item: Item, n: nat)
    requires Formed(w) && CanTake(w, from, item, n) && w' == Taken(w, from, item, n)
    ensures Hollow(w') && KeepsFits(w, w') && w'.Keys == w.Keys
  {
    TakenFrame(w, from, item, n);
    hide Taken, Consistent;
  }

  lemma RemoveTotals(w: World<Item>, w': World<Item>, from: Item, item: Item, n: nat)
    requires Formed(w) && CanTake(w, from, item, n) && w' == Taken(w, from, item, n) && Typed(w')
    ensures IsForest(Ups(w')) && (Exact(w, item) ==> TotalsKept(w, w')) && (!item.role.Skips() ==> SameHosts(w, w'))
  {
    TakenConsistent(w, from, item, n);
    TakenFrame(w, from, item, n);
    if Exact(w, item) {
      TakenTotals<Item>(w, from, item, n);
    }
    if !item.role.Skips() {
      hide Taken, Exact, TotalsKept, IsForest;
      HostsStay(w, w');
    }
  }

  lemma {:induction false} RemoveLimits(w: World<Item>, w': World<Item>, from: Item, item: Item, n: nat)
    requires Formed(w) && CanTake(w, from, item, n) && w' == Taken(w, from, item, n)
    ensures IsForest(Ups(w')) && KeepsLimits(w, w')
  {
    TakenConsistent(w, from, item, n);
    hide Taken, Watched;
    if TakesAll(w, item, n) {
      forall c | c in w && WithinLimit(w, c) ensures WithinLimit(w', c) {
        CutCount<Item>(Ups(w), item, c);
      }
    } else {
      SameUpsLimits(w, w');
    }
  }

  // ---------------------------------------------------------------- updates and replacements

  lemma UpdateKept(w: World<Item>, w': World<Item>, c: Command<Item>)
    requires Formed(w) && c.UpdateItem? && Doable(c, w) && c.item in w[c.container].kids
    requires w' == Reshape(w, c.item, c.kind, c.count) && Typed(w')
    ensures Kept(c, w, w')
  {
    ReshapeConsistent(w, c.item, c.kind, c.count);
    ReshapeTotals<Item>(w, c.item, c.kind, c.count);
    SameUpsLimits(w, w');
    assert w[c.item].parent == Some(c.container);
    UpdateShape(w, w', c.item, c.kind, c.count);
    hide Consistent, Reshape, KeepsLimits, Hollow, Typed, KeepsFits, TotalsKept, SameHosts, Exact;
    forall kind ensures Contents(w', kind) == Contents(w, kind) + Change(c, w, kind) {
      ReshapeStock(w, c.item, c.kind, c.count, w.Keys, kind);
    }
  }

  lemma UpdateShape(w: World<Item>, w': World<Item>, x: Item, kind: Kind, count: nat)
    requires Formed(w) && x in w && w' == Reshape(w, x, kind, count) && Typed(w')
    ensures Hollow(w') && KeepsFits(w, w') && w'.Keys == w.Keys && SameHosts(w, w')
  {
    ReshapeFrame<Item>(w, x, kind, count);
    hide Reshape, IsForest, SameHosts;
    forall y | y in w ensures w'[y].kids == w[y].kids && w'[y].parent == w[y].parent {
      assert y == x || Same(w, w', y);
    }
    HostsStay(w, w');
  }

  lemma {:induction false} ReplaceAccounted(w: World<Item>, w': World<Item>, c: Command<Item>)
    requires Formed(w) && c.ReplaceItem? && Doable(c, w) && c.slot < |w[c.container].kids|
    requires CanSwap(w, c.container, c.slot, c.item) && w' == Swap(w, c.container, c.slot, c.item)
    ensures Accounted(c, w, w')
  {
    var former := w[c.container].kids[c.slot];
    assert former in w[c.container].kids;
    hide Swap, Contents, IsForest;
    forall kind ensures Contents(w', kind) == Contents(w, kind) + Change(c, w, kind) {
      SwapStock(w, c.container, c.slot, c.item, kind);
    }
  }

  lemma {:induction false} ReplaceTotals(w: World<Item>, w': World<Item>, c: Command<Item>)
    requires Formed(w) && c.ReplaceItem? && Doable(c, w) && c.slot < |w[c.container].kids| && Formed(w')
    requires CanSwap(w, c.container, c.slot, c.item) && w' == Swap(w, c.container, c.slot, c.item)
    ensures KeepsTotals(c, w, w')
  {
    SwapShape(w, w', c.container, c.slot, c.item);
    hide Swap, Hollow, Typed, TotalsKept, SameHosts, Exact, KeepsFits;
    if MovesExact(c, w) {
      SwapTotals(w, c.container, c.slot, c.item);
    }
    hide IsForest, Linked;
  }

  lemma {:induction false} ReplaceKept(w: World<Item>, w': World<Item>, c: Command<Item>)
    requires Formed(w) && c.ReplaceItem? && Doable(c, w) && c.slot < |w[c.container].kids|
    requires CanSwap(w, c.container, c.slot, c.item) && w' == Swap(w, c.container, c.slot, c.item) && Typed(w')
    ensures Kept(c, w, w')
  {
    SwapConsistent(w, c.container, c.slot, c.item);
    SwapShape(w, w', c.container, c.slot, c.item);
    ReplaceAccounted(w, w', c);
    ReplaceTotals(w, w', c);
    hide Swap, Consistent, Hollow, Typed, KeepsLimits, KeepsFits, Accounted, KeepsTotals, SameHosts;
    if w[c.item].kids == [] {
      SwapLimits(w, w', c.container, c.slot, c.item);
    }
  }

  lemma {:induction false} SwapShape(w: World<Item>, w': World<Item>, c: Item, i: nat, x: Item)
    requires Formed(w) && CanSwap(w, c, i, x) && w' == Swap(w, c, i, x) && c.isContainer && Typed(w')
    ensures Hollow(w') && KeepsFits(w, w') && w'.Keys == w.Keys
    ensures !x.role.Skips() && !w[c].kids[i].role.Skips() ==> SameHosts(w, w')
  {
    SwapFrame(w, c, i, x);
    var former := w[c].kids[i];
    hide Swap, IsForest, SameHosts, CanSwap;
    if !x.role.Skips() && !former.role.Skips() {
      HostsStay(w, w');
    }
  }

  lemma {:induction false} SwapFrame(w: World<Item>, c: Item, i: nat, x: Item)
    requires Consistent(w) && CanSwap(w, c, i, x)
    ensures var r, former := Swap(w, c, i, x), w[c].kids[i];
      && r.Keys == w.Keys && |r[c].kids| == |w[c].kids|
      && (forall y {:trigger r[y]} :: y in w && y != c ==> r[y].kids == w[y].kids)
      && (forall y {:trigger r[y]} :: y in w && y != x && y != former ==> r[y].parent == w[y].parent)
  {
    KidBelow(w, c, i);
    UnhangUps(w, c, i);
    UnhangFrame<Item>(w, c, i);
    HangFrame<Item>(Unhang(w, c, i), c, i, x);
    var u, r, former := Unhang(w, c, i), Swap(w, c, i, x), w[c].kids[i];
    assert r == Hang(u, c, i, x);
    hide Unhang, Hang, IsForest, Swap, Consistent;
    forall y | y in w
      ensures y != c ==> r[y].kids == w[y].kids
      ensures y != x && y != former ==> r[y].parent == w[y].parent
    {
      assert y != former && y != c ==> Same(w, u, y);
      assert y != x && y != c ==> Same(u, r, y);
    }
  }

  lemma {:induction false} SwapStock(w: World<Item>, c: Item, i: nat, x: Item, kind: Kind)
    requires Formed(w) && CanSwap(w, c, i, x)
    ensures Swap(w, c, i, x).Keys == w.Keys
    ensures Contents(Swap(w, c, i, x), kind) ==
      Contents(w, kind) + Amount(Of(w, x), kind) - Amount(Of(w, w[c].kids[i]), kind)
  {
    KidBelow(w, c, i);
    UnhangUps(w, c, i);
    UnhangStock(w, c, i, w.Keys, kind);
    var u := Unhang(w, c, i);
    assert u[x].kind == w[x].kind && u[x].count == w[x].count && u[x].parent == None && i <= |u[c].kids|;
    HangStock(u, c, i, x, w.Keys, kind);
  }

  /** One child leaves and one that holds nothing comes. */
  lemma {:induction false} SwapLimits(w: World<Item>, w': World<Item>, c: Item, i: nat, x: Item)
    requires Formed(w) && CanSwap(w, c, i, x) && w' == Swap(w, c, i, x) && w[x].kids == []
    ensures IsForest(Ups(w')) && KeepsLimits(w, w')
  {
    var up, former := Ups(w), w[c].kids[i];
    KidBelow(w, c, i);
    UnhangConsistent(w, c, i);
    UnhangUps(w, c, i);
    HangConsistent(Unhang(w, c, i), c, i, x);
    var up1 := up[former := None];
    assert Ups(w') == up1[x := Some(c)] && up[former] == Some(c);
    KidlessBelow<Item>(w, x);
    CutRoot<Item>(up, former, c);
    CutCount<Item>(up, former, x);
    hide Swap, Unhang, Watched, IsForest, Chain;
    forall r | r in w && WithinLimit(w, r) ensures WithinLimit(w', r) {
      CutCount<Item>(up, former, r);
      LinkCount<Item>(up1, x, c, r);
    }
  }

  // ---------------------------------------------------------------- items come and go

  lemma CreateKept(w: World<Item>, x: Item, c: Command<Item>)
    requires Formed(w) && c.CreateItem? && Doable(c, w) && x !in w && x.role == Plain
    ensures Kept(c, w, Enter(w, x, c.kind, c.count))
  {
    var w' := Enter(w, x, c.kind, c.count);
    EnterConsistent(w, x, c.kind, c.count);
    EnterTotals<Item>(w, x, c.kind, c.count);
    HostsStay(w, w');
    JoinLimits(w, w', x);
    forall kind ensures Contents(w', kind) == Contents(w, kind) {
      EnterContents(w, x, c.kind, c.count, kind);
    }
    hide Consistent, KeepsLimits, Contents, TotalsKept, SameHosts;
  }

  lemma FreeKept(w: World<Item>, c: Command<Item>)
    requires Formed(w) && c.FreeItem? && Doable(c, w)
    ensures Kept(c, w, w - {c.item})
  {
    var x, w' := c.item, w - {c.item};
    LeaveConsistent(w, x);
    LeaveTotals<Item>(w, x);
    HostsStay(w, w');
    KidlessBelow<Item>(w, x);
    forall r | r in w' && WithinLimit(w, r) ensures WithinLimit(w', r) {
      LeaveElsewhere<Item>(Ups(w), x, r);
    }
    forall kind ensures Contents(w', kind) == Contents(w, kind) {
      LeaveContents(w, x, kind);
    }
    hide Consistent, KeepsLimits, Contents, TotalsKept, SameHosts;
  }

  lemma LeaveContents(w: World<Item>, x: Item, kind: Kind)
    requires Consistent(w) && x in w && w[x].parent == None && w[x].kids == []
    ensures Contents(w - {x}, kind) == Contents(w, kind)
  {
    LeaveStock(w, x, w.Keys, kind);
    forall y | y in w && w[y].parent.Some? ensures w[y].parent.value in w && w[y].parent != Some(x) {
      assert Adopted(w, y);
    }
    var v := w - {x};
    assert Piles(v, v.Keys) == Piles(v, w.Keys);
    SamePiles(v, v.Keys, w.Keys, kind);
  }

  lemma {:induction false} PlaceShape(w: World<Item>, w': World<Item>, x: Item, placed: bool)
    requires Formed(w) && x in w && w' == w[x := w[x].(placed := placed)]
    ensures Formed(w') && TotalsKept(w, w') && SameHosts(w, w') && KeepsLimits(w, w') && KeepsFits(w, w')
  {
    PlaceTotals(w, x, placed);
    SameUpsLimits(w, w');
    hide IsForest, KeepsLimits, TotalsKept, SameHosts, Exact;
    HostsStay(w, w');
  }

  lemma {:induction false} PlaceKept(w: World<Item>, w': World<Item>, c: Command<Item>)
    requires Formed(w) && c.PlaceItem? && Doable(c, w) && w' == w[c.item := w[c.item].(placed := c.placed)]
    ensures Kept(c, w, w')
  {
    PlaceShape(w, w', c.item, c.placed);
    hide Consistent, Hollow, Typed, KeepsLimits, KeepsFits, TotalsKept, SameHosts, Exact, IsForest;
    forall kind ensures Contents(w', kind) == Contents(w, kind) {
      assert Piles(w', w'.Keys) == Piles(w, w.Keys);
    }
  }

  lemma CloneKept(w: World<Item>, w': World<Item>, c: Command<Item>, copy: Item)
    requires Formed(w) && c.CloneItem? && Doable(c, w) && Copied(w, c.item, w, w', copy) && Typed(w')
    ensures Kept(c, w, w')
  {
    CloneLimits(w, w');
    CopyTotals(w, c.item, w', copy);
    CloneHosts(w, w', copy);
    hide Mirrors, DeepCount, Contents, Consistent, KeepsLimits, TotalsKept, SameHosts, ExactWithin, Chain;
    forall x | x in w' && !x.isContainer ensures w'[x].kids == [] {
      assert x in w ==> w'[x] == w[x];
    }
  }

  lemma CloneHosts(w: World<Item>, w': World<Item>, copy: Item)
    requires Formed(w) && Extends(w, w', copy) && Typed(w')
    ensures SameHosts(w, w')
  {
    hide Chain, IsForest, SameHosts;
    forall k | k in w' && k.role.Skips() ensures k in w && w'[k].parent == w[k].parent {
      assert k in w ==> w'[k] == w[k];
    }
    HostsStay(w, w');
  }

  /** What is new lies in nothing old. */
  lemma {:induction false} CloneLimits(w: World<Item>, w': World<Item>)
    requires Consistent(w) && Shaped(w') && PartOf(w, w')
    ensures KeepsLimits(w, w')
  {
    var up, up' := Ups(w), Ups(w');
    forall x | x in w ensures up'[x] == up[x] {
      assert w'[x] == w[x];
    }
    forall x | x in w' && x !in w && w'[x].parent.Some? ensures w'[x].parent.value !in w {
      assert Adopted(w', x);
    }
    forall r | r in w ensures Below(up', r) == Below(up, r) {
      forall y | y in w' ensures y in Below(up', r) <==> y in Below(up, r) {
        if y in w {
          PartChain<Item>(up, up', y);
        } else {
          NewChain(up, up', y);
        }
      }
    }
    hide Watched, IsForest;
  }

  lemma {:induction false} NewChain(up: Up<Item>, up': Up<Item>, y: Item)
    requires IsForest(up') && y in up' && y !in up
    requires forall x :: x in up' && x !in up && up'[x].Some? ==> up'[x].value !in up
    ensures Chain(up', y) !! up.Keys
    decreases Depth<Item>(up', y)
  {
    if up'[y].Some? {
      DepthStep<Item>(up', y);
      NewChain(up, up', up'[y].value);
    }
  }
}
