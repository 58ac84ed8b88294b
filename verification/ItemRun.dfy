/** Whole runs of operations on items: what holds in every world they reach, and what they make and lose. */
module ItemRun {
  import opened Options
  import opened Forest
  import opened ItemTree
  import opened ItemWeights
  import opened Containers
  import opened ItemAdd
  import opened ItemCopy
  import opened GameItems
  import opened ItemTotals
  import opened ItemSteps

  // ---------------------------------------------------------------- what the methods ask and answer

  lemma GameValid(game: Game)
    requires Formed(Snap(game.world))
    ensures game.Valid()
  {
  }

  lemma FormedFacts(w: World<Item>)
    requires Formed(w)
    ensures Consistent(w) && Shaped(w) && IsForest(Ups(w)) && Hollow(w)
  {
  }

  lemma MoveAsked(w: World<Item>, c: Command<Item>)
    requires Formed(w) && c.MoveItem? && Doable(c, w)
    ensures c.from in w && c.to in w && c.item in w && c.index >= INDEX_WHEREEVER && !c.flags.childIsOwner
    ensures Noticed(w, c.item, PlanFor(w, c.to, c.index, c.item, c.count, c.flags).dest)
  {
  }

  lemma MoveRefused(w: World<Item>, c: Command<Item>)
    requires Formed(w) && c.MoveItem? && Doable(c, w)
    requires !MayMove(w, c.from, c.item, c.count, c.flags, Ref(c.tradeItem),
      PlanFor(w, c.to, c.index, c.item, c.count, c.flags))
    ensures forall kind :: Change(c, w, kind) == 0
  {
    hide MayMove, PlanFor, Missing, Consistent, Hollow, Typed;
  }

  lemma AddAsked(w: World<Item>, c: Command<Item>)
    requires Formed(w) && c.AddItem? && Doable(c, w)
    ensures CanAsk(w, c.to, c.item, c.index, c.flags) && c.item in w
  {
  }

  lemma AddStays(w: World<Item>, w': World<Item>, c: Command<Item>, dest: Item, released: seq<Item>)
    requires Formed(w) && c.AddItem? && Doable(c, w)
    requires Fate(w, w', dest, c.item, released, Absorbed(w, c.to, c.item, c.index, c.flags),
      PutIn(w, c.to, c.item, c.index, c.flags))
    ensures w.Keys <= w'.Keys && forall x {:trigger w'[x]} :: x in w && x != c.item ==> w'[x].parent == w[x].parent
  {
  }

  lemma AddRefused(w: World<Item>, c: Command<Item>)
    requires Formed(w) && c.AddItem? && Doable(c, w) && !MayAdd(w, c.to, c.item, c.index, c.flags)
    ensures forall kind :: Change(c, w, kind) == 0
  {
    hide MayAdd, Leftover, Consistent, Hollow, Typed;
  }

  lemma RemoveRefused(w: World<Item>, c: Command<Item>)
    requires Formed(w) && c.RemoveItem? && Doable(c, w) && !MayRemove(w, c.item, c.pieces, c.canRemove)
    ensures forall kind :: Change(c, w, kind) == 0
  {
    hide MayRemove, Consistent, Hollow, Typed;
  }

  lemma RemoveAsked(w: World<Item>, c: Command<Item>)
    requires Formed(w) && c.RemoveItem? && Doable(c, w)
    ensures c.item in w && c.pieces >= -1 && (w[c.item].placed ==> w[c.item].parent.Some?)
    ensures MayRemove(w, c.item, c.pieces, c.canRemove) ==> w[c.item].parent.Some?
  {
  }

  lemma UpdateAsked(w: World<Item>, c: Command<Item>)
    requires Formed(w) && c.UpdateItem? && Doable(c, w)
    ensures c.container in w && c.item in w
    ensures c.item !in w[c.container].kids ==> forall kind :: Change(c, w, kind) == 0
  {
    hide Consistent, Hollow, Typed;
  }

  lemma ReplaceAsked(w: World<Item>, c: Command<Item>)
    requires Formed(w) && c.ReplaceItem? && Doable(c, w)
    ensures c.container in w && c.item in w && w[c.item].parent == None && c.item !in Chain(Ups(w), c.container)
    ensures c.slot >= |w[c.container].kids| ==> forall kind :: Change(c, w, kind) == 0
  {
    hide Consistent, Hollow, Typed;
  }

  lemma CopyFormed(w: World<Item>, c: Command<Item>)
    requires Formed(w) && c.CloneItem? && Doable(c, w)
    ensures c.item in w && PartOf(w, w)
  {
  }

  // ---------------------------------------------------------------- single steps

  method DoMove(game: Game, c: Command<Item>)
    requires Formed(Snap(game.world)) && c.MoveItem? && Doable(c, Snap(game.world))
    modifies game, game.world
    ensures old(game.world) <= game.world && fresh(game.world - old(game.world))
    ensures Kept(c, old(Snap(game.world)), Snap(game.world))
  {
    hide *;
    ghost var w := Snap(game.world);
    SnapKeys(game.world);
    GameValid(game);
    FormedFacts(w);
    MoveAsked(w, c);
    var ret;
    ghost var move;
    ret, move := game.InternalMoveItem(c.from, c.to, c.index, c.item, c.count, c.flags, Ref(c.tradeItem));
    SnapTyped(game.world);
    if move.Done? {
      MoveKept(w, Snap(game.world), c, move.clone);
    } else {
      MoveRefused(w, c);
      NothingKept(w, c);
    }
  }

  method DoAdd(game: Game, c: Command<Item>)
    requires Formed(Snap(game.world)) && c.AddItem? && Doable(c, Snap(game.world))
    modifies game, game.world
    ensures old(game.world) <= game.world && fresh(game.world - old(game.world))
    ensures Kept(c, old(Snap(game.world)), Snap(game.world))
  {
    hide *;
    ghost var w := Snap(game.world);
    FormedFacts(w);
    AddAsked(w, c);
    ghost var was := game.toReleaseItems;
    var ret, remainder;
    ghost var dest;
    ret, remainder, dest := game.InternalAddItem(c.to, c.item, c.index, c.flags, false, w);
    ghost var released := game.toReleaseItems[|was|..];
    SnapTyped(game.world);
    if ret == NoError {
      AddStays(w, Snap(game.world), c, dest, released);
      ArrivedIs(w, c.item, remainder);
      AddKept(w, Snap(game.world), c);
    } else {
      AddRefused(w, c);
      NothingKept(w, c);
    }
  }

  method DoRemove(game: Game, c: Command<Item>)
    requires Formed(Snap(game.world)) && c.RemoveItem? && Doable(c, Snap(game.world))
    modifies game, game.world
    ensures game.world == old(game.world)
    ensures Kept(c, old(Snap(game.world)), Snap(game.world))
  {
    hide *;
    ghost var w := Snap(game.world);
    FormedFacts(w);
    RemoveAsked(w, c);
    var ret := game.InternalRemoveItem(c.item, c.pieces, false, c.flags, c.canRemove, w);
    if ret == NoError {
      SnapTyped(game.world);
      RemoveKept(w, Snap(game.world), c);
    } else {
      RemoveRefused(w, c);
      NothingKept(w, c);
    }
  }

  method DoUpdate(game: Game, c: Command<Item>)
    requires Formed(Snap(game.world)) && c.UpdateItem? && Doable(c, Snap(game.world))
    modifies game.world
    ensures Kept(c, old(Snap(game.world)), Snap(game.world))
  {
    hide *;
    ghost var w := Snap(game.world);
    SnapKeys(game.world);
    FormedFacts(w);
    UpdateAsked(w, c);
    SnapAt(game.world, c.container);
    c.container.UpdateThing(game.world, c.item, c.kind, c.count);
    if c.item in w[c.container].kids {
      SnapTyped(game.world);
      UpdateKept(w, Snap(game.world), c);
    } else {
      NothingKept(w, c);
    }
  }

  method DoReplace(game: Game, c: Command<Item>)
    requires Formed(Snap(game.world)) && c.ReplaceItem? && Doable(c, Snap(game.world))
    modifies game.world
    ensures Kept(c, old(Snap(game.world)), Snap(game.world))
  {
    hide *;
    ghost var w := Snap(game.world);
    SnapKeys(game.world);
    FormedFacts(w);
    ReplaceAsked(w, c);
    SnapAt(game.world, c.container);
    SnapAt(game.world, c.item);
    c.container.ReplaceThing(game.world, c.slot, c.item);
    if c.slot < |w[c.container].kids| {
      SnapTyped(game.world);
      ReplaceKept(w, Snap(game.world), c);
    } else {
      NothingKept(w, c);
    }
  }

  method DoCreate(game: Game, c: Command<Item>) returns (x: Item)
    requires Formed(Snap(game.world)) && c.CreateItem? && Doable(c, Snap(game.world))
    modifies game`world
    ensures fresh(x) && game.world == old(game.world) + {x}
    ensures Kept(c, old(Snap(game.world)), Snap(game.world))
  {
    hide *;
    ghost var w := Snap(game.world);
    SnapKeys(game.world);
    x := new Item(c.kind, c.count);
    EnteredSnap(game.world, x);
    game.world := game.world + {x};
    CreateKept(w, x, c);
  }

  lemma EnteredSnap(items: set<Item>, x: Item)
    requires x !in items && x.parent == null && x.itemlist == [] && x.totalWeight == 0 && !x.placed && x.role == Plain
    ensures Snap(items + {x}) == Enter(Snap(items), x, x.kind, x.count)
  {
  }

  method DoClone(game: Game, c: Command<Item>) returns (copy: Item)
    requires Formed(Snap(game.world)) && c.CloneItem? && Doable(c, Snap(game.world))
    modifies game`world
    ensures old(game.world) <= game.world && fresh(game.world - old(game.world)) && copy in game.world - old(game.world)
    ensures Kept(c, old(Snap(game.world)), Snap(game.world))
  {
    hide *;
    ghost var w := Snap(game.world);
    FormedFacts(w);
    CopyFormed(w, c);
    ghost var items;
    copy, items := Clone(game.world, c.item, w);
    game.world := items;
    SnapTyped(items);
    CloneKept(w, Snap(items), c, copy);
  }

  method DoPlace(game: Game, c: Command<Item>)
    requires Formed(Snap(game.world)) && c.PlaceItem? && Doable(c, Snap(game.world))
    modifies game.world
    ensures Kept(c, old(Snap(game.world)), Snap(game.world))
  {
    hide *;
    ghost var w := Snap(game.world);
    SnapKeys(game.world);
    PlaceAsked(w, c);
    SnapAt(game.world, c.item);
    c.item.SetTile(game.world, c.placed);
    PlaceKept(w, Snap(game.world), c);
  }

  lemma PlaceAsked(w: World<Item>, c: Command<Item>)
    requires Formed(w) && c.PlaceItem? && Doable(c, w)
    ensures c.item in w && w[c.item].parent == None
  {
  }

  method DoFree(game: Game, c: Command<Item>)
    requires Formed(Snap(game.world)) && c.FreeItem? && Doable(c, Snap(game.world))
    modifies game`world
    ensures game.world == old(game.world) - {c.item}
    ensures Kept(c, old(Snap(game.world)), Snap(game.world))
  {
    hide *;
    ghost var w := Snap(game.world);
    FreedSnap(game.world, c.item);
    game.world := game.world - {c.item};
    FreeKept(w, c);
  }

  lemma FreedSnap(items: set<Item>, x: Item)
    ensures Snap(items - {x}) == Snap(items) - {x}
  {
  }

  // ---------------------------------------------------------------- runs

  /** The items that the handles of a command stand for, if there are such. */
  function Named(c: Command<nat>, pool: seq<Item>): Option<Command<Item>> {
    match c
    case MoveItem(from, to, index, item, count, flags, tradeItem) =>
      if from < |pool| && to < |pool| && item < |pool| && (tradeItem.Some? ==> tradeItem.value < |pool|)
      then Some(MoveItem(pool[from], pool[to], index, pool[item], count, flags,
                         if tradeItem.Some? then Some(pool[tradeItem.value]) else None))
      else None
    case AddItem(to, item, index, flags) =>
      if to < |pool| && item < |pool| then Some(AddItem(pool[to], pool[item], index, flags)) else None
    case RemoveItem(item, pieces, flags, canRemove) =>
      if item < |pool| then Some(RemoveItem(pool[item], pieces, flags, canRemove)) else None
    case UpdateItem(container, item, kind, count) =>
      if container < |pool| && item < |pool| then Some(UpdateItem(pool[container], pool[item], kind, count)) else None
    case ReplaceItem(container, slot, item) =>
      if container < |pool| && item < |pool| then Some(ReplaceItem(pool[container], slot, pool[item])) else None
    case CreateItem(kind, count) => Some(CreateItem(kind, count))
    case CloneItem(item) => if item < |pool| then Some(CloneItem(pool[item])) else None
    case PlaceItem(item, placed) => if item < |pool| then Some(PlaceItem(pool[item], placed)) else None
    case FreeItem(item) => if item < |pool| then Some(FreeItem(pool[item])) else None
  }

  /** Every item of the pool exists, and is there once. */
  ghost predicate PoolOf(game: Game, pool: seq<Item>)
    reads game
  {
    NoDup(pool) && forall x :: x in pool ==> x in game.world
  }

  /** Whether item is c or c lies in it, by the parent pointers themselves. */
  method Encloses(ghost items: set<Item>, item: Item, c: Item) returns (inside: bool)
    requires c in items && IsForest(Ups(Snap(items)))
    ensures inside <==> item in Chain(Ups(Snap(items)), c)
  {
    hide IsForest, Chain, Snap;
    ghost var up := Ups(Snap(items));
    SnapKeys(items);
    var cur: Item? := c;
    while cur != null
      invariant cur != null ==> cur in items
      invariant item in Chain(up, c) <==> item in Above(up, Opt(cur))
      decreases if cur == null then 0 else 1 + Depth<Item>(up, cur)
    {
      SnapAt(items, cur);
      AboveStep<Item>(up, cur);
      if cur == item {
        return true;
      }
      cur := cur.parent;
    }
    inside := false;
  }

  /** Whether a query of dest would notice that item encloses it. */
  method Notices(game: Game, item: Item, dest: Item) returns (noticed: bool)
    requires dest in game.world && IsForest(Ups(Snap(game.world)))
    ensures noticed <==> Noticed(Snap(game.world), item, dest)
  {
    hide IsForest, Chain, Snap, Shielded, Reach;
    SnapKeys(game.world);
    ReachIff(Snap(game.world), dest, item);
    var inside := Encloses(game.world, item, dest);
    var met := game.LiesIn(dest, item);
    noticed := !inside || item == dest || (dest.role != Inbox && met);
  }

  /** Whether the callers' duties are met. */
  method Check(game: Game, pool: seq<Item>, d: Command<Item>, c: Command<nat>) returns (ok: bool)
    requires Formed(Snap(game.world)) && PoolOf(game, pool) && Named(c, pool) == Some(d)
    ensures ok <==> Doable(d, Snap(game.world))
  {
    ghost var w := Snap(game.world);
    assert Consistent(w) && IsForest(Ups(w)) && w.Keys == game.world;
    match d {
      case MoveItem(_, _, _, _, _, _, _) =>
        ok := CheckMove(game, d);
      case AddItem(_, _, _, _) =>
        ok := CheckAdd(game, d);
      case RemoveItem(item, pieces, flags, canRemove) =>
        SnapAt(game.world, item);
        ok := pieces >= -1 && (item.placed ==> item.parent != null);
      case UpdateItem(container, item, kind, count) =>
        ok := kind.stackable ==> 1 <= count <= MAX_STACK;
      case ReplaceItem(container, slot, item) =>
        SnapAt(game.world, item);
        var inside := Encloses(game.world, item, container);
        ok := container.isContainer && item.parent == null && !item.placed && !inside;
      case CreateItem(kind, count) =>
        ok := kind.stackable ==> 1 <= count <= MAX_STACK;
      case CloneItem(item) =>
        ok := true;
      case PlaceItem(item, placed) =>
        SnapAt(game.world, item);
        ok := item.parent == null;
      case FreeItem(item) =>
        SnapAt(game.world, item);
        ok := item.parent == null && !item.placed && item.itemlist == [];
    }
    hide Consistent, Hollow, Typed, IsForest;
  }

  method CheckMove(game: Game, d: Command<Item>) returns (ok: bool)
    requires Formed(Snap(game.world)) && d.MoveItem? && {d.from, d.to, d.item} <= game.world
    ensures ok <==> Doable(d, Snap(game.world))
  {
    ghost var w := Snap(game.world);
    GameValid(game);
    SnapKeys(game.world);
    FormedFacts(w);
    hide Formed, IsForest, Noticed, Resolved, PlanFor;
    ok := d.to.isContainer && d.index >= INDEX_WHEREEVER && !d.flags.childIsOwner;
    if ok {
      var dest, slot, toItem, hops := game.ResolveDestination(d.to, d.index, d.item, d.flags);
      PlanForIs(w, d.to, d.index, d.item, d.count, d.flags);
      ok := Notices(game, d.item, dest);
    }
  }

  method CheckAdd(game: Game, d: Command<Item>) returns (ok: bool)
    requires Formed(Snap(game.world)) && d.AddItem? && {d.to, d.item} <= game.world
    ensures ok <==> Doable(d, Snap(game.world))
  {
    ghost var w := Snap(game.world);
    SnapKeys(game.world);
    SnapAt(game.world, d.item);
    FormedFacts(w);
    hide Formed, IsForest, Noticed, Destination;
    ok := d.item.parent == null && !d.item.placed && d.to.isContainer && d.index >= INDEX_WHEREEVER
      && !d.flags.childIsOwner;
    if ok {
      var dest, slot, toItem := d.to.QueryDestination(game.world, d.index, d.item, d.flags);
      ok := Notices(game, d.item, dest);
    }
  }

  /** A new item comes last, a deleted one is taken out. */
  ghost predicate NextPool(c: Command<Item>, pool: seq<Item>, pool': seq<Item>, world: set<Item>) {
    match c
    case CreateItem(_, _) => |pool'| == |pool| + 1 && pool <= pool' && pool'[|pool|] !in world
    case CloneItem(_) => |pool'| == |pool| + 1 && pool <= pool' && pool'[|pool|] !in world
    case FreeItem(item) => (set y | y in pool') == (set y | y in pool && y != item)
    case _ => pool' == pool
  }

  /** One operation, whichever it is. */
  method Step(game: Game, pool: seq<Item>, c: Command<Item>) returns (pool': seq<Item>)
    requires Formed(Snap(game.world)) && PoolOf(game, pool) && Doable(c, Snap(game.world))
    modifies game, game.world
    ensures PoolOf(game, pool') && fresh(game.world - old(game.world)) && NextPool(c, pool, pool', old(game.world))
    ensures Kept(c, old(Snap(game.world)), Snap(game.world))
  {
    hide Formed, Doable, Kept, Snap, NoDup;
    pool' := pool;
    match c {
      case MoveItem(_, _, _, _, _, _, _) => DoMove(game, c);
      case AddItem(_, _, _, _) => DoAdd(game, c);
      case RemoveItem(_, _, _, _) => DoRemove(game, c);
      case UpdateItem(_, _, _, _) => DoUpdate(game, c);
      case ReplaceItem(_, _, _) => DoReplace(game, c);
      case CreateItem(_, _) =>
        var x := DoCreate(game, c);
        Joined(pool, x);
        pool' := pool + [x];
      case CloneItem(_) =>
        var x := DoClone(game, c);
        Joined(pool, x);
        pool' := pool + [x];
      case PlaceItem(_, _) => DoPlace(game, c);
      case FreeItem(item) =>
        DoFree(game, c);
        pool' := Dropped(pool, item);
    }
  }

  lemma Joined(pool: seq<Item>, x: Item)
    requires NoDup(pool) && x !in pool
    ensures NoDup(pool + [x]) && forall y :: y in pool + [x] <==> y in pool || y == x
  {
  }

  method Dropped(pool: seq<Item>, item: Item) returns (rest: seq<Item>)
    requires NoDup(pool)
    ensures NoDup(rest) && forall y :: y in rest <==> y in pool && y != item
  {
    if item in pool {
      var i :| 0 <= i < |pool| && pool[i] == item;
      DeleteMembers(pool, i);
      rest := pool[..i] + pool[i + 1..];
    } else {
      rest := pool;
    }
  }

  /** One turn of a run: the operation done, if any, made w' of w. */
  ghost predicate Turned(d: Option<Command<Item>>, w: World<Item>, w': World<Item>)
    requires Formed(w)
  {
    if d.Some? then Doable(d.value, w) && Kept(d.value, w, w') else w' == w
  }

  /** The worlds of a run follow one another. */
  ghost predicate Chained(done: seq<Option<Command<Item>>>, worlds: seq<World<Item>>) {
    && |worlds| == |done| + 1
    && (forall n :: 0 <= n < |worlds| ==> Formed(worlds[n]))
    && (forall n :: 0 <= n < |done| ==> Turned(done[n], worlds[n], worlds[n + 1]))
  }

  lemma ChainedMore(done: seq<Option<Command<Item>>>, worlds: seq<World<Item>>, d: Option<Command<Item>>,
                    w: World<Item>)
    requires Chained(done, worlds) && Formed(w) && Turned(d, worlds[|done|], w)
    ensures Chained(done + [d], worlds + [w])
  {
    hide Formed, Turned;
    var done', worlds' := done + [d], worlds + [w];
    forall n | 0 <= n < |worlds'| ensures Formed(worlds'[n]) {
      assert n < |worlds| ==> worlds'[n] == worlds[n];
    }
    forall n | 0 <= n < |done'| ensures Turned(done'[n], worlds'[n], worlds'[n + 1]) {
      assert n < |done| ==> done'[n] == done[n] && worlds'[n] == worlds[n] && worlds'[n + 1] == worlds[n + 1];
    }
  }

  /** A command is done exactly when the items it names exist and its caller's duties are met. */
  ghost function Decided(c: Command<nat>, pool: seq<Item>, w: World<Item>): Option<Command<Item>>
    requires Formed(w)
  {
    var d := Named(c, pool);
    if d.Some? && Doable(d.value, w) then d else None
  }

  /** The course of a run: what was done of the commands, and the items known and the worlds in between. */
  ghost predicate Course(commands: seq<Command<nat>>, done: seq<Option<Command<Item>>>, pools: seq<seq<Item>>,
                         worlds: seq<World<Item>>)
  {
    && Chained(done, worlds) && |done| == |commands| && |pools| == |worlds|
    && forall n :: 0 <= n < |commands| ==> Turn(commands[n], done[n], pools[n], pools[n + 1], worlds[n])
  }

  ghost predicate Turn(c: Command<nat>, d: Option<Command<Item>>, pool: seq<Item>, pool': seq<Item>, w: World<Item>)
    requires Formed(w)
  {
    d == Decided(c, pool, w) && if d.Some? then NextPool(d.value, pool, pool', w.Keys) else pool' == pool
  }

  lemma CourseMore(commands: seq<Command<nat>>, done: seq<Option<Command<Item>>>, pools: seq<seq<Item>>,
                   worlds: seq<World<Item>>, c: Command<nat>, d: Option<Command<Item>>, pool: seq<Item>, w: World<Item>)
    requires Course(commands, done, pools, worlds) && Formed(w) && Turned(d, worlds[|done|], w)
    requires Turn(c, d, pools[|done|], pool, worlds[|done|])
    ensures Course(commands + [c], done + [d], pools + [pool], worlds + [w])
  {
    ChainedMore(done, worlds, d, w);
    hide Formed, Turned, Turn, Chained;
    var commands', done', pools', worlds' := commands + [c], done + [d], pools + [pool], worlds + [w];
    forall n | 0 <= n < |commands'| ensures Turn(commands'[n], done'[n], pools'[n], pools'[n + 1], worlds'[n]) {
      assert n < |done| ==> commands'[n] == commands[n] && done'[n] == done[n] && worlds'[n] == worlds[n];
      assert n < |done| ==> pools'[n] == pools[n] && pools'[n + 1] == pools[n + 1];
    }
  }

  /** Any run of moves, additions, removals, updates, replacements, creations, copies, placements and deletions, with
      any flags, slots and containers, lockers with their inbox and chests among them: every command whose items exist
      and whose caller's duties are met is done, the others are not, and every world on the way is well formed and
      follows from the one before as Kept says. */
  method Run(game: Game, pool: seq<Item>, commands: seq<Command<nat>>)
      returns (pool': seq<Item>, ghost done: seq<Option<Command<Item>>>, ghost pools: seq<seq<Item>>,
               ghost worlds: seq<World<Item>>)
    requires Formed(Snap(game.world)) && PoolOf(game, pool)
    modifies game, game.world
    ensures Formed(Snap(game.world)) && PoolOf(game, pool') && Course(commands, done, pools, worlds)
    ensures pools[0] == pool && pools[|commands|] == pool'
    ensures worlds[0] == old(Snap(game.world)) && worlds[|commands|] == Snap(game.world)
  {
    hide *;
    pool', done, pools, worlds := pool, [], [pool], [Snap(game.world)];
    CourseStart(pool, Snap(game.world));
    ghost var w0 := Snap(game.world);
    assert commands[..0] == [];
    for k := 0 to |commands|
      invariant PoolOf(game, pool') && fresh(game.world - old(game.world))
      invariant Formed(Snap(game.world)) && Course(commands[..k], done, pools, worlds)
      invariant |worlds| == k + 1 && |pools| == k + 1 && |done| == k && worlds[0] == w0 && pools[0] == pool
      invariant worlds[k] == Snap(game.world) && pools[k] == pool'
    {
      ghost var w, was := Snap(game.world), pool';
      ghost var d;
      pool', d := Obey(game, pool', commands[k]);
      CourseMore(commands[..k], done, pools, worlds, commands[k], d, pool', Snap(game.world));
      done, pools, worlds := done + [d], pools + [pool'], worlds + [Snap(game.world)];
      assert commands[..k + 1] == commands[..k] + [commands[k]];
    }
    assert commands[..|commands|] == commands;
  }

  // one turn
  method Obey(game: Game, pool: seq<Item>, c: Command<nat>) returns (pool': seq<Item>, ghost d: Option<Command<Item>>)
    requires Formed(Snap(game.world)) && PoolOf(game, pool)
    modifies game, game.world
    ensures Formed(Snap(game.world)) && PoolOf(game, pool') && fresh(game.world - old(game.world))
    ensures Turned(d, old(Snap(game.world)), Snap(game.world)) && Turn(c, d, pool, pool', old(Snap(game.world)))
  {
    hide Formed, Doable, Kept, Snap, Named, NextPool, PoolOf;
    ghost var w := Snap(game.world);
    SnapKeys(game.world);
    pool', d := pool, None;
    var named := Named(c, pool);
    if named.Some? {
      var ok := Check(game, pool, named.value, c);
      if ok {
        pool' := Step(game, pool, named.value);
        d := named;
        KeptFormed(named.value, w, Snap(game.world));
      }
    }
  }

  lemma CourseStart(pool: seq<Item>, w: World<Item>)
    requires Formed(w)
    ensures Course([], [], [pool], [w])
  {
  }

  lemma KeptFormed(c: Command<Item>, w: World<Item>, w': World<Item>)
    requires Formed(w) && Doable(c, w) && Kept(c, w, w')
    ensures Formed(w')
  {
  }

  // ---------------------------------------------------------------- what runs add up to

  ghost function ChangeOf(d: Option<Command<Item>>, w: World<Item>, kind: Kind): int
    requires Formed(w) && (d.Some? ==> Doable(d.value, w))
  {
    if d.Some? then Change(d.value, w, kind) else 0
  }

  lemma ChainedAt(done: seq<Option<Command<Item>>>, worlds: seq<World<Item>>, n: nat)
    requires Chained(done, worlds) && n < |done|
    ensures Formed(worlds[n]) && Formed(worlds[n + 1]) && Turned(done[n], worlds[n], worlds[n + 1])
  {
    hide Formed, Turned;
  }

  /** All changes of a run to the contents of all containers. */
  ghost function TotalChange(done: seq<Option<Command<Item>>>, worlds: seq<World<Item>>, n: nat, kind: Kind): int
    requires Chained(done, worlds) && n <= |done|
  {
    if n == 0 then 0
    else
      ChainedAt(done, worlds, n - 1);
      TotalChange(done, worlds, n - 1, kind) + ChangeOf(done[n - 1], worlds[n - 1], kind)
  }

  /** Nothing appears or disappears in a run but what its operations account for. */
  lemma {:induction false} RunAccounts(done: seq<Option<Command<Item>>>, worlds: seq<World<Item>>, n: nat, kind: Kind)
    requires Chained(done, worlds) && n <= |done|
    ensures Contents(worlds[n], kind) == Contents(worlds[0], kind) + TotalChange(done, worlds, n, kind)
  {
    if n > 0 {
      RunAccounts(done, worlds, n - 1, kind);
      ChainedAt(done, worlds, n - 1);
      hide Formed, Doable, Change, Contents, Chained;
    }
  }

  /** A move that cannot spill: nothing lets it go beyond the capacity of its destination, or nothing lies there. */
  ghost predicate NoSpill(c: Command<Item>, w: World<Item>)
    requires Formed(w) && Doable(c, w) && c.MoveItem?
  {
    var dest := PlanFor(w, c.to, c.index, c.item, c.count, c.flags).dest;
    (!c.flags.noLimit && !dest.pagination) || |w[dest].kids| <= dest.maxSize
  }

  lemma MoveChangesNothing(c: Command<Item>, w: World<Item>, kind: Kind)
    requires Formed(w) && Doable(c, w) && c.MoveItem? && NoSpill(c, w)
    ensures Change(c, w, kind) == 0
  {
    hide PlanFor, MayMove, Consistent, Hollow, Typed;
  }

  /** Nothing was done, or a move that cannot spill. */
  ghost predicate Harmless(d: Option<Command<Item>>, w: World<Item>)
    requires Formed(w) && (d.Some? ==> Doable(d.value, w))
  {
    d.Some? ==> d.value.MoveItem? && NoSpill(d.value, w)
  }

  ghost predicate HarmlessAt(done: seq<Option<Command<Item>>>, worlds: seq<World<Item>>, n: nat)
    requires Chained(done, worlds) && n < |done|
  {
    ChainedAt(done, worlds, n);
    Harmless(done[n], worlds[n])
  }

  /** A run of moves that cannot spill leaves the contents of all containers as they were, kind by kind. */
  lemma {:induction false} MovesConserve(done: seq<Option<Command<Item>>>, worlds: seq<World<Item>>, n: nat, kind: Kind)
    requires Chained(done, worlds) && n <= |done|
    requires forall k :: 0 <= k < n ==> HarmlessAt(done, worlds, k)
    ensures Contents(worlds[n], kind) == Contents(worlds[0], kind)
  {
    if n > 0 {
      MovesConserve(done, worlds, n - 1, kind);
      ChainedAt(done, worlds, n - 1);
      assert HarmlessAt(done, worlds, n - 1);
      if done[n - 1].Some? {
        MoveChangesNothing(done[n - 1].value, worlds[n - 1], kind);
      }
      hide Formed, Doable, Change, Contents, NoSpill, Chained;
    }
  }

  /** The n-th operation respects limits, and does not delete x. */
  ghost predicate PoliteAt(done: seq<Option<Command<Item>>>, worlds: seq<World<Item>>, n: nat, x: Item)
    requires Chained(done, worlds) && n < |done|
  {
    ChainedAt(done, worlds, n);
    done[n].Some? ==> Polite(done[n].value, worlds[n]) && done[n].value != FreeItem(x)
  }

  ghost predicate WatchedAt(worlds: seq<World<Item>>, n: nat, chest: Item)
    requires n < |worlds| && Formed(worlds[n])
  {
    chest in worlds[n] && Watched(worlds[n], chest)
  }

  /** Operations without FLAG_NOLIMIT never bring a depot chest beyond its limit while it stands watched. */
  lemma {:induction false} RunKeepsLimits(done: seq<Option<Command<Item>>>, worlds: seq<World<Item>>, n: nat,
                                          chest: Item)
    requires Chained(done, worlds) && n <= |done|
    requires forall k :: 0 <= k < n ==> PoliteAt(done, worlds, k, chest) && WatchedAt(worlds, k, chest)
    requires chest in worlds[0] && IsForest(Ups(worlds[0])) && WithinLimit(worlds[0], chest)
    ensures chest in worlds[n] && IsForest(Ups(worlds[n])) && WithinLimit(worlds[n], chest)
  {
    if n > 0 {
      RunKeepsLimits(done, worlds, n - 1, chest);
      ChainedAt(done, worlds, n - 1);
      assert PoliteAt(done, worlds, n - 1, chest) && WatchedAt(worlds, n - 1, chest);
      assert IsForest(Ups(worlds[n]));
      hide Formed, KeepsTotals, Watched, Doable, Polite, WithinLimit, Accounted, KeepsFits, Chained, IsForest;
    }
  }

  /** The n-th operation respects capacities, and does not delete x. */
  ghost predicate TidyAt(done: seq<Option<Command<Item>>>, n: nat, x: Item)
    requires n < |done|
  {
    done[n].Some? ==> Tidy(done[n].value) && done[n].value != FreeItem(x)
  }

  /** Operations that respect capacities never overfill a limited container. */
  lemma {:induction false} RunKeepsFits(done: seq<Option<Command<Item>>>, worlds: seq<World<Item>>, n: nat, x: Item)
    requires Chained(done, worlds) && n <= |done| && forall k :: 0 <= k < n ==> TidyAt(done, k, x)
    requires x in worlds[0] && !x.pagination && |worlds[0][x].kids| <= x.maxSize
    ensures x in worlds[n] && |worlds[n][x].kids| <= x.maxSize
  {
    if n > 0 {
      RunKeepsFits(done, worlds, n - 1, x);
      ChainedAt(done, worlds, n - 1);
      assert TidyAt(done, n - 1, x);
      hide Formed, Doable, Tidy, Accounted, KeepsLimits, KeepsTotals, Chained;
    }
  }

  /** No chest or inbox hangs in what an operation moves, takes out or copies. */
  ghost predicate MovesUnhosted(c: Command<Item>, w: World<Item>)
    requires Formed(w) && Doable(c, w)
  {
    match c
    case MoveItem(_, _, _, item, _, _, _) => !Hosts(w, item)
    case AddItem(_, item, _, _) => !Hosts(w, item)
    case RemoveItem(item, _, _, _) => !Hosts(w, item)
    case ReplaceItem(container, slot, item) =>
      !Hosts(w, item) && (slot < |w[container].kids| ==> !Hosts(w, w[container].kids[slot]))
    case CloneItem(item) => forall s {:trigger Hosts(w, s)} :: s in w && item in Chain(Ups(w), s) ==> !Hosts(w, s)
    case _ => true
  }

  /** The n-th operation leaves chests and inboxes, and what holds them, where they are. */
  ghost predicate OrdinaryAt(done: seq<Option<Command<Item>>>, worlds: seq<World<Item>>, n: nat)
    requires Chained(done, worlds) && n < |done|
  {
    ChainedAt(done, worlds, n);
    done[n].Some? ==> MovesPlain(done[n].value, worlds[n]) && MovesUnhosted(done[n].value, worlds[n])
  }

  lemma {:induction false} UnhostedExact(c: Command<Item>, w: World<Item>)
    requires Formed(w) && Doable(c, w) && Sound(w) && MovesUnhosted(c, w)
    ensures MovesExact(c, w)
  {
    hide Hosts, Exact, IsForest;
    match c {
      case ReplaceItem(container, slot, item) =>
        if slot < |w[container].kids| {
          assert w[container].kids[slot] in w[container].kids;
        }
      case CloneItem(item) =>
        forall s | s in w && item in Chain(Ups(w), s) ensures Exact(w, s) {
          assert !Hosts(w, s);
        }
      case _ =>
    }
  }

  lemma {:induction false} OrdinarySound(c: Command<Item>, w: World<Item>, w': World<Item>)
    requires Formed(w) && Doable(c, w) && Kept(c, w, w') && Sound(w) && MovesPlain(c, w) && MovesUnhosted(c, w)
    ensures Formed(w') && Sound(w')
  {
    UnhostedExact(c, w);
    hide Doable, MovesExact, MovesPlain, MovesUnhosted, Sound, TotalsKept, SameHosts, Accounted;
    SoundStep(w, w');
  }

  /** In every world of such a run, the total of everything in which no chest or inbox hangs is right. */
  lemma {:induction false} RunKeepsTotals(done: seq<Option<Command<Item>>>, worlds: seq<World<Item>>, n: nat)
    requires Chained(done, worlds) && n <= |done| && forall k :: 0 <= k < n ==> OrdinaryAt(done, worlds, k)
    requires IsForest(Ups(worlds[0])) && Sound(worlds[0])
    ensures IsForest(Ups(worlds[n])) && Sound(worlds[n])
  {
    if n > 0 {
      RunKeepsTotals(done, worlds, n - 1);
      ChainedAt(done, worlds, n - 1);
      assert OrdinaryAt(done, worlds, n - 1);
      if done[n - 1].Some? {
        OrdinarySound(done[n - 1].value, worlds[n - 1], worlds[n]);
      }
      hide Doable, Kept, Sound, MovesPlain, MovesUnhosted, Chained, IsForest;
    }
  }
}
