// Small worlds in which the container code does not do what one expects of it.  Each stands beside a lemma that says
// for all worlds when that happens.
module ItemExamples {
  import opened Options
  import opened Forest
  import opened ItemTree
  import opened ItemMove
  import opened ItemWalk
  import opened Descendants
  import opened ItemWeights
  import opened Containers
  import opened ItemAdd
  import opened GameItems

  const COIN := Kind(1, [], true, 1, true, true)
  const BAG := Kind(2, [], false, 10, true, true)
  const NO_FLAGS := Flags(false, false, false, false, false)

  /** The loose p holds k, and x lies beside them. */
  ghost function Nest(p: Item, k: Item, x: Item, kind: Kind, count: nat): World<Item> {
    map[p := Rec(None, [k], BAG, 1, OwnWeight(kind, count), false, p.role.Skips()),
        k := Rec(Some(p), [], kind, count, 0, false, k.role.Skips()),
        x := Rec(None, [], COIN, 100, 0, false, x.role.Skips())]
  }

  ghost predicate Apart(p: Item, k: Item, x: Item) {
    p != k && p != x && k != x
  }

  lemma {:induction false} NestForest(p: Item, k: Item, x: Item, kind: Kind, count: nat)
    requires Apart(p, k, x)
    ensures var up := Ups(Nest(p, k, x, kind, count));
      up == map[p := None, k := Some(p), x := None] && IsForest(up)
  {
    RankedForest<Item>(map[p := None, k := Some(p), x := None], map[p := 0, k := 1, x := 0]);
    assert Ups(Nest(p, k, x, kind, count)) == map[p := None, k := Some(p), x := None];
  }

  lemma {:induction false} NestConsistent(p: Item, k: Item, x: Item, kind: Kind, count: nat)
    requires Apart(p, k, x) && (kind.stackable ==> 1 <= count <= MAX_STACK)
    ensures Consistent(Nest(p, k, x, kind, count))
  {
    NestForest(p, k, x, kind, count);
    hide IsForest, Ups;
    var w := Nest(p, k, x, kind, count);
    assert Adopted(w, k) && Adopted(w, p) && Adopted(w, x);
  }

  lemma {:induction false} NestFacts(p: Item, k: Item, x: Item, kind: Kind, count: nat)
    requires Apart(p, k, x) && (kind.stackable ==> 1 <= count <= MAX_STACK)
    ensures var w := Nest(p, k, x, kind, count);
      var up := Ups(w);
      && Consistent(w) && Chain(up, p) == {p} && Chain(up, k) == {p, k} && Chain(up, x) == {x}
      && Below(up, p) == {k} && Below(up, k) == {} && Below(up, x) == {}
  {
    NestForest(p, k, x, kind, count);
    NestConsistent(p, k, x, kind, count);
    var up := Ups(Nest(p, k, x, kind, count));
    hide IsForest, Ups, Consistent;
    AboveStep<Item>(up, p);
    AboveStep<Item>(up, k);
    AboveStep<Item>(up, x);
    assert up.Keys == {p, k, x};
  }

  lemma {:induction false} NestWalks(p: Item, k: Item, x: Item, kind: Kind, count: nat)
    requires Apart(p, k, x) && (kind.stackable ==> 1 <= count <= MAX_STACK)
    ensures var w := Nest(p, k, x, kind, count);
      && IsForest(Ups(w)) && ShownParent(w, p) == None && ShownParent(w, x) == None
      && ShownParent(w, k) == if k.role.Skips() then None else Some(p)
  {
    NestForest(p, k, x, kind, count);
    hide IsForest, Ups;
  }

  lemma SumOne(w: World<Item>, k: Item)
    requires k in w
    ensures SumOwn(w, {k}) == OwnWeight(w[k].kind, w[k].count)
  {
    SumOwnPick(w, {k}, k);
    assert {k} - {k} == {};
  }

  /** 100 coins are put into the inbox i of the locker l: the locker's total stays 10. */
  lemma {:induction false} LockerMissesMail(l: Item, i: Item, x: Item)
    requires Apart(l, i, x) && l.role == Locker && i.role == Inbox && !x.isContainer
    ensures var w, flags := Nest(l, i, x, BAG, 1), NO_FLAGS.(noLimit := true);
      && Shaped(w) && Exact(w, l) && Exact(w, i) && Exact(w, x)
      && Takes(w, i, INDEX_WHEREEVER, x, 100, flags)
      && var r := Hang(w, i, 0, x);
         IsForest(Ups(r)) && Exact(r, i) && r[l].total == 10 && Inside(r, l) == 110
  {
    var w := Nest(l, i, x, BAG, 1);
    NestFacts(l, i, x, BAG, 1);
    SumOne(w, i);
    assert Shielded(w, l, i);
    ReachIff(w, i, l);
    hide IsForest, Takes, Below, Chain, Reach, Shielded;
    HangOff(w, i, 0, x, l);
    HangOff(w, i, 0, x, i);
    assert Takes(w, i, INDEX_WHEREEVER, x, 100, NO_FLAGS.(noLimit := true)) by { NestTakesMail(l, i, x); }
  }

  lemma {:induction false} NestTakesMail(l: Item, i: Item, x: Item)
    requires Apart(l, i, x) && i.role == Inbox
    ensures var w := Nest(l, i, x, BAG, 1);
      Shaped(w) && Takes(w, i, INDEX_WHEREEVER, x, 100, NO_FLAGS.(noLimit := true))
  {
    NestConsistent(l, i, x, BAG, 1);
  }

  /** The queries of the box k let the chest p, in which k lies, be put into k. */
  lemma {:induction false} BoxTakesItsChest(p: Item, k: Item, x: Item, limit: nat)
    requires Apart(p, k, x) && p.role == DepotChest(limit) && k.role == DepotChest(limit) && limit >= 2
    requires p.isContainer && k.isContainer && k.unlocked && k.maxSize >= 1
    ensures var w := Nest(p, k, x, BAG, 1);
      && Shaped(w) && p in Chain(Ups(w), k)
      && Takes(w, k, INDEX_WHEREEVER, p, 1, NO_FLAGS) && MaxCount(w, k, INDEX_WHEREEVER, p, 1, NO_FLAGS) > 0
      && !IsForest(Ups(w)[p := Some(k)])
  {
    var w := Nest(p, k, x, BAG, 1);
    NestFacts(p, k, x, BAG, 1);
    NestWalks(p, k, x, BAG, 1);
    LinkForest<Item>(Ups(w), p, k);
    TopOfRoot(w, p);
    TopStarts(w, k);
    hide IsForest, Below, Chain, TopOf;
  }

  /** The depot box p holds all it may; the bag k in it still takes 100 coins, because the box lies on no tile. */
  lemma {:induction false} ClosedBoxOverfills(p: Item, k: Item, x: Item)
    requires Apart(p, k, x) && p.role == DepotChest(1) && k.role == Plain && x.role == Plain
    requires p.isContainer && k.isContainer && !x.isContainer && k.unlocked && k.maxSize >= 1
    ensures var w := Nest(p, k, x, BAG, 1);
      && CanAsk(w, k, x, INDEX_WHEREEVER, NO_FLAGS) && MayAdd(w, k, x, INDEX_WHEREEVER, NO_FLAGS)
      && WithinLimit(w, p)
      && var r := Hang(w, k, 0, x); IsForest(Ups(r)) && p in r && !WithinLimit(r, p)
  {
    var w := Nest(p, k, x, BAG, 1);
    NestFacts(p, k, x, BAG, 1);
    NestAsks(p, k, x);
    HangConsistent(w, k, 0, x);
    LinkCount<Item>(Ups(w), x, k, p);
    hide IsForest, Below, Chain, MayAdd, CanAsk, Hang;
  }

  lemma {:induction false} NestAsks(p: Item, k: Item, x: Item)
    requires Apart(p, k, x) && p.role == DepotChest(1) && k.role == Plain && x.role == Plain
    requires p.isContainer && k.isContainer && !x.isContainer && k.unlocked && k.maxSize >= 1
    ensures var w := Nest(p, k, x, BAG, 1);
      CanAsk(w, k, x, INDEX_WHEREEVER, NO_FLAGS) && MayAdd(w, k, x, INDEX_WHEREEVER, NO_FLAGS)
  {
    var w := Nest(p, k, x, BAG, 1);
    NestFacts(p, k, x, BAG, 1);
    NestWalks(p, k, x, BAG, 1);
    TopStarts(w, k);
    MetIs(w, p);
    ReachStep(w, p);
    hide IsForest, Below, Chain, TopOf, OnTile;
  }

  /** 40 of the 100 coins k are taken out of the loose bag p: k is released while 60 still lie in the bag. */
  lemma {:induction false} HalfTakenReleased(p: Item, k: Item, x: Item)
    requires Apart(p, k, x) && k.role == Plain
    ensures var w := Nest(p, k, x, COIN, 100);
      && MayRemove(w, k, 40, true) && CanTake(w, p, k, 40) && !TakesAll(w, k, 40) && !IsPlaced(w, k)
      && var v := Taken(w, p, k, 40); k in v && v[k].parent == Some(p) && v[k].count == 60
  {
    var w := Nest(p, k, x, COIN, 100);
    NestFacts(p, k, x, COIN, 100);
    RootUnique<Item>(Ups(w), k, p);
    TakenFrame(w, p, k, 40);
    TakenConsistent(w, p, k, 40);
    hide IsForest, Taken;
    assert Ups(Taken(w, p, k, 40))[k] == Some(p);
  }

  /** 100 coins x are added where 50 lie: 50 fill the stack and 50 become a new one, and x itself is left over. */
  lemma {:induction false} CoinsLeftBehind(p: Item, k: Item, x: Item, w': World<Item>, released: seq<Item>)
    requires Apart(p, k, x) && p.role == k.role == x.role == Plain && p.isContainer && !k.isContainer && !x.isContainer
    requires p.unlocked && !p.pagination && p.maxSize == 2
    ensures var w := Nest(p, k, x, COIN, 50);
      && CanAsk(w, p, x, INDEX_WHEREEVER, NO_FLAGS) && MayAdd(w, p, x, INDEX_WHEREEVER, NO_FLAGS)
      && Leftover(w, p, x, INDEX_WHEREEVER, NO_FLAGS) == 0
      && (Fate(w, w', p, x, released, Absorbed(w, p, x, INDEX_WHEREEVER, NO_FLAGS),
            PutIn(w, p, x, INDEX_WHEREEVER, NO_FLAGS)) ==>
          w'[x].parent == None && x !in released)
  {
    var w := Nest(p, k, x, COIN, 50);
    NestFacts(p, k, x, COIN, 50);
    NestPlace(p, k, x);
    NestTakesCoins(p, k, x);
    assert RoomFor(w, [k], x) == 50;
    hide IsForest, Below, Chain, TopOf, OnTile, Destination, Takes, Reach, Clear, Met;
    assert Takes(w, p, 0, x, 100, NO_FLAGS);
  }

  lemma {:induction false} NestPlace(p: Item, k: Item, x: Item)
    requires Apart(p, k, x) && !k.isContainer && p.unlocked && p.maxSize == 2
    ensures var w := Nest(p, k, x, COIN, 50);
      Shaped(w) && Destination(w, p, INDEX_WHEREEVER, x, NO_FLAGS) == Place(p, 0, k)
  {
    var w := Nest(p, k, x, COIN, 50);
    NestConsistent(p, k, x, COIN, 50);
    NestWalks(p, k, x, COIN, 50);
    assert FirstStack(w, [k], x) == 0;
    hide IsForest, OnTile, ShownParent;
  }

  lemma {:induction false} NestTakesCoins(p: Item, k: Item, x: Item)
    requires Apart(p, k, x) && p.role == Plain && p.unlocked && !p.pagination && p.maxSize == 2
    ensures var w := Nest(p, k, x, COIN, 50);
      Shaped(w) && Takes(w, p, 0, x, 100, NO_FLAGS)
  {
    var w := Nest(p, k, x, COIN, 50);
    NestConsistent(p, k, x, COIN, 50);
    NestWalks(p, k, x, COIN, 50);
    TopStarts(w, p);
    hide IsForest, TopOf, OnTile;
  }
}
