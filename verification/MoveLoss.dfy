// A paginated container may hold more items than its capacity.  If the stack that queryDestination
// picks for merging lies beyond the capacity, addThing refuses the remainder without telling
// internalMoveItem.  GameItems.MoveConserves states exactly when that happens; here is one such move.
module MoveLoss {
  import opened Options
  import opened Forest
  import opened ItemTree
  import opened ItemStock
  import opened ItemMove
  import opened Containers
  import opened GameItems
  import opened ItemExamples

  ghost function Coins(p: Item, count: nat): Rec<Item> {
    Rec(Some(p), [], COIN, count, 0, false, false)
  }

  /** A bag f with 100 coins x, and a paginated container d of capacity 1 with 100 coins a and 50 coins b. */
  ghost function Example(f: Item, d: Item, a: Item, b: Item, x: Item): World<Item> {
    map[f := Rec(None, [x], BAG, 1, 100, true, false), d := Rec(None, [a, b], BAG, 1, 150, true, false),
        x := Coins(f, 100), a := Coins(d, 100), b := Coins(d, 50)]
  }

  /** The six items are different and d is the paginated container. */
  ghost predicate Cast(f: Item, d: Item, a: Item, b: Item, x: Item, clone: Item) {
    && NoDup([f, d, a, b, x, clone])
    && f.role == d.role == a.role == b.role == x.role == Plain
    && d.unlocked && d.pagination && d.maxSize == 1
  }

  lemma Different(f: Item, d: Item, a: Item, b: Item, x: Item, clone: Item)
    requires NoDup([f, d, a, b, x, clone])
    ensures f != d && f != a && f != b && f != x && d != a && d != b && d != x && a != b && a != x && b != x
    ensures clone != f && clone != d && clone != a && clone != b && clone != x
  {
    var s := [f, d, a, b, x, clone];
    assert s[0] == f && s[1] == d && s[2] == a && s[3] == b && s[4] == x && s[5] == clone;
  }

  lemma ExampleConsistent(f: Item, d: Item, a: Item, b: Item, x: Item, clone: Item)
    requires Cast(f, d, a, b, x, clone)
    ensures Consistent(Example(f, d, a, b, x))
    ensures Chain(Ups(Example(f, d, a, b, x)), d) == {d}
  {
    Different(f, d, a, b, x, clone);
    ExampleLinked(f, d, a, b, x, clone);
    AboveStep<Item>(Ups(Example(f, d, a, b, x)), d);
  }

  lemma ExampleLinked(f: Item, d: Item, a: Item, b: Item, x: Item, clone: Item)
    requires Cast(f, d, a, b, x, clone)
    ensures Shaped(Example(f, d, a, b, x))
  {
    Different(f, d, a, b, x, clone);
    var w := Example(f, d, a, b, x);
    ExampleForest(f, d, a, b, x, clone);
    hide IsForest;
    forall y | y in w ensures Adopted(w, y) && NoDup(w[y].kids) {
      ExampleEdge(f, d, a, b, x, clone, y);
    }
    forall y, k | y in w && k in w[y].kids ensures k in w && w[k].parent == Some(y) {
      ExampleEdge(f, d, a, b, x, clone, y);
    }
    hide Example;
  }

  lemma ExampleEdge(f: Item, d: Item, a: Item, b: Item, x: Item, clone: Item, y: Item)
    requires Cast(f, d, a, b, x, clone) && y in Example(f, d, a, b, x)
    ensures var w := Example(f, d, a, b, x);
      Adopted(w, y) && NoDup(w[y].kids) && forall k :: k in w[y].kids ==> k in w && w[k].parent == Some(y)
  {
    Different(f, d, a, b, x, clone);
  }

  lemma ExampleForest(f: Item, d: Item, a: Item, b: Item, x: Item, clone: Item)
    requires Cast(f, d, a, b, x, clone)
    ensures IsForest(Ups(Example(f, d, a, b, x)))
  {
    Different(f, d, a, b, x, clone);
    var w := Example(f, d, a, b, x);
    RankedForest<Item>(Ups(w), map y | y in w :: if w[y].parent == None then 0 else 1);
  }

  /** The first stack with room lies at position 1, and that is what the query answers. */
  lemma ExamplePlace(f: Item, d: Item, a: Item, b: Item, x: Item, clone: Item)
    requires Cast(f, d, a, b, x, clone)
    ensures Shaped(Example(f, d, a, b, x))
    ensures Resolved(Example(f, d, a, b, x), d, INDEX_WHEREEVER, x, NO_FLAGS) == Place(d, 1, b)
  {
    ExampleConsistent(f, d, a, b, x, clone);
    var w := Example(f, d, a, b, x);
    assert FirstStack(w, [a, b], x) == 1 by {
      Different(f, d, a, b, x, clone);
      hide Consistent;
      FirstStackIs(w, [a, b], x, 1);
    }
    hide Consistent, FirstStack;
    Different(f, d, a, b, x, clone);
    assert Stacking(w, d, INDEX_WHEREEVER, x, NO_FLAGS) == Place(d, 1, b);
  }

  lemma ExampleTakes(f: Item, d: Item, a: Item, b: Item, x: Item, clone: Item)
    requires Cast(f, d, a, b, x, clone)
    ensures Shaped(Example(f, d, a, b, x)) && Takes(Example(f, d, a, b, x), d, 1, x, 100, NO_FLAGS)
  {
    ExampleConsistent(f, d, a, b, x, clone);
    Different(f, d, a, b, x, clone);
    AboveStep<Item>(Ups(Example(f, d, a, b, x)), d);
    hide IsForest;
  }

  /** All checks pass: the 100 coins are to top up b, at position 1. */
  lemma ExampleMayMove(f: Item, d: Item, a: Item, b: Item, x: Item, clone: Item)
    requires Cast(f, d, a, b, x, clone)
    ensures var w, plan := Example(f, d, a, b, x), Plan(d, INDEX_WHEREEVER, 1, b, 100);
      && Shaped(w) && plan == PlanFor(w, d, INDEX_WHEREEVER, x, 100, NO_FLAGS)
      && MayMove(w, f, x, 100, NO_FLAGS, null, plan)
  {
    ExamplePlace(f, d, a, b, x, clone);
    ExampleTakes(f, d, a, b, x, clone);
    var w, plan := Example(f, d, a, b, x), Plan(d, INDEX_WHEREEVER, 1, b, 100);
    hide Shaped, Takes, Resolved, Destination;
    Different(f, d, a, b, x, clone);
    assert MoveAmount(w, d, 1, x, 100, NO_FLAGS) == 100;
    PlanForIs(w, d, INDEX_WHEREEVER, x, 100, NO_FLAGS);
    hide PlanFor;
    assert d == Destination(w, d, INDEX_WHEREEVER, x, NO_FLAGS).dest;
  }

  /**
   * Moving the 100 coins from f to d: the checks pass, 50 coins top up b, and the other 50 are lost
   * because b's position 1 is not below d's capacity 1.
   */
  lemma PaginatedMoveLoses(f: Item, d: Item, a: Item, b: Item, x: Item, clone: Item)
    requires Cast(f, d, a, b, x, clone)
    ensures var w, plan := Example(f, d, a, b, x), Plan(d, INDEX_WHEREEVER, 1, b, 100);
      && Shaped(w) && plan == PlanFor(w, d, INDEX_WHEREEVER, x, 100, NO_FLAGS)
      && MayMove(w, f, x, 100, NO_FLAGS, null, plan)
      && Settled(w, f, x, 100, NO_FLAGS, null, plan)
      && CanMove(w, f, d, x, 100, Some(b), clone)
      && Lost(w, x, plan) == 50
      && forall cs: set<Item> :: f in cs && d in cs ==>
           Stock(Moved(w, f, d, x, 100, Some(b), clone, Drops(plan)), cs, COIN) == Stock(w, cs, COIN) - 50
  {
    ExampleMayMove(f, d, a, b, x, clone);
    hide PlanFor, MayMove;
    Different(f, d, a, b, x, clone);
    ExampleConsistent(f, d, a, b, x, clone);
    var w, plan := Example(f, d, a, b, x), Plan(d, INDEX_WHEREEVER, 1, b, 100);
    AboveStep<Item>(Ups(w), d);
    assert Movable(w, f, d, x, 100, Some(b));
    assert Mergeable(w, b, x);
    forall cs: set<Item> | f in cs && d in cs
      ensures Stock(Moved(w, f, d, x, 100, Some(b), clone, Drops(plan)), cs, COIN) == Stock(w, cs, COIN) - 50
    {
      MovedStock(w, f, d, x, 100, Some(b), clone, Drops(plan), cs, COIN);
    }
  }
}
