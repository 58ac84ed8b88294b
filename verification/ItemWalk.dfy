// The breadth-first walk over everything inside a container (ContainerIterator, src/container.cpp).
//
// The walk keeps a queue of containers and a position in the first of them.  Walking says how that
// position relates to the items already visited; the lemmas show that one step keeps the relation
// and that an empty queue means every descendant was visited exactly once, level by level.
module ItemWalk {
  import opened Options
  import opened Forest
  import opened ItemTree

  /** Everything inside c, at any depth. */
  ghost function Below<T>(up: Up<T>, c: T): (b: set<T>)
    requires IsForest(up)
    ensures b <= up.Keys
  {
    set y | y in up && y != c && c in Chain(up, y)
  }

  /** Everything visited so far has its children visited, unless it still waits in the queue. */
  ghost predicate KidsVisited<T>(w: World<T>, over: seq<T>, cur: nat, seen: seq<T>, x: T)
    requires x in w
  {
    forall j :: 0 <= j < |w[x].kids| ==>
      (w[x].kids[j] in seen <==> x !in over || (x == over[0] && j < cur))
  }

  ghost predicate Visited<T>(root: T, seen: seq<T>, x: T) {
    x == root || x in seen
  }

  ghost predicate Walking<T>(w: World<T>, root: T, over: seq<T>, cur: nat, seen: seq<T>) {
    && Shaped(w) && root in w
    && NoDup(over) && NoDup(seen)
    && (forall x :: x in over ==> x in w && Visited(root, seen, x) && w[x].kids != [])
    && (over != [] ==> cur < |w[over[0]].kids|)
    && (forall y :: y in seen ==>
        y in Below(Ups(w), root) && w[y].parent.Some? && Visited(root, seen, w[y].parent.value))
    && (forall x {:trigger KidsVisited(w, over, cur, seen, x)} :: x in w && Visited(root, seen, x) ==>
        KidsVisited(w, over, cur, seen, x))
  }

  ghost predicate LevelOrder<T>(up: Up<T>, s: seq<T>)
    requires IsForest(up)
  {
    && (forall x :: x in s ==> x in up)
    && (forall i, j :: 0 <= i < j < |s| ==> Depth(up, s[i]) <= Depth(up, s[j]))
  }

  /** The visit order and the queue never go up a level, and run at most one level ahead of the queue's head. */
  ghost predicate ByLevel<T>(w: World<T>, over: seq<T>, seen: seq<T>)
    requires IsForest(Ups(w))
  {
    var up := Ups(w);
    && LevelOrder(up, seen) && LevelOrder(up, over)
    && (over != [] ==>
          && (forall i :: 0 <= i < |over| ==> Depth(up, over[i]) <= Depth(up, over[0]) + 1)
          && (forall i :: 0 <= i < |seen| ==> Depth(up, seen[i]) <= Depth(up, over[0]) + 1))
  }

  ghost predicate WalkingByLevel<T>(w: World<T>, root: T, over: seq<T>, cur: nat, seen: seq<T>) {
    Walking(w, root, over, cur, seen) && ByLevel(w, over, seen)
  }

  lemma BelowKid<T>(w: World<T>, root: T, x: T, k: T)
    requires Shaped(w) && x in w && k in w[x].kids && (x == root || x in Below(Ups(w), root))
    ensures k in w && w[k].parent == Some(x) && k in Below(Ups(w), root) && k != root && k != x
    ensures Depth(Ups(w), k) == Depth(Ups(w), x) + 1
  {
    var up := Ups(w);
    assert up[k] == Some(x);
    DepthStep(up, k);
    if k == root { ChainMember(up, x, k); }
  }

  lemma WalkStart<T>(w: World<T>, root: T)
    requires Shaped(w) && root in w
    ensures Walking(w, root, if w[root].kids == [] then [] else [root], 0, [])
    ensures ByLevel(w, if w[root].kids == [] then [] else [root], [])
  {
  }

  /** The current item has not been visited before. */
  lemma CurrentIsNew<T>(w: World<T>, root: T, over: seq<T>, cur: nat, seen: seq<T>)
    requires Walking(w, root, over, cur, seen) && over != []
    ensures var i := w[over[0]].kids[cur];
      && i !in seen && i in w && w[i].parent == Some(over[0]) && i in Below(Ups(w), root) && i !in over
      && Depth(Ups(w), i) == Depth(Ups(w), over[0]) + 1
  {
    var x := over[0];
    assert x in over && KidsVisited(w, over, cur, seen, x);
    BelowKid(w, root, x, w[x].kids[cur]);
  }

  /** The queue and position after advance(). */
  ghost function Advanced<T>(w: World<T>, over: seq<T>, cur: nat): (r: (seq<T>, nat))
    requires over != [] && over[0] in w && cur < |w[over[0]].kids|
  {
    var i := w[over[0]].kids[cur];
    var over' := if i in w && w[i].kids != [] then over + [i] else over;
    if cur + 1 == |w[over[0]].kids| then (over'[1..], 0) else (over', cur + 1)
  }

  lemma WalkStep<T>(w: World<T>, root: T, over: seq<T>, cur: nat, seen: seq<T>)
    requires Walking(w, root, over, cur, seen) && over != []
    ensures var (over', cur') := Advanced(w, over, cur);
            Walking(w, root, over', cur', seen + [w[over[0]].kids[cur]])
  {
    var i := w[over[0]].kids[cur];
    CurrentIsNew(w, root, over, cur, seen);
    var (over', cur') := Advanced(w, over, cur);
    var seen' := seen + [i];
    assert forall x :: x in seen' <==> x in seen || x == i;
    WalkStepQueue(w, root, over, cur, seen);
    forall x | x in w && Visited(root, seen', x) ensures KidsVisited(w, over', cur', seen', x) {
      WalkStepKids(w, root, over, cur, seen, x);
    }
  }

  lemma WalkStepQueue<T>(w: World<T>, root: T, over: seq<T>, cur: nat, seen: seq<T>)
    requires Walking(w, root, over, cur, seen) && over != []
    ensures var i := w[over[0]].kids[cur];
            var (over', cur') := Advanced(w, over, cur);
      && i in w && NoDup(over')
      && (forall x :: x in over' <==>
          (x in over && !(x == over[0] && cur + 1 == |w[x].kids|)) || (x == i && w[i].kids != []))
      && (over' != [] ==> cur' < |w[over'[0]].kids|)
      && (over' != [] ==> (over'[0] == over[0] && cur' == cur + 1) || (cur' == 0 && over'[0] != over[0]))
  {
    var i := w[over[0]].kids[cur];
    CurrentIsNew(w, root, over, cur, seen);
    var over1 := if w[i].kids != [] then over + [i] else over;
    assert forall x :: x in over1 <==> x in over || (x == i && w[i].kids != []);
    assert NoDup(over1);
    assert over1[0] == over[0];
    if cur + 1 == |w[over[0]].kids| {
      var over2 := over1[1..];
      assert over1 == [over1[0]] + over2;
      assert over1[0] !in over2;
      assert over2 != [] ==> over2[0] in over1;
    }
  }

  /** An item has one place in one child list. */
  lemma KidPlace<T>(w: World<T>, x: T, j: nat, y: T, k: nat)
    requires Linked(w) && x in w && y in w && j < |w[x].kids| && k < |w[y].kids| && w[x].kids[j] == w[y].kids[k]
    ensures x == y && j == k
  {
    assert w[x].kids[j] in w[x].kids && w[y].kids[k] in w[y].kids;
    assert NoDup(w[x].kids);
  }

  lemma WalkStepKids<T>(w: World<T>, root: T, over: seq<T>, cur: nat, seen: seq<T>, x: T)
    requires Walking(w, root, over, cur, seen) && over != [] && x in w
    requires Visited(root, seen + [w[over[0]].kids[cur]], x)
    ensures var (over', cur') := Advanced(w, over, cur);
            KidsVisited(w, over', cur', seen + [w[over[0]].kids[cur]], x)
  {
    CurrentIsNew(w, root, over, cur, seen);
    if Visited(root, seen, x) {
      WalkStepOld(w, root, over, cur, seen, x);
    } else {
      WalkStepNew(w, root, over, cur, seen);
    }
  }

  lemma WalkStepNew<T>(w: World<T>, root: T, over: seq<T>, cur: nat, seen: seq<T>)
    requires Walking(w, root, over, cur, seen) && over != []
    ensures var i := w[over[0]].kids[cur];
            var (over', cur') := Advanced(w, over, cur);
            i in w && KidsVisited(w, over', cur', seen + [i], i)
  {
    var i := w[over[0]].kids[cur];
    CurrentIsNew(w, root, over, cur, seen);
    WalkStepQueue(w, root, over, cur, seen);
    var (over', cur') := Advanced(w, over, cur);
    forall j | 0 <= j < |w[i].kids|
      ensures w[i].kids[j] in seen + [i] <==> i !in over' || (i == over'[0] && j < cur')
    {
      BelowKid(w, root, i, w[i].kids[j]);
      assert i in over';
    }
  }

  lemma WalkStepOld<T>(w: World<T>, root: T, over: seq<T>, cur: nat, seen: seq<T>, x: T)
    requires Walking(w, root, over, cur, seen) && over != [] && x in w && Visited(root, seen, x)
    ensures var (over', cur') := Advanced(w, over, cur);
            KidsVisited(w, over', cur', seen + [w[over[0]].kids[cur]], x)
  {
    var i := w[over[0]].kids[cur];
    CurrentIsNew(w, root, over, cur, seen);
    WalkStepQueue(w, root, over, cur, seen);
    var (over', cur') := Advanced(w, over, cur);
    assert KidsVisited(w, over, cur, seen, x);
    forall j | 0 <= j < |w[x].kids|
      ensures w[x].kids[j] in seen + [i] <==> x !in over' || (x == over'[0] && j < cur')
    {
      if w[x].kids[j] == i { KidPlace(w, x, j, over[0], cur); }
    }
  }

  lemma WalkStepLevel<T>(w: World<T>, root: T, over: seq<T>, cur: nat, seen: seq<T>)
    requires Walking(w, root, over, cur, seen) && over != [] && ByLevel(w, over, seen)
    ensures var (over', cur') := Advanced(w, over, cur);
            var seen' := seen + [w[over[0]].kids[cur]];
            ByLevel(w, over', seen')
  {
    CurrentIsNew(w, root, over, cur, seen);
    WalkStepQueue(w, root, over, cur, seen);
    var i := w[over[0]].kids[cur];
    var (over', cur') := Advanced(w, over, cur);
    var up, d := Ups(w), Depth(Ups(w), over[0]);
    LevelFacts(w, over, seen);
    hide Walking, IsForest, Depth, KidsVisited, ByLevel, LevelOrder, Within;
    LevelSnoc(up, seen, i);
    LevelSnoc(up, over, i);
    WithinSnoc(up, over, d, i);
    var over1 := if w[i].kids != [] then over + [i] else over;
    if cur + 1 == |w[over[0]].kids| {
      LevelTail(up, over1, d);
    }
    NextLevel(w, over', seen + [i], d);
  }

  /** Every member of s lies at depth d or d + 1. */
  ghost predicate Within<T>(up: Up<T>, s: seq<T>, d: nat)
    requires IsForest(up)
  {
    forall j :: 0 <= j < |s| ==> s[j] in up && d <= Depth(up, s[j]) <= d + 1
  }

  lemma NextLevel<T>(w: World<T>, over: seq<T>, seen: seq<T>, d: nat)
    requires IsForest(Ups(w)) && LevelOrder(Ups(w), over) && LevelOrder(Ups(w), seen) && Within(Ups(w), over, d)
    requires forall j :: 0 <= j < |seen| ==> Depth(Ups(w), seen[j]) <= d + 1
    ensures ByLevel(w, over, seen)
  {
  }

  lemma LevelFacts<T>(w: World<T>, over: seq<T>, seen: seq<T>)
    requires IsForest(Ups(w)) && over != [] && ByLevel(w, over, seen)
    ensures var up, d := Ups(w), Depth(Ups(w), over[0]);
      && LevelOrder(up, seen) && LevelOrder(up, over) && Within(up, over, d)
      && (forall j :: 0 <= j < |seen| ==> seen[j] in up && Depth(up, seen[j]) <= d + 1)
      && (forall j :: 0 <= j < |over| ==> over[j] in up && Depth(up, over[j]) <= d + 1)
  {
  }

  lemma WithinSnoc<T>(up: Up<T>, s: seq<T>, d: nat, k: T)
    requires IsForest(up) && Within(up, s, d) && k in up && d <= Depth(up, k) <= d + 1
    ensures Within(up, s + [k], d)
  {
  }

  lemma LevelSnoc<T>(up: Up<T>, s: seq<T>, k: T)
    requires IsForest(up) && LevelOrder(up, s) && k in up
    requires forall i :: 0 <= i < |s| ==> Depth(up, s[i]) <= Depth(up, k)
    ensures LevelOrder(up, s + [k])
  {
  }

  lemma LevelTail<T>(up: Up<T>, s: seq<T>, d: nat)
    requires IsForest(up) && LevelOrder(up, s) && Within(up, s, d) && s != []
    ensures LevelOrder(up, s[1..]) && Within(up, s[1..], d)
  {
    assert forall i :: 0 <= i < |s| - 1 ==> s[1..][i] == s[i + 1];
  }

  /** When the queue is empty, the walk has visited exactly the items inside the root. */
  lemma WalkDone<T>(w: World<T>, root: T, cur: nat, seen: seq<T>)
    requires Walking(w, root, [], cur, seen)
    ensures (set x | x in seen) == Below(Ups(w), root)
  {
    forall y | y in Below(Ups(w), root) ensures y in seen {
      WalkReaches(w, root, cur, seen, y);
    }
  }

  lemma {:induction false} WalkReaches<T>(w: World<T>, root: T, cur: nat, seen: seq<T>, y: T)
    requires Walking(w, root, [], cur, seen) && y in Below(Ups(w), root)
    ensures y in seen
    decreases Depth(Ups(w), y)
  {
    var up := Ups(w);
    DepthStep(up, y);
    var p := up[y].value;
    if p != root { WalkReaches(w, root, cur, seen, p); }
    assert Adopted(w, y) && KidsVisited(w, [], cur, seen, p);
    assert y == w[p].kids[IndexOf(w[p].kids, y)];
  }

  /** A repetition-free list is as long as the set of its members. */
  lemma {:induction false} NoDupSize<T>(s: seq<T>)
    requires NoDup(s)
    ensures |set x | x in s| == |s|
  {
    if s != [] {
      var t := s[1..];
      NoDupSize(t);
      assert (set x | x in s) == (set x | x in t) + {s[0]};
    } else {
      assert (set x | x in s) == {};
    }
  }

  lemma VisitedBound<T>(w: World<T>, root: T, over: seq<T>, cur: nat, seen: seq<T>)
    requires Walking(w, root, over, cur, seen)
    ensures |seen| <= |Below(Ups(w), root)|
    ensures over != [] ==> |seen| < |Below(Ups(w), root)|
    ensures over == [] ==> |seen| == |Below(Ups(w), root)|
  {
    NoDupSize(seen);
    var vis := set x | x in seen;
    var all := Below(Ups(w), root);
    Subsize(vis, all);
    if over == [] {
      WalkDone(w, root, cur, seen);
    } else {
      CurrentIsNew(w, root, over, cur, seen);
      Subsize(vis + {w[over[0]].kids[cur]}, all);
    }
  }

  lemma Subsize<T>(a: set<T>, b: set<T>)
    requires a <= b
    ensures |a| <= |b|
  {
    assert b == a + (b - a);
  }

  /** One turn of any loop over the iterator. */
  lemma WalkTurn<T>(w: World<T>, root: T, over: seq<T>, cur: nat, seen: seq<T>)
    requires Walking(w, root, over, cur, seen) && over != []
    ensures over[0] in w && cur < |w[over[0]].kids| && w[over[0]].kids[cur] in w
    ensures |seen| < |Below(Ups(w), root)|
    ensures Walking(w, root, Advanced(w, over, cur).0, Advanced(w, over, cur).1, seen + [w[over[0]].kids[cur]])
  {
    VisitedBound(w, root, over, cur, seen);
    CurrentIsNew(w, root, over, cur, seen);
    WalkStep(w, root, over, cur, seen);
  }

  lemma LevelTurn<T>(w: World<T>, root: T, over: seq<T>, cur: nat, seen: seq<T>)
    requires WalkingByLevel(w, root, over, cur, seen) && over != []
    ensures over[0] in w && cur < |w[over[0]].kids| && w[over[0]].kids[cur] in w
    ensures |seen| < |Below(Ups(w), root)|
    ensures WalkingByLevel(w, root, Advanced(w, over, cur).0, Advanced(w, over, cur).1, seen + [w[over[0]].kids[cur]])
  {
    WalkTurn(w, root, over, cur, seen);
    WalkStepLevel(w, root, over, cur, seen);
  }

  /** A fresh root changes nothing for those already there. */
  lemma JoinSame<T>(up: Up<T>, x: T, c: T)
    requires IsForest(up) && x !in up && c in up
    ensures IsForest(up[x := None])
    ensures var up' := up[x := None];
      && Chain(up', c) == Chain(up, c) && Enclosers(up', c) == Enclosers(up, c)
      && Root(up', c) == Root(up, c) && Root(up', x) == x
      && Below(up', c) == Below(up, c)
  {
    JoinForest(up, x);
    var up' := up[x := None];
    forall y | y in up ensures Chain(up', y) == Chain(up, y) {
      ChainUnaffected(up, up', x, y);
    }
    AboveStep(up, c);
    RootUnique(up', c, Root(up, c));
    assert Chain(up', x) == {x};
  }
}
