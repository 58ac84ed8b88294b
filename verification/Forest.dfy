// The containment relation on its own: who is whose parent.
//
// A cylinder tree is stored in the source as a parent pointer per item.  Everything that walks
// those pointers (the weight propagation, the cycle check of queryAdd, the search for the top
// parent) is well defined only because the pointers form a forest.  This module gives the forest
// a decidable meaning, a depth function that measures every walk, and the one tool by which the
// operations re-establish it: any ranking that increases from parent to child proves a forest.
module Forest {
  import opened Options

  /** A node of the containment forest.  Items extend this notion; only identity matters here. */
  type Up<T> = map<T, Option<T>>

  ghost predicate Closed<T>(up: Up<T>) {
    forall x {:trigger up[x].value} :: x in up && up[x].Some? ==> up[x].value in up
  }

  /** The walk from x towards the root never visits a node twice: each step spends one of avail. */
  ghost predicate Acyclic<T>(up: Up<T>, x: T, avail: set<T>)
    decreases avail
  {
    x in avail && (x in up && up[x].Some? ==> Acyclic(up, up[x].value, avail - {x}))
  }

  ghost predicate Grounded<T>(up: Up<T>, x: T) {
    Acyclic(up, x, up.Keys)
  }

  ghost predicate IsForest<T>(up: Up<T>) {
    Closed(up) && forall x {:trigger Grounded(up, x)} :: x in up ==> Grounded(up, x)
  }

  ghost function DepthIn<T>(up: Up<T>, x: T, avail: set<T>): (d: nat)
    requires Acyclic(up, x, avail)
    ensures d < |avail|
    decreases avail
  {
    if x in up && up[x].Some? then
      assert |avail - {x}| == |avail| - 1;
      1 + DepthIn(up, up[x].value, avail - {x})
    else
      assert avail != {};
      0
  }

  lemma {:induction false} AcyclicWiden<T>(up: Up<T>, x: T, a: set<T>, b: set<T>)
    requires Acyclic(up, x, a) && a <= b
    ensures Acyclic(up, x, b) && DepthIn(up, x, b) == DepthIn(up, x, a)
    decreases a
  {
    if x in up && up[x].Some? {
      AcyclicWiden(up, up[x].value, a - {x}, b - {x});
    }
  }

  /** Number of steps from x to its root. */
  ghost function Depth<T>(up: Up<T>, x: T): (d: nat)
    requires IsForest(up) && x in up
    ensures d < |up.Keys|
  {
    assert Grounded(up, x);
    DepthIn(up, x, up.Keys)
  }

  lemma DepthStep<T>(up: Up<T>, x: T)
    requires IsForest(up) && x in up && up[x].Some?
    ensures Depth(up, x) == 1 + Depth(up, up[x].value)
  {
    assert Grounded(up, x) && Grounded(up, up[x].value);
    AcyclicWiden(up, up[x].value, up.Keys - {x}, up.Keys);
  }

  /** x together with everything it lies in. */
  ghost function Chain<T>(up: Up<T>, x: T): (c: set<T>)
    requires IsForest(up) && x in up
    ensures x in c && c <= up.Keys
  {
    Walk(up, x)
  }

  ghost function Walk<T>(up: Up<T>, x: T): (c: set<T>)
    requires IsForest(up) && x in up
    ensures x in c && c <= up.Keys
    decreases Depth(up, x)
  {
    if up[x].Some? then
      DepthStep(up, x);
      {x} + Walk(up, up[x].value)
    else
      {x}
  }

  lemma {:induction false} ChainMember<T>(up: Up<T>, x: T, y: T)
    requires IsForest(up) && x in up && y in Chain(up, x)
    ensures Chain(up, y) <= Chain(up, x)
    ensures y != x ==> Depth(up, y) < Depth(up, x)
    decreases Depth(up, x)
  {
    if y != x {
      DepthStep(up, x);
      ChainMember(up, up[x].value, y);
    }
  }

  /** The outermost node x lies in. */
  ghost function Root<T>(up: Up<T>, x: T): (r: T)
    requires IsForest(up) && x in up
    ensures r in Chain(up, x) && r in up && up[r] == None
    decreases Depth(up, x)
  {
    if up[x].Some? then
      DepthStep(up, x);
      Root(up, up[x].value)
    else
      x
  }

  lemma {:induction false} RootUnique<T>(up: Up<T>, x: T, r: T)
    requires IsForest(up) && x in up && r in Chain(up, x) && up[r] == None
    ensures r == Root(up, x)
    decreases Depth(up, x)
  {
    if up[x].Some? {
      DepthStep(up, x);
      RootUnique(up, up[x].value, r);
    }
  }

  /** A strict ranking from parents to children witnesses a forest. */
  lemma {:induction false} RankedAcyclic<T>(up: Up<T>, rank: map<T, nat>, x: T, avail: set<T>)
    requires Closed(up) && x in up && rank.Keys == up.Keys
    requires forall y :: y in up && up[y].Some? ==> rank[up[y].value] < rank[y]
    requires forall y :: y in up && rank[y] <= rank[x] ==> y in avail
    ensures Acyclic(up, x, avail)
    decreases rank[x]
  {
    if up[x].Some? {
      RankedAcyclic(up, rank, up[x].value, avail - {x});
    }
  }

  lemma RankedForest<T>(up: Up<T>, rank: map<T, nat>)
    requires Closed(up) && rank.Keys == up.Keys
    requires forall y :: y in up && up[y].Some? ==> rank[up[y].value] < rank[y]
    ensures IsForest(up)
  {
    forall x | x in up ensures Grounded(up, x) {
      RankedAcyclic(up, rank, x, up.Keys);
    }
  }

  /** Hanging the root x under p keeps the forest exactly when p does not lie in x. */
  lemma LinkForest<T>(up: Up<T>, x: T, p: T)
    requires IsForest(up) && x in up && p in up && up[x] == None
    ensures IsForest(up[x := Some(p)]) <==> x !in Chain(up, p)
  {
    var up' := up[x := Some(p)];
    if x !in Chain(up, p) {
      var rank := map y | y in up :: if x in Chain(up, y) then Depth(up, y) + Depth(up, p) + 1 else Depth(up, y);
      forall y | y in up' && up'[y].Some? ensures rank[up'[y].value] < rank[y] {
        if y == x {
        } else {
          DepthStep(up, y);
        }
      }
      RankedForest(up', rank);
    } else if IsForest(up') {
      LinkCycle(up, up', x, p, p);
    }
  }

  lemma {:induction false} LinkCycle<T>(up: Up<T>, up': Up<T>, x: T, p: T, y: T)
    requires IsForest(up) && x in up && p in up && up[x] == None
    requires up' == up[x := Some(p)] && IsForest(up')
    requires y in up && x in Chain(up, y)
    ensures Depth(up', p) < Depth(up', y) || y == x
    ensures y == x ==> Depth(up', p) < Depth(up', x)
    ensures y == p ==> false
    decreases Depth(up, y)
  {
    DepthStep(up', x);
    if y != x {
      DepthStep(up, y);
      DepthStep(up', y);
      LinkCycle(up, up', x, p, up[y].value);
    }
  }

  /** Cutting x loose keeps the forest. */
  lemma CutForest<T>(up: Up<T>, x: T)
    requires IsForest(up) && x in up
    ensures IsForest(up[x := None])
  {
    var rank := map y | y in up :: Depth(up, y);
    forall y | y in up && y != x && up[y].Some? ensures rank[up[y].value] < rank[y] {
      DepthStep(up, y);
    }
    RankedForest(up[x := None], rank);
  }

  /** A fresh root may join, and a childless node may leave. */
  lemma JoinForest<T>(up: Up<T>, x: T)
    requires IsForest(up) && x !in up
    ensures IsForest(up[x := None])
  {
    var rank := (map y | y in up :: Depth(up, y))[x := 0];
    forall y | y in up && up[y].Some? ensures rank[up[y].value] < rank[y] {
      DepthStep(up, y);
    }
    RankedForest(up[x := None], rank);
  }

  lemma LeaveForest<T>(up: Up<T>, x: T)
    requires IsForest(up) && x in up
    requires forall y :: y in up && up[y].Some? ==> up[y].value != x
    ensures IsForest(up - {x})
  {
    var up' := up - {x};
    var rank := map y | y in up' :: Depth(up, y);
    forall y | y in up' && up'[y].Some? ensures rank[up'[y].value] < rank[y] {
      DepthStep(up, y);
    }
    RankedForest(up', rank);
  }

  // ---------------------------------------------------------------- the parent that getParent tells

  /** What getParent answers: the members of skips pass over whatever holds them. */
  ghost function GetParent<T>(up: Up<T>, skips: set<T>, x: T): (p: Option<T>)
    requires IsForest(up) && x in up
    ensures p.Some? ==> p.value in up && Depth(up, p.value) < Depth(up, x)
    decreases Depth(up, x)
  {
    if up[x].Some? then
      DepthStep(up, x);
      if x in skips then GetParent(up, skips, up[x].value) else up[x]
    else
      None
  }

  /** x and all that a walk by getParent meets. */
  ghost function Trail<T>(up: Up<T>, skips: set<T>, x: T): (c: set<T>)
    requires IsForest(up) && x in up
    ensures x in c && c <= up.Keys && forall y :: y in c && y != x ==> Depth(up, y) < Depth(up, x)
    decreases Depth(up, x)
  {
    var p := GetParent(up, skips, x);
    if p.Some? then {x} + Trail(up, skips, p.value) else {x}
  }

  /** A skipping member misses the next on the way, and nothing else. */
  lemma TrailStep<T>(up: Up<T>, skips: set<T>, x: T)
    requires IsForest(up) && x in up && up[x].Some?
    ensures var p := up[x].value;
      p in up && Depth(up, p) < Depth(up, x)
      && Trail(up, skips, x) == {x} + (if x in skips then Trail(up, skips, p) - {p} else Trail(up, skips, p))
  {
    DepthStep(up, x);
    var p := up[x].value;
    if x in skips {
      assert GetParent(up, skips, x) == GetParent(up, skips, p);
      assert p !in Trail(up, skips, x);
    }
  }

  /** The holder of k is met exactly when k does not skip it. */
  lemma {:induction false} TrailMeets<T>(up: Up<T>, skips: set<T>, x: T, k: T)
    requires IsForest(up) && x in up && k in Chain(up, x) && up[k].Some?
    ensures up[k].value in Trail(up, skips, x) <==> k !in skips
    decreases Depth(up, x)
  {
    TrailStep(up, skips, x);
    DepthStep(up, k);
    var p := up[x].value;
    if k == x {
      assert p in Trail(up, skips, p);
    } else {
      TrailMeets(up, skips, p, k);
      ChainMember(up, p, k);
      assert up[k].value != p && up[k].value != x;
    }
  }

  lemma {:induction false} TrailInChain<T>(up: Up<T>, skips: set<T>, x: T)
    requires IsForest(up) && x in up
    ensures Trail(up, skips, x) <= Chain(up, x)
    decreases Depth(up, x)
  {
    if up[x].Some? {
      TrailStep(up, skips, x);
      TrailInChain(up, skips, up[x].value);
    }
  }

  /** Where a walk by getParent ends. */
  ghost function TrailEnd<T>(up: Up<T>, skips: set<T>, x: T): (e: T)
    requires IsForest(up) && x in up
    ensures e in up && e in Trail(up, skips, x) && GetParent(up, skips, e) == None
    decreases Depth(up, x)
  {
    var p := GetParent(up, skips, x);
    if p.Some? then TrailEnd(up, skips, p.value) else x
  }

  lemma {:induction false} TrailEndUnique<T>(up: Up<T>, skips: set<T>, x: T, e: T)
    requires IsForest(up) && x in up && e in Trail(up, skips, x) && GetParent(up, skips, e) == None
    ensures e == TrailEnd(up, skips, x)
    decreases Depth(up, x)
  {
    var p := GetParent(up, skips, x);
    if p.Some? {
      TrailEndUnique(up, skips, p.value, e);
    }
  }

  /** The last but one of a walk that goes somewhere. */
  ghost function BeforeEnd<T>(up: Up<T>, skips: set<T>, x: T): (b: T)
    requires IsForest(up) && x in up && GetParent(up, skips, x).Some?
    ensures b in up && b in Trail(up, skips, x) && GetParent(up, skips, b) == Some(TrailEnd(up, skips, x))
    decreases Depth(up, x)
  {
    var p := GetParent(up, skips, x).value;
    if GetParent(up, skips, p) == None then x else BeforeEnd(up, skips, p)
  }

  lemma {:induction false} TrailSame<T>(up: Up<T>, up': Up<T>, skips: set<T>, skips': set<T>, c: T)
    requires IsForest(up) && IsForest(up') && c in up && up.Keys <= up'.Keys
    requires forall y :: y in Chain(up, c) ==> up'[y] == up[y] && (y in skips <==> y in skips')
    ensures GetParent(up', skips', c) == GetParent(up, skips, c) && Trail(up', skips', c) == Trail(up, skips, c)
    decreases Depth(up, c)
  {
    hide IsForest;
    if up[c].Some? {
      DepthStep(up, c);
      TrailStep(up, skips, c);
      TrailStep(up', skips', c);
      TrailSame(up, up', skips, skips', up[c].value);
    }
  }

  /** A walk does not see what happens off the chain. */
  lemma {:induction false} TrailUnaffected<T>(up: Up<T>, up': Up<T>, skips: set<T>, skips': set<T>, c: T)
    requires IsForest(up) && IsForest(up') && c in up && up.Keys <= up'.Keys
    requires forall y :: y in Chain(up, c) ==> up'[y] == up[y] && (y in skips <==> y in skips')
    ensures GetParent(up', skips', c) == GetParent(up, skips, c) && Trail(up', skips', c) == Trail(up, skips, c)
    ensures TrailEnd(up', skips', c) == TrailEnd(up, skips, c)
    ensures GetParent(up, skips, c).Some? ==> BeforeEnd(up', skips', c) == BeforeEnd(up, skips, c)
    decreases Depth(up, c)
  {
    TrailSame(up, up', skips, skips', c);
    var next := GetParent(up, skips, c);
    if next.Some? {
      TrailInChain(up, skips, c);
      ChainMember(up, c, next.value);
      TrailUnaffected(up, up', skips, skips', next.value);
    }
    hide IsForest, Trail;
  }
}
