// What lies inside what, when one parent link changes (src/container.cpp).
//
// The set of everything inside a node, and its size, after a link is cut, a root is hung somewhere or a fresh root
// joins.
module Descendants {
  import opened Options
  import opened Forest
  import opened ItemTree
  import opened ItemWalk

  // ---------------------------------------------------------------- descendants when one link changes

  lemma {:induction false} ChainLink<T>(up: Up<T>, x: T, c: T, y: T)
    requires IsForest(up) && x in up && c in up && y in up && up[x] == None && IsForest(up[x := Some(c)])
    requires x !in Chain(up, c)
    ensures Chain(up[x := Some(c)], y) == if x in Chain(up, y) then Chain(up, y) + Chain(up, c) else Chain(up, y)
    decreases Depth(up, y)
  {
    var up' := up[x := Some(c)];
    AboveStep(up, y);
    AboveStep(up', y);
    if y == x {
      ChainUnaffected(up, up', x, c);
    } else if up[y].Some? {
      ChainLink(up, x, c, up[y].value);
    }
  }

  lemma BelowLink<T>(up: Up<T>, x: T, c: T, r: T)
    requires IsForest(up) && x in up && c in up && up[x] == None && x !in Chain(up, c) && r in Chain(up, c)
    ensures IsForest(up[x := Some(c)])
    ensures Below(up[x := Some(c)], r) == Below(up, r) + {x} + Below(up, x)
    ensures x !in Below(up, r) && Below(up, x) !! Below(up, r)
  {
    LinkForest(up, x, c);
    ChainMember(up, c, r);
    var up' := up[x := Some(c)];
    forall y | y in up ensures y in Below(up', r) <==> y in Below(up, r) + {x} + Below(up, x) {
      ChainLink(up, x, c, y);
      if x in Chain(up, y) && r in Chain(up, y) { RootsMeet(up, y, x, r); }
    }
    forall y | y in up && y in Below(up, x) ensures y !in Below(up, r) {
      if r in Chain(up, y) { RootsMeet(up, y, x, r); }
    }
    AboveStep(up, x);
  }

  /** In one chain, everything lies in the root; so a root x shared with r makes x enclose r. */
  lemma RootsMeet<T>(up: Up<T>, y: T, x: T, r: T)
    requires IsForest(up) && y in up && x in Chain(up, y) && r in Chain(up, y) && x in up && up[x] == None
    ensures x in Chain(up, r)
  {
    RootUnique(up, y, x);
    ChainMember(up, y, r);
    RootUnique(up, y, Root(up, r));
  }

  lemma {:induction false} ChainCut<T>(up: Up<T>, x: T, y: T)
    requires IsForest(up) && x in up && y in up && IsForest(up[x := None])
    ensures Chain(up[x := None], y) == if x in Chain(up, y) then Chain(up, y) - Enclosers(up, x) else Chain(up, y)
    decreases Depth(up, y)
  {
    var up' := up[x := None];
    AboveStep(up, y);
    AboveStep(up', y);
    if y == x {
    } else if up[y].Some? {
      ChainCut(up, x, up[y].value);
      if y in Enclosers(up, x) && x in Chain(up, y) {
        ChainMember(up, y, x);
        ChainMember(up, x, y);
      }
    }
  }

  lemma BelowCut<T>(up: Up<T>, x: T, r: T)
    requires IsForest(up) && x in up && r in Enclosers(up, x)
    ensures IsForest(up[x := None])
    ensures Below(up[x := None], r) == Below(up, r) - {x} - Below(up, x)
    ensures Below(up[x := None], x) == Below(up, x)
    ensures x in Below(up, r) && Below(up, x) <= Below(up, r) && x !in Below(up, x)
  {
    CutForest(up, x);
    AboveStep(up, x);
    var up' := up[x := None];
    forall y | y in up
      ensures y in Below(up', r) <==> y in Below(up, r) - {x} - Below(up, x)
      ensures y in Below(up', x) <==> y in Below(up, x)
      ensures y in Below(up, x) ==> y in Below(up, r)
    {
      ChainCut(up, x, y);
      if x in Chain(up, y) {
        ChainMember(up, y, x);
        if y == r { ChainMember(up, x, y); }
      }
    }
  }

  lemma BelowCutElsewhere<T>(up: Up<T>, x: T, r: T)
    requires IsForest(up) && x in up && r in up && r !in Chain(up, x)
    ensures IsForest(up[x := None]) && Below(up[x := None], r) == Below(up, r)
    ensures Below(up[x := None], x) == Below(up, x)
  {
    CutForest(up, x);
    AboveStep(up, x);
    var up' := up[x := None];
    forall y | y in up
      ensures y in Below(up', r) <==> y in Below(up, r)
      ensures y in Below(up', x) <==> y in Below(up, x)
    {
      ChainCut(up, x, y);
    }
  }

  lemma BelowCutSelf<T>(up: Up<T>, x: T)
    requires IsForest(up) && x in up
    ensures IsForest(up[x := None]) && Below(up[x := None], x) == Below(up, x)
  {
    CutForest(up, x);
    forall y | y in up ensures y in Below(up[x := None], x) <==> y in Below(up, x) {
      ChainCut(up, x, y);
      AboveStep(up, x);
    }
  }

  /** Cutting x loose: whatever it lay in holds x and what lies in x less, everything else the same. */
  lemma CutCount<T>(up: Up<T>, x: T, r: T)
    requires IsForest(up) && x in up && r in up
    ensures var up1 := up[x := None];
      && IsForest(up1) && Below(up1, x) == Below(up, x)
      && |Below(up1, r)| == |Below(up, r)| - (if r in Enclosers(up, x) then 1 + |Below(up, x)| else 0)
  {
    AboveStep(up, x);
    BelowCutSelf(up, x);
    if r in Enclosers(up, x) {
      BelowCut(up, x, r);
      var inside := {x} + Below(up, x);
      assert Below(up, r) == (Below(up, r) - inside) + inside;
      assert Below(up[x := None], r) == Below(up, r) - inside;
    } else if r != x {
      BelowCutElsewhere(up, x, r);
    }
  }

  /** Hanging x under c: whatever c lies in, c included, gains x and what lies in x; everything else holds the same. */
  lemma LinkCount<T>(up: Up<T>, x: T, c: T, r: T)
    requires IsForest(up) && x in up && c in up && up[x] == None && x !in Chain(up, c) && r in up
    ensures IsForest(up[x := Some(c)])
    ensures |Below(up[x := Some(c)], r)| == |Below(up, r)| + (if r in Chain(up, c) then 1 + |Below(up, x)| else 0)
  {
    if r in Chain(up, c) {
      BelowLink(up, x, c, r);
      assert x !in Below(up, x);
      assert |Below(up, r) + {x}| == |Below(up, r)| + 1;
    } else {
      LinkElsewhere(up, x, c, r);
    }
  }

  /** A fresh root holds nothing, and nothing else changes. */
  lemma JoinCount<T>(up: Up<T>, x: T, c: T)
    requires IsForest(up) && x !in up && c in up
    ensures var up1 := up[x := None];
      && IsForest(up1) && x !in Chain(up1, c) && Root(up1, c) == Root(up, c)
      && Below(up1, x) == {} && Below(up1, Root(up, c)) == Below(up, Root(up, c))
  {
    JoinSame(up, x, c);
    JoinSame(up, x, Root(up, c));
    var up1 := up[x := None];
    forall y | y in up ensures x !in Chain(up1, y) {
      JoinSame(up, x, y);
    }
  }

  /** Cutting something that does not enclose c leaves c's root where it was. */
  lemma CutRoot<T>(up: Up<T>, x: T, c: T)
    requires IsForest(up) && x in up && c in up && x !in Chain(up, c)
    ensures IsForest(up[x := None]) && Chain(up[x := None], c) == Chain(up, c) && Root(up[x := None], c) == Root(up, c)
  {
    CutForest(up, x);
    var up1 := up[x := None];
    ChainUnaffected(up, up1, x, c);
    RootUnique(up1, c, Root(up, c));
  }

  /** Hanging x under c: what c does not lie in stays as it is. */
  lemma LinkElsewhere<T>(up: Up<T>, x: T, c: T, r: T)
    requires IsForest(up) && x in up && c in up && up[x] == None && x !in Chain(up, c)
    requires r in up && r !in Chain(up, c)
    ensures IsForest(up[x := Some(c)]) && Below(up[x := Some(c)], r) == Below(up, r)
  {
    LinkForest(up, x, c);
    var up' := up[x := Some(c)];
    forall y | y in up ensures y in Below(up', r) <==> y in Below(up, r) {
      ChainLink(up, x, c, y);
    }
  }

  /** A fresh root changes nothing inside any other. */
  lemma JoinElsewhere<T>(up: Up<T>, x: T, r: T)
    requires IsForest(up) && x !in up && r in up
    ensures IsForest(up[x := None]) && Below(up[x := None], r) == Below(up, r)
  {
    JoinSame(up, x, r);
  }

  /** A childless root holds nothing, and leaves everything else as it is. */
  lemma LeaveElsewhere<T>(up: Up<T>, x: T, r: T)
    requires IsForest(up) && x in up && r in up && r != x && up[x] == None && Below(up, x) == {}
    ensures IsForest(up - {x}) && Below(up - {x}, r) == Below(up, r)
  {
    forall y | y in up && up[y].Some? ensures up[y].value != x {
      AboveStep(up, y);
      assert y !in Below(up, x) && up[y].value in Chain(up, y);
    }
    LeaveForest(up, x);
    var up' := up - {x};
    assert x !in Below(up, r) by {
      AboveStep(up, x);
    }
    forall y | y in up' ensures Chain(up', y) == Chain(up, y) {
      LeaveChain(up, x, y);
    }
  }

  lemma {:induction false} LeaveChain<T>(up: Up<T>, x: T, y: T)
    requires IsForest(up) && IsForest(up - {x}) && y in up && y != x
    requires forall z :: z in up && up[z].Some? ==> up[z].value != x
    ensures Chain(up - {x}, y) == Chain(up, y)
    decreases Depth(up, y)
  {
    if up[y].Some? {
      DepthStep(up, y);
      LeaveChain(up, x, up[y].value);
    }
  }

  /** What has no children holds nothing. */
  lemma KidlessBelow<T>(w: World<T>, x: T)
    requires Shaped(w) && x in w && w[x].kids == []
    ensures Below(Ups(w), x) == {}
  {
    forall k | k in w ensures w[k].parent != Some(x) {
      assert Adopted(w, k);
    }
    forall y | y in w && y != x ensures x !in Chain(Ups(w), y) {
      if x in Chain(Ups(w), y) {
        var k := ChildOnTheWay(Ups(w), y, x);
        assert false;
      }
    }
  }
}
