// The item tree as a value: a snapshot of every item's fields, and the elementary edits that the
// container operations perform on it.
//
// Each edit changes a parent link, a child list or a stack size and then adds the weight difference
// to every container that a walk by getParent meets.  Consistent says what must hold between
// operations; one lemma per edit shows that the edit keeps it.  What the edits do to the totals is
// the subject of ItemWeights.
module ItemTree {
  import opened Options
  import opened Forest

  const MAX_STACK := 100

  /** What makes two items stack together: the item type and the attribute list. */
  datatype Kind = Kind(id: nat, attributes: seq<int>, stackable: bool, weight: nat, pickupable: bool, moveable: bool)

  /** The fields of one item; only containers have children.  placed: it lies on a tile; skips: its class answers
      getParent with the parent of the container that holds it. */
  datatype Rec<T> = Rec(parent: Option<T>, kids: seq<T>, kind: Kind, count: nat, total: int, placed: bool, skips: bool)

  type World<T> = map<T, Rec<T>>

  // ---------------------------------------------------------------- weights

  function OwnWeight(kind: Kind, count: nat): int {
    if kind.stackable then kind.weight * (if count < 1 then 1 else count) else kind.weight
  }

  /** The weight of an item with everything in it, as the cached fields tell it. */
  ghost function Weight<T>(w: World<T>, x: T): int {
    if x in w then OwnWeight(w[x].kind, w[x].count) + w[x].total else 0
  }

  // ---------------------------------------------------------------- the invariant

  ghost predicate NoDup<T>(s: seq<T>) {
    forall i, j :: 0 <= i < j < |s| ==> s[i] != s[j]
  }

  ghost function Ups<T>(w: World<T>): Up<T> {
    map x | x in w :: w[x].parent
  }

  /** The items whose getParent passes over their container. */
  ghost function Skips<T>(w: World<T>): set<T> {
    set x | x in w && w[x].skips
  }

  /** c and the containers that a walk by getParent meets from there. */
  ghost function Reach<T>(w: World<T>, c: T): (r: set<T>)
    requires IsForest(Ups(w)) && c in w
  {
    Trail(Ups(w), Skips(w), c)
  }

  /** The containers that hear of a change in p. */
  ghost function ReachOf<T>(w: World<T>, p: Option<T>): (r: set<T>)
    requires IsForest(Ups(w)) && (p.Some? ==> p.value in w)
  {
    if p.Some? then Reach(w, p.value) else {}
  }

  /** x is listed by the container its parent pointer names. */
  ghost predicate Adopted<T>(w: World<T>, x: T)
    requires x in w
  {
    w[x].parent.Some? ==> w[x].parent.value in w && x in w[w[x].parent.value].kids
  }

  /** Parent pointers and child lists describe the same edges, each edge once. */
  ghost predicate Linked<T>(w: World<T>) {
    && (forall x {:trigger Adopted(w, x)} :: x in w ==> Adopted(w, x))
    && (forall x, k {:trigger k in w[x].kids} :: x in w && k in w[x].kids ==> k in w && w[k].parent == Some(x))
    && (forall x {:trigger NoDup(w[x].kids)} :: x in w ==> NoDup(w[x].kids))
  }

  ghost predicate Shaped<T>(w: World<T>) {
    Linked(w) && IsForest(Ups(w))
  }

  ghost predicate Stacked<T>(w: World<T>) {
    forall x :: x in w && w[x].kind.stackable ==> 1 <= w[x].count <= MAX_STACK
  }

  ghost predicate Consistent<T>(w: World<T>) {
    Shaped(w) && Stacked(w)
  }

  ghost function IndexOf<T>(s: seq<T>, x: T): (i: nat)
    requires x in s
    ensures i < |s| && s[i] == x && x !in s[..i]
  {
    if s[0] == x then 0 else
      var j := IndexOf(s[1..], x);
      assert s[..j + 1] == [s[0]] + s[1..][..j];
      j + 1
  }

  lemma {:induction false} FirstIndex<T>(s: seq<T>, x: T, i: nat)
    requires i < |s| && s[i] == x && x !in s[..i]
    ensures IndexOf(s, x) == i
  {
    if i > 0 {
      assert s[0] == s[..i][0] && s[1..][..i - 1] == s[..i][1..];
      FirstIndex(s[1..], x, i - 1);
    }
  }

  // ---------------------------------------------------------------- elementary edits

  /** Adds d to the cached total of every container in cs. */
  ghost function Bump<T>(w: World<T>, cs: set<T>, d: int): (r: World<T>) {
    map x | x in w :: if x in cs then w[x].(total := w[x].total + d) else w[x]
  }

  /** p and everything p lies in. */
  ghost function Above<T>(up: Up<T>, p: Option<T>): (c: set<T>)
    requires IsForest(up) && (p.Some? ==> p.value in up)
  {
    if p.Some? then Chain(up, p.value) else {}
  }

  /** Everything x lies in. */
  ghost function Enclosers<T>(up: Up<T>, x: T): (c: set<T>)
    requires IsForest(up) && x in up
  {
    Above(up, up[x])
  }

  lemma AboveStep<T>(up: Up<T>, x: T)
    requires IsForest(up) && x in up
    ensures up[x].Some? ==> up[x].value in up
    ensures Chain(up, x) == {x} + Enclosers(up, x)
    ensures x !in Enclosers(up, x)
    ensures up[x].Some? ==> Depth(up, up[x].value) < Depth(up, x)
  {
    if up[x].Some? {
      DepthStep(up, x);
      if x in Chain(up, up[x].value) { ChainMember(up, up[x].value, x); }
    }
  }

  /** What x gains in weight by becoming another kind or size. */
  ghost function Gain<T>(w: World<T>, x: T, kind: Kind, count: nat): int
    requires x in w
  {
    OwnWeight(kind, count) - OwnWeight(w[x].kind, w[x].count)
  }

  ghost function Loss<T>(w: World<T>, x: T): int {
    -Weight(w, x)
  }

  /** The stack or single item x becomes another kind or size. */
  ghost function Reshape<T>(w: World<T>, x: T, kind: Kind, count: nat): World<T>
    requires IsForest(Ups(w)) && x in w
  {
    assert Ups(w)[x] == w[x].parent;
    Bump(w[x := w[x].(kind := kind, count := count)], ReachOf(w, w[x].parent), Gain(w, x, kind, count))
  }

  /** The root x becomes the i-th child of c. */
  ghost function Hang<T>(w: World<T>, c: T, i: nat, x: T): World<T>
    requires IsForest(Ups(w)) && c in w && x in w && i <= |w[c].kids| && c != x
  {
    Bump(HangLinks(w, c, i, x), Reach(w, c), Weight(w, x))
  }

  ghost function HangLinks<T>(w: World<T>, c: T, i: nat, x: T): World<T>
    requires c in w && x in w && i <= |w[c].kids| && c != x
  {
    w[x := w[x].(parent := Some(c), placed := false)][c := w[c].(kids := w[c].kids[..i] + [x] + w[c].kids[i..])]
  }

  /** The i-th child of c becomes a root. */
  ghost function Unhang<T>(w: World<T>, c: T, i: nat): World<T>
    requires IsForest(Ups(w)) && c in w && i < |w[c].kids| && w[c].kids[i] in w && w[c].kids[i] != c
  {
    Bump(UnhangLinks(w, c, i), Reach(w, c), Loss(w, w[c].kids[i]))
  }

  ghost function UnhangLinks<T>(w: World<T>, c: T, i: nat): World<T>
    requires c in w && i < |w[c].kids| && w[c].kids[i] in w && w[c].kids[i] != c
  {
    var x := w[c].kids[i];
    w[x := w[x].(parent := None, placed := false)][c := w[c].(kids := w[c].kids[..i] + w[c].kids[i + 1..])]
  }

  /** A new root without children. */
  ghost function Enter<T>(w: World<T>, x: T, kind: Kind, count: nat): World<T> {
    w[x := Rec(None, [], kind, count, 0, false, false)]
  }

  lemma BumpJoin<T>(w: World<T>, a: set<T>, b: set<T>, d: int)
    requires a !! b
    ensures Bump(Bump(w, a, d), b, d) == Bump(w, a + b, d)
  {
  }

  lemma ReshapeBelow<T>(w: World<T>, c: T, x: T, kind: Kind, count: nat)
    requires IsForest(Ups(w)) && c in w && x in w && w[x].parent == Some(c)
    ensures var v := w[x := w[x].(kind := kind, count := count)];
      && Ups(v) == Ups(w)
      && Skips(v) == Skips(w)
      && Reshape(w, x, kind, count) == Bump(v, Reach(v, c), Gain(w, x, kind, count))
  {
    var v := w[x := w[x].(kind := kind, count := count)];
    assert Ups(v) == Ups(w) && Skips(v) == Skips(w);
  }

  /** Writing the same kind and size back changes nothing. */
  lemma ReshapeSame<T>(w: World<T>, x: T)
    requires IsForest(Ups(w)) && x in w
    ensures Reshape(w, x, w[x].kind, w[x].count) == w
  {
    assert Ups(w)[x] == w[x].parent;
    assert w[x := w[x].(kind := w[x].kind, count := w[x].count)] == w;
  }

  // ---------------------------------------------------------------- what the edits leave alone

  /** y is the same in r as in w, but for its cached total. */
  ghost predicate Same<T>(w: World<T>, r: World<T>, y: T) {
    y in w && y in r && r[y] == w[y].(total := r[y].total)
  }

  lemma ReshapeFrame<T>(w: World<T>, x: T, kind: Kind, count: nat)
    requires IsForest(Ups(w)) && x in w
    ensures var r := Reshape(w, x, kind, count);
      && r.Keys == w.Keys && r[x] == w[x].(kind := kind, count := count, total := r[x].total)
      && forall y {:trigger r[y]} :: y in w && y != x ==> Same(w, r, y)
  {
    hide IsForest, Reach;
  }

  lemma HangFrame<T>(w: World<T>, c: T, i: nat, x: T)
    requires IsForest(Ups(w)) && c in w && x in w && i <= |w[c].kids| && c != x
    ensures var r := Hang(w, c, i, x);
      && r.Keys == w.Keys && r[x] == w[x].(parent := Some(c), placed := false, total := r[x].total)
      && r[c] == w[c].(kids := w[c].kids[..i] + [x] + w[c].kids[i..], total := r[c].total)
      && forall y {:trigger r[y]} :: y in w && y != x && y != c ==> Same(w, r, y)
  {
    hide IsForest, Reach, Weight;
  }

  lemma UnhangFrame<T>(w: World<T>, c: T, i: nat)
    requires IsForest(Ups(w)) && c in w && i < |w[c].kids| && w[c].kids[i] in w && w[c].kids[i] != c
    ensures var r, x := Unhang(w, c, i), w[c].kids[i];
      && r.Keys == w.Keys && r[x] == w[x].(parent := None, placed := false, total := r[x].total)
      && r[c] == w[c].(kids := w[c].kids[..i] + w[c].kids[i + 1..], total := r[c].total)
      && forall y {:trigger r[y]} :: y in w && y != x && y != c ==> Same(w, r, y)
  {
    hide IsForest, Reach, Loss;
  }

  // ---------------------------------------------------------------- chains

  lemma {:induction false} ChainParent<T>(up: Up<T>, c: T, k: T)
    requires IsForest(up) && c in up && k in Chain(up, c) && up[k].Some?
    ensures up[k].value in Chain(up, c)
    decreases Depth(up, c)
  {
    if k != c {
      DepthStep(up, c);
      ChainParent(up, up[c].value, k);
    } else {
      assert up[c].value in Chain(up, up[c].value);
    }
  }

  lemma {:induction false} ChildOnTheWay<T>(up: Up<T>, c: T, x: T) returns (k: T)
    requires IsForest(up) && c in up && x in Chain(up, c) && x != c
    ensures k in Chain(up, c) && k in up && up[k] == Some(x)
    decreases Depth(up, c)
  {
    DepthStep(up, c);
    if up[c].value == x {
      k := c;
    } else {
      k := ChildOnTheWay(up, up[c].value, x);
    }
  }

  /** Two members of one chain at the same depth are the same. */
  lemma {:induction false} SameDepthSame<T>(up: Up<T>, c: T, k: T, k': T)
    requires IsForest(up) && c in up && k in Chain(up, c) && k' in Chain(up, c)
    requires Depth(up, k) == Depth(up, k')
    ensures k == k'
    decreases Depth(up, c)
  {
    if k == c {
      if k' != c { ChainMember(up, c, k'); }
    } else if k' == c {
      ChainMember(up, c, k);
    } else {
      DepthStep(up, c);
      SameDepthSame(up, up[c].value, k, k');
    }
  }

  lemma OneChildOnTheWay<T>(up: Up<T>, c: T, x: T, k: T, k': T)
    requires IsForest(up) && c in up && k in Chain(up, c) && k' in Chain(up, c)
    requires up[k] == Some(x) && up[k'] == Some(x)
    ensures k == k'
  {
    DepthStep(up, k);
    DepthStep(up, k');
    SameDepthSame(up, c, k, k');
  }

  // ---------------------------------------------------------------- the edits keep the invariant

  /** Links, stacks and placement do not look at the totals. */
  lemma BumpKeeps<T>(w: World<T>, cs: set<T>, d: int)
    ensures Ups(Bump(w, cs, d)) == Ups(w) && Skips(Bump(w, cs, d)) == Skips(w)
    ensures Linked(w) ==> Linked(Bump(w, cs, d))
    ensures Stacked(w) ==> Stacked(Bump(w, cs, d))
  {
    var r := Bump(w, cs, d);
    if Linked(w) { SameLinks(w, r); }
  }

  lemma SameLinks<T>(w: World<T>, v: World<T>)
    requires Linked(w) && v.Keys == w.Keys
    requires forall x :: x in w ==> v[x].kids == w[x].kids && v[x].parent == w[x].parent
    ensures Linked(v) && Ups(v) == Ups(w)
  {
    forall x | x in v ensures Adopted(v, x) {
      assert Adopted(w, x);
    }
  }

  lemma ReshapeConsistent<T>(w: World<T>, x: T, kind: Kind, count: nat)
    requires Consistent(w) && x in w
    requires kind.stackable ==> 1 <= count <= MAX_STACK
    ensures Consistent(Reshape(w, x, kind, count)) && Ups(Reshape(w, x, kind, count)) == Ups(w)
    ensures Skips(Reshape(w, x, kind, count)) == Skips(w)
  {
    var v := w[x := w[x].(kind := kind, count := count)];
    assert Adopted(w, x);
    SameLinks(w, v);
    assert Skips(v) == Skips(w);
    BumpKeeps(v, ReachOf(w, w[x].parent), Gain(w, x, kind, count));
  }

  lemma HangConsistent<T>(w: World<T>, c: T, i: nat, x: T)
    requires Consistent(w) && c in w && x in w && i <= |w[c].kids|
    requires w[x].parent == None && x !in Chain(Ups(w), c)
    ensures c != x
    ensures Consistent(Hang(w, c, i, x)) && Ups(Hang(w, c, i, x)) == Ups(w)[x := Some(c)]
    ensures Skips(Hang(w, c, i, x)) == Skips(w)
  {
    var v := HangLinks(w, c, i, x);
    assert Ups(v) == Ups(w)[x := Some(c)] && Skips(v) == Skips(w);
    LinkForest(Ups(w), x, c);
    HangLinked(w, c, i, x);
    BumpKeeps(v, Reach(w, c), Weight(w, x));
  }

  lemma HangLinked<T>(w: World<T>, c: T, i: nat, x: T)
    requires Linked(w) && c in w && x in w && i <= |w[c].kids| && c != x && w[x].parent == None
    ensures Linked(HangLinks(w, c, i, x))
  {
    var v := HangLinks(w, c, i, x);
    assert x !in w[c].kids;
    InsertMembers(w[c].kids, i, x);
    forall y | y in v ensures Adopted(v, y) {
      assert Adopted(w, y);
    }
  }

  lemma {:induction false} ChainUnaffected<T>(up: Up<T>, up': Up<T>, x: T, c: T)
    requires IsForest(up) && IsForest(up') && c in up && up.Keys <= up'.Keys
    requires forall y :: y in up && y != x ==> up'[y] == up[y]
    requires x !in Chain(up, c)
    ensures Chain(up', c) == Chain(up, c)
    decreases Depth(up, c)
  {
    if up[c].Some? {
      DepthStep(up, c);
      ChainUnaffected(up, up', x, up[c].value);
    }
  }

  lemma UnhangConsistent<T>(w: World<T>, c: T, i: nat)
    requires Consistent(w) && c in w && i < |w[c].kids|
    ensures var x := w[c].kids[i]; x in w && x != c && x !in Chain(Ups(w), c)
    ensures Consistent(Unhang(w, c, i))
    ensures Ups(Unhang(w, c, i)) == Ups(w)[w[c].kids[i] := None] && Skips(Unhang(w, c, i)) == Skips(w)
  {
    KidBelow(w, c, i);
    UnhangUps(w, c, i);
    UnhangLinked(w, c, i);
    BumpKeeps(UnhangLinks(w, c, i), Reach(w, c), Loss(w, w[c].kids[i]));
  }

  lemma UnhangUps<T>(w: World<T>, c: T, i: nat)
    requires IsForest(Ups(w)) && c in w && i < |w[c].kids| && w[c].kids[i] in w && w[c].kids[i] != c
    requires w[w[c].kids[i]].parent == Some(c)
    ensures var up := Ups(UnhangLinks(w, c, i));
      && up == Ups(w)[w[c].kids[i] := None] && IsForest(up)
      && Chain(up, c) == Chain(Ups(w), c) && Trail(up, Skips(w), c) == Reach(w, c)
      && Ups(Unhang(w, c, i)) == up && Skips(Unhang(w, c, i)) == Skips(w)
  {
    var x, v := w[c].kids[i], UnhangLinks(w, c, i);
    assert Ups(v) == Ups(w)[x := None] && Skips(v) == Skips(w);
    CutForest(Ups(w), x);
    KidAbove(Ups(w), c, x);
    ChainUnaffected(Ups(w), Ups(v), x, c);
    TrailUnaffected(Ups(w), Ups(v), Skips(w), Skips(w), c);
    BumpKeeps(v, Reach(w, c), Loss(w, x));
  }

  lemma KidAbove<T>(up: Up<T>, c: T, x: T)
    requires IsForest(up) && c in up && x in up && up[x] == Some(c)
    ensures x != c && x !in Chain(up, c)
  {
    DepthStep(up, x);
    if x in Chain(up, c) { ChainMember(up, c, x); }
  }

  lemma KidBelow<T>(w: World<T>, c: T, i: nat)
    requires Shaped(w) && c in w && i < |w[c].kids|
    ensures var x := w[c].kids[i];
      x in w && w[x].parent == Some(c) && x != c && x !in Chain(Ups(w), c)
  {
    var x := w[c].kids[i];
    assert x in w[c].kids && Ups(w)[x] == Some(c);
    KidAbove(Ups(w), c, x);
  }

  lemma UnhangLinked<T>(w: World<T>, c: T, i: nat)
    requires Linked(w) && c in w && i < |w[c].kids| && w[c].kids[i] in w && w[c].kids[i] != c
    ensures Linked(UnhangLinks(w, c, i))
  {
    var v := UnhangLinks(w, c, i);
    DeleteMembers(w[c].kids, i);
    assert w[c].kids[i] in w[c].kids;
    forall y | y in v ensures Adopted(v, y) {
      assert Adopted(w, y);
    }
  }

  lemma InsertMembers<T>(s: seq<T>, i: nat, x: T)
    requires i <= |s| && NoDup(s) && x !in s
    ensures var t := s[..i] + [x] + s[i..]; NoDup(t) && forall k :: k in t <==> k == x || k in s
  {
    var t := s[..i] + [x] + s[i..];
    assert t[i] == x;
    forall k | k in s ensures k in t {
      var j :| 0 <= j < |s| && s[j] == k;
      assert t[if j < i then j else j + 1] == k;
    }
  }

  lemma DeleteMembers<T>(s: seq<T>, i: nat)
    requires i < |s| && NoDup(s)
    ensures var t := s[..i] + s[i + 1..]; NoDup(t) && forall k :: k in t <==> k != s[i] && k in s
  {
    var t := s[..i] + s[i + 1..];
    forall k | k in s && k != s[i] ensures k in t {
      var j :| 0 <= j < |s| && s[j] == k;
      assert t[if j < i then j else j - 1] == k;
    }
  }

  lemma EnterConsistent<T>(w: World<T>, x: T, kind: Kind, count: nat)
    requires Consistent(w) && x !in w
    requires kind.stackable ==> 1 <= count <= MAX_STACK
    ensures Consistent(Enter(w, x, kind, count))
    ensures Ups(Enter(w, x, kind, count)) == Ups(w)[x := None] && Skips(Enter(w, x, kind, count)) == Skips(w)
  {
    var r := Enter(w, x, kind, count);
    assert Ups(r) == Ups(w)[x := None];
    JoinForest(Ups(w), x);
    EnterLinked(w, x, kind, count);
  }

  lemma EnterLinked<T>(w: World<T>, x: T, kind: Kind, count: nat)
    requires Linked(w) && x !in w
    ensures Linked(Enter(w, x, kind, count))
  {
    var r := Enter(w, x, kind, count);
    forall y | y in r ensures Adopted(r, y) {
      if y != x { assert Adopted(w, y); }
    }
  }

  /** A childless root may be freed. */
  lemma LeaveConsistent<T>(w: World<T>, x: T)
    requires Consistent(w) && x in w && w[x].parent == None && w[x].kids == []
    ensures Consistent(w - {x}) && Ups(w - {x}) == Ups(w) - {x}
  {
    var r := w - {x};
    assert Ups(r) == Ups(w) - {x};
    forall y | y in r ensures Adopted(r, y) && Ups(w)[y] != Some(x) {
      assert Adopted(w, y);
    }
    LeaveForest(Ups(w), x);
  }

  // ---------------------------------------------------------------- the real weights

  /** How much deeper the tree could still go below x. */
  ghost function LevelsLeft<T>(w: World<T>, x: T): nat
    requires Shaped(w) && x in w
  {
    |Ups(w).Keys| - Depth(Ups(w), x)
  }

  /** The weight of x with everything in it, computed by descending the tree; no cached field is read. */
  ghost function DeepWeight<T>(w: World<T>, x: T): int
    requires Shaped(w) && x in w
    decreases LevelsLeft(w, x), |w[x].kids| + 1
  {
    OwnWeight(w[x].kind, w[x].count) + DeepSum(w, x, 0)
  }

  /** The deep weights of the children of x from the i-th on. */
  ghost function DeepSum<T>(w: World<T>, x: T, i: nat): int
    requires Shaped(w) && x in w && i <= |w[x].kids|
    decreases LevelsLeft(w, x), |w[x].kids| - i
  {
    if i == |w[x].kids| then 0
    else
      KidBelow(w, x, i);
      DepthStep(Ups(w), w[x].kids[i]);
      DeepWeight(w, w[x].kids[i]) + DeepSum(w, x, i + 1)
  }
}
