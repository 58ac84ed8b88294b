/** Reference counters of items and what a cleanup frees: an item at zero references is deleted, and a deleted container
    drops the reference it holds on each of its children, which may delete these in turn. */
module ItemReferences {
  import opened Options
  import opened Forest
  import ItemTree

  type Item = nat

  function Count(q: seq<Item>, item: Item): nat {
    if q == [] then 0 else (if q[0] == item then 1 else 0) + Count(q[1..], item)
  }

  lemma {:induction false} CountConcat(q: seq<Item>, r: seq<Item>, item: Item)
    ensures Count(q + r, item) == Count(q, item) + Count(r, item)
    decreases |q|
  {
    if q == [] {
      assert q + r == r;
    } else {
      assert (q + r)[1..] == q[1..] + r;
      CountConcat(q[1..], r, item);
    }
  }

  lemma CountAppend(q: seq<Item>, last: Item, item: Item)
    ensures Count(q + [last], item) == Count(q, item) + if last == item then 1 else 0
  {
    CountConcat(q, [last], item);
  }

  lemma {:induction false} CountIn(q: seq<Item>, item: Item)
    ensures item in q <==> Count(q, item) > 0
    decreases |q|
  {
    if q != [] {
      CountIn(q[1..], item);
    }
  }

  /** The items that are not deleted: their counters, the references of tiles, players and the like, who lies in whom,
      who decays when, and the releases that cleanups have dropped. */
  datatype State = State(counter: map<Item, nat>, holders: map<Item, nat>, up: Up<Item>, kids: map<Item, seq<Item>>,
                         reverse: map<Item, int>, lost: seq<Item>)

  function Decaying(reverse: map<Item, int>, item: Item): nat {
    if item in reverse then 1 else 0
  }

  // the reference of the container it lies in
  function Held(up: Up<Item>, item: Item): nat {
    if item in up && up[item].Some? then 1 else 0
  }

  function References(s: State, releases: seq<Item>, item: Item): nat
    requires item in s.holders
  {
    s.holders[item] + Held(s.up, item) + Decaying(s.reverse, item) + Count(releases, item) + Count(s.lost, item)
  }

  // a counter counts the holders, the container, the decay index and the releases pending or dropped; it is zero
  // only while the item's destructor runs
  ghost predicate Counted(s: State, releases: seq<Item>, dying: set<Item>) {
    && s.holders.Keys == s.counter.Keys && s.up.Keys == s.counter.Keys && s.reverse.Keys <= s.counter.Keys
    && dying <= s.counter.Keys
    && (forall i :: i in s.counter ==>
        s.counter[i] == References(s, releases, i) && (s.counter[i] == 0 <==> i in dying))
    && (forall i :: i in releases || i in s.lost ==> i in s.counter)
  }

  // parents and child lists say the same, and nothing lies in itself
  ghost predicate Nested(up: Up<Item>, kids: map<Item, seq<Item>>) {
    && kids.Keys == up.Keys && IsForest(up)
    && (forall c, x {:trigger x in kids[c]} :: c in kids && x in kids[c] ==> x in up && up[x] == Some(c))
    && (forall x {:trigger up[x]} :: x in up && up[x].Some? ==> up[x].value in kids && x in kids[up[x].value])
    && (forall c {:trigger kids[c]} :: c in kids ==> ItemTree.NoDup(kids[c]))
  }

  ghost predicate Sound(s: State, releases: seq<Item>, dying: set<Item>) {
    Counted(s, releases, dying) && Nested(s.up, s.kids)
  }

  // ---------- single steps ----------

  // the decay index takes a reference
  function Begin(s: State, item: Item, t: int): State
    requires item in s.counter
  {
    s.(counter := s.counter[item := s.counter[item] + 1], reverse := s.reverse[item := t])
  }

  // it gives the reference up, to be released
  function Halt(s: State, item: Item): State {
    s.(reverse := s.reverse - {item})
  }

  // one reference less
  function Less(s: State, item: Item): State
    requires item in s.counter && s.counter[item] > 0
  {
    s.(counter := s.counter[item := s.counter[item] - 1])
  }

  // the container c forgets its first child
  function Cut(s: State, c: Item): State
    requires c in s.kids && s.kids[c] != []
  {
    s.(up := s.up[s.kids[c][0] := None], kids := s.kids[c := s.kids[c][1..]])
  }

  function Without(s: State, item: Item): State {
    State(s.counter - {item}, s.holders - {item}, s.up - {item}, s.kids - {item}, s.reverse - {item}, s.lost)
  }

  function Join(s: State, item: Item): State {
    State(s.counter[item := 1], s.holders[item := 1], s.up[item := None], s.kids[item := []], s.reverse, s.lost)
  }

  // another place holds the item
  function Hold(s: State, item: Item): State
    requires item in s.counter && item in s.holders
  {
    s.(counter := s.counter[item := s.counter[item] + 1], holders := s.holders[item := s.holders[item] + 1])
  }

  // a place lets go of it
  function LetGo(s: State, item: Item): State
    requires item in s.holders && s.holders[item] > 0
  {
    s.(holders := s.holders[item := s.holders[item] - 1])
  }

  // a place hands its reference to the container c
  function Put(s: State, item: Item, c: Item): State
    requires item in s.holders && s.holders[item] > 0 && c in s.kids
  {
    LetGo(s, item).(up := s.up[item := Some(c)], kids := s.kids[c := [item] + s.kids[c]])
  }

  // the i-th child of c is taken out by someone who holds it then
  function TakeOut(s: State, c: Item, i: nat): State
    requires c in s.kids && i < |s.kids[c]| && s.kids[c][i] in s.holders
  {
    var item := s.kids[c][i];
    s.(holders := s.holders[item := s.holders[item] + 1], up := s.up[item := None],
       kids := s.kids[c := s.kids[c][..i] + s.kids[c][i + 1..]])
  }

  lemma BeginSound(s: State, releases: seq<Item>, item: Item, t: int)
    requires Sound(s, releases, {}) && item in s.counter && item !in s.reverse
    ensures Sound(Begin(s, item, t), releases, {})
  {
  }

  lemma HaltSound(s: State, releases: seq<Item>, dying: set<Item>, item: Item)
    requires Sound(s, releases, dying) && item in s.reverse
    ensures Sound(Halt(s, item), releases + [item], dying)
  {
    forall i ensures Count(releases + [item], i) == Count(releases, i) + if item == i then 1 else 0 {
      CountAppend(releases, item, i);
    }
  }

  /** A release is carried out.  At zero nothing refers to the item any more. */
  lemma LessSound(s: State, rest: seq<Item>, dying: set<Item>, item: Item)
    requires Sound(s, [item] + rest, dying)
    ensures item in s.counter && item !in dying && s.counter[item] > 0
    ensures Sound(Less(s, item), rest, if s.counter[item] == 1 then dying + {item} else dying)
    ensures s.counter[item] == 1 ==>
      s.holders[item] == 0 && s.up[item] == None && item !in s.reverse && item !in rest && item !in s.lost
  {
    hide Nested;
    assert item in [item] + rest;
    assert ([item] + rest)[1..] == rest;
    forall i | i in rest ensures i in s.counter {
      assert i in [item] + rest;
    }
    CountIn(rest, item);
    CountIn(s.lost, item);
    var d := if s.counter[item] == 1 then dying + {item} else dying;
    forall i | i in s.counter
      ensures Less(s, item).counter[i] == References(Less(s, item), rest, i)
      ensures Less(s, item).counter[i] == 0 <==> i in d
    {
      assert s.counter[i] == References(s, [item] + rest, i);
      assert Count([item] + rest, i) == (if item == i then 1 else 0) + Count(rest, i);
    }
  }

  lemma NestedCut(up: Up<Item>, kids: map<Item, seq<Item>>, c: Item, i: nat)
    requires Nested(up, kids) && c in kids && i < |kids[c]|
    ensures kids[c][i] in up && up[kids[c][i]] == Some(c)
    ensures Nested(up[kids[c][i] := None], kids[c := kids[c][..i] + kids[c][i + 1..]])
  {
    var kid := kids[c][i];
    assert kid in kids[c];
    CutForest(up, kid);
    ItemTree.DeleteMembers(kids[c], i);
    var up', list := up[kid := None], kids[c][..i] + kids[c][i + 1..];
    var kids' := kids[c := list];
    hide IsForest;
    forall x | x in up' && up'[x].Some? ensures up'[x].value in kids' && x in kids'[up'[x].value] {
      assert up[x].Some? && x in kids[up[x].value];
    }
    forall d, x | d in kids' && x in kids'[d] ensures x in up' && up'[x] == Some(d) {
      assert x in kids[d];
    }
  }

  lemma CutCounted(s: State, rest: seq<Item>, dying: set<Item>, c: Item, kid: Item)
    requires Counted(s, rest, dying) && c in s.kids && s.kids[c] != [] && kid == s.kids[c][0]
    requires kid in s.up && s.up[kid].Some?
    ensures Counted(Cut(s, c), [kid] + rest, dying)
  {
    var v := Cut(s, c);
    assert ([kid] + rest)[1..] == rest;
    forall i | i in v.counter ensures References(v, [kid] + rest, i) == References(s, rest, i) {
      assert Count([kid] + rest, i) == (if kid == i then 1 else 0) + Count(rest, i);
    }
  }

  /** The container's reference on its first child becomes one to be given up next. */
  lemma CutSound(s: State, rest: seq<Item>, dying: set<Item>, c: Item)
    requires Sound(s, rest, dying) && c in s.kids && s.kids[c] != []
    ensures s.kids[c][0] in s.counter && s.up[s.kids[c][0]] == Some(c)
    ensures Sound(Cut(s, c), [s.kids[c][0]] + rest, dying)
  {
    hide Nested, References, Count;
    NestedCut(s.up, s.kids, c, 0);
    assert s.kids[c][..0] + s.kids[c][1..] == s.kids[c][1..];
    assert s.kids[c][0] in s.counter;
    CutCounted(s, rest, dying, c, s.kids[c][0]);
    hide Counted;
  }

  lemma NestedWithout(up: Up<Item>, kids: map<Item, seq<Item>>, item: Item)
    requires Nested(up, kids) && item in kids && kids[item] == [] && up[item] == None
    ensures Nested(up - {item}, kids - {item})
  {
    forall y | y in up && up[y].Some? ensures up[y].value != item {
      assert y in kids[up[y].value];
    }
    LeaveForest(up, item);
    hide IsForest;
    var up', kids' := up - {item}, kids - {item};
    forall x | x in up' && up'[x].Some? ensures up'[x].value in kids' && x in kids'[up'[x].value] {
      assert up[x].Some? && x in kids[up[x].value];
    }
    forall d, x | d in kids' && x in kids'[d] ensures x in up' && up'[x] == Some(d) {
      assert x in kids[d];
    }
  }

  lemma WithoutCounted(s: State, rest: seq<Item>, dying: set<Item>, item: Item)
    requires Counted(s, rest, dying) && item in dying
    ensures s.up[item] == None && Counted(Without(s, item), rest, dying - {item})
  {
    assert s.counter[item] == References(s, rest, item);
    CountIn(rest, item);
    CountIn(s.lost, item);
    var v := Without(s, item);
    forall i | i in v.counter ensures References(v, rest, i) == References(s, rest, i) {
    }
  }

  lemma WithoutSound(s: State, rest: seq<Item>, dying: set<Item>, item: Item)
    requires Sound(s, rest, dying) && item in dying && s.kids[item] == []
    ensures Sound(Without(s, item), rest, dying - {item})
  {
    WithoutCounted(s, rest, dying, item);
    NestedWithout(s.up, s.kids, item);
  }

  lemma JoinSound(s: State, releases: seq<Item>, item: Item)
    requires Sound(s, releases, {}) && item !in s.counter
    ensures Sound(Join(s, item), releases, {})
  {
    hide Nested, IsForest;
    JoinCounted(s, releases, item);
    NestedJoin(s.up, s.kids, item);
    hide Counted;
  }

  lemma JoinCounted(s: State, releases: seq<Item>, item: Item)
    requires Counted(s, releases, {}) && item !in s.counter
    ensures item !in s.up && Counted(Join(s, item), releases, {})
  {
    CountIn(releases, item);
    CountIn(s.lost, item);
    var v := Join(s, item);
    forall i | i in v.counter ensures v.counter[i] == References(v, releases, i) && v.counter[i] != 0 {
      assert i != item ==> s.counter[i] == References(s, releases, i);
    }
  }

  lemma NestedJoin(up: Up<Item>, kids: map<Item, seq<Item>>, item: Item)
    requires Nested(up, kids) && item !in up
    ensures Nested(up[item := None], kids[item := []])
  {
    JoinForest(up, item);
    hide IsForest;
    var up', kids' := up[item := None], kids[item := []];
    forall x | x in up' && up'[x].Some? ensures up'[x].value in kids' && x in kids'[up'[x].value] {
      assert up[x].Some? && x in kids[up[x].value];
    }
    forall d, x | d in kids' && x in kids'[d] ensures x in up' && up'[x] == Some(d) {
      assert x in kids[d];
    }
  }

  lemma HoldSound(s: State, releases: seq<Item>, item: Item)
    requires Sound(s, releases, {}) && item in s.counter
    ensures Sound(Hold(s, item), releases, {})
  {
  }

  lemma LetGoSound(s: State, releases: seq<Item>, item: Item)
    requires Sound(s, releases, {}) && item in s.counter && s.holders[item] > 0
    ensures Sound(LetGo(s, item), releases + [item], {})
  {
    forall i ensures Count(releases + [item], i) == Count(releases, i) + if item == i then 1 else 0 {
      CountAppend(releases, item, i);
    }
  }

  lemma NestedPut(up: Up<Item>, kids: map<Item, seq<Item>>, item: Item, c: Item)
    requires Nested(up, kids) && item in up && c in up && up[item] == None && item !in Chain(up, c)
    ensures Nested(up[item := Some(c)], kids[c := [item] + kids[c]])
  {
    LinkForest(up, item, c);
    assert item !in kids[c];
    ItemTree.InsertMembers(kids[c], 0, item);
    assert kids[c][..0] + [item] + kids[c][0..] == [item] + kids[c];
    var up', kids' := up[item := Some(c)], kids[c := [item] + kids[c]];
    hide IsForest;
    forall x | x in up' && up'[x].Some? ensures up'[x].value in kids' && x in kids'[up'[x].value] {
      assert x != item ==> up[x].Some? && x in kids[up[x].value];
    }
    forall d, x | d in kids' && x in kids'[d] ensures x in up' && up'[x] == Some(d) {
      assert x != item ==> x in kids[d];
    }
  }

  lemma PutSound(s: State, releases: seq<Item>, item: Item, c: Item)
    requires Sound(s, releases, {}) && item in s.counter && s.holders[item] > 0 && c in s.counter
    requires s.up[item] == None && item !in Chain(s.up, c)
    ensures Sound(Put(s, item, c), releases, {})
  {
    NestedPut(s.up, s.kids, item, c);
    hide Nested, IsForest;
    PutCounted(s, releases, item, c);
    hide Counted;
  }

  lemma PutCounted(s: State, releases: seq<Item>, item: Item, c: Item)
    requires Counted(s, releases, {}) && item in s.counter && s.holders[item] > 0 && s.up[item] == None && c in s.kids
    ensures Counted(Put(s, item, c), releases, {})
  {
    var v := Put(s, item, c);
    forall i | i in v.counter ensures v.counter[i] == References(v, releases, i) && v.counter[i] != 0 {
      assert s.counter[i] == References(s, releases, i);
    }
  }

  lemma TakeOutSound(s: State, releases: seq<Item>, c: Item, i: nat)
    requires Sound(s, releases, {}) && c in s.kids && i < |s.kids[c]|
    ensures s.kids[c][i] in s.holders && Sound(TakeOut(s, c, i), releases, {})
  {
    hide Nested, IsForest;
    NestedCut(s.up, s.kids, c, i);
    TakeOutCounted(s, releases, c, i);
    hide Counted;
  }

  lemma TakeOutCounted(s: State, releases: seq<Item>, c: Item, i: nat)
    requires Counted(s, releases, {}) && c in s.kids && i < |s.kids[c]|
    requires s.kids[c][i] in s.up && s.up[s.kids[c][i]].Some?
    ensures s.kids[c][i] in s.holders && Counted(TakeOut(s, c, i), releases, {})
  {
    var v := TakeOut(s, c, i);
    forall j | j in v.counter ensures v.counter[j] == References(v, releases, j) {
      assert s.counter[j] == References(s, releases, j);
    }
  }

  lemma DyingListed(s: State, releases: seq<Item>, dying: set<Item>)
    requires Sound(s, releases, dying)
    ensures dying <= s.kids.Keys && dying <= s.counter.Keys && s.kids.Keys == s.counter.Keys == s.up.Keys
  {
  }

  lemma SoundKeys(s: State, releases: seq<Item>)
    requires Sound(s, releases, {})
    ensures s.counter.Keys == s.holders.Keys == s.up.Keys == s.kids.Keys && s.reverse.Keys <= s.counter.Keys
    ensures IsForest(s.up)
  {
  }

  lemma ListedChild(s: State, releases: seq<Item>, item: Item)
    requires Sound(s, releases, {}) && item in s.up && s.up[item].Some?
    ensures s.up[item].value in s.kids && item in s.kids[s.up[item].value]
  {
  }

  // nothing is left to say about an item whose destructor runs
  lemma DyingIdle(s: State, releases: seq<Item>, dying: set<Item>, item: Item)
    requires Sound(s, releases, dying) && item in dying
    ensures item !in s.reverse
  {
    assert s.counter[item] == References(s, releases, item);
  }

  // ---------- what a cleanup frees ----------

  /** Nothing outside keeps the item or anything it lies in: no place, no decay, no dropped release. */
  ghost predicate Doomed(s: State, item: Item)
    requires s.holders.Keys == s.up.Keys && IsForest(s.up) && item in s.up
  {
    forall y :: y in Chain(s.up, item) ==> s.holders[y] == 0 && y !in s.reverse && y !in s.lost
  }

  lemma DoomedStep(s: State, item: Item)
    requires s.holders.Keys == s.up.Keys && IsForest(s.up) && item in s.up
    ensures s.up[item].Some? ==> s.up[item].value in s.up && Depth(s.up, s.up[item].value) < Depth(s.up, item)
    ensures Doomed(s, item) <==>
      && s.holders[item] == 0 && item !in s.reverse && item !in s.lost
      && (s.up[item].Some? ==> Doomed(s, s.up[item].value))
  {
    ItemTree.AboveStep(s.up, item);
  }

  /** The decaying items that lie directly in a container which the cleanup frees. */
  ghost function Strays(s: State): set<Item>
    requires s.holders.Keys == s.up.Keys && s.reverse.Keys <= s.up.Keys && IsForest(s.up)
  {
    set x | x in s.reverse && s.up[x].Some? && Doomed(s, s.up[x].value)
  }

  ghost predicate Passed(s: State, dying: set<Item>, item: Item) {
    item !in s.counter || item in dying
  }

  // x has been cut off from a container that is gone or going
  ghost predicate Orphaned(before: State, s: State, dying: set<Item>, x: Item)
    requires x in before.up
  {
    before.up[x].Some? && Passed(s, dying, before.up[x].value)
  }

  // survivors keep their holders, and their parents but for those that go
  ghost predicate Kept(before: State, s: State, dying: set<Item>) {
    && s.counter.Keys <= before.up.Keys && s.counter.Keys <= s.holders.Keys && s.counter.Keys <= s.up.Keys
    && s.counter.Keys <= before.holders.Keys && s.lost == before.lost
    && (forall i :: i in s.counter ==> s.holders[i] == before.holders[i])
    && (forall i {:trigger s.up[i]} :: i in s.counter ==>
          s.up[i] == before.up[i] || (s.up[i] == None && i !in s.reverse && Orphaned(before, s, dying, i)))
  }

  // only what nothing outside keeps has gone
  ghost predicate Justified(before: State, s: State, dying: set<Item>)
    requires before.holders.Keys == before.up.Keys && IsForest(before.up)
  {
    forall i {:trigger Passed(s, dying, i)} :: i in before.up && Passed(s, dying, i) ==> Doomed(before, i)
  }

  // the releases pushed meanwhile are those of the decays that ended, once each, all of children of what goes
  ghost predicate Late(before: State, s: State, late: seq<Item>, dying: set<Item>) {
    && s.reverse.Keys <= s.counter.Keys && before.reverse.Keys <= before.up.Keys && ItemTree.NoDup(late)
    && (forall i :: i in s.reverse ==> i in before.reverse && s.reverse[i] == before.reverse[i])
    && (forall i :: i in before.reverse ==> i in s.reverse || i in late)
    && (forall i :: i in late ==> i in before.reverse && i !in s.reverse && Orphaned(before, s, dying, i))
  }

  // how far a cleanup has come since before
  ghost predicate Progress(before: State, s: State, late: seq<Item>, dying: set<Item>)
    requires before.holders.Keys == before.up.Keys && IsForest(before.up)
  {
    Kept(before, s, dying) && Justified(before, s, dying) && Late(before, s, late, dying)
  }

  lemma ProgressStart(s: State, releases: seq<Item>)
    requires Sound(s, releases, {})
    ensures Progress(s, s, [], {})
  {
  }

  lemma ProgressLess(before: State, s: State, late: seq<Item>, rest: seq<Item>, dying: set<Item>, item: Item)
    requires before.holders.Keys == before.up.Keys && IsForest(before.up)
    requires Progress(before, s, late, dying) && Sound(s, [item] + rest, dying) && forall i :: i in late ==> i in rest
    ensures item in s.counter && s.counter[item] > 0
    ensures Progress(before, Less(s, item), late, if s.counter[item] == 1 then dying + {item} else dying)
  {
    LessSound(s, rest, dying, item);
    var d := if s.counter[item] == 1 then dying + {item} else dying;
    assert item in before.up && (s.counter[item] == 1 ==> Doomed(before, item)) by {
      DoomedStep(before, item);
      hide Counted, Nested, IsForest, Doomed;
      if before.up[item].Some? && s.counter[item] == 1 {
        assert Passed(s, dying, before.up[item].value);
      }
    }
    hide Counted, Nested, IsForest, Doomed, Sound;
    var v := Less(s, item);
    forall i | i in before.up && Passed(v, d, i) ensures Doomed(before, i) {
      assert i == item || Passed(s, dying, i);
    }
    assert forall i :: Passed(s, dying, i) ==> Passed(v, d, i);
    WiderKept(before, s, v, dying, d);
    WiderLate(before, s, v, late, dying, d);
  }

  lemma WiderKept(before: State, s: State, v: State, dying: set<Item>, d: set<Item>)
    requires Kept(before, s, dying) && v == s.(counter := v.counter) && v.counter.Keys == s.counter.Keys
    requires forall i :: Passed(s, dying, i) ==> Passed(v, d, i)
    ensures Kept(before, v, d)
  {
  }

  lemma WiderLate(before: State, s: State, v: State, late: seq<Item>, dying: set<Item>, d: set<Item>)
    requires Late(before, s, late, dying) && v == s.(counter := v.counter) && v.counter.Keys == s.counter.Keys
    requires forall i :: Passed(s, dying, i) ==> Passed(v, d, i)
    ensures Late(before, v, late, d)
  {
  }

  // a child of a dying container loses its parent and stops decaying
  lemma ProgressCut(before: State, s: State, late: seq<Item>, rest: seq<Item>, dying: set<Item>, c: Item)
    requires before.holders.Keys == before.up.Keys && IsForest(before.up)
    requires Progress(before, s, late, dying) && Sound(s, rest, dying) && c in dying && s.kids[c] != []
    ensures var kid := s.kids[c][0];
      Progress(before, Halt(Cut(s, c), kid), if kid in s.reverse then late + [kid] else late, dying)
  {
    CutSound(s, rest, dying, c);
    var kid := s.kids[c][0];
    assert s.up[kid] == before.up[kid] == Some(c);
    hide Counted, Nested, IsForest, Doomed, Sound;
    var v := Halt(Cut(s, c), kid);
    assert forall i :: Passed(v, dying, i) <==> Passed(s, dying, i);
    KeptCut(before, s, dying, c, kid);
    LateCut(before, s, late, dying, c, kid);
  }

  lemma KeptCut(before: State, s: State, dying: set<Item>, c: Item, kid: Item)
    requires Kept(before, s, dying) && c in s.kids && s.kids[c] != [] && kid == s.kids[c][0] && c in dying
    requires kid in s.counter && before.up[kid] == Some(c)
    ensures Kept(before, Halt(Cut(s, c), kid), dying)
  {
    var v := Halt(Cut(s, c), kid);
    assert forall i :: Passed(v, dying, i) <==> Passed(s, dying, i);
  }

  lemma LateCut(before: State, s: State, late: seq<Item>, dying: set<Item>, c: Item, kid: Item)
    requires Late(before, s, late, dying) && c in s.kids && s.kids[c] != [] && kid == s.kids[c][0] && c in dying
    requires kid in before.up && before.up[kid] == Some(c)
    ensures Late(before, Halt(Cut(s, c), kid), if kid in s.reverse then late + [kid] else late, dying)
  {
    var v := Halt(Cut(s, c), kid);
    assert forall i :: Passed(v, dying, i) <==> Passed(s, dying, i);
    assert Orphaned(before, v, dying, kid);
  }

  lemma ProgressGone(before: State, s: State, late: seq<Item>, dying: set<Item>, c: Item)
    requires before.holders.Keys == before.up.Keys && IsForest(before.up)
    requires Progress(before, s, late, dying) && c in dying && c !in s.reverse
    ensures Progress(before, Without(s, c), late, dying - {c})
  {
    hide IsForest, Doomed;
    assert forall i :: Passed(Without(s, c), dying - {c}, i) <==> Passed(s, dying, i);
  }

  /** What nothing outside keeps is deleted by the time all releases are carried out. */
  lemma {:induction false} DoomedGone(before: State, s: State, late: seq<Item>, item: Item)
    requires before.holders.Keys == before.up.Keys && IsForest(before.up)
    requires Progress(before, s, late, {}) && Sound(s, late, {})
    requires item in before.up && Doomed(before, item)
    ensures item !in s.counter
    decreases Depth(before.up, item)
  {
    DoomedStep(before, item);
    CountIn(late, item);
    CountIn(s.lost, item);
    if before.up[item].Some? {
      DoomedGone(before, s, late, before.up[item].value);
    }
  }

  ghost function ItemSet(list: seq<Item>): set<Item> {
    set i | i in list
  }

  /** after is before with the doomed items deleted and the decays of their direct contents ended; the releases of
      these decays are dropped. */
  ghost predicate Cleaned(before: State, after: State)
    requires before.holders.Keys == before.up.Keys && before.reverse.Keys <= before.up.Keys && IsForest(before.up)
  {
    && (forall i {:trigger i in after.counter} :: i in before.up ==> (i in after.counter <==> !Doomed(before, i)))
    && after.counter.Keys <= before.up.Keys && after.counter.Keys == after.holders.Keys == after.up.Keys
    && (forall i {:trigger after.holders[i]} :: i in after.counter ==> after.holders[i] == before.holders[i])
    && (forall i {:trigger after.up[i]} :: i in after.counter ==>
          after.up[i] == if before.up[i].Some? && before.up[i].value !in after.counter then None else before.up[i])
    && after.reverse == before.reverse - Strays(before)
    && before.lost <= after.lost && ItemTree.NoDup(after.lost[|before.lost|..])
    && ItemSet(after.lost[|before.lost|..]) == Strays(before)
  }

  lemma Finished(before: State, s: State, late: seq<Item>, releases: seq<Item>)
    requires Sound(before, releases, {}) && Progress(before, s, late, {}) && Sound(s, late, {})
    ensures Sound(s.(lost := s.lost + late), [], {}) && Cleaned(before, s.(lost := s.lost + late))
  {
    hide Sound, Progress, IsForest, Doomed, Strays;
    SoundKeys(before, releases);
    SoundKeys(s, late);
    FinishedSound(s, late);
    FinishedFreed(before, s, late);
    FinishedUps(before, s, late);
    FinishedStrays(before, s, late);
    ProgressFacts(before, s, late);
    assert (s.lost + late)[|before.lost|..] == late;
  }

  lemma ProgressFacts(before: State, s: State, late: seq<Item>)
    requires before.holders.Keys == before.up.Keys && IsForest(before.up) && Progress(before, s, late, {})
    ensures s.counter.Keys <= before.up.Keys && s.counter.Keys <= s.holders.Keys && s.lost == before.lost
    ensures ItemTree.NoDup(late) && forall i :: i in s.counter ==> s.holders[i] == before.holders[i]
  {
  }

  lemma FinishedFreed(before: State, s: State, late: seq<Item>)
    requires before.holders.Keys == before.up.Keys && IsForest(before.up)
    requires Progress(before, s, late, {}) && Sound(s, late, {})
    ensures forall i {:trigger i in s.counter} :: i in before.up ==> (i in s.counter <==> !Doomed(before, i))
  {
    forall i | i in before.up ensures i in s.counter <==> !Doomed(before, i) {
      if Doomed(before, i) {
        DoomedGone(before, s, late, i);
      }
      assert Passed(s, {}, i) ==> Doomed(before, i);
    }
  }

  lemma FinishedSound(s: State, late: seq<Item>)
    requires Sound(s, late, {})
    ensures Sound(s.(lost := s.lost + late), [], {})
  {
    var v := s.(lost := s.lost + late);
    hide Nested;
    forall i | i in s.counter ensures References(v, [], i) == References(s, late, i) {
      CountConcat(s.lost, late, i);
    }
  }

  lemma FinishedUps(before: State, s: State, late: seq<Item>)
    requires before.holders.Keys == before.up.Keys && IsForest(before.up)
    requires Progress(before, s, late, {}) && Sound(s, late, {})
    ensures forall i {:trigger s.up[i]} :: i in s.counter ==>
      s.up[i] == if before.up[i].Some? && before.up[i].value !in s.counter then None else before.up[i]
  {
    hide Doomed, IsForest;
  }

  lemma FinishedStray(before: State, s: State, late: seq<Item>, x: Item)
    requires before.holders.Keys == before.up.Keys && before.reverse.Keys <= before.up.Keys && IsForest(before.up)
    requires Progress(before, s, late, {}) && Sound(s, late, {}) && x in before.reverse
    requires forall i {:trigger i in s.counter} :: i in before.up ==> (i in s.counter <==> !Doomed(before, i))
    ensures x in late <==> before.up[x].Some? && Doomed(before, before.up[x].value)
  {
    DoomedStep(before, x);
    hide IsForest, Doomed, Nested, Justified;
    assert !Doomed(before, x);
    if x in late {
      assert Orphaned(before, s, {}, x);
    } else if before.up[x].Some? {
      assert s.up[x] == before.up[x];
    }
  }

  lemma FinishedStrays(before: State, s: State, late: seq<Item>)
    requires before.holders.Keys == before.up.Keys && before.reverse.Keys <= before.up.Keys && IsForest(before.up)
    requires Progress(before, s, late, {}) && Sound(s, late, {})
    requires forall i {:trigger i in s.counter} :: i in before.up ==> (i in s.counter <==> !Doomed(before, i))
    ensures ItemSet(late) == Strays(before) && s.reverse == before.reverse - Strays(before)
  {
    hide *;
    LateMeans(before, s, late);
    StraysAre(before);
    forall x ensures x in ItemSet(late) <==> x in Strays(before) {
      if x in before.reverse {
        FinishedStray(before, s, late, x);
      }
    }
  }

  lemma LateMeans(before: State, s: State, late: seq<Item>)
    requires before.holders.Keys == before.up.Keys && IsForest(before.up) && Progress(before, s, late, {})
    ensures forall x :: x in ItemSet(late) <==> x in late
    ensures forall x :: x in late ==> x in before.reverse && x !in s.reverse
    ensures forall x :: x in s.reverse ==> x in before.reverse && s.reverse[x] == before.reverse[x]
    ensures forall x :: x in before.reverse ==> x in s.reverse || x in late
  {
    hide Kept, Justified;
  }

  lemma StraysAre(s: State)
    requires s.holders.Keys == s.up.Keys && s.reverse.Keys <= s.up.Keys && IsForest(s.up)
    ensures forall x :: x in Strays(s) <==> x in s.reverse && s.up[x].Some? && Doomed(s, s.up[x].value)
  {
    hide Doomed;
  }

  /** A cleanup carries out every release exactly when no item it deletes, directly or with its container, holds a
      decaying item. */
  lemma NothingLost(before: State, after: State)
    requires before.holders.Keys == before.up.Keys && before.reverse.Keys <= before.up.Keys && IsForest(before.up)
    requires Cleaned(before, after)
    ensures after.lost == before.lost <==>
      !exists c, x :: x in before.reverse && before.up[x] == Some(c) && Doomed(before, c)
  {
    var late := after.lost[|before.lost|..];
    assert after.lost == before.lost + late;
    hide Doomed, IsForest, ItemTree.NoDup;
    assert late == [] <==> ItemSet(late) == {} by {
      assert late != [] ==> late[0] in ItemSet(late);
    }
    if x :| x in Strays(before) {
      assert before.up[x] == Some(before.up[x].value);
    }
  }

  /** A dropped release keeps its item for good: no later cleanup deletes it. */
  lemma LostForever(before: State, after: State, item: Item)
    requires Sound(before, [], {}) && Cleaned(before, after) && item in before.lost
    ensures item in after.counter && item in after.lost
  {
    DoomedStep(before, item);
  }

  // a bag that nobody holds any more, with a decaying torch in it
  const BAG: Item := 0
  const TORCH: Item := 1

  ghost function Bag(): (b: State)
    ensures b.holders.Keys == b.up.Keys && b.reverse.Keys <= b.up.Keys && IsForest(b.up)
  {
    var up: Up<Item> := map[BAG := None, TORCH := Some(BAG)];
    var rank: map<Item, nat> := map[BAG := 0, TORCH := 1];
    RankedForest(up, rank);
    State(map[BAG := 1, TORCH := 2], map[BAG := 0, TORCH := 0], up, map[BAG := [TORCH], TORCH := []], map[TORCH := 7],
      [])
  }

  lemma BagSound()
    ensures Sound(Bag(), [BAG], {})
  {
    var b := Bag();
    hide IsForest;
    assert Count([BAG], BAG) == 1 && Count([BAG], TORCH) == 0 && Count([], BAG) == 0 && Count([], TORCH) == 0;
    assert b.counter.Keys == {BAG, TORCH};
    assert b.counter[BAG] == References(b, [BAG], BAG) && b.counter[TORCH] == References(b, [BAG], TORCH);
  }

  /** The cleanup deletes the bag, drops the release of the torch's decay, and leaves the torch behind with a reference
      that nobody has. */
  lemma BagLosesTorch(after: State)
    requires Sound(after, [], {}) && Cleaned(Bag(), after)
    ensures Sound(Bag(), [BAG], {})
    ensures after.counter == map[TORCH := 1] && after.holders[TORCH] == 0 && after.up[TORCH] == None
    ensures after.reverse == map[] && after.lost == [TORCH]
  {
    BagSound();
    BagDoomed();
    hide IsForest, Doomed, Nested, Strays;
    var b := Bag();
    assert after.lost[0..] == after.lost;
    OnlyOne(after.lost, TORCH);
    assert forall i :: i in after.counter <==> i == TORCH;
    hide Cleaned;
    assert after.counter[TORCH] == References(after, [], TORCH);
  }

  lemma BagDoomed()
    ensures Doomed(Bag(), BAG) && !Doomed(Bag(), TORCH) && Strays(Bag()) == {TORCH}
  {
    var b := Bag();
    DoomedStep(b, BAG);
    DoomedStep(b, TORCH);
    hide IsForest, Doomed;
  }

  lemma FirstTwoDiffer(s: seq<Item>)
    requires ItemTree.NoDup(s) && |s| > 1
    ensures s[0] != s[1]
  {
  }

  lemma OnlyOne(s: seq<Item>, x: Item)
    requires ItemTree.NoDup(s) && ItemSet(s) == {x}
    ensures s == [x] && Count(s, x) == 1
  {
    assert x in ItemSet(s);
    forall i | 0 <= i < |s| ensures s[i] == x {
      assert s[i] in ItemSet(s);
    }
    if |s| > 1 {
      FirstTwoDiffer(s);
      assert false;
    }
    assert s == [x];
  }
}
