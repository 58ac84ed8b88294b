/** What completing a decay may do to items, as a sequence of effects, and what is left when all of them have taken
    place. */
module DecayEffects {
  import opened Options
  import opened Forest
  import opened ItemReferences
  import ItemTree

  datatype Effect =
    | Create(item: Item)      // a new item, held by the place it is put in
    | Hold(item: Item)        // one more place holds it
    | Release(item: Item)     // one place less, through ReleaseItem
    | Insert(item: Item, container: Item) // the place hands it to a container
    | Extract(item: Item)     // it is taken out of its container
    | Start(item: Item, canDecay: bool, timestamp: int)
    | Stop(item: Item)

  /** An effect on an item that is not there, or not held, or in the way, is none. */
  ghost function Acted(s: State, e: Effect): State {
    match e
    case Create(x) => if x in s.counter then s else Join(s, x)
    case Hold(x) => if x in s.counter && x in s.holders then ItemReferences.Hold(s, x) else s
    case Release(x) => if Held(s, x) then LetGo(s, x) else s
    case Insert(x, c) => if Insertable(s, x, c) then Put(s, x, c) else s
    case Extract(x) =>
      if Contained(s, x)
      then
        var kids := s.kids[s.up[x].value];
        Halt(TakeOut(s, s.up[x].value, ItemTree.IndexOf(kids, x)), x)
      else s
    case Start(x, canDecay, t) => if canDecay && x in s.counter && x !in s.reverse then Begin(s, x, t) else s
    case Stop(x) => Halt(s, x)
  }

  predicate Held(s: State, x: Item) {
    x in s.counter && x in s.holders && s.holders[x] > 0
  }

  ghost predicate Insertable(s: State, x: Item, c: Item) {
    && Held(s, x) && x in s.up && s.up[x] == None && c in s.counter && c in s.kids && c in s.up
    && IsForest(s.up) && x !in Chain(s.up, c)
  }

  predicate Contained(s: State, x: Item) {
    && x in s.up && s.up[x].Some? && s.up[x].value in s.kids && x in s.kids[s.up[x].value] && x in s.holders
  }

  /** The releases that an effect asks for. */
  ghost function Asked(s: State, e: Effect): seq<Item> {
    match e
    case Release(x) => if Held(s, x) then [x] else []
    case Extract(x) => if Contained(s, x) && x in s.reverse then [x] else []
    case Stop(x) => if x in s.reverse then [x] else []
    case _ => []
  }

  ghost function ActedAll(s: State, es: seq<Effect>): State {
    if es == [] then s else Acted(ActedAll(s, es[..|es| - 1]), es[|es| - 1])
  }

  ghost function AskedAll(s: State, es: seq<Effect>): seq<Item> {
    if es == [] then []
    else AskedAll(s, es[..|es| - 1]) + Asked(ActedAll(s, es[..|es| - 1]), es[|es| - 1])
  }

  lemma ActedNext(s: State, es: seq<Effect>, e: Effect)
    ensures ActedAll(s, es + [e]) == Acted(ActedAll(s, es), e)
    ensures AskedAll(s, es + [e]) == AskedAll(s, es) + Asked(ActedAll(s, es), e)
  {
    assert (es + [e])[..|es|] == es;
  }

  lemma {:induction false} ActedConcat(s: State, a: seq<Effect>, b: seq<Effect>)
    ensures ActedAll(s, a + b) == ActedAll(ActedAll(s, a), b)
    ensures AskedAll(s, a + b) == AskedAll(s, a) + AskedAll(ActedAll(s, a), b)
    decreases |b|
  {
    hide Acted, Asked, ActedAll, AskedAll;
    if b == [] {
      assert a + b == a;
      ActedNothing(s, a);
      ActedNothing(ActedAll(s, a), b);
    } else {
      var n := |b| - 1;
      ActedConcat(s, a, b[..n]);
      ActedNext(s, a + b[..n], b[n]);
      ActedNext(ActedAll(s, a), b[..n], b[n]);
      assert b[..n] + [b[n]] == b && a + b[..n] + [b[n]] == a + b;
    }
  }

  lemma ActedNothing(s: State, a: seq<Effect>)
    ensures ActedAll(s, []) == s && AskedAll(s, []) == [] && AskedAll(s, a) + [] == AskedAll(s, a)
  {
  }

  /** The effects have led from one state and release list to another. */
  ghost predicate Carried(s: State, releases: seq<Item>, es: seq<Effect>, v: State, later: seq<Item>) {
    v == ActedAll(s, es) && later == releases + AskedAll(s, es)
  }

  lemma CarriedNothing(s: State, releases: seq<Item>)
    ensures Carried(s, releases, [], s, releases)
  {
    assert releases + [] == releases;
  }

  lemma CarriedOne(s: State, releases: seq<Item>, e: Effect)
    ensures Carried(s, releases, [e], Acted(s, e), releases + Asked(s, e))
  {
    ActedNext(s, [], e);
    assert [] + [e] == [e];
  }

  lemma CarriedMore(s: State, q: seq<Item>, a: seq<Effect>, s1: State, q1: seq<Item>, b: seq<Effect>, s2: State,
                    q2: seq<Item>)
    requires Carried(s, q, a, s1, q1) && Carried(s1, q1, b, s2, q2)
    ensures Carried(s, q, a + b, s2, q2)
  {
    ActedConcat(s, a, b);
    assert q + (AskedAll(s, a) + AskedAll(s1, b)) == q + AskedAll(s, a) + AskedAll(s1, b);
  }

  /** A round of decays: each item is stopped, and then its decay is completed. */
  function Script(work: seq<Item>, complete: Item -> seq<Effect>): seq<Effect> {
    if work == [] then []
    else
      var item := work[|work| - 1];
      Script(work[..|work| - 1], complete) + ([Stop(item)] + complete(item))
  }

  lemma ScriptNext(work: seq<Item>, k: nat, complete: Item -> seq<Effect>)
    requires k < |work|
    ensures Script(work[..k + 1], complete) == Script(work[..k], complete) + ([Stop(work[k])] + complete(work[k]))
  {
    assert work[..k + 1][..k] == work[..k];
  }

  // ---------- what a script leaves ----------

  lemma {:induction false} AliveAfter(s: State, es: seq<Effect>, x: Item)
    requires x in s.counter
    ensures x in ActedAll(s, es).counter
    decreases |es|
  {
    if es != [] {
      AliveAfter(s, es[..|es| - 1], x);
    }
  }

  // e may end the decay of x
  predicate Ends(e: Effect, x: Item) {
    e == Stop(x) || e == Extract(x)
  }

  // e may start it
  predicate Starts(e: Effect, x: Item) {
    e.Start? && e.item == x && e.canDecay
  }

  /** Without an end an entry of the index stays. */
  lemma {:induction false} EntryStays(s: State, es: seq<Effect>, x: Item)
    requires x in s.reverse && forall e :: e in es ==> !Ends(e, x)
    ensures x in ActedAll(s, es).reverse && ActedAll(s, es).reverse[x] == s.reverse[x]
    decreases |es|
  {
    if es != [] {
      var n := |es| - 1;
      assert es[n] in es;
      EntryStays(s, es[..n], x);
    }
  }

  lemma NoEntryNow(s: State, e: Effect, x: Item)
    requires x !in s.reverse && !Starts(e, x)
    ensures x !in Acted(s, e).reverse
  {
  }

  /** Without a start none comes. */
  lemma {:induction false} NoEntryComes(s: State, es: seq<Effect>, x: Item)
    requires x !in s.reverse && forall e :: e in es ==> !Starts(e, x)
    ensures x !in ActedAll(s, es).reverse
    decreases |es|
  {
    if es != [] {
      var n := |es| - 1;
      assert es[n] in es;
      NoEntryComes(s, es[..n], x);
      NoEntryNow(ActedAll(s, es[..n]), es[n], x);
      hide Acted;
    }
  }

  /** Stopped, then started with nothing in between, and not ended after: the item is in the index at that time. */
  lemma LastStartCounts(s: State, es: seq<Effect>, j: nat, k: nat, x: Item, t: int)
    requires x in s.counter && j < k < |es| && es[j] == Stop(x) && es[k] == Start(x, true, t)
    requires forall n :: j < n < k ==> !Starts(es[n], x)
    requires forall n :: k < n < |es| ==> !Ends(es[n], x)
    ensures x in ActedAll(s, es).reverse && ActedAll(s, es).reverse[x] == t
  {
    hide Acted, Asked, ActedAll, AskedAll;
    StoppedAt(s, es, j, k, x);
    AliveAfter(s, es[..k], x);
    ActedNext(s, es[..k], es[k]);
    assert es[..k] + [es[k]] == es[..k + 1] && es[..k + 1] + es[k + 1..] == es;
    StartActs(ActedAll(s, es[..k]), x, t);
    ActedConcat(s, es[..k + 1], es[k + 1..]);
    EntryStays(ActedAll(s, es[..k + 1]), es[k + 1..], x);
  }

  lemma StopActs(s: State, x: Item)
    ensures x !in Acted(s, Stop(x)).reverse
  {
  }

  lemma StartActs(s: State, x: Item, t: int)
    requires x in s.counter && x !in s.reverse
    ensures Acted(s, Start(x, true, t)).reverse == s.reverse[x := t]
  {
  }

  /** Stopped and not started after: it is not. */
  lemma StoppedAt(s: State, es: seq<Effect>, j: nat, k: nat, x: Item)
    requires j < k <= |es| && es[j] == Stop(x) && forall n :: j < n < k ==> !Starts(es[n], x)
    ensures x !in ActedAll(s, es[..k]).reverse
  {
    hide Acted, Asked, ActedAll, AskedAll;
    ActedNext(s, es[..j], es[j]);
    StopActs(ActedAll(s, es[..j]), x);
    assert es[..j] + [es[j]] == es[..j + 1] && es[..j + 1] + es[j + 1..k] == es[..k];
    ActedConcat(s, es[..j + 1], es[j + 1..k]);
    NoEntryComes(ActedAll(s, es[..j + 1]), es[j + 1..k], x);
  }

  function Holds(es: seq<Effect>, x: Item): nat {
    if es == [] then 0 else Holds(es[..|es| - 1], x) + if es[|es| - 1] == Hold(x) then 1 else 0
  }

  function Releases(es: seq<Effect>, x: Item): nat {
    if es == [] then 0 else Releases(es[..|es| - 1], x) + if es[|es| - 1] == Release(x) then 1 else 0
  }

  // e hands x from a place to a container or back, or makes it
  predicate Moves(e: Effect, x: Item) {
    e.item == x && (e.Create? || e.Insert? || e.Extract?)
  }

  /** Each hold adds a holder and each release takes one away, as long as there are any to take. */
  lemma {:induction false} HoldersAfter(s: State, es: seq<Effect>, x: Item)
    requires x in s.counter && x in s.holders && Releases(es, x) <= s.holders[x]
    requires forall e :: e in es ==> !Moves(e, x)
    ensures x in ActedAll(s, es).holders
    ensures ActedAll(s, es).holders[x] == s.holders[x] + Holds(es, x) - Releases(es, x)
    decreases |es|
  {
    if es != [] {
      var n := |es| - 1;
      assert es[n] in es;
      AliveAfter(s, es[..n], x);
      HoldersAfter(s, es[..n], x);
    }
  }

  // e touches the place of x, or puts something into it
  predicate Touches(e: Effect, x: Item) {
    (e.item == x && (e.Insert? || e.Extract? || e.Release?)) || (e.Insert? && e.container == x)
  }

  // x is held, lies in nothing and holds nothing
  predicate Loose(s: State, x: Item) {
    && x in s.counter && x in s.holders && s.holders[x] > 0
    && x in s.up && s.up[x] == None && x in s.kids && s.kids[x] == []
  }

  lemma {:induction false} LooseStays(s: State, es: seq<Effect>, x: Item)
    requires Loose(s, x) && forall e :: e in es ==> !Touches(e, x)
    ensures Loose(ActedAll(s, es), x)
    decreases |es|
  {
    if es != [] {
      var n := |es| - 1;
      assert es[n] in es;
      LooseStays(s, es[..n], x);
    }
  }

  /** What lies in a container lies there until it is taken out. */
  lemma {:induction false} PlaceStays(s: State, es: seq<Effect>, x: Item)
    requires x in s.counter && x in s.up && s.up[x].Some? && forall e :: e in es ==> e != Extract(x)
    ensures x in ActedAll(s, es).up && ActedAll(s, es).up[x] == s.up[x]
    decreases |es|
  {
    if es != [] {
      var n := |es| - 1;
      assert es[n] in es;
      assert forall e :: e in es[..n] ==> e in es;
      AliveAfter(s, es[..n], x);
      PlaceStays(s, es[..n], x);
    }
  }

  lemma {:induction false} ActedSound(s: State, e: Effect, releases: seq<Item>)
    requires Sound(s, releases, {})
    ensures Sound(Acted(s, e), releases + Asked(s, e), {})
  {
    SoundKeys(s, releases);
    assert releases + [] == releases;
    hide Sound, IsForest;
    match e {
      case Create(x) =>
        if x !in s.counter {
          JoinSound(s, releases, x);
        }
      case Hold(x) =>
        if x in s.counter {
          HoldSound(s, releases, x);
        }
      case Release(x) =>
        if Held(s, x) {
          LetGoSound(s, releases, x);
        }
      case Insert(x, c) =>
        if Insertable(s, x, c) {
          PutSound(s, releases, x, c);
        }
      case Extract(x) =>
        if Contained(s, x) {
          var c := s.up[x].value;
          var i := ItemTree.IndexOf(s.kids[c], x);
          TakeOutSound(s, releases, c, i);
          HaltAlone(TakeOut(s, c, i), releases, x);
        }
      case Start(x, canDecay, t) =>
        if canDecay && x in s.counter && x !in s.reverse {
          BeginSound(s, releases, x, t);
        }
      case Stop(x) =>
        HaltAlone(s, releases, x);
    }
  }

  lemma HaltAlone(s: State, releases: seq<Item>, x: Item)
    requires Sound(s, releases, {})
    ensures Sound(Halt(s, x), releases + if x in s.reverse then [x] else [], {})
  {
    assert releases + [] == releases;
    if x in s.reverse {
      HaltSound(s, releases, {}, x);
    } else {
      assert Halt(s, x) == s;
    }
    hide Sound;
  }

  /** Whatever the decays do, every counter stays the number of references to its item. */
  lemma {:induction false} ScriptSound(s: State, es: seq<Effect>, releases: seq<Item>)
    requires Sound(s, releases, {})
    ensures Sound(ActedAll(s, es), releases + AskedAll(s, es), {})
    decreases |es|
  {
    hide Sound, Acted, Asked;
    if es == [] {
      assert releases + [] == releases;
    } else {
      var n := |es| - 1;
      ScriptSound(s, es[..n], releases);
      var v, asked := ActedAll(s, es[..n]), AskedAll(s, es[..n]);
      ActedSound(v, es[n], releases + asked);
      assert releases + asked + Asked(v, es[n]) == releases + (asked + Asked(v, es[n]));
    }
  }

  lemma {:induction false} NothingBelow(up: Up<Item>, x: Item, c: Item)
    requires IsForest(up) && c in up && x in up && c != x && forall y :: y in up ==> up[y] != Some(x)
    ensures x !in Chain(up, c)
    decreases Depth(up, c)
  {
    ItemTree.AboveStep(up, c);
    if up[c].Some? {
      NothingBelow(up, x, up[c].value);
    }
  }

  /** An item that is held and loose, and put into a container once, lies there. */
  lemma {:induction false} InsertedLies(s: State, es: seq<Effect>, releases: seq<Item>, k: nat, x: Item, c: Item)
    requires Sound(s, releases, {}) && Loose(s, x) && c in s.counter && c != x
    requires k < |es| && es[k] == Insert(x, c)
    requires forall n :: 0 <= n < k ==> !Touches(es[n], x)
    requires forall n :: k < n < |es| ==> es[n] != Extract(x)
    ensures x in ActedAll(s, es).up && ActedAll(s, es).up[x] == Some(c)
  {
    hide Acted, Asked;
    var before, after := es[..k], es[k + 1..];
    LooseStays(s, before, x);
    AliveAfter(s, before, c);
    ScriptSound(s, before, releases);
    InsertActs(ActedAll(s, before), releases + AskedAll(s, before), x, c);
    ActedNext(s, before, es[k]);
    assert before + [es[k]] == es[..k + 1] && es[..k + 1] + after == es;
    ActedConcat(s, es[..k + 1], after);
    AliveAfter(s, es[..k + 1], x);
    PlaceStays(ActedAll(s, es[..k + 1]), after, x);
  }

  lemma InsertActs(s: State, releases: seq<Item>, x: Item, c: Item)
    requires Sound(s, releases, {}) && Loose(s, x) && c in s.counter && c != x
    ensures x in Acted(s, Insert(x, c)).up && Acted(s, Insert(x, c)).up[x] == Some(c)
  {
    SoundKeys(s, releases);
    forall y | y in s.up ensures s.up[y] != Some(x) {
      if s.up[y].Some? {
        ListedChild(s, releases, y);
      }
    }
    NothingBelow(s.up, x, c);
    hide Sound, IsForest;
  }

  lemma {:induction false} AbsentStays(s: State, es: seq<Effect>, x: Item)
    requires x !in s.counter && forall e :: e in es ==> e != Create(x)
    ensures x !in ActedAll(s, es).counter
    decreases |es|
  {
    if es != [] {
      var n := |es| - 1;
      assert es[n] in es;
      assert forall e :: e in es[..n] ==> e in es;
      AbsentStays(s, es[..n], x);
    }
  }

  /** So does one that was made on the way. */
  lemma {:induction false} CreatedLies(s: State, es: seq<Effect>, releases: seq<Item>, j: nat, k: nat, x: Item, c: Item)
    requires Sound(s, releases, {}) && x !in s.counter && c in s.counter
    requires j < k < |es| && es[j] == Create(x) && es[k] == Insert(x, c)
    requires forall n :: 0 <= n < j ==> es[n] != Create(x)
    requires forall n :: j < n < k ==> !Touches(es[n], x)
    requires forall n :: k < n < |es| ==> es[n] != Extract(x)
    ensures x in ActedAll(s, es).up && ActedAll(s, es).up[x] == Some(c)
  {
    hide Acted, Asked, Sound, Loose, ActedAll, AskedAll, Touches;
    var before, after := es[..j + 1], es[j + 1..];
    AbsentStays(s, es[..j], x);
    ActedNext(s, es[..j], es[j]);
    assert es[..j] + [es[j]] == before && before + after == es;
    CreateActs(ActedAll(s, es[..j]), x);
    AliveAfter(s, before, c);
    ScriptSound(s, before, releases);
    SoundKeys(s, releases);
    assert c != x;
    assert forall n :: 0 <= n < |after| ==> after[n] == es[j + 1 + n];
    InsertedLies(ActedAll(s, before), after, releases + AskedAll(s, before), k - j - 1, x, c);
    ActedConcat(s, before, after);
  }

  lemma CreateActs(s: State, x: Item)
    requires x !in s.counter
    ensures Loose(Acted(s, Create(x)), x)
  {
  }

  // ---------- rounds ----------

  lemma {:induction false} ScriptConcat(a: seq<Item>, b: seq<Item>, complete: Item -> seq<Effect>)
    ensures Script(a + b, complete) == Script(a, complete) + Script(b, complete)
    decreases |b|
  {
    if b == [] {
      assert a + b == a;
    } else {
      var n := |b| - 1;
      assert (a + b)[..|a + b| - 1] == a + b[..n];
      ScriptConcat(a, b[..n], complete);
    }
  }

  lemma {:induction false} ScriptNames(work: seq<Item>, complete: Item -> seq<Effect>, x: Item)
    requires x !in work && forall y, e :: y in work && e in complete(y) ==> e.item != x
    ensures forall e :: e in Script(work, complete) ==> e.item != x
    decreases |work|
  {
    if work != [] {
      var n := |work| - 1;
      assert work[n] in work;
      ScriptNames(work[..n], complete, x);
    }
  }

  /** Of the items due only x has effects that name x. */
  ghost predicate Alone(work: seq<Item>, complete: Item -> seq<Effect>, x: Item) {
    forall y, e :: y in work && y != x && e in complete(y) ==> e.item != x
  }

  /** The effects on x are its own: stopped, and completed. */
  lemma ScriptOf(work: seq<Item>, complete: Item -> seq<Effect>, x: Item)
      returns (before: seq<Effect>, after: seq<Effect>)
    requires x in work && ItemTree.NoDup(work) && Alone(work, complete, x)
    ensures Script(work, complete) == before + ([Stop(x)] + complete(x)) + after
    ensures forall e :: e in before || e in after ==> e.item != x
  {
    hide Script;
    var i :| 0 <= i < |work| && work[i] == x;
    forall j | 0 <= j < |work| && j != i ensures work[j] != x {
    }
    before, after := Script(work[..i], complete), Script(work[i + 1..], complete);
    ScriptNext(work, i, complete);
    assert work[..i + 1] + work[i + 1..] == work;
    ScriptConcat(work[..i + 1], work[i + 1..], complete);
    ScriptNames(work[..i], complete, x);
    ScriptNames(work[i + 1..], complete, x);
  }

  /** The decay of x starts x again, for t, and nothing it does after that ends it. */
  ghost predicate Restarts(es: seq<Effect>, x: Item, t: int) {
    exists k :: 0 <= k < |es| && RestartsAt(es, k, x, t)
  }

  predicate RestartsAt(es: seq<Effect>, k: nat, x: Item, t: int)
    requires k < |es|
  {
    && es[k] == Start(x, true, t)
    && (forall n :: 0 <= n < k ==> !Starts(es[n], x)) && (forall n :: k < n < |es| ==> !Ends(es[n], x))
  }

  /** After a round an item whose decay starts it again is in the index for the new time. */
  lemma RoundRestarts(s: State, work: seq<Item>, complete: Item -> seq<Effect>, x: Item, t: int)
    requires x in s.counter && x in work && ItemTree.NoDup(work) && Alone(work, complete, x)
    requires Restarts(complete(x), x, t)
    ensures var v := ActedAll(s, Script(work, complete)); x in v.reverse && v.reverse[x] == t
  {
    var before, after := ScriptOf(work, complete, x);
    var own := complete(x);
    var k :| 0 <= k < |own| && RestartsAt(own, k, x, t);
    var es, j := before + ([Stop(x)] + own) + after, |before|;
    assert es[j] == Stop(x) && es[j + 1 + k] == own[k];
    forall n | j < n < j + 1 + k ensures !Starts(es[n], x) {
      assert es[n] == own[n - j - 1];
    }
    forall n | j + 1 + k < n < |es| ensures !Ends(es[n], x) {
      if n < j + 1 + |own| {
        assert es[n] == own[n - j - 1];
      } else {
        assert es[n] == after[n - j - 1 - |own|] && es[n] in after;
      }
    }
    LastStartCounts(s, es, j, j + 1 + k, x, t);
  }

  /** One whose decay does not start it is not. */
  lemma RoundEnds(s: State, work: seq<Item>, complete: Item -> seq<Effect>, x: Item)
    requires x in work && ItemTree.NoDup(work) && Alone(work, complete, x)
    requires forall e :: e in complete(x) ==> !Starts(e, x)
    ensures x !in ActedAll(s, Script(work, complete)).reverse
  {
    var before, after := ScriptOf(work, complete, x);
    var own := complete(x);
    var es, j := before + ([Stop(x)] + own) + after, |before|;
    assert es[j] == Stop(x);
    forall n | j < n < |es| ensures !Starts(es[n], x) {
      if n < j + 1 + |own| {
        assert es[n] == own[n - j - 1] && es[n] in own;
      } else {
        assert es[n] == after[n - j - 1 - |own|] && es[n] in after;
      }
    }
    StoppedAt(s, es, j, |es|, x);
    assert es[..|es|] == es;
  }

  lemma {:induction false} TalliesConcat(a: seq<Effect>, b: seq<Effect>, x: Item)
    ensures Holds(a + b, x) == Holds(a, x) + Holds(b, x) && Releases(a + b, x) == Releases(a, x) + Releases(b, x)
    decreases |b|
  {
    if b == [] {
      assert a + b == a;
    } else {
      assert (a + b)[..|a + b| - 1] == a + b[..|b| - 1];
      TalliesConcat(a, b[..|b| - 1], x);
    }
  }

  lemma {:induction false} NoTallies(es: seq<Effect>, x: Item)
    requires forall e :: e in es ==> e.item != x
    ensures Holds(es, x) == Releases(es, x) == 0
    decreases |es|
  {
    if es != [] {
      assert es[|es| - 1] in es;
      NoTallies(es[..|es| - 1], x);
    }
  }

  /** After a round a due item has lost the holders that its decay released. */
  lemma RoundReleases(s: State, work: seq<Item>, complete: Item -> seq<Effect>, x: Item)
    requires x in s.counter && x in s.holders && x in work && ItemTree.NoDup(work) && Alone(work, complete, x)
    requires Releases(complete(x), x) <= s.holders[x] && forall e :: e in complete(x) ==> !Moves(e, x)
    ensures var v := ActedAll(s, Script(work, complete));
      x in v.holders && v.holders[x] == s.holders[x] + Holds(complete(x), x) - Releases(complete(x), x)
  {
    var before, after := ScriptOf(work, complete, x);
    var own := complete(x);
    var es := before + ([Stop(x)] + own) + after;
    NoTallies(before, x);
    NoTallies(after, x);
    TalliesConcat(before + ([Stop(x)] + own), after, x);
    TalliesConcat(before, [Stop(x)] + own, x);
    TalliesConcat([Stop(x)], own, x);
    assert Holds([Stop(x)], x) == Releases([Stop(x)], x) == 0;
    HoldersAfter(s, es, x);
  }

  /** What a round makes of its due items, as far as no other due item has effects that name them. */
  ghost predicate RoundDone(s: State, work: seq<Item>, complete: Item -> seq<Effect>, v: State) {
    && (forall x, t {:trigger Restarts(complete(x), x, t)} ::
        x in work && Alone(work, complete, x) && Restarts(complete(x), x, t) ==> x in v.reverse && v.reverse[x] == t)
    && (forall x {:trigger Alone(work, complete, x)} ::
        x in work && Alone(work, complete, x) && (forall e :: e in complete(x) ==> !Starts(e, x)) ==> x !in v.reverse)
    && (forall x {:trigger Alone(work, complete, x)} ::
        && x in work && Alone(work, complete, x) && x in s.holders && Releases(complete(x), x) <= s.holders[x]
        && (forall e :: e in complete(x) ==> !Moves(e, x)) ==>
          x in v.holders && v.holders[x] == s.holders[x] + Holds(complete(x), x) - Releases(complete(x), x))
  }

  lemma RoundLaws(s: State, work: seq<Item>, complete: Item -> seq<Effect>)
    requires ItemTree.NoDup(work) && forall x :: x in work ==> x in s.counter
    ensures RoundDone(s, work, complete, ActedAll(s, Script(work, complete)))
  {
    hide Restarts, Alone, ActedAll, Script, Holds, Releases, Starts, Moves;
    forall x, t | x in work && Alone(work, complete, x) && Restarts(complete(x), x, t)
      ensures var v := ActedAll(s, Script(work, complete)); x in v.reverse && v.reverse[x] == t
    {
      RoundRestarts(s, work, complete, x, t);
    }
    forall x | x in work && Alone(work, complete, x) && (forall e :: e in complete(x) ==> !Starts(e, x))
      ensures x !in ActedAll(s, Script(work, complete)).reverse
    {
      RoundEnds(s, work, complete, x);
    }
    forall x | && x in work && Alone(work, complete, x) && x in s.holders && Releases(complete(x), x) <= s.holders[x]
               && (forall e :: e in complete(x) ==> !Moves(e, x))
      ensures var v := ActedAll(s, Script(work, complete));
        x in v.holders && v.holders[x] == s.holders[x] + Holds(complete(x), x) - Releases(complete(x), x)
    {
      RoundReleases(s, work, complete, x);
    }
  }

  lemma ExtractIs(s: State, releases: seq<Item>, x: Item, i: nat)
    requires Sound(s, releases, {}) && x in s.up && s.up[x].Some? && s.up[x].value in s.kids
    requires i < |s.kids[s.up[x].value]| && s.kids[s.up[x].value][i] == x
    ensures x in s.holders && Acted(s, Extract(x)) == Halt(TakeOut(s, s.up[x].value, i), x)
    ensures Asked(s, Extract(x)) == if x in s.reverse then [x] else []
    ensures TakeOut(s, s.up[x].value, i).reverse == s.reverse
  {
    SoundKeys(s, releases);
    ListedChild(s, releases, x);
    var kids := s.kids[s.up[x].value];
    assert ItemTree.NoDup(kids);
    ItemTree.FirstIndex(kids, x, i);
    hide Sound, IsForest;
  }
}
