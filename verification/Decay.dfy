/** The decay index: which items decay when, and who keeps them alive meanwhile. */
module Decay {
  import opened Options
  import opened Forest
  import opened ItemReferences
  import opened DecayEffects
  import ItemTree

  lemma {:induction false} LeastKey(keys: set<int>) returns (k: int)
    requires keys != {}
    ensures k in keys && forall j :: j in keys ==> k <= j
    decreases keys
  {
    assert exists x :: x in keys by {
      if forall x :: x !in keys {
        assert false;
      }
    }
    var x :| x in keys;
    k := x;
    var rest := keys - {x};
    if rest != {} {
      var m := LeastKey(rest);
      k := if m < x then m else x;
      assert forall j :: j in keys ==> j == x || j in rest;
    } else {
      assert forall j :: j in keys ==> j == x || j in rest;
    }
  }

  function Bucket(decayMap: map<int, set<Item>>, t: int): set<Item> {
    if t in decayMap then decayMap[t] else {}
  }

  // the maps are each other's inverse, but for items of a work list that are in no bucket
  ghost predicate Inverse(decayMap: map<int, set<Item>>, reverse: map<Item, int>, work: set<Item>) {
    (forall t, i :: i in Bucket(decayMap, t) ==> i in reverse && reverse[i] == t)
    && forall i :: i in reverse && i !in work ==> i in Bucket(decayMap, reverse[i])
  }

  // every start is matched by one stop, or the item is still decaying
  ghost predicate Matched(started: seq<Item>, stopped: seq<Item>, reverse: map<Item, int>) {
    forall i :: Count(started, i) == Count(stopped, i) + Decaying(reverse, i)
  }

  // ---------- starting, stopping, releasing ----------

  lemma InverseStart(decayMap: map<int, set<Item>>, reverse: map<Item, int>, work: set<Item>, item: Item, t: int)
    requires Inverse(decayMap, reverse, work) && item !in reverse
    ensures Inverse(decayMap[t := Bucket(decayMap, t) + {item}], reverse[item := t], work)
  {
    var after := decayMap[t := Bucket(decayMap, t) + {item}];
    assert forall u :: u != t ==> Bucket(after, u) == Bucket(decayMap, u);
  }

  lemma InverseStop(decayMap: map<int, set<Item>>, reverse: map<Item, int>, work: set<Item>, item: Item)
    requires Inverse(decayMap, reverse, work) && item in reverse
    ensures var t := reverse[item];
      Inverse(decayMap[t := Bucket(decayMap, t) - {item}], reverse - {item}, work - {item})
  {
    var t := reverse[item];
    var after := decayMap[t := Bucket(decayMap, t) - {item}];
    assert forall u :: u != t ==> Bucket(after, u) == Bucket(decayMap, u);
  }

  lemma MatchedStart(started: seq<Item>, stopped: seq<Item>, reverse: map<Item, int>, item: Item, t: int)
    requires Matched(started, stopped, reverse) && item !in reverse
    ensures Matched(started + [item], stopped, reverse[item := t])
  {
    forall i ensures Count(started + [item], i) == Count(stopped, i) + Decaying(reverse[item := t], i) {
      CountAppend(started, item, i);
      assert Count(started, i) == Count(stopped, i) + Decaying(reverse, i);
    }
  }

  lemma MatchedStop(started: seq<Item>, stopped: seq<Item>, reverse: map<Item, int>, item: Item)
    requires Matched(started, stopped, reverse) && item in reverse
    ensures Matched(started, stopped + [item], reverse - {item})
  {
    forall i ensures Count(started, i) == Count(stopped + [item], i) + Decaying(reverse - {item}, i) {
      CountAppend(stopped, item, i);
      assert Count(started, i) == Count(stopped, i) + Decaying(reverse, i);
    }
  }

  // since the index was as in before: an entry is an old one or was started, an old one is as it was or was stopped,
  // and an item of gone is there only if it was started again
  ghost predicate Logged(before: map<Item, int>, reverse: map<Item, int>, gone: set<Item>, started: seq<Item>,
                         stopped: seq<Item>) {
    (forall i :: i in reverse ==> (i in before && reverse[i] == before[i] && i !in gone) || i in started)
    && forall i :: i in before ==> (i in reverse && reverse[i] == before[i] && i !in gone) || i in stopped
  }

  // the part of a log written since
  function Since(log: seq<Item>, n: nat): seq<Item> {
    if n <= |log| then log[n..] else []
  }

  lemma SinceAppend(log: seq<Item>, n: nat, item: Item)
    requires n <= |log|
    ensures Since(log + [item], n) == Since(log, n) + [item]
  {
  }

  lemma LoggedStart(before: map<Item, int>, reverse: map<Item, int>, gone: set<Item>, started: seq<Item>,
                    stopped: seq<Item>, item: Item, t: int)
    requires Logged(before, reverse, gone, started, stopped) && item !in reverse
    ensures Logged(before, reverse[item := t], gone, started + [item], stopped)
  {
  }

  lemma LoggedStop(before: map<Item, int>, reverse: map<Item, int>, gone: set<Item>, started: seq<Item>,
                   stopped: seq<Item>, item: Item)
    requires Logged(before, reverse, gone, started, stopped)
    ensures Logged(before, reverse - {item}, gone + {item}, started,
                   if item in reverse then stopped + [item] else stopped)
    ensures Logged(before, reverse - {item}, gone, started, if item in reverse then stopped + [item] else stopped)
  {
  }

  lemma SinceIs(log: seq<Item>, n: nat)
    requires n <= |log|
    ensures Since(log, n) == log[n..]
  {
  }

  lemma SinceConcat(log: seq<Item>, more: seq<Item>, n: nat)
    requires n <= |log|
    ensures Since(log + more, n) == Since(log, n) + more
  {
  }

  lemma LoggedNothing(before: map<Item, int>, started: seq<Item>, stopped: seq<Item>)
    ensures Logged(before, before, {}, Since(started, |started|), Since(stopped, |stopped|))
  {
  }

  // the decays of late ended as well
  lemma LoggedCleaned(before: map<Item, int>, mid: map<Item, int>, reverse: map<Item, int>, gone: set<Item>,
                      started: seq<Item>, stopped: seq<Item>, late: seq<Item>)
    requires Logged(before, mid, gone, started, stopped) && reverse == mid - ItemSet(late)
    ensures Logged(before, reverse, gone, started, stopped + late)
  {
  }

  lemma LoggedMeans(before: map<Item, int>, reverse: map<Item, int>, work: seq<Item>, started: seq<Item>,
                    stopped: seq<Item>, time: int)
    requires Logged(before, reverse, ItemSet(work), started, stopped)
    requires forall i :: i in before ==> (i in work <==> before[i] <= time)
    ensures forall i :: i in reverse && reverse[i] <= time ==> i in started
    ensures forall i :: i in before && before[i] <= time ==> i in stopped
    ensures forall i :: i in before && i !in stopped ==> i in reverse && reverse[i] == before[i]
  {
    assert forall i :: i in work <==> i in ItemSet(work);
  }

  lemma StraysStopped(before: State, after: State)
    requires before.holders.Keys == before.up.Keys && before.reverse.Keys <= before.up.Keys && IsForest(before.up)
    requires Cleaned(before, after)
    ensures before.lost <= after.lost && after.reverse == before.reverse - ItemSet(after.lost[|before.lost|..])
  {
  }

  lemma ScriptNone(complete: Item -> seq<Effect>)
    ensures Script([], complete) == []
  {
  }

  lemma CarriedMeans(s: State, releases: seq<Item>, es: seq<Effect>, v: State, later: seq<Item>)
    requires Carried(s, releases, es, v, later)
    ensures v == ActedAll(s, es)
  {
  }

  lemma ItemSetEmpty()
    ensures ItemSet([]) == {}
  {
  }

  lemma InverseWeaken(decayMap: map<int, set<Item>>, reverse: map<Item, int>, less: set<Item>, work: set<Item>)
    requires Inverse(decayMap, reverse, less) && less <= work
    ensures Inverse(decayMap, reverse, work)
  {
  }

  // ---------- the work list ----------

  // due items, earliest first, each once
  ghost predicate Collected(work: seq<Item>, reverse: map<Item, int>, time: int) {
    (forall a :: 0 <= a < |work| ==> work[a] in reverse && reverse[work[a]] <= time)
    && (forall a, b :: 0 <= a < b < |work| ==> work[a] != work[b])
    && forall a, b :: 0 <= a < b < |work| ==> reverse[work[a]] <= reverse[work[b]]
  }

  // what is still in a bucket decays later than what was taken
  ghost predicate Later(decayMap: map<int, set<Item>>, reverse: map<Item, int>, work: seq<Item>) {
    forall i, t :: i in work && i in reverse && t in decayMap ==> reverse[i] < t
  }

  lemma InverseTake(decayMap: map<int, set<Item>>, reverse: map<Item, int>, work: seq<Item>, t: int)
    requires Inverse(decayMap, reverse, ItemSet(work)) && t in decayMap
    ensures Inverse(decayMap - {t}, reverse, ItemSet(work) + decayMap[t])
    ensures forall i :: i in decayMap[t] ==> i in reverse && reverse[i] == t
  {
    assert decayMap[t] == Bucket(decayMap, t);
    assert forall u :: u != t ==> Bucket(decayMap - {t}, u) == Bucket(decayMap, u);
  }

  lemma CollectNothing(decayMap: map<int, set<Item>>, reverse: map<Item, int>, time: int)
    ensures ItemSet([]) == {} && Collected([], reverse, time) && Later(decayMap, reverse, [])
  {
  }

  lemma CollectedOnce(work: seq<Item>, reverse: map<Item, int>, time: int)
    requires Collected(work, reverse, time)
    ensures ItemTree.NoDup(work) && forall i :: i in work ==> i in reverse
  {
  }

  lemma TakeOne(work: seq<Item>, k: nat)
    requires k < |work|
    ensures ItemSet(work[..k + 1]) == ItemSet(work[..k]) + {work[k]}
    ensures ItemSet(work[k..]) - {work[k]} <= ItemSet(work[k + 1..])
  {
  }

  lemma AllDue(decayMap: map<int, set<Item>>, reverse: map<Item, int>, work: seq<Item>, time: int)
    requires Inverse(decayMap, reverse, ItemSet(work)) && Collected(work, reverse, time)
    requires forall t :: t in decayMap ==> t > time
    ensures forall i :: i in work <==> i in reverse && reverse[i] <= time
  {
  }

  // ---------- the game ----------

  lemma SuffixIn(q: seq<Item>, k: nat, n: nat)
    requires k <= n <= |q|
    ensures forall i :: i in q[n..] ==> i in q[k..]
  {
    assert q[n..] == q[k..][n - k..];
  }

  // the three lists that only grow during a cleanup
  datatype Log = Log(releases: seq<Item>, started: seq<Item>, stopped: seq<Item>)

  // releases are pushed, by exactly the decays that stop
  ghost predicate Pushed(a: Log, b: Log) {
    a.releases <= b.releases && b.started == a.started && b.stopped == a.stopped + b.releases[|a.releases|..]
  }

  lemma PushedMore(a: Log, b: Log, c: Log)
    requires Pushed(a, b) && Pushed(b, c)
    ensures Pushed(a, c)
  {
    assert c.releases[|a.releases|..] == b.releases[|a.releases|..] + c.releases[|b.releases|..];
  }

  // no item is new, and the child lists of these are as they were
  ghost predicate Untouched(s: State, v: State, items: set<Item>) {
    v.counter.Keys <= s.counter.Keys && forall d :: d in items ==> d in s.kids && d in v.kids && v.kids[d] == s.kids[d]
  }

  class Game {
    var decayMap: map<int, set<Item>>
    var reverseItemDecayMap: map<Item, int>
    var toReleaseItems: seq<Item>
    // of the items that are not deleted:
    var counter: map<Item, nat>           // reference counters
    var holders: map<Item, nat>           // of these, the references of tiles, players and the like
    var parent: Up<Item>                  // the container an item lies in, if any
    var itemlist: map<Item, seq<Item>>    // what lies in a container
    ghost var lost: seq<Item>             // releases that a cleanup dropped
    ghost var started: seq<Item>
    ghost var stopped: seq<Item>

    ghost function Now(): State
      reads this
    {
      State(counter, holders, parent, itemlist, reverseItemDecayMap, lost)
    }

    ghost predicate Indexed(work: set<Item>)
      reads this
    {
      Inverse(decayMap, reverseItemDecayMap, work) && Matched(started, stopped, reverseItemDecayMap)
    }

    // sound, but for the items of a work list that have lost their bucket
    ghost predicate Valid(work: set<Item>)
      reads this
    {
      Indexed(work) && Sound(Now(), toReleaseItems, {})
    }

    constructor ()
      ensures Valid({}) && lost == []
    {
      decayMap, reverseItemDecayMap, toReleaseItems, counter := map[], map[], [], map[];
      holders, parent, itemlist, lost, started, stopped := map[], map[], map[], [], [], [];
    }

    lemma NowFields()
      ensures Now().counter == counter && Now().kids == itemlist && Now().reverse == reverseItemDecayMap
      ensures Now().up == parent && Now().holders == holders && Now().lost == lost
    {
    }

    lemma ValidKeys(work: set<Item>)
      requires Valid(work)
      ensures counter.Keys == holders.Keys == parent.Keys == itemlist.Keys && reverseItemDecayMap.Keys <= counter.Keys
      ensures IsForest(parent)
    {
      SoundKeys(Now(), toReleaseItems);
    }

    method StartDecay(item: Item, canDecay: bool, timestamp: int, ghost work: set<Item>)
      requires Valid(work) && item in counter
      modifies this`decayMap, this`reverseItemDecayMap, this`counter, this`started
      ensures Valid(work)
      ensures if canDecay && item !in old(reverseItemDecayMap)
        then Now() == Begin(old(Now()), item, timestamp) && started == old(started) + [item]
        else Now() == old(Now()) && started == old(started)
    {
      if !canDecay || item in reverseItemDecayMap {
        return;
      }
      hide Sound, Inverse, Matched;
      BeginSound(Now(), toReleaseItems, item, timestamp);
      Enlist(item, timestamp, work);
    }

    method Enlist(item: Item, timestamp: int, ghost work: set<Item>)
      requires Indexed(work) && item in counter && item !in reverseItemDecayMap
      modifies this`decayMap, this`reverseItemDecayMap, this`counter, this`started
      ensures Indexed(work) && Now() == Begin(old(Now()), item, timestamp) && started == old(started) + [item]
    {
      InverseStart(decayMap, reverseItemDecayMap, work, item, timestamp);
      MatchedStart(started, stopped, reverseItemDecayMap, item, timestamp);
      hide Inverse, Matched;
      decayMap := decayMap[timestamp := Bucket(decayMap, timestamp) + {item}];
      reverseItemDecayMap := reverseItemDecayMap[item := timestamp];
      counter := counter[item := counter[item] + 1];
      started := started + [item];
    }

    // its reference goes to the release list; the counters follow by HaltSound
    method StopDecay(item: Item, ghost work: set<Item>)
      requires Indexed(work)
      modifies this`decayMap, this`reverseItemDecayMap, this`toReleaseItems, this`stopped
      ensures Indexed(work - {item}) && Now() == Halt(old(Now()), item)
      ensures if item in old(reverseItemDecayMap)
        then toReleaseItems == old(toReleaseItems) + [item] && stopped == old(stopped) + [item]
        else toReleaseItems == old(toReleaseItems) && stopped == old(stopped)
    {
      if item !in reverseItemDecayMap {
        assert reverseItemDecayMap - {item} == reverseItemDecayMap;
        return;
      }
      InverseStop(decayMap, reverseItemDecayMap, work, item);
      MatchedStop(started, stopped, reverseItemDecayMap, item);
      hide Inverse, Matched;
      var t := reverseItemDecayMap[item];
      reverseItemDecayMap := reverseItemDecayMap - {item};
      decayMap := decayMap[t := Bucket(decayMap, t) - {item}];
      stopped := stopped + [item];
      toReleaseItems := toReleaseItems + [item];
    }

    // stopDecay of an item outside a cleanup
    method StopAlone(item: Item, ghost work: set<Item>)
      requires Valid(work)
      modifies this`decayMap, this`reverseItemDecayMap, this`toReleaseItems, this`stopped
      ensures Valid(work - {item}) && Now() == Halt(old(Now()), item)
      ensures if item in old(reverseItemDecayMap)
        then toReleaseItems == old(toReleaseItems) + [item] && stopped == old(stopped) + [item]
        else toReleaseItems == old(toReleaseItems) && stopped == old(stopped)
    {
      ghost var s := Now();
      if item in reverseItemDecayMap {
        HaltSound(s, toReleaseItems, {}, item);
      } else {
        assert Halt(s, item) == s;
      }
      hide Sound, Inverse, Matched;
      StopDecay(item, work);
    }

    // where a cleanup stands: releases from the k-th on are still to be carried out, those from the n-th on were
    // pushed since it began, and the destructors of dying are running
    ghost predicate Cleaning(before: State, k: nat, n: nat, dying: set<Item>)
      requires before.holders.Keys == before.up.Keys && IsForest(before.up)
      reads this
    {
      && Indexed({}) && k <= n <= |toReleaseItems| && Sound(Now(), toReleaseItems[k..], dying)
      && Progress(before, Now(), toReleaseItems[n..], dying)
    }

    ghost function Logs(): Log
      reads this
    {
      Log(toReleaseItems, started, stopped)
    }

    /** At zero the item is deleted. */
    method DecrementReferenceCounter(item: Item, ghost before: State, ghost k: nat, ghost n: nat,
                                     ghost dying: set<Item>)
      requires before.holders.Keys == before.up.Keys && IsForest(before.up)
      requires Indexed({}) && k <= n <= |toReleaseItems| && Sound(Now(), [item] + toReleaseItems[k..], dying)
      requires Progress(before, Now(), toReleaseItems[n..], dying)
      modifies this
      ensures Cleaning(before, k, n, dying) && Pushed(old(Logs()), Logs())
      ensures Untouched(old(Now()), Now(), dying)
      decreases Now().counter.Keys - dying, 0
    {
      hide Sound, Progress, IsForest, Inverse, Matched, Now;
      ghost var s := Now();
      LessSound(s, toReleaseItems[k..], dying, item);
      SuffixIn(toReleaseItems, k, n);
      ProgressLess(before, s, toReleaseItems[n..], toReleaseItems[k..], dying, item);
      DyingListed(s, [item] + toReleaseItems[k..], dying);
      NowFields();
      var zero := Drop(item);
      if zero {
        Destroy(item, before, k, n, dying + {item});
        assert dying + {item} - {item} == dying;
      }
    }

    method Drop(item: Item) returns (zero: bool)
      requires item in counter && counter[item] > 0
      modifies this`counter
      ensures Now() == Less(old(Now()), item) && zero == (old(Now()).counter[item] == 1)
    {
      counter := counter[item := counter[item] - 1];
      zero := counter[item] == 0;
    }

    /** The destructor: its children are orphaned one after another, then the memory goes. */
    method Destroy(item: Item, ghost before: State, ghost k: nat, ghost n: nat, ghost dying: set<Item>)
      requires before.holders.Keys == before.up.Keys && IsForest(before.up)
      requires Cleaning(before, k, n, dying) && item in dying
      modifies this
      ensures Cleaning(before, k, n, dying - {item}) && Pushed(old(Logs()), Logs())
      ensures Untouched(old(Now()), Now(), dying - {item})
      decreases Now().counter.Keys - dying, 2
    {
      hide Sound, Progress, IsForest, Inverse, Matched, Now;
      DyingListed(Now(), toReleaseItems[k..], dying);
      NowFields();
      while itemlist[item] != []
        invariant Cleaning(before, k, n, dying) && Pushed(old(Logs()), Logs())
        invariant item in itemlist && Untouched(old(Now()), Now(), dying - {item})
        decreases |itemlist[item]|
      {
        Orphan(item, before, k, n, dying);
      }
      NowFields();
      WithoutSound(Now(), toReleaseItems[k..], dying, item);
      DyingIdle(Now(), toReleaseItems[k..], dying, item);
      ProgressGone(before, Now(), toReleaseItems[n..], dying, item);
      Delete(item);
    }

    method Delete(item: Item)
      requires item !in reverseItemDecayMap
      modifies this`counter, this`holders, this`parent, this`itemlist
      ensures Now() == Without(old(Now()), item)
    {
      counter, holders := counter - {item}, holders - {item};
      parent, itemlist := parent - {item}, itemlist - {item};
      assert reverseItemDecayMap - {item} == reverseItemDecayMap;
    }

    /** setParent(nullptr), which stops the child's decay, and decrementReferenceCounter for the first child. */
    method Orphan(item: Item, ghost before: State, ghost k: nat, ghost n: nat, ghost dying: set<Item>)
      requires before.holders.Keys == before.up.Keys && IsForest(before.up)
      requires Cleaning(before, k, n, dying) && item in dying && item in itemlist && itemlist[item] != []
      modifies this
      ensures Cleaning(before, k, n, dying) && Pushed(old(Logs()), Logs())
      ensures item in itemlist && |itemlist[item]| < |old(itemlist)[item]|
      ensures Untouched(old(Now()), Now(), dying - {item})
      decreases Now().counter.Keys - dying, 1
    {
      hide Sound, Progress, IsForest, Inverse, Matched, Now;
      ghost var s := Now();
      NowFields();
      DyingListed(s, toReleaseItems[k..], dying);
      var kid := CutLoose(item, before, k, n, dying);
      ghost var logs, v := Logs(), Now();
      DecrementReferenceCounter(kid, before, k, n, dying);
      NowFields();
      PushedMore(old(Logs()), logs, Logs());
    }

    method CutLoose(item: Item, ghost before: State, ghost k: nat, ghost n: nat, ghost dying: set<Item>)
        returns (kid: Item)
      requires before.holders.Keys == before.up.Keys && IsForest(before.up)
      requires Cleaning(before, k, n, dying) && item in dying && item in Now().kids && Now().kids[item] != []
      modifies this
      ensures Indexed({}) && k <= n <= |toReleaseItems| && Sound(Now(), [kid] + toReleaseItems[k..], dying)
      ensures Progress(before, Now(), toReleaseItems[n..], dying)
      ensures Now() == Halt(Cut(old(Now()), item), kid) && Pushed(old(Logs()), Logs())
    {
      hide Sound, Progress, IsForest, Inverse, Matched, Now, Cut;
      ghost var s, rest, late := Now(), toReleaseItems[k..], toReleaseItems[n..];
      NowFields();
      CutSound(s, rest, dying, item);
      ProgressCut(before, s, late, rest, dying, item);
      kid := PopChild(item);
      ghost var v := Now();
      NowFields();
      if kid in reverseItemDecayMap {
        HaltSound(v, [kid] + rest, dying, kid);
        assert [kid] + rest + [kid] == [kid] + (toReleaseItems + [kid])[k..];
        assert late + [kid] == (toReleaseItems + [kid])[n..];
      } else {
        assert Halt(v, kid) == v;
      }
      StopDecay(kid, {});
      assert {} - {kid} == {};
    }

    method PopChild(item: Item) returns (kid: Item)
      requires item in itemlist && itemlist[item] != []
      modifies this`parent, this`itemlist
      ensures kid == old(Now()).kids[item][0] && Now() == Cut(old(Now()), item)
    {
      kid := itemlist[item][0];
      parent := parent[kid := None];
      itemlist := itemlist[item := itemlist[item][1..]];
    }

    /** Carries out the releases that were pending when it began: the doomed items are deleted, and with each of them
        the decays of its direct contents end, whose releases are pushed behind the loop's end and cleared unseen. */
    method Cleanup()
      requires Valid({})
      modifies this
      ensures Valid({}) && toReleaseItems == [] && Cleaned(old(Now()), Now())
      ensures started == old(started) && stopped == old(stopped) + lost[|old(lost)|..]
      ensures lost == old(lost) <==>
        !exists c, x :: x in old(reverseItemDecayMap) && old(parent)[x] == Some(c) && Doomed(old(Now()), c)
    {
      hide Sound, Progress, IsForest, Inverse, Matched, Doomed, Cleaned;
      ghost var before := Now();
      var n := |toReleaseItems|;
      SoundKeys(before, toReleaseItems);
      ProgressStart(before, toReleaseItems);
      assert toReleaseItems[0..] == toReleaseItems && toReleaseItems[n..] == [];
      ghost var releases := toReleaseItems;
      for k := 0 to n
        invariant Cleaning(before, k, n, {}) && Pushed(old(Logs()), Logs())
      {
        assert toReleaseItems[k..] == [toReleaseItems[k]] + toReleaseItems[k + 1..];
        ghost var logs := Logs();
        DecrementReferenceCounter(toReleaseItems[k], before, k + 1, n, {});
        PushedMore(old(Logs()), logs, Logs());
      }
      ProgressFacts(before, Now(), toReleaseItems[n..]);
      Finished(before, Now(), toReleaseItems[n..], releases);
      lost := lost + toReleaseItems[n..];
      toReleaseItems := [];
      NothingLost(before, Now());
    }

    // a new item
    method Admit(item: Item, ghost work: set<Item>)
      requires Valid(work) && item !in counter
      modifies this`counter, this`holders, this`parent, this`itemlist
      ensures Valid(work) && Now() == Join(old(Now()), item)
    {
      hide Sound, Inverse, Matched;
      JoinSound(Now(), toReleaseItems, item);
      counter, holders := counter[item := 1], holders[item := 1];
      parent, itemlist := parent[item := None], itemlist[item := []];
    }

    // incrementReferenceCounter
    method Grab(item: Item, ghost work: set<Item>)
      requires Valid(work) && item in counter && item in holders
      modifies this`counter, this`holders
      ensures Valid(work) && Now() == ItemReferences.Hold(old(Now()), item)
    {
      hide Sound, Inverse, Matched;
      HoldSound(Now(), toReleaseItems, item);
      counter, holders := counter[item := counter[item] + 1], holders[item := holders[item] + 1];
    }

    // a place lets go of the item through ReleaseItem
    method Part(item: Item, ghost work: set<Item>)
      requires Valid(work) && item in counter && item in holders && holders[item] > 0
      modifies this`holders, this`toReleaseItems
      ensures Valid(work) && Now() == LetGo(old(Now()), item) && toReleaseItems == old(toReleaseItems) + [item]
    {
      hide Sound, Inverse, Matched;
      LetGoSound(Now(), toReleaseItems, item);
      holders := holders[item := holders[item] - 1];
      toReleaseItems := toReleaseItems + [item];
    }

    // addThing of a container: the reference of the place becomes the container's
    method InsertInto(item: Item, container: Item, ghost work: set<Item>)
      requires Valid(work) && item in counter && item in holders && holders[item] > 0 && container in itemlist
      requires container in counter && IsForest(parent) && item in parent && parent[item] == None && container in parent
      modifies this`holders, this`parent, this`itemlist
      ensures Valid(work)
      ensures Now() == if item in Chain(old(parent), container) then old(Now()) else Put(old(Now()), item, container)
    {
      hide Sound, Inverse, Matched, IsForest;
      var inside := LiesIn(container, item);
      if !inside {
        PutSound(Now(), toReleaseItems, item, container);
        holders := holders[item := holders[item] - 1];
        parent := parent[item := Some(container)];
        itemlist := itemlist[container := [item] + itemlist[container]];
      }
    }

    method LiesIn(from: Item, item: Item) returns (inside: bool)
      requires IsForest(parent) && from in parent
      ensures inside <==> item in Chain(parent, from)
    {
      var x := from;
      while true
        invariant x in parent && (item in Chain(parent, from) <==> item in Chain(parent, x))
        decreases Depth(parent, x)
      {
        ItemTree.AboveStep(parent, x);
        if x == item {
          return true;
        }
        if parent[x] == None {
          return false;
        }
        x := parent[x].value;
      }
    }

    // removeThing of a container: the item has no parent then, stops decaying, and whoever took it holds it
    method ExtractFrom(item: Item, ghost work: set<Item>)
      requires Valid(work) && item in parent && parent[item].Some?
      modifies this`holders, this`parent, this`itemlist, this`decayMap, this`reverseItemDecayMap, this`toReleaseItems,
        this`stopped
      ensures Valid(work) && Now() == Acted(old(Now()), Extract(item))
      ensures toReleaseItems == old(toReleaseItems) + Asked(old(Now()), Extract(item))
      ensures reverseItemDecayMap == old(reverseItemDecayMap) - {item}
      ensures stopped == if item in old(reverseItemDecayMap) then old(stopped) + [item] else old(stopped)
    {
      hide Sound, Inverse, Matched, IsForest, TakeOut, Acted, Asked, Now;
      NowFields();
      ListedChild(Now(), toReleaseItems, item);
      var c := parent[item].value;
      var i :| 0 <= i < |itemlist[c]| && itemlist[c][i] == item;
      ExtractIs(Now(), toReleaseItems, item, i);
      TakeChild(c, i, work);
      NowFields();
      StopAlone(item, work);
      NowFields();
      InverseWeaken(decayMap, reverseItemDecayMap, work - {item}, work);
    }

    method TakeChild(c: Item, i: nat, ghost work: set<Item>)
      requires Valid(work) && c in itemlist && i < |itemlist[c]|
      modifies this`holders, this`parent, this`itemlist
      ensures Valid(work) && itemlist.Keys == old(itemlist).Keys
      ensures old(itemlist)[c][i] in old(holders) && Now() == TakeOut(old(Now()), c, i)
    {
      hide Sound, Inverse, Matched;
      TakeOutSound(Now(), toReleaseItems, c, i);
      var item := itemlist[c][i];
      holders := holders[item := holders[item] + 1];
      parent := parent[item := None];
      itemlist := itemlist[c := itemlist[c][..i] + itemlist[c][i + 1..]];
    }

    // one thing a decay does; it can only name items that are alive
    method Apply(e: Effect, ghost work: set<Item>, ghost before: map<Item, int>, ghost n: nat, ghost m: nat,
                 ghost gone: set<Item>)
      requires Valid(work) && n <= |started| && m <= |stopped|
      requires Logged(before, reverseItemDecayMap, gone, Since(started, n), Since(stopped, m))
      modifies this
      ensures Valid(work) && n <= |started| && m <= |stopped| && counter.Keys >= old(counter.Keys) && lost == old(lost)
      ensures Now() == Acted(old(Now()), e) && toReleaseItems == old(toReleaseItems) + Asked(old(Now()), e)
      ensures Logged(before, reverseItemDecayMap, gone, Since(started, n), Since(stopped, m))
    {
      hide Logged, Since, Sound, Inverse, Matched, IsForest;
      SoundKeys(Now(), toReleaseItems);
      match e {
        case Create(item) =>
          if item !in counter {
            Admit(item, work);
          }
        case Hold(item) =>
          if item in counter {
            Grab(item, work);
          }
        case Release(item) =>
          if item in counter && holders[item] > 0 {
            Part(item, work);
          }
        case Insert(item, container) =>
          if item in counter && holders[item] > 0 && parent[item] == None && container in counter {
            InsertInto(item, container, work);
          }
        case Extract(item) =>
          if item in counter && parent[item].Some? {
            SinceAppend(stopped, m, item);
            LoggedStop(before, reverseItemDecayMap, gone, Since(started, n), Since(stopped, m), item);
            ExtractFrom(item, work);
          }
        case Start(item, canDecay, timestamp) =>
          if item in counter {
            SinceAppend(started, n, item);
            if item !in reverseItemDecayMap {
              LoggedStart(before, reverseItemDecayMap, gone, Since(started, n), Since(stopped, m), item, timestamp);
            }
            StartDecay(item, canDecay, timestamp, work);
          }
        case Stop(item) =>
          SinceAppend(stopped, m, item);
          LoggedStop(before, reverseItemDecayMap, gone, Since(started, n), Since(stopped, m), item);
          StopAlone(item, work);
          InverseWeaken(decayMap, reverseItemDecayMap, work - {item}, work);
      }
    }

    method ApplyAll(effects: seq<Effect>, ghost work: set<Item>, ghost before: map<Item, int>, ghost n: nat,
                    ghost m: nat, ghost gone: set<Item>)
      requires Valid(work) && n <= |started| && m <= |stopped|
      requires Logged(before, reverseItemDecayMap, gone, Since(started, n), Since(stopped, m))
      modifies this
      ensures Valid(work) && n <= |started| && m <= |stopped| && counter.Keys >= old(counter.Keys) && lost == old(lost)
      ensures Carried(old(Now()), old(toReleaseItems), effects, Now(), toReleaseItems)
      ensures Logged(before, reverseItemDecayMap, gone, Since(started, n), Since(stopped, m))
    {
      hide Logged, Since, Inverse, Sound, Matched, Acted, Asked, Now, Carried;
      NowFields();
      assert effects[..0] == [];
      CarriedNothing(Now(), toReleaseItems);
      for k := 0 to |effects|
        invariant Carried(old(Now()), old(toReleaseItems), effects[..k], Now(), toReleaseItems)
        invariant Valid(work) && n <= |started| && m <= |stopped| && counter.Keys >= old(counter.Keys)
        invariant lost == old(lost)
        invariant Logged(before, reverseItemDecayMap, gone, Since(started, n), Since(stopped, m))
      {
        ghost var s, q := Now(), toReleaseItems;
        Apply(effects[k], work, before, n, m, gone);
        CarriedOne(s, q, effects[k]);
        CarriedMore(old(Now()), old(toReleaseItems), effects[..k], s, q, [effects[k]], Now(), toReleaseItems);
        assert effects[..k + 1] == effects[..k] + [effects[k]];
      }
      assert effects[..|effects|] == effects;
    }

    // the items of one bucket, in no particular order
    method PushBucket(list: seq<Item>, bucket: set<Item>, t: int, time: int) returns (work: seq<Item>)
      requires t <= time && Collected(list, reverseItemDecayMap, time)
      requires forall i :: i in bucket ==> i in reverseItemDecayMap && reverseItemDecayMap[i] == t
      requires forall i :: i in list ==> reverseItemDecayMap[i] < t
      ensures Collected(work, reverseItemDecayMap, time)
      ensures ItemSet(work) == ItemSet(list) + bucket
    {
      work := list;
      var rest := bucket;
      while rest != {}
        invariant rest <= bucket && Collected(work, reverseItemDecayMap, time)
        invariant forall i :: i in work <==> i in list || i in bucket - rest
        decreases rest
      {
        var i :| i in rest;
        work := work + [i];
        rest := rest - {i};
      }
    }

    method TakeBucket(list: seq<Item>, t: int, time: int) returns (work: seq<Item>)
      requires t in decayMap && t <= time && forall u :: u in decayMap ==> t <= u
      requires Inverse(decayMap, reverseItemDecayMap, ItemSet(list)) && Collected(list, reverseItemDecayMap, time)
      requires Later(decayMap, reverseItemDecayMap, list)
      modifies this`decayMap
      ensures Inverse(decayMap, reverseItemDecayMap, ItemSet(work)) && Collected(work, reverseItemDecayMap, time)
      ensures Later(decayMap, reverseItemDecayMap, work) && decayMap.Keys == old(decayMap).Keys - {t}
    {
      InverseTake(decayMap, reverseItemDecayMap, list, t);
      var bucket := decayMap[t];
      work := PushBucket(list, bucket, t, time);
      hide Inverse, Collected;
      assert forall i :: i in work ==> i in ItemSet(work);
      assert forall i :: i in list ==> i in ItemSet(list);
      decayMap := decayMap - {t};
    }

    /** The due buckets are emptied into the work list; meanwhile exactly its items are missing from decayMap. */
    method Collect(time: int) returns (work: seq<Item>)
      requires Valid({})
      modifies this`decayMap
      ensures Valid(ItemSet(work)) && Collected(work, reverseItemDecayMap, time) && Now() == old(Now())
      ensures forall i :: i in work <==> i in reverseItemDecayMap && reverseItemDecayMap[i] <= time
    {
      work := [];
      CollectNothing(decayMap, reverseItemDecayMap, time);
      hide Inverse, Collected, Later, Counted, Matched, ItemSet;
      while decayMap.Keys != {}
        invariant Inverse(decayMap, reverseItemDecayMap, ItemSet(work)) && Collected(work, reverseItemDecayMap, time)
        invariant Later(decayMap, reverseItemDecayMap, work)
        decreases decayMap.Keys
      {
        ghost var least := LeastKey(decayMap.Keys);
        var t :| t in decayMap.Keys && forall u :: u in decayMap.Keys ==> t <= u;
        if t > time {
          break;
        }
        work := TakeBucket(work, t, time);
      }
      AllDue(decayMap, reverseItemDecayMap, work, time);
    }

    // one turn: the item is stopped, then its decay may do anything to the others
    method DecayOne(item: Item, effects: seq<Effect>, ghost work: set<Item>, ghost rest: set<Item>,
                    ghost before: map<Item, int>, ghost n: nat, ghost m: nat, ghost gone: set<Item>)
      requires Valid(work) && n <= |started| && m <= |stopped| && item in counter && work - {item} <= rest
      requires Logged(before, reverseItemDecayMap, gone, Since(started, n), Since(stopped, m))
      modifies this
      ensures Valid(rest) && n <= |started| && m <= |stopped| && counter.Keys >= old(counter.Keys) && lost == old(lost)
      ensures Carried(old(Now()), old(toReleaseItems), [Stop(item)] + effects, Now(), toReleaseItems)
      ensures Logged(before, reverseItemDecayMap, gone + {item}, Since(started, n), Since(stopped, m))
    {
      hide Logged, Since, Inverse, Sound, Matched, Carried;
      CarriedOne(Now(), toReleaseItems, Stop(item));
      SinceAppend(stopped, m, item);
      LoggedStop(before, reverseItemDecayMap, gone, Since(started, n), Since(stopped, m), item);
      StopAlone(item, work);
      ghost var s, q := Now(), toReleaseItems;
      InverseWeaken(decayMap, reverseItemDecayMap, work - {item}, rest);
      ApplyAll(effects, rest, before, n, m, gone + {item});
      CarriedMore(old(Now()), old(toReleaseItems), [Stop(item)], s, q, effects, Now(), toReleaseItems);
    }

    // the loop over the work list: each item is stopped, then its decay may do anything to the others
    method DecayAll(work: seq<Item>, complete: Item -> seq<Effect>, ghost before: map<Item, int>, ghost n: nat,
                    ghost m: nat)
      requires Valid(ItemSet(work)) && n <= |started| && m <= |stopped| && (forall i :: i in work ==> i in counter)
      requires Logged(before, reverseItemDecayMap, {}, Since(started, n), Since(stopped, m))
      modifies this
      ensures Valid({}) && n <= |started| && m <= |stopped| && lost == old(lost)
      ensures Carried(old(Now()), old(toReleaseItems), Script(work, complete), Now(), toReleaseItems)
      ensures Logged(before, reverseItemDecayMap, ItemSet(work), Since(started, n), Since(stopped, m))
    {
      assert work[0..] == work && work[..0] == [];
      ItemSetEmpty();
      hide Logged, Since, Inverse, Sound, Matched, ItemSet, Now, Carried, Script;
      ScriptNone(complete);
      CarriedNothing(Now(), toReleaseItems);
      NowFields();
      for k := 0 to |work|
        invariant Carried(old(Now()), old(toReleaseItems), Script(work[..k], complete), Now(), toReleaseItems)
        invariant Valid(ItemSet(work[k..])) && n <= |started| && m <= |stopped| && lost == old(lost)
        invariant forall i :: i in work ==> i in counter
        invariant Logged(before, reverseItemDecayMap, ItemSet(work[..k]), Since(started, n), Since(stopped, m))
      {
        TakeOne(work, k);
        ScriptNext(work, k, complete);
        ghost var s, q := Now(), toReleaseItems;
        DecayOne(work[k], complete(work[k]), ItemSet(work[k..]), ItemSet(work[k + 1..]), before, n, m,
          ItemSet(work[..k]));
        CarriedMore(old(Now()), old(toReleaseItems), Script(work[..k], complete), s, q,
          [Stop(work[k])] + complete(work[k]), Now(), toReleaseItems);
      }
      assert work[|work|..] == [] && work[..|work|] == work;
      ItemSetEmpty();
    }

    /** checkDecay: every due item is stopped, once the loop reaches it if not before, and is in the index afterwards
        only if it was started again; nobody else is dropped unless stopped; and the work list never names a deleted
        item, since until the cleanup at the end nothing is deleted.  The cleanup takes what the decays left: mid. */
    method CheckDecay(time: int, complete: Item -> seq<Effect>) returns (ghost mid: State, ghost due: seq<Item>)
      requires Valid({})
      modifies this
      ensures Valid({}) && toReleaseItems == []
      ensures Collected(due, old(reverseItemDecayMap), time)
      ensures forall i :: i in due <==> i in old(reverseItemDecayMap) && old(reverseItemDecayMap)[i] <= time
      ensures mid == ActedAll(old(Now()), Script(due, complete))
      ensures RoundDone(old(Now()), due, complete, mid)
      ensures mid.holders.Keys == mid.up.Keys && mid.reverse.Keys <= mid.up.Keys && IsForest(mid.up)
      ensures Cleaned(mid, Now()) && mid.lost == old(lost)
      ensures lost == old(lost) <==> !exists c, x :: x in mid.reverse && mid.up[x] == Some(c) && Doomed(mid, c)
      ensures |old(started)| <= |started| && |old(stopped)| <= |stopped|
      ensures forall i :: i in reverseItemDecayMap && reverseItemDecayMap[i] <= time ==> i in started[|old(started)|..]
      ensures forall i :: i in old(reverseItemDecayMap) && old(reverseItemDecayMap)[i] <= time ==>
        i in stopped[|old(stopped)|..]
      ensures forall i :: i in old(reverseItemDecayMap) && i !in stopped[|old(stopped)|..] ==>
        i in reverseItemDecayMap && reverseItemDecayMap[i] == old(reverseItemDecayMap)[i]
    {
      hide *;
      ghost var before, n, m := reverseItemDecayMap, |started|, |stopped|;
      NowFields();
      ValidKeys({});
      var work := Collect(time);
      LoggedNothing(before, started, stopped);
      DecayAll(work, complete, before, n, m);
      due := work;
      CollectedOnce(work, before, time);
      CarriedMeans(old(Now()), old(toReleaseItems), Script(work, complete), Now(), toReleaseItems);
      RoundLaws(old(Now()), work, complete);
      ValidKeys({});
      NowFields();
      mid := Now();
      ghost var log := stopped;
      Cleanup();
      NowFields();
      StraysStopped(mid, Now());
      ghost var late := lost[|mid.lost|..];
      SinceConcat(log, late, m);
      SinceIs(started, n);
      SinceIs(stopped, m);
      LoggedCleaned(before, mid.reverse, reverseItemDecayMap, ItemSet(work), Since(started, n), Since(log, m), late);
      LoggedMeans(before, reverseItemDecayMap, work, Since(started, n), Since(stopped, m), time);
    }
  }
}
