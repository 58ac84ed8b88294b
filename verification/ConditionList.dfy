/** The conditions of a creature: which are listed, and what those that change its speed add up to. */
module ConditionList {
  import opened Options

  const HASTE: nat := 0x10
  const PARALYZE: nat := 0x20
  const FOREVER: int := -1

  // ref tells one condition object from another
  datatype Condition = Condition(ref: nat, kind: nat, id: int, subId: nat, ticks: int, speedDelta: int)

  predicate IsSpeed(c: Condition) {
    c.kind == HASTE || c.kind == PARALYZE
  }

  function Delta(c: Condition): int {
    if IsSpeed(c) then c.speedDelta else 0
  }

  function Deltas(cs: seq<Condition>): int {
    if cs == [] then 0 else Delta(cs[0]) + Deltas(cs[1..])
  }

  lemma {:induction false} DeltasSplit(a: seq<Condition>, b: seq<Condition>)
    ensures Deltas(a + b) == Deltas(a) + Deltas(b)
    decreases |a|
  {
    if a == [] {
      assert a + b == b;
    } else {
      assert (a + b)[1..] == a[1..] + b;
      DeltasSplit(a[1..], b);
    }
  }

  function Erase(cs: seq<Condition>, k: nat): seq<Condition>
    requires k < |cs|
  {
    cs[..k] + cs[k + 1..]
  }

  lemma DeltasErase(cs: seq<Condition>, k: nat)
    requires k < |cs|
    ensures Deltas(Erase(cs, k)) == Deltas(cs) - Delta(cs[k])
  {
    DeltasOne(cs[k]);
    hide Deltas;
    DeltasSplit(cs[..k], [cs[k]] + cs[k + 1..]);
    DeltasSplit([cs[k]], cs[k + 1..]);
    DeltasSplit(cs[..k], cs[k + 1..]);
    assert cs == cs[..k] + ([cs[k]] + cs[k + 1..]);
  }

  lemma DeltasOne(c: Condition)
    ensures Deltas([c]) == Delta(c)
  {
    assert [c][1..] == [];
  }

  lemma DeltasUpdate(cs: seq<Condition>, k: nat, c: Condition)
    requires k < |cs|
    ensures Deltas(cs[k := c]) == Deltas(cs) - Delta(cs[k]) + Delta(c)
  {
    DeltasErase(cs, k);
    DeltasErase(cs[k := c], k);
    assert Erase(cs[k := c], k) == Erase(cs, k);
  }

  predicate SameKey(a: Condition, b: Condition) {
    a.kind == b.kind && a.id == b.id && a.subId == b.subId
  }

  // a listed condition has this key
  ghost predicate Known(cs: seq<Condition>, c: Condition) {
    exists i :: 0 <= i < |cs| && SameKey(cs[i], c)
  }

  // one condition for each kind, id and sub-id, and each object once
  ghost predicate Distinct(cs: seq<Condition>) {
    forall i, j :: 0 <= i < j < |cs| ==> !SameKey(cs[i], cs[j]) && cs[i].ref != cs[j].ref
  }

  ghost predicate Listed(cs: seq<Condition>, ref: nat) {
    exists i :: 0 <= i < |cs| && cs[i].ref == ref
  }

  // a condition is listed from its start to its one end
  ghost predicate EndedOnce(cs: seq<Condition>, begun: multiset<nat>, ended: multiset<nat>) {
    forall r {:trigger begun[r]} :: begun[r] == ended[r] + if Listed(cs, r) then 1 else 0
  }

  predicate Matches(c: Condition, kind: nat, id: Option<int>) {
    c.kind == kind && (id.Some? ==> c.id == id.value)
  }

  // the list without the conditions of a kind, and of an id if one is given
  function Others(cs: seq<Condition>, kind: nat, id: Option<int>): seq<Condition> {
    if cs == [] then []
    else (if Matches(cs[0], kind, id) then [] else [cs[0]]) + Others(cs[1..], kind, id)
  }

  lemma {:induction false} OthersSplit(a: seq<Condition>, b: seq<Condition>, kind: nat, id: Option<int>)
    ensures Others(a + b, kind, id) == Others(a, kind, id) + Others(b, kind, id)
    decreases |a|
  {
    if a == [] {
      assert a + b == b;
    } else {
      assert (a + b)[1..] == a[1..] + b;
      OthersSplit(a[1..], b, kind, id);
    }
  }

  lemma {:induction false} OthersListed(cs: seq<Condition>, kind: nat, id: Option<int>, c: Condition)
    ensures c in Others(cs, kind, id) <==> c in cs && !Matches(c, kind, id)
    decreases |cs|
  {
    if cs != [] {
      OthersListed(cs[1..], kind, id, c);
    }
  }

  // a refreshed condition keeps its place; a lasting speed change is not replaced by a passing one
  function Refreshed(listed: Condition, c: Condition, accepts: bool, roll: int): Condition {
    if IsSpeed(listed) then
      if listed.kind != c.kind || (listed.ticks == FOREVER && c.ticks > 0) then listed
      else listed.(ticks := c.ticks, speedDelta := if c.speedDelta == 0 then roll else c.speedDelta)
    else if accepts then listed.(ticks := c.ticks)
    else listed
  }

  // a speed change without an amount gets one when it starts
  function Begun(c: Condition, roll: int): Condition {
    if IsSpeed(c) && c.speedDelta == 0 then c.(speedDelta := roll) else c
  }

  // the list with c in it: refreshed where its key is, or else begun at the end
  function Added(cs: seq<Condition>, c: Condition, accepts: bool, roll: int): seq<Condition> {
    if cs == [] then [Begun(c, roll)]
    else if SameKey(cs[0], c) then [Refreshed(cs[0], c, accepts, roll)] + cs[1..]
    else [cs[0]] + Added(cs[1..], c, accepts, roll)
  }

  /** What a listed condition is after one of its key was added: of a speed change all but a lasting one that meets a
      passing one takes over ticks and amount, of the others those that accept take over the ticks. */
  predicate TookOver(was: Condition, now: Condition, c: Condition, accepts: bool, roll: int) {
    && now.ref == was.ref && SameKey(now, was)
    && if c.kind == HASTE || c.kind == PARALYZE then
         if was.ticks == -1 && c.ticks > 0 then now == was
         else now.ticks == c.ticks && now.speedDelta == if c.speedDelta != 0 then c.speedDelta else roll
       else now.speedDelta == was.speedDelta && now.ticks == if accepts then c.ticks else was.ticks
  }

  /** The list after an addition: every place of the key has taken over, no other has changed, and an unknown key is
      listed last, as it was given but for a speed change without an amount. */
  ghost predicate Took(was: seq<Condition>, now: seq<Condition>, c: Condition, accepts: bool, roll: int) {
    && |now| == |was| + (if Known(was, c) then 0 else 1)
    && (forall i :: 0 <= i < |was| ==>
          if SameKey(was[i], c) then TookOver(was[i], now[i], c, accepts, roll) else now[i] == was[i])
    && (!Known(was, c) ==>
          var last := now[|was|];
          && last.ref == c.ref && SameKey(last, c) && last.ticks == c.ticks
          && last.speedDelta == if (c.kind == HASTE || c.kind == PARALYZE) && c.speedDelta == 0 then roll
                                else c.speedDelta)
  }

  lemma {:induction false} AddedRefresh(cs: seq<Condition>, k: nat, c: Condition, accepts: bool, roll: int)
    requires k < |cs| && SameKey(cs[k], c) && forall i :: 0 <= i < k ==> !SameKey(cs[i], c)
    ensures Added(cs, c, accepts, roll) == cs[k := Refreshed(cs[k], c, accepts, roll)]
    decreases k
  {
    if k > 0 {
      AddedRefresh(cs[1..], k - 1, c, accepts, roll);
    }
  }

  lemma {:induction false} AddedNew(cs: seq<Condition>, c: Condition, accepts: bool, roll: int)
    requires forall i :: 0 <= i < |cs| ==> !SameKey(cs[i], c)
    ensures Added(cs, c, accepts, roll) == cs + [Begun(c, roll)]
    decreases |cs|
  {
    if cs != [] {
      AddedNew(cs[1..], c, accepts, roll);
    }
  }

  lemma RefreshTook(cs: seq<Condition>, k: nat, c: Condition, accepts: bool, roll: int)
    requires Distinct(cs) && k < |cs| && SameKey(cs[k], c)
    ensures Known(cs, c)
    ensures var next := Refreshed(cs[k], c, accepts, roll);
      SameKey(next, cs[k]) && next.ref == cs[k].ref && Took(cs, cs[k := next], c, accepts, roll)
  {
  }

  lemma BeginTook(cs: seq<Condition>, c: Condition, accepts: bool, roll: int)
    requires forall i :: 0 <= i < |cs| ==> !SameKey(cs[i], c)
    ensures var last := Begun(c, roll);
      SameKey(last, c) && last.ref == c.ref && !Known(cs, c) && Took(cs, cs + [last], c, accepts, roll)
  {
  }

  lemma OthersNothing(kind: nat, id: Option<int>)
    ensures Others([], kind, id) == []
  {
  }

  // one step of a removal by kind: the match goes, or the other stays
  lemma OthersDrop(cs: seq<Condition>, k: nat, kind: nat, id: Option<int>)
    requires k < |cs| && Matches(cs[k], kind, id)
    ensures Others(Erase(cs, k), kind, id) == Others(cs, kind, id) && Erase(cs, k)[..k] == cs[..k]
  {
    assert cs == cs[..k] + ([cs[k]] + cs[k + 1..]);
    OthersSplit(cs[..k], [cs[k]] + cs[k + 1..], kind, id);
    OthersOne(cs[k], kind, id);
    OthersSplit([cs[k]], cs[k + 1..], kind, id);
    OthersSplit(cs[..k], cs[k + 1..], kind, id);
  }

  lemma OthersKeep(cs: seq<Condition>, k: nat, kind: nat, id: Option<int>)
    requires k < |cs| && !Matches(cs[k], kind, id) && Others(cs[..k], kind, id) == cs[..k]
    ensures Others(cs[..k + 1], kind, id) == cs[..k + 1]
  {
    assert cs[..k + 1] == cs[..k] + [cs[k]];
    OthersOne(cs[k], kind, id);
    OthersSplit(cs[..k], [cs[k]], kind, id);
  }

  lemma OthersOne(c: Condition, kind: nat, id: Option<int>)
    ensures Others([c], kind, id) == if Matches(c, kind, id) then [] else [c]
  {
    assert [c][1..] == [];
  }

  // the list without one condition object
  function Without(cs: seq<Condition>, ref: nat): seq<Condition> {
    if cs == [] then [] else if cs[0].ref == ref then Without(cs[1..], ref) else [cs[0]] + Without(cs[1..], ref)
  }

  lemma {:induction false} WithoutAbsent(cs: seq<Condition>, ref: nat)
    requires forall i :: 0 <= i < |cs| ==> cs[i].ref != ref
    ensures Without(cs, ref) == cs
    decreases |cs|
  {
    if cs != [] {
      WithoutAbsent(cs[1..], ref);
    }
  }

  // of distinct conditions one leaves
  lemma {:induction false} WithoutErase(cs: seq<Condition>, k: nat)
    requires k < |cs| && forall i :: 0 <= i < |cs| && i != k ==> cs[i].ref != cs[k].ref
    ensures Without(cs, cs[k].ref) == Erase(cs, k)
    decreases k
  {
    if k == 0 {
      WithoutAbsent(cs[1..], cs[0].ref);
    } else {
      WithoutErase(cs[1..], k - 1);
      assert Erase(cs, k) == [cs[0]] + Erase(cs[1..], k - 1);
    }
  }

  lemma {:induction false} WithoutListed(cs: seq<Condition>, ref: nat, c: Condition)
    ensures c in Without(cs, ref) <==> c in cs && c.ref != ref
    decreases |cs|
  {
    if cs != [] {
      WithoutListed(cs[1..], ref, c);
    }
  }

  // a creature still walking keeps its paralysis for now, unless forced
  predicate HeldBack(cs: seq<Condition>, ref: nat, force: bool, walkDelay: int) {
    !force && walkDelay > 0 && exists i :: 0 <= i < |cs| && cs[i].ref == ref && cs[i].kind == PARALYZE
  }

  function WithoutAll(cs: seq<Condition>, refs: seq<nat>): seq<Condition>
    decreases |refs|
  {
    if refs == [] then cs else WithoutAll(Without(cs, refs[0]), refs[1..])
  }

  lemma {:induction false} WithoutAllSnoc(cs: seq<Condition>, refs: seq<nat>, ref: nat)
    ensures WithoutAll(cs, refs + [ref]) == Without(WithoutAll(cs, refs), ref)
    decreases |refs|
  {
    if refs == [] {
      assert [] + [ref] == [ref] && [ref][1..] == [];
    } else {
      assert (refs + [ref])[1..] == refs[1..] + [ref];
      WithoutAllSnoc(Without(cs, refs[0]), refs[1..], ref);
    }
  }

  lemma {:induction false} WithoutAllListed(cs: seq<Condition>, refs: seq<nat>, c: Condition)
    ensures c in WithoutAll(cs, refs) <==> c in cs && c.ref !in refs
    decreases |refs|
  {
    if refs != [] {
      WithoutListed(cs, refs[0], c);
      WithoutAllListed(Without(cs, refs[0]), refs[1..], c);
    }
  }

  predicate Has(cs: seq<Condition>, ref: nat) {
    exists c :: c in cs && c.ref == ref
  }

  // one turn: a condition that is still listed may remove others, and leaves if it does not survive
  function Turn(cs: seq<Condition>, ref: nat, outcome: nat -> Outcome): seq<Condition> {
    if !Has(cs, ref) then cs
    else
      var rest := WithoutAll(cs, outcome(ref).removed);
      if outcome(ref).survives then rest else Without(rest, ref)
  }

  function Executed(cs: seq<Condition>, todo: seq<Condition>, outcome: nat -> Outcome): seq<Condition>
    decreases |todo|
  {
    if todo == [] then cs else Executed(Turn(cs, todo[0].ref, outcome), todo[1..], outcome)
  }

  lemma {:induction false} ExecutedSnoc(cs: seq<Condition>, todo: seq<Condition>, c: Condition, outcome: nat -> Outcome)
    ensures Executed(cs, todo + [c], outcome) == Turn(Executed(cs, todo, outcome), c.ref, outcome)
    decreases |todo|
  {
    if todo == [] {
      assert [] + [c] == [c] && [c][1..] == [];
    } else {
      assert (todo + [c])[1..] == todo[1..] + [c];
      ExecutedSnoc(Turn(cs, todo[0].ref, outcome), todo[1..], c, outcome);
    }
  }

  lemma TurnListed(cs: seq<Condition>, ref: nat, outcome: nat -> Outcome, c: Condition)
    ensures c in Turn(cs, ref, outcome) ==> c in cs && (c.ref == ref ==> outcome(ref).survives)
    ensures c in cs && (c.ref == ref ==> outcome(ref).survives) && c.ref !in outcome(ref).removed ==>
      c in Turn(cs, ref, outcome)
  {
    WithoutAllListed(cs, outcome(ref).removed, c);
    WithoutListed(WithoutAll(cs, outcome(ref).removed), ref, c);
  }

  /** What survives and is named by no other's removals stays listed; what does not survive is gone; nothing is new. */
  lemma {:induction false} ExecutedListed(cs: seq<Condition>, todo: seq<Condition>,
                                          outcome: nat -> Outcome, c: Condition)
    ensures c in Executed(cs, todo, outcome) ==>
      c in cs && forall i :: 0 <= i < |todo| && todo[i].ref == c.ref ==> outcome(c.ref).survives
    ensures Unharmed(todo, outcome, c) && c in cs ==> c in Executed(cs, todo, outcome)
    decreases |todo|
  {
    if todo != [] {
      TurnListed(cs, todo[0].ref, outcome, c);
      ExecutedListed(Turn(cs, todo[0].ref, outcome), todo[1..], outcome, c);
      assert Unharmed(todo, outcome, c) ==> Unharmed(todo[1..], outcome, c);
      if c in Executed(cs, todo, outcome) {
        forall i | 0 <= i < |todo| && todo[i].ref == c.ref ensures outcome(c.ref).survives {
          assert i > 0 ==> todo[i] == todo[1..][i - 1];
        }
      }
    }
  }

  // c survives its own execution and no execution removes it
  ghost predicate Unharmed(todo: seq<Condition>, outcome: nat -> Outcome, c: Condition) {
    && (forall i :: 0 <= i < |todo| && todo[i].ref == c.ref ==> outcome(c.ref).survives)
    && forall i :: 0 <= i < |todo| ==> c.ref !in outcome(todo[i].ref).removed
  }

  // what executing a condition may lead to
  datatype Outcome = Outcome(survives: bool, removed: seq<nat>)

  class Creature {
    var conditions: seq<Condition>
    var baseSpeed: int
    var varSpeed: int
    ghost var external: int            // speed changes that come from no condition
    ghost var begun: multiset<nat>
    ghost var ended: multiset<nat>

    ghost predicate Valid()
      reads this
    {
      varSpeed == external + Deltas(conditions) && Distinct(conditions) && EndedOnce(conditions, begun, ended)
    }

    constructor (speed: int)
      ensures Valid() && conditions == [] && varSpeed == 0
    {
      conditions, baseSpeed, varSpeed, external, begun, ended := [], speed, 0, 0, multiset{}, multiset{};
    }

    // Game::changeSpeed
    method ChangeSpeed(delta: int)
      modifies this`varSpeed
      ensures varSpeed == old(varSpeed) + delta
    {
      var speed := baseSpeed + varSpeed - baseSpeed;
      varSpeed := speed + delta;
    }

    method ChangeSpeedFromOutside(delta: int)
      requires Valid()
      modifies this`varSpeed, this`external
      ensures Valid() && external == old(external) + delta
    {
      ChangeSpeed(delta);
      external := external + delta;
    }

    // the condition leaves the list and ends
    method EndAt(k: nat)
      requires Valid() && k < |conditions|
      modifies this`conditions, this`varSpeed, this`ended
      ensures Valid() && conditions == Erase(old(conditions), k)
      ensures ended == old(ended) + multiset{old(conditions)[k].ref}
    {
      var condition := conditions[k];
      DeltasErase(conditions, k);
      EraseListed(conditions, k, begun, ended);
      conditions := Erase(conditions, k);
      if IsSpeed(condition) {
        ChangeSpeed(-condition.speedDelta);
      }
      ended := ended + multiset{condition.ref};
    }

    // getCondition: the first of the list with this key
    method GetCondition(c: Condition) returns (k: nat)
      ensures k <= |conditions| && (k < |conditions| ==> SameKey(conditions[k], c))
      ensures forall i :: 0 <= i < k ==> !SameKey(conditions[i], c)
    {
      k := 0;
      while k < |conditions| && !SameKey(conditions[k], c)
        invariant k <= |conditions| && forall i :: 0 <= i < k ==> !SameKey(conditions[i], c)
      {
        k := k + 1;
      }
    }

    /** addCondition: a condition with a known key refreshes the listed one, any other starts and is listed last.
        paralyzed and walkDelay, accepts, starts and roll stand for the clock, the kind's own rules and the dice. */
    method AddCondition(c: Condition, force: bool, paralyzed: bool, walkDelay: int, accepts: bool, starts: bool,
                        roll: int)
        returns (ok: bool)
      requires Valid() && begun[c.ref] == 0 && (IsSpeed(c) ==> starts)
      modifies this
      ensures Valid() && external == old(external)
      ensures var held := !force && c.kind == HASTE && paralyzed && walkDelay > 0;
        ok <==> !held && (starts || Known(old(conditions), c))
      ensures !ok ==> conditions == old(conditions) && varSpeed == old(varSpeed)
      ensures ok ==> conditions == Added(old(conditions), c, accepts, roll)
      ensures ok ==> Took(old(conditions), conditions, c, accepts, roll)
      ensures ended == old(ended)
      ensures begun == old(begun) + if ok && !Known(old(conditions), c) then multiset{c.ref} else multiset{}
    {
      hide Added, Refreshed, Begun, Took, Deltas, Distinct, EndedOnce;
      if !force && c.kind == HASTE && paralyzed {
        if walkDelay > 0 {
          return false;
        }
      }
      var k := GetCondition(c);
      if k < |conditions| {
        AddedRefresh(conditions, k, c, accepts, roll);
        RefreshTook(conditions, k, c, accepts, roll);
        Refresh(k, Refreshed(conditions[k], c, accepts, roll));
        return true;
      }
      if !starts {
        return false;
      }
      AddedNew(conditions, c, accepts, roll);
      BeginTook(conditions, c, accepts, roll);
      Begin(Begun(c, roll));
      return true;
    }

    // the listed condition takes over ticks and speed change
    method Refresh(k: nat, next: Condition)
      requires Valid() && k < |conditions| && SameKey(next, conditions[k]) && next.ref == conditions[k].ref
      modifies this`conditions, this`varSpeed
      ensures Valid() && conditions == old(conditions)[k := next]
    {
      var change := Delta(next) - Delta(conditions[k]);
      DeltasUpdate(conditions, k, next);
      UpdateListed(conditions, k, next, begun, ended);
      hide Deltas, Distinct, EndedOnce;
      if change != 0 {
        ChangeSpeed(change);
      }
      conditions := conditions[k := next];
    }

    // a new condition starts and is listed
    method Begin(condition: Condition)
      requires Valid() && begun[condition.ref] == 0
      requires forall i :: 0 <= i < |conditions| ==> !SameKey(conditions[i], condition)
      modifies this`conditions, this`varSpeed, this`begun
      ensures Valid() && conditions == old(conditions) + [condition] && begun == old(begun) + multiset{condition.ref}
    {
      DeltasSplit(conditions, [condition]);
      assert Deltas([condition]) == Delta(condition);
      AppendListed(conditions, condition, begun, ended);
      hide Deltas, Distinct, EndedOnce;
      if IsSpeed(condition) {
        ChangeSpeed(condition.speedDelta);
      }
      conditions := conditions + [condition];
      begun := begun + multiset{condition.ref};
    }

    /** Both removals by kind: every match ends, the others keep their places; only a creature still walking keeps its
        paralysis for now. */
    method RemoveByKind(kind: nat, id: Option<int>, force: bool, walkDelay: int) returns (done: bool)
      requires Valid()
      modifies this`conditions, this`varSpeed, this`ended
      ensures Valid() && old(ended) <= ended
      ensures !done <==> (!force && kind == PARALYZE && walkDelay > 0
        && exists i :: 0 <= i < |old(conditions)| && Matches(old(conditions)[i], kind, id))
      ensures done ==> conditions == Others(old(conditions), kind, id)
      ensures done ==> forall c ::
        c in conditions <==> c in old(conditions) && !(c.kind == kind && (id.Some? ==> c.id == id.value))
      ensures !done ==> conditions == old(conditions)
    {
      hide Others, Deltas, Distinct, EndedOnce;
      var k := 0;
      ghost var was := conditions;
      OthersNothing(kind, id);
      assert conditions[..0] == [];
      while k < |conditions|
        invariant Valid() && k <= |conditions| && old(ended) <= ended
        invariant Others(conditions[..k], kind, id) == conditions[..k]
        invariant forall i :: 0 <= i < k ==> !Matches(conditions[i], kind, id)
        invariant Others(conditions, kind, id) == Others(was, kind, id)
        invariant !force && kind == PARALYZE && walkDelay > 0 ==> conditions == was
        decreases |conditions| - k
      {
        if !Matches(conditions[k], kind, id) {
          OthersKeep(conditions, k, kind, id);
          k := k + 1;
        } else {
          if !force && kind == PARALYZE {
            if walkDelay > 0 {
              return false;
            }
          }
          OthersDrop(conditions, k, kind, id);
          EndAt(k);
        }
      }
      assert conditions[..k] == conditions;
      forall c ensures c in conditions <==> c in was && !Matches(c, kind, id) {
        OthersListed(was, kind, id, c);
      }
      return true;
    }

    // std::find
    method Find(ref: nat) returns (k: nat)
      ensures k <= |conditions| && (k < |conditions| ==> conditions[k].ref == ref)
      ensures forall i :: 0 <= i < k ==> conditions[i].ref != ref
    {
      k := 0;
      while k < |conditions| && conditions[k].ref != ref
        invariant k <= |conditions| && forall i :: 0 <= i < k ==> conditions[i].ref != ref
      {
        k := k + 1;
      }
    }

    /** The removal of one object: it leaves the list, everything else stays; a paralysis may be held back. */
    method RemoveCondition(ref: nat, force: bool, walkDelay: int)
      requires Valid()
      modifies this`conditions, this`varSpeed, this`ended
      ensures Valid() && old(ended) <= ended && forall r :: Listed(conditions, r) ==> Listed(old(conditions), r)
      ensures force ==> !Listed(conditions, ref)
      ensures conditions == if HeldBack(old(conditions), ref, force, walkDelay) then old(conditions)
        else Without(old(conditions), ref)
    {
      var k := Find(ref);
      if k == |conditions| {
        WithoutAbsent(conditions, ref);
        return;
      }
      if !force && conditions[k].kind == PARALYZE {
        if walkDelay > 0 {
          return;
        }
      }
      WithoutErase(conditions, k);
      EraseListed(conditions, k, begun, ended);
      ErasedRefs(conditions, k);
      EndAt(k);
    }

    /** executeConditions: a copy of the list is walked, since executing one condition may remove others; what does not
        survive ends, unless it has ended already. */
    method ExecuteConditions(outcome: nat -> Outcome)
      requires Valid()
      modifies this`conditions, this`varSpeed, this`ended
      ensures Valid() && old(ended) <= ended && conditions == Executed(old(conditions), old(conditions), outcome)
      ensures forall r :: Listed(conditions, r) ==> Listed(old(conditions), r) && outcome(r).survives
      ensures forall c :: c in old(conditions) && Unharmed(old(conditions), outcome, c) ==> c in conditions
    {
      var temp := conditions;
      assert temp[..0] == [];
      for i := 0 to |temp|
        invariant Valid() && old(ended) <= ended && conditions == Executed(temp, temp[..i], outcome)
      {
        assert temp[..i + 1] == temp[..i] + [temp[i]];
        ExecutedSnoc(temp, temp[..i], temp[i], outcome);
        ExecuteOne(temp[i].ref, outcome);
      }
      assert temp[..|temp|] == temp;
      ExecutedMeans(temp, conditions, outcome);
    }

    // one turn of the walk
    method ExecuteOne(ref: nat, outcome: nat -> Outcome)
      requires Valid()
      modifies this`conditions, this`varSpeed, this`ended
      ensures Valid() && old(ended) <= ended && conditions == Turn(old(conditions), ref, outcome)
    {
      var k := Find(ref);
      HasIs(conditions, ref, k);
      if k == |conditions| {
        return;
      }
      var result := outcome(ref);
      ghost var was := conditions;
      assert result.removed[..0] == [];
      for n := 0 to |result.removed|
        invariant Valid() && old(ended) <= ended && conditions == WithoutAll(was, result.removed[..n])
      {
        assert result.removed[..n + 1] == result.removed[..n] + [result.removed[n]];
        WithoutAllSnoc(was, result.removed[..n], result.removed[n]);
        RemoveCondition(result.removed[n], true, 0);
      }
      assert result.removed[..|result.removed|] == result.removed;
      if !result.survives {
        RemoveCondition(ref, true, 0);
      }
    }

    /** Any run, with conditions numbered as they are added: the speed bonus is what came from outside plus the changes
        of the listed conditions, every condition ends once or is listed, and no kind, id and sub-id is listed twice. */
    method Run(commands: seq<Command>, next: nat) returns (last: nat)
      requires Valid() && forall r :: r >= next ==> begun[r] == 0
      modifies this
      ensures Valid() && last >= next && (forall r :: r >= last ==> begun[r] == 0)
      ensures varSpeed == old(external) + Outside(commands) + Deltas(conditions)
      ensures old(begun) <= begun && old(ended) <= ended
    {
      last := next;
      assert commands[..0] == [];
      for k := 0 to |commands|
        invariant Valid() && last >= next && (forall r :: r >= last ==> begun[r] == 0)
        invariant external == old(external) + Outside(commands[..k]) && old(begun) <= begun && old(ended) <= ended
      {
        hide Deltas, Distinct, EndedOnce, Others, Executed, Added;
        assert commands[..k + 1] == commands[..k] + [commands[k]];
        OutsideSnoc(commands[..k], commands[k]);
        match commands[k] {
          case Add(c, force, paralyzed, walkDelay, accepts, starts, roll) =>
            var ok := AddCondition(c.(ref := last), force, paralyzed, walkDelay, accepts, starts || IsSpeed(c), roll);
            last := last + 1;
          case RemoveKind(kind, id, force, walkDelay) =>
            var done := RemoveByKind(kind, id, force, walkDelay);
          case Remove(ref, force, walkDelay) =>
            RemoveCondition(ref, force, walkDelay);
          case Execute(outcome) =>
            ExecuteConditions(outcome);
          case FromOutside(delta) =>
            ChangeSpeedFromOutside(delta);
        }
      }
      assert commands[..|commands|] == commands;
    }
  }

  datatype Command =
    | Add(c: Condition, force: bool, paralyzed: bool, walkDelay: int, accepts: bool, starts: bool, roll: int)
    | RemoveKind(kind: nat, id: Option<int>, force: bool, walkDelay: int)
    | Remove(ref: nat, force: bool, walkDelay: int)
    | Execute(outcome: nat -> Outcome)
    | FromOutside(delta: int)

  // the speed changes of a run that come from no condition
  function Outside(commands: seq<Command>): int {
    if commands == [] then 0
    else (if commands[0].FromOutside? then commands[0].delta else 0) + Outside(commands[1..])
  }

  lemma {:induction false} OutsideSnoc(commands: seq<Command>, c: Command)
    ensures Outside(commands + [c]) == Outside(commands) + if c.FromOutside? then c.delta else 0
    decreases |commands|
  {
    if commands == [] {
      assert [] + [c] == [c] && [c][1..] == [];
    } else {
      assert (commands + [c])[1..] == commands[1..] + [c];
      OutsideSnoc(commands[1..], c);
    }
  }

  lemma HasIs(cs: seq<Condition>, ref: nat, k: nat)
    requires k <= |cs| && (k < |cs| ==> cs[k].ref == ref) && forall i :: 0 <= i < k ==> cs[i].ref != ref
    ensures Has(cs, ref) <==> k < |cs|
  {
    if k < |cs| {
      assert cs[k] in cs;
    }
  }

  lemma ExecutedMeans(cs: seq<Condition>, after: seq<Condition>, outcome: nat -> Outcome)
    requires after == Executed(cs, cs, outcome)
    ensures forall r :: Listed(after, r) ==> Listed(cs, r) && outcome(r).survives
    ensures forall c :: c in cs && Unharmed(cs, outcome, c) ==> c in after
  {
    forall c ensures c in after ==> c in cs && outcome(c.ref).survives
      ensures c in cs && Unharmed(cs, outcome, c) ==> c in after
    {
      ExecutedListed(cs, cs, outcome, c);
    }
    forall r | Listed(after, r) ensures Listed(cs, r) && outcome(r).survives {
      var i :| 0 <= i < |after| && after[i].ref == r;
      assert after[i] in cs;
    }
  }

  lemma UpdateListed(cs: seq<Condition>, k: nat, c: Condition, begun: multiset<nat>, ended: multiset<nat>)
    requires k < |cs| && Distinct(cs) && EndedOnce(cs, begun, ended) && SameKey(c, cs[k]) && c.ref == cs[k].ref
    ensures Distinct(cs[k := c]) && EndedOnce(cs[k := c], begun, ended)
  {
    forall r ensures Listed(cs[k := c], r) <==> Listed(cs, r) {
      if i :| 0 <= i < |cs| && cs[i].ref == r {
        assert cs[k := c][i].ref == r;
      }
    }
  }

  lemma AppendListed(cs: seq<Condition>, c: Condition, begun: multiset<nat>, ended: multiset<nat>)
    requires Distinct(cs) && EndedOnce(cs, begun, ended) && begun[c.ref] == 0
    requires forall i :: 0 <= i < |cs| ==> !SameKey(cs[i], c)
    ensures Distinct(cs + [c]) && EndedOnce(cs + [c], begun + multiset{c.ref}, ended)
  {
    assert !Listed(cs, c.ref);
    forall r ensures Listed(cs + [c], r) <==> Listed(cs, r) || r == c.ref {
      assert (cs + [c])[|cs|] == c;
      if i :| 0 <= i < |cs| && cs[i].ref == r {
        assert (cs + [c])[i].ref == r;
      }
    }
  }

  lemma ErasedRefs(cs: seq<Condition>, k: nat)
    requires k < |cs| && Distinct(cs)
    ensures forall r :: Listed(Erase(cs, k), r) ==> Listed(cs, r) && r != cs[k].ref
  {
    var rest := Erase(cs, k);
    assert forall i :: 0 <= i < |rest| ==> rest[i] == cs[if i < k then i else i + 1];
  }

  lemma EraseListed(cs: seq<Condition>, k: nat, begun: multiset<nat>, ended: multiset<nat>)
    requires k < |cs| && Distinct(cs) && EndedOnce(cs, begun, ended)
    ensures Distinct(Erase(cs, k)) && EndedOnce(Erase(cs, k), begun, ended + multiset{cs[k].ref})
  {
    var rest := Erase(cs, k);
    assert forall i :: 0 <= i < |rest| ==> rest[i] == cs[if i < k then i else i + 1];
    forall r ensures Listed(rest, r) <==> Listed(cs, r) && r != cs[k].ref {
      if i :| 0 <= i < |cs| && cs[i].ref == r && r != cs[k].ref {
        assert rest[if i < k then i else i - 1].ref == r;
      }
    }
  }
}
