/** Trades between players: who trades with whom, and what each has put on the table. */
module Trade {
  import opened Options

  type Item = nat
  type Id = nat

  datatype TradeState = Idle | Initiated | Accepted | Acknowledged | Transferring

  // the part of a player that a trade changes
  datatype Trader = Trader(state: TradeState, item: Option<Item>, partner: Option<Id>)

  const AWAY := Trader(Idle, None, None)

  type Traders = map<Id, Trader>

  // partners come in pairs of two, and one of them at least has offered something
  ghost predicate Paired(ps: Traders, p: Id)
    requires p in ps
  {
    (ps[p].state == Idle <==> ps[p].partner == None)
    && (ps[p].partner.Some? ==>
          var q := ps[p].partner.value;
          q in ps && q != p && ps[q].partner == Some(p) && (ps[p].item.Some? || ps[q].item.Some?)
          && (ps[p].state == Transferring <==> ps[q].state == Transferring))
  }

  // an offer goes with a state, and is on the list unless it is being handed over
  ghost predicate Offering(ps: Traders, items: map<Item, Id>, p: Id)
    requires p in ps
  {
    (ps[p].state == Idle || ps[p].state == Acknowledged ==> ps[p].item == None)
    && (ps[p].state == Initiated ==> ps[p].item.Some?)
    && (ps[p].item.Some? && ps[p].state != Transferring ==>
          ps[p].item.value in items && items[ps[p].item.value] == p)
  }

  ghost predicate Listed(ps: Traders, items: map<Item, Id>, i: Item)
    requires i in items
  {
    items[i] in ps && ps[items[i]].item == Some(i) && ps[items[i]].state != Transferring
  }

  // who is with whom, and tradeItems is the map from each offer to the player who made it
  ghost predicate Sound(ps: Traders, items: map<Item, Id>) {
    (forall p {:trigger Paired(ps, p)} :: p in ps ==> Paired(ps, p))
    && (forall p {:trigger Offering(ps, items, p)} :: p in ps ==> Offering(ps, items, p))
    && forall i {:trigger Listed(ps, items, i)} :: i in items ==> Listed(ps, items, i)
  }

  // ---------- starting and closing ----------

  predicate MayStart(ps: Traders, p: Id, q: Id)
    requires p in ps && q in ps
  {
    (ps[p].state == Idle || (ps[p].state == Acknowledged && ps[p].partner == Some(q)))
    && (ps[q].state == Idle || ps[q].partner == Some(p))
  }

  function Started(ps: Traders, p: Id, q: Id, item: Item): Traders
    requires p in ps && q in ps
  {
    var ps1 := ps[p := Trader(Initiated, Some(item), Some(q))];
    if ps1[q].state == Idle then ps1[q := Trader(Acknowledged, ps1[q].item, Some(p))] else ps1
  }

  lemma StartSound(ps: Traders, items: map<Item, Id>, p: Id, q: Id, item: Item)
    requires Sound(ps, items) && p in ps && q in ps && p != q && item !in items && MayStart(ps, p, q)
    ensures Sound(Started(ps, p, q, item), items[item := p])
    ensures ps[q].state != Idle ==> ps[q].item.Some?
  {
    var ps', items' := Started(ps, p, q, item), items[item := p];
    assert Paired(ps, p) && Paired(ps, q) && Offering(ps, items, p) && Offering(ps, items, q);
    forall r | r in ps' ensures Paired(ps', r) {
      assert Paired(ps, r);
    }
    forall r | r in ps' ensures Offering(ps', items', r) {
      assert Offering(ps, items, r);
    }
    forall i | i in items' ensures Listed(ps', items', i) {
      assert i != item ==> Listed(ps, items, i);
    }
  }

  // one side of internalCloseTrade
  function Without(items: map<Item, Id>, offer: Option<Item>): map<Item, Id> {
    if offer.Some? then items - {offer.value} else items
  }

  function Left(ps: Traders, p: Id): Traders
    requires p in ps
  {
    var ps1 := ps[p := AWAY];
    if ps[p].partner.Some? && ps[p].partner.value in ps then ps1[ps[p].partner.value := AWAY] else ps1
  }

  function LeftItems(ps: Traders, items: map<Item, Id>, p: Id): map<Item, Id>
    requires p in ps
  {
    var items1 := Without(items, ps[p].item);
    if ps[p].partner.Some? && ps[p].partner.value in ps then Without(items1, ps[ps[p].partner.value].item) else items1
  }

  lemma CloseSound(ps: Traders, items: map<Item, Id>, p: Id)
    requires Sound(ps, items) && p in ps && ps[p].state != Transferring
    ensures Sound(Left(ps, p), LeftItems(ps, items, p))
  {
    var ps', items' := Left(ps, p), LeftItems(ps, items, p);
    assert Paired(ps, p) && Offering(ps, items, p);
    assert ps[p].partner.Some? ==> Offering(ps, items, ps[p].partner.value);
    forall r | r in ps' ensures Paired(ps', r) {
      assert Paired(ps, r);
    }
    forall r | r in ps' ensures Offering(ps', items', r) {
      assert Offering(ps, items, r) && Paired(ps, r);
    }
    forall i | i in items' ensures Listed(ps', items', i) {
      assert Listed(ps, items, i);
      assert Offering(ps, items, items[i]);
    }
  }

  lemma LeftIs(ps: Traders, items: map<Item, Id>, p: Id)
    requires p in ps
    ensures ps[p].partner == None ==>
      Left(ps, p) == ps[p := AWAY] && LeftItems(ps, items, p) == Without(items, ps[p].item)
    ensures ps[p].partner.Some? && ps[p].partner.value in ps ==>
      var q := ps[p].partner.value;
      Left(ps, p) == ps[p := AWAY][q := AWAY]
      && LeftItems(ps, items, p) == Without(Without(items, ps[p].item), ps[q].item)
  {
  }

  lemma LeftMeans(ps: Traders, items: map<Item, Id>, p: Id)
    requires Sound(ps, items) && p in ps
    ensures Paired(ps, p)
    ensures forall r :: r in ps ==>
      && r in Left(ps, p)
      && Left(ps, p)[r] == if r == p || ps[r].partner == Some(p) then Trader(Idle, None, None) else ps[r]
  {
    forall r | r in ps ensures Paired(ps, r) && Paired(ps, p) {
    }
  }

  // ---------- accepting ----------

  function WithState(ps: Traders, p: Id, state: TradeState): Traders
    requires p in ps
  {
    ps[p := ps[p].(state := state)]
  }

  lemma AcceptSound(ps: Traders, items: map<Item, Id>, p: Id)
    requires Sound(ps, items) && p in ps && (ps[p].state == Acknowledged || ps[p].state == Initiated)
    ensures Sound(WithState(ps, p, Accepted), items)
  {
    var ps' := WithState(ps, p, Accepted);
    assert Paired(ps, p) && Offering(ps, items, p);
    forall r | r in ps' ensures Paired(ps', r) && Offering(ps', items, r) {
      assert Paired(ps, r) && Offering(ps, items, r);
    }
    forall i | i in items ensures Listed(ps', items, i) {
      assert Listed(ps, items, i);
    }
  }

  // both offers leave the list before anything is handed over
  lemma TransferSound(ps: Traders, items: map<Item, Id>, p: Id, q: Id)
    requires Sound(ps, items) && p in ps && q in ps && ps[p].partner == Some(q)
    requires ps[p].state == Accepted && ps[q].state == Accepted
    ensures Sound(WithState(WithState(ps, p, Transferring), q, Transferring),
                  Without(Without(items, ps[p].item), ps[q].item))
  {
    var ps' := WithState(WithState(ps, p, Transferring), q, Transferring);
    var items' := Without(Without(items, ps[p].item), ps[q].item);
    assert Paired(ps, p) && Offering(ps, items, p) && Offering(ps, items, q);
    forall r | r in ps' ensures Paired(ps', r) && Offering(ps', items', r) {
      assert Paired(ps, r) && Offering(ps, items, r);
    }
    forall i | i in items' ensures Listed(ps', items', i) {
      assert Listed(ps, items, i);
    }
  }

  lemma FinishSound(ps: Traders, items: map<Item, Id>, p: Id, q: Id)
    requires Sound(ps, items) && p in ps && q in ps && ps[p].partner == Some(q) && ps[p].state == Transferring
    ensures Sound(ps[p := AWAY][q := AWAY], items)
  {
    var ps' := ps[p := AWAY][q := AWAY];
    assert Paired(ps, p);
    forall r | r in ps' ensures Paired(ps', r) && Offering(ps', items, r) {
      assert Paired(ps, r) && Offering(ps, items, r);
    }
    forall i | i in items ensures Listed(ps', items, i) {
      assert Listed(ps, items, i);
    }
  }

  // p and q, and nobody else, are handing over
  ghost predicate Serving(ps: Traders, p: Id, q: Id) {
    p in ps && q in ps && ps[p].partner == Some(q) && ps[q].partner == Some(p)
    && forall r :: r in ps ==> (ps[r].state == Transferring <==> r == p || r == q)
  }

  lemma ServingKept(ps: Traders, items: map<Item, Id>, r: Id, p: Id, q: Id)
    requires Sound(ps, items) && Serving(ps, p, q) && r in ps && ps[r].state != Transferring
    ensures Serving(Left(ps, r), p, q)
  {
    assert Paired(ps, r);
  }

  // ---------- what hooks do during a hand-over ----------

  datatype Table = Table(players: Traders, items: map<Item, Id>)

  // internalCloseTrade
  function Closed(t: Table, p: Id): Table {
    if p !in t.players || t.players[p].state == Transferring then t
    else Table(Left(t.players, p), LeftItems(t.players, t.items, p))
  }

  // closings in a row
  function ClosedAll(t: Table, hooks: seq<Id>): Table {
    if hooks == [] then t else Closed(ClosedAll(t, hooks[..|hooks| - 1]), hooks[|hooks| - 1])
  }

  // both are serving, and their offers are off the list
  function TakenUp(t: Table, p: Id, q: Id): Table
    requires p in t.players && q in t.players
  {
    Table(WithState(WithState(t.players, p, Transferring), q, Transferring),
          Without(Without(t.items, t.players[p].item), t.players[q].item))
  }

  // the hooks close what they close, and then the two part
  function HandedOver(t: Table, p: Id, q: Id, hooks: seq<Id>): Table
    requires p in t.players && q in t.players
  {
    var t' := ClosedAll(TakenUp(t, p, q), hooks);
    Table(t'.players[p := AWAY][q := AWAY], t'.items)
  }

  // neither r nor r's partner is named
  predicate Unnamed(ps: Traders, r: Id, hooks: seq<Id>)
    requires r in ps
  {
    r !in hooks && (ps[r].partner.Some? ==> ps[r].partner.value !in hooks)
  }

  lemma {:induction false} ClosedAllKeeps(t: Table, hooks: seq<Id>, r: Id)
    requires Sound(t.players, t.items) && r in t.players && Unnamed(t.players, r, hooks)
    ensures var t' := ClosedAll(t, hooks);
      Sound(t'.players, t'.items) && r in t'.players && t'.players[r] == t.players[r]
  {
    if hooks != [] {
      var rest, h := hooks[..|hooks| - 1], hooks[|hooks| - 1];
      ClosedAllKeeps(t, rest, r);
      var t1 := ClosedAll(t, rest);
      if h in t1.players && t1.players[h].state != Transferring {
        CloseSound(t1.players, t1.items, h);
        assert Paired(t1.players, h) && Paired(t1.players, r);
      }
    }
  }

  lemma {:induction false} ClosedAllShrinks(t: Table, hooks: seq<Id>)
    ensures ClosedAll(t, hooks).items.Keys <= t.items.Keys
  {
    if hooks != [] {
      ClosedAllShrinks(t, hooks[..|hooks| - 1]);
    }
  }

  /** Whoever takes no part in a hand-over and is named by no hook trades on, with the same offer on the table. */
  lemma {:induction false} BystanderTradesOn(t: Table, p: Id, q: Id, hooks: seq<Id>, r: Id)
    requires Sound(t.players, t.items) && p in t.players && q in t.players && t.players[p].partner == Some(q)
    requires t.players[p].state == Accepted && t.players[q].state == Accepted
    requires r in t.players && r != p && r != q && t.players[r].state != Transferring && Unnamed(t.players, r, hooks)
    ensures var t' := HandedOver(t, p, q, hooks);
      && r in t'.players && t'.players[r] == t.players[r]
      && (t.players[r].item.Some? ==> t.players[r].item.value in t'.items && t'.items[t.players[r].item.value] == r)
  {
    TransferSound(t.players, t.items, p, q);
    ClosedAllKeeps(TakenUp(t, p, q), hooks, r);
    var t1 := ClosedAll(TakenUp(t, p, q), hooks);
    assert Offering(t1.players, t1.items, r);
  }

  predicate IsAway(ps: Traders, p: Id) {
    p in ps && ps[p] == AWAY
  }

  // p has a trade that it has not accepted yet
  predicate MayAccept(ps: Traders, p: Id) {
    p in ps && (ps[p].state == Acknowledged || ps[p].state == Initiated)
  }

  // p's acceptance is the second of its trade
  predicate Second(ps: Traders, p: Id)
    requires p in ps
  {
    (ps[p].state == Acknowledged || ps[p].state == Initiated)
    && ps[p].partner.Some? && ps[p].partner.value in ps && ps[ps[p].partner.value].state == Accepted
  }

  // ---------- the game ----------

  datatype Command =
    | Request(p: Id, q: Id, item: Item, allowed: bool)
    | Close(p: Id)
    | Accept(p: Id, inSight: bool, allowed: bool, hooks: seq<Id>)

  class Game {
    const isContainer: Item -> bool
    const holds: (Item, Item) -> bool   // isHoldingItem, fixed for the run
    const objects: Item -> nat          // getItemHoldingCount
    var players: Traders
    var tradeItems: map<Item, Id>
    ghost var started: multiset<Item>   // references taken
    ghost var released: multiset<Item>  // references given back

    // only containers hold anything, and never themselves
    ghost predicate Containment() {
      (forall i, j :: holds(i, j) ==> isContainer(i)) && forall i :: !holds(i, i)
    }

    // no offer is or contains another
    ghost predicate Apart()
      reads this`tradeItems
    {
      forall i, j :: i in tradeItems && j in tradeItems ==> !holds(i, j)
    }

    ghost predicate References()
      reads this`tradeItems, this`started, this`released
    {
      forall i {:trigger started[i]} :: started[i] == released[i] + if i in tradeItems then 1 else 0
    }

    ghost predicate Valid()
      reads this
    {
      Containment() && Sound(players, tradeItems) && Apart() && References()
    }

    // no trade is being carried out
    ghost predicate AtRest()
      reads this
    {
      forall p :: p in players ==> players[p].state != Transferring
    }

    constructor (ids: set<Id>, isContainer: Item -> bool, holds: (Item, Item) -> bool, objects: Item -> nat)
      requires (forall i, j :: holds(i, j) ==> isContainer(i)) && forall i :: !holds(i, i)
      ensures Valid() && AtRest() && players.Keys == ids
    {
      this.isContainer, this.holds, this.objects := isContainer, holds, objects;
      players, tradeItems := map p | p in ids :: AWAY, map[];
      started, released := multiset{}, multiset{};
    }

    predicate Clashes(item: Item, offered: Item) {
      item == offered || holds(item, offered) || holds(offered, item)
    }

    // the loop over tradeItems of a trade request
    method AlreadyTraded(tradeItem: Item) returns (clash: bool)
      requires Containment()
      ensures clash <==> exists i :: i in tradeItems && Clashes(tradeItem, i)
    {
      var rest := tradeItems.Keys;
      while rest != {}
        invariant rest <= tradeItems.Keys
        invariant forall i :: i in tradeItems && i !in rest ==> !Clashes(tradeItem, i)
        decreases rest
      {
        var item :| item in rest;
        if tradeItem == item || (isContainer(tradeItem) && holds(tradeItem, item))
           || (isContainer(item) && holds(item, tradeItem)) {
          return true;
        }
        rest := rest - {item};
      }
      return false;
    }

    // an offer that clashes with none is referenced and entered in the list
    method Enter(p: Id, item: Item)
      requires Containment() && References() && Apart()
      requires forall i :: i in tradeItems ==> !Clashes(item, i)
      modifies this`tradeItems, this`started
      ensures References() && Apart() && tradeItems == old(tradeItems)[item := p]
    {
      assert forall i :: i in tradeItems ==> item != i && !holds(item, i) && !holds(i, item) by {
        assert forall i :: i in tradeItems ==> !Clashes(item, i);
      }
      started := started + multiset{item};
      tradeItems := tradeItems[item := p];
    }

    /** internalStartTrade; a counter-offer finds the first offer on the table. */
    method StartTrade(p: Id, q: Id, item: Item) returns (ok: bool)
      requires Valid() && p in players && q in players && p != q
      requires forall i :: i in tradeItems ==> !Clashes(item, i)
      modifies this
      ensures Valid() && (ok <==> MayStart(old(players), p, q)) && (old(AtRest()) ==> AtRest())
      ensures if ok then players == Started(old(players), p, q, item) && tradeItems == old(tradeItems)[item := p]
        else players == old(players) && tradeItems == old(tradeItems)
    {
      if players[p].state != Idle && !(players[p].state == Acknowledged && players[p].partner == Some(q)) {
        return false;
      } else if players[q].state != Idle && players[q].partner != Some(p) {
        return false;
      }
      assert item !in tradeItems by {
        assert item in tradeItems ==> Clashes(item, item);
      }
      StartSound(players, tradeItems, p, q, item);
      players := players[p := Trader(Initiated, Some(item), Some(q))];
      Enter(p, item);
      if players[q].state == Idle {
        players := players[q := Trader(Acknowledged, players[q].item, Some(p))];
      } else {
        var counterOfferItem := players[q].item.value;
      }
      assert players == Started(old(players), p, q, item);
      return true;
    }

    /** playerRequestTrade; allowed stands for the checks of distance, sight, house and script. */
    method RequestTrade(p: Id, q: Id, item: Item, allowed: bool) returns (ok: bool)
      requires Valid()
      modifies this
      ensures Valid() && (old(AtRest()) ==> AtRest())
      ensures ok <==>
        && allowed && p in old(players) && q in old(players) && p != q
        && (old(players)[p].state == Idle
            || (old(players)[p].state == Acknowledged && old(players)[p].partner == Some(q)))
        && (old(players)[q].state == Idle || old(players)[q].partner == Some(p))
        && (forall i :: i in old(tradeItems) ==> i != item && !holds(item, i) && !holds(i, item))
        && (isContainer(item) ==> objects(item) + 1 <= 100)
      ensures ok ==>
        && players.Keys == old(players).Keys && players[p] == Trader(Initiated, Some(item), Some(q))
        && players[q] == (if old(players)[q].state == Idle then Trader(Acknowledged, None, Some(p))
                          else old(players)[q])
        && (forall r :: r in players && r != p && r != q ==> players[r] == old(players)[r])
      ensures if ok then players == Started(old(players), p, q, item) && tradeItems == old(tradeItems)[item := p]
        else players == old(players) && tradeItems == old(tradeItems)
    {
      if p !in players || q !in players || p == q || !allowed {
        return false;
      }
      var clash := AlreadyTraded(item);
      assert clash <==> exists i :: i in tradeItems && (i == item || holds(item, i) || holds(i, item)) by {
        assert forall i :: Clashes(item, i) <==> i == item || holds(item, i) || holds(i, item);
      }
      if clash || (isContainer(item) && objects(item) + 1 > 100) {
        return false;
      }
      assert Offering(players, tradeItems, q);
      ok := StartTrade(p, q, item);
    }

    // an offer leaves the list, and its reference is released, if it is there
    method Withdraw(offer: Option<Item>)
      requires References() && Apart()
      modifies this`tradeItems, this`released
      ensures References() && Apart() && tradeItems == Without(old(tradeItems), offer)
    {
      if offer.Some? && offer.value in tradeItems {
        released := released + multiset{offer.value};
        tradeItems := tradeItems - {offer.value};
      }
      assert tradeItems == Without(old(tradeItems), offer);
    }

    /** internalCloseTrade: both sides, but not while they are being served. */
    method CloseTrade(p: Id)
      requires Valid() && p in players
      modifies this`players, this`tradeItems, this`released
      ensures Valid() && (old(AtRest()) ==> AtRest())
      ensures if old(players)[p].state == Transferring then players == old(players) && tradeItems == old(tradeItems)
        else players == Left(old(players), p) && tradeItems == LeftItems(old(players), old(tradeItems), p)
      ensures old(players)[p].state != Transferring ==>
        forall r :: r in old(players) ==>
          && r in players
          && players[r] == if r == p || old(players)[r].partner == Some(p) then Trader(Idle, None, None)
                           else old(players)[r]
    {
      hide Sound, Apart, References, Containment, Left, LeftItems;
      LeftMeans(players, tradeItems, p);
      var partner := players[p].partner;
      if (partner.Some? && players[partner.value].state == Transferring) || players[p].state == Transferring {
        return;
      }
      CloseSound(players, tradeItems, p);
      Withdraw(players[p].item);
      var offer := if partner.Some? then players[partner.value].item else None;
      players := players[p := AWAY];
      if partner.Some? {
        Withdraw(offer);
        players := players[partner.value := AWAY];
      }
      LeftIs(old(players), old(tradeItems), p);
    }

    // whatever runs during a hand-over may try to close any trade
    method RunHooks(p: Id, q: Id, hooks: seq<Id>)
      requires Valid() && Serving(players, p, q)
      modifies this`players, this`tradeItems, this`released
      ensures Valid() && Serving(players, p, q)
      ensures Table(players, tradeItems) == ClosedAll(Table(old(players), old(tradeItems)), hooks)
    {
      for k := 0 to |hooks|
        invariant Valid() && Serving(players, p, q)
        invariant Table(players, tradeItems) == ClosedAll(Table(old(players), old(tradeItems)), hooks[..k])
      {
        assert hooks[..k + 1][..k] == hooks[..k];
        if hooks[k] in players {
          if players[hooks[k]].state != Transferring {
            ServingKept(players, tradeItems, hooks[k], p, q);
          }
          CloseTrade(hooks[k]);
        }
      }
      assert hooks[..|hooks|] == hooks;
    }

    // the offers leave the list, are handed over, and the two part
    method Transfer(p: Id, q: Id, hooks: seq<Id>)
      requires Valid() && AtRest() && p in players && q in players && players[p].partner == Some(q)
      requires players[p].state == Accepted && players[q].state == Accepted
      modifies this`players, this`tradeItems, this`released
      ensures Valid() && AtRest() && IsAway(players, p) && IsAway(players, q)
      ensures Table(players, tradeItems) == HandedOver(Table(old(players), old(tradeItems)), p, q, hooks)
    {
      assert Paired(players, p);
      TransferSound(players, tradeItems, p, q);
      var offer, counter := players[p].item, players[q].item;
      players := WithState(players, p, Transferring);
      players := WithState(players, q, Transferring);
      Withdraw(offer);
      Withdraw(counter);
      RunHooks(p, q, hooks);
      FinishSound(players, tradeItems, p, q);
      players := players[p := AWAY];
      players := players[q := AWAY];
    }

    /** playerAcceptTrade: the first acceptance is noted, the second hands both offers over or closes the trade; either
        way the two part. */
    method AcceptTrade(p: Id, inSight: bool, allowed: bool, hooks: seq<Id>) returns (handedOver: bool)
      requires Valid() && AtRest()
      modifies this`players, this`tradeItems, this`released
      ensures Valid() && AtRest()
      ensures handedOver <==> p in old(players) && Second(old(players), p) && inSight && allowed
      ensures p in old(players) && Second(old(players), p) && !handedOver ==>
        players == Left(old(players), p) && tradeItems == LeftItems(old(players), old(tradeItems), p)
      ensures handedOver ==>
        Table(players, tradeItems) ==
        HandedOver(Table(WithState(old(players), p, Accepted), old(tradeItems)), p,
                   old(players)[p].partner.value, hooks)
      ensures p in old(players) && Second(old(players), p) ==>
        IsAway(players, p) && IsAway(players, old(players)[p].partner.value)
      ensures p !in old(players) || !Second(old(players), p) ==> tradeItems == old(tradeItems)
      ensures handedOver ==>
        forall r, i :: (r in old(players) && (r == p || old(players)[r].partner == Some(p))
                        && old(players)[r].item == Some(i)) ==> i !in tradeItems
      ensures !MayAccept(old(players), p) ==> players == old(players)
      ensures MayAccept(old(players), p) && !Second(old(players), p) ==> players == WithState(old(players), p, Accepted)
    {
      if p !in players || !(players[p].state == Acknowledged || players[p].state == Initiated) {
        return false;
      }
      handedOver := false;
      assert Paired(players, p);
      var q := players[p].partner.value;
      AcceptSound(players, tradeItems, p);
      players := WithState(players, p, Accepted);
      if players[q].state == Accepted {
        if !inSight || !allowed {
          CloseTrade(p);
        } else {
          assert forall r :: r in old(players) && old(players)[r].partner == Some(p) ==> r == q by {
            assert forall r :: r in old(players) ==> Paired(old(players), r);
          }
          ClosedAllShrinks(TakenUp(Table(players, tradeItems), p, q), hooks);
          Transfer(p, q, hooks);
          handedOver := true;
        }
      }
    }

    /** Any run of requests, closings and acceptances keeps the pairing, the list and the offers sound. */
    method Run(commands: seq<Command>)
      requires Valid() && AtRest()
      modifies this
      ensures Valid() && AtRest()
    {
      for k := 0 to |commands|
        invariant Valid() && AtRest()
      {
        match commands[k] {
          case Request(p, q, item, allowed) =>
            var ok := RequestTrade(p, q, item, allowed);
          case Close(p) =>
            if p in players {
              CloseTrade(p);
            }
          case Accept(p, inSight, allowed, hooks) =>
            var handedOver := AcceptTrade(p, inSight, allowed, hooks);
        }
      }
    }
  }
}
