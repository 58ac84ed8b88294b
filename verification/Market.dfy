/** The market: money and goods held in open offers, from creation to cancellation or acceptance. */
module Market {
  import opened Numbers

  const MAX_AMOUNT: nat := 64000
  const MAX_PRICE: nat := 999_999_999_999
  const MAX_SINGLE: nat := 2000 // of an item that does not stack
  const STACK_SIZE: nat := 100
  const U16: nat := 0x1_0000
  const U64: nat := 0x1_0000_0000_0000_0000

  datatype Ware = Ware(item: nat, tier: nat)

  datatype ItemType = ItemType(stackable: bool, pickupable: bool)

  // goods: the stacks of each ware in depot and inbox that the market accepts, in the order a search finds them
  datatype Player = Player(account: nat, cash: nat, bank: nat, goods: map<Ware, seq<nat>>)

  datatype Offer = Offer(owner: nat, buys: bool, ware: Ware, amount: nat, price: nat)

  // ---------- sums ----------

  function Map<T>(f: T -> nat, s: seq<T>): (ns: seq<nat>)
    ensures |ns| == |s|
  {
    seq(|s|, i requires 0 <= i < |s| => f(s[i]))
  }

  // the total of f over s, and how it follows a change of s
  function Total<T>(f: T -> nat, s: seq<T>): nat {
    Sum(Map(f, s))
  }

  lemma TotalUpdate<T>(f: T -> nat, s: seq<T>, i: nat, t: T)
    requires i < |s|
    ensures Total(f, s[i := t]) == Total(f, s) - f(s[i]) + f(t)
  {
    SumUpdate(Map(f, s), i, f(t));
    assert Map(f, s[i := t]) == Map(f, s)[i := f(t)];
  }

  lemma TotalAppend<T>(f: T -> nat, s: seq<T>, t: T)
    ensures Total(f, s + [t]) == Total(f, s) + f(t)
  {
    assert Map(f, s + [t]) == Map(f, s) + [f(t)];
    SumSplit(Map(f, s), [f(t)]);
    assert Sum([f(t)]) == f(t);
  }

  lemma TotalRemove<T>(f: T -> nat, s: seq<T>, i: nat)
    requires i < |s|
    ensures Total(f, s[..i] + s[i + 1..]) == Total(f, s) - f(s[i])
  {
    SumAt(Map(f, s), i);
    assert Map(f, s[..i] + s[i + 1..]) == Map(f, s)[..i] + Map(f, s)[i + 1..];
    SumSplit(Map(f, s)[..i], Map(f, s)[i + 1..]);
  }

  // ---------- what is held where ----------

  function Money(p: Player): nat {
    p.cash + p.bank
  }

  /** Cash first, the rest from the bank. */
  function Paid(p: Player, total: nat): (p': Player)
    requires total <= Money(p)
    ensures Money(p') == Money(p) - total && (p'.bank < p.bank ==> p'.cash == 0)
  {
    if total <= p.cash then p.(cash := p.cash - total) else p.(cash := 0, bank := p.bank - (total - p.cash))
  }

  function Credited(p: Player, total: nat): Player {
    p.(bank := p.bank + total)
  }

  function Stacks(p: Player, ware: Ware): seq<nat> {
    if ware in p.goods then p.goods[ware] else []
  }

  /** But for one ware the two have the same goods, and the same money. */
  ghost predicate SameBut(p: Player, p': Player, ware: Ware) {
    p' == p.(goods := p'.goods) && forall w :: w != ware ==> Stacks(p', w) == Stacks(p, w)
  }

  /** p' is p with n pieces of one ware more. */
  ghost predicate Restocked(p: Player, p': Player, ware: Ware, n: nat) {
    SameBut(p, p', ware) && Sum(Stacks(p', ware)) == Sum(Stacks(p, ware)) + n
  }

  /** p' is p with n pieces of one ware fewer. */
  ghost predicate Destocked(p: Player, p': Player, ware: Ware, n: nat) {
    SameBut(p, p', ware) && Sum(Stacks(p', ware)) + n == Sum(Stacks(p, ware))
  }

  lemma GoodsOnly(p: Player, p': Player, ware: Ware, n: nat)
    requires Restocked(p, p', ware, n)
    ensures SameBut(p, p', ware)
  {
  }

  // money moves beside goods
  lemma PaidGoods(p: Player, p': Player, ware: Ware, n: nat, total: nat)
    ensures Destocked(p, p', ware, n) ==> Destocked(Credited(p, total), Credited(p', total), ware, n)
    ensures Destocked(p, p', ware, n) && total <= Money(p) ==> Destocked(Paid(p, total), Paid(p', total), ware, n)
  {
    assert forall w :: Stacks(Credited(p, total), w) == Stacks(p, w);
    assert forall w :: Stacks(Credited(p', total), w) == Stacks(p', w);
    if Destocked(p, p', ware, n) && total <= Money(p) {
      assert forall w :: Stacks(Paid(p, total), w) == Stacks(p, w);
      assert forall w :: Stacks(Paid(p', total), w) == Stacks(p', w);
    }
  }

  /** Only these players changed. */
  ghost predicate OnlyThese(before: seq<Player>, after: seq<Player>, who: set<nat>) {
    |after| == |before| && forall j :: 0 <= j < |before| && j !in who ==> after[j] == before[j]
  }

  /** Money moves between banks and offers alone. */
  ghost predicate NoCash(before: seq<Player>, after: seq<Player>) {
    |after| == |before| && forall j :: 0 <= j < |before| ==> after[j].cash == before[j].cash
  }

  /** Only who pays for goods parts with cash, and with money from the bank once no cash is left. */
  ghost predicate CashOf(before: seq<Player>, after: seq<Player>, i: nat, paid: bool) {
    if paid then NoCash(before, after)
    else
      && i < |before| == |after| && (forall j :: 0 <= j < |before| && j != i ==> after[j].cash == before[j].cash)
      && after[i].cash <= before[i].cash && after[i].bank <= before[i].bank
      && (after[i].bank < before[i].bank ==> after[i].cash == 0)
  }

  function Owned(ware: Ware): Player -> nat {
    (p: Player) => Sum(Stacks(p, ware))
  }

  // the product as the program computes it
  function Product(price: nat, amount: nat): nat {
    price * amount % U64
  }

  predicate OfferOk(o: Offer) {
    0 < o.amount <= MAX_AMOUNT && 0 < o.price <= MAX_PRICE
  }

  lemma ProductExact(price: nat, amount: nat)
    requires price <= MAX_PRICE && amount <= MAX_AMOUNT
    ensures Product(price, amount) == price * amount
  {
    assert price * amount <= MAX_PRICE * MAX_AMOUNT by {
      assert price * amount <= price * MAX_AMOUNT;
    }
  }

  // money set aside in a buy offer, goods set aside in a sell offer
  function Escrow(o: Offer): nat {
    if o.buys then o.price * o.amount else 0
  }

  function Deposited(ware: Ware): Offer -> nat {
    (o: Offer) => if !o.buys && o.ware == ware then o.amount else 0
  }

  function OwnedBy(i: nat): Offer -> nat {
    (o: Offer) => if o.owner == i then 1 else 0
  }

  /** Who has at most max open offers keeps to that; max 0 is no limit. */
  ghost predicate Capped(was: seq<Offer>, now: seq<Offer>, max: nat) {
    max > 0 ==> forall i :: Total(OwnedBy(i), was) <= max ==> Total(OwnedBy(i), now) <= max
  }

  lemma CappedSame(offers: seq<Offer>, max: nat)
    ensures Capped(offers, offers, max)
  {
  }

  lemma CappedAppend(was: seq<Offer>, o: Offer, max: nat)
    requires max == 0 || Total(OwnedBy(o.owner), was) < max
    ensures Capped(was, was + [o], max)
  {
    hide Total;
    forall i {
      TotalAppend(OwnedBy(i), was, o);
    }
  }

  lemma CappedRemove(was: seq<Offer>, k: nat, max: nat)
    requires k < |was|
    ensures Capped(was, was[..k] + was[k + 1..], max)
  {
    hide Total;
    forall i {
      TotalRemove(OwnedBy(i), was, k);
    }
  }

  lemma CappedUpdate(was: seq<Offer>, k: nat, o: Offer, max: nat)
    requires k < |was| && o.owner == was[k].owner
    ensures Capped(was, was[k := o], max)
  {
    hide Total;
    forall i {
      TotalUpdate(OwnedBy(i), was, k, o);
    }
  }

  // ---------- stacks of one ware ----------

  predicate StacksOk(stacks: seq<nat>, stackable: bool) {
    forall i :: 0 <= i < |stacks| ==> 0 < stacks[i] <= if stackable then STACK_SIZE else 1
  }

  lemma {:induction false} SumOnes(stacks: seq<nat>)
    requires StacksOk(stacks, false)
    ensures Sum(stacks) == |stacks|
    decreases |stacks|
  {
    if stacks != [] {
      SumOnes(stacks[1..]);
    }
  }

  // the first n stacks are the shortest prefix that holds the amount
  predicate Suffices(stacks: seq<nat>, n: nat, amount: nat) {
    0 < n <= |stacks| && Sum(stacks[..n - 1]) < amount <= Sum(stacks[..n])
  }

  /** getMarketItemList: the first stacks that hold enough, or none. The counter is 16 bits wide and does not wrap. */
  method GetMarketItemList(stacks: seq<nat>, sufficient: nat, stackable: bool) returns (n: nat)
    requires StacksOk(stacks, stackable) && 0 < sufficient <= MAX_AMOUNT
    ensures n > 0 <==> Sum(stacks) >= sufficient
    ensures n > 0 ==> Suffices(stacks, n, sufficient)
  {
    var count := 0;
    for i := 0 to |stacks|
      invariant count == Sum(stacks[..i]) < sufficient
    {
      SumAt(stacks, i);
      count := (count + stacks[i]) % U16;
      if count >= sufficient {
        return i + 1;
      }
    }
    assert stacks[..|stacks|] == stacks;
    return 0;
  }

  /** The loops that take what was found: stack by stack down to the amount, or every item of the list. */
  method RemoveStacks(stacks: seq<nat>, n: nat, amount: nat, stackable: bool) returns (left: seq<nat>)
    requires StacksOk(stacks, stackable) && Suffices(stacks, n, amount)
    ensures StacksOk(left, stackable) && Sum(left) == Sum(stacks) - amount
  {
    if !stackable {
      SumOnes(stacks[..n]);
      SumOnes(stacks[..n - 1]);
      SumSplit(stacks[..n], stacks[n..]);
      assert stacks[..n] + stacks[n..] == stacks;
      return stacks[n..];
    }
    var tmpAmount: nat := amount;
    left := stacks;
    assert stacks[0..] == stacks;
    var i := 0;
    while tmpAmount > 0
      invariant 0 <= i <= n && (tmpAmount > 0 ==> i < n && left == stacks[i..])
      invariant StacksOk(left, stackable) && Sum(left) == Sum(stacks) - (amount - tmpAmount)
      invariant tmpAmount > 0 ==> tmpAmount == amount - Sum(stacks[..i])
      decreases tmpAmount
    {
      SumAt(stacks, i);
      SumPrefix(stacks, i + 1, if i + 1 < n then n - 1 else n);
      var removeCount := if tmpAmount < stacks[i] then tmpAmount else stacks[i];
      assert left == [stacks[i]] + stacks[i + 1..] && left[1..] == stacks[i + 1..];
      if removeCount == stacks[i] {
        left := stacks[i + 1..];
      } else {
        left := [stacks[i] - removeCount] + stacks[i + 1..];
        assert left[1..] == stacks[i + 1..];
      }
      tmpAmount := tmpAmount - removeCount;
      i := i + 1;
    }
  }

  /** The loops that put goods in an inbox: an inbox takes everything that can be picked up, and nothing else. */
  method AddStacks(stacks: seq<nat>, amount: nat, t: ItemType) returns (more: seq<nat>)
    requires StacksOk(stacks, t.stackable)
    ensures StacksOk(more, t.stackable) && Sum(more) == Sum(stacks) + if t.pickupable then amount else 0
  {
    var tmpAmount: nat := amount;
    more := stacks;
    while tmpAmount > 0
      invariant StacksOk(more, t.stackable) && Sum(more) == Sum(stacks) + (amount - tmpAmount)
      invariant !t.pickupable ==> tmpAmount == amount
    {
      var stackCount := if !t.stackable then 1 else if tmpAmount < STACK_SIZE then tmpAmount else STACK_SIZE;
      if !t.pickupable {
        break;
      }
      SumSplit(more, [stackCount]);
      assert Sum([stackCount]) == stackCount;
      more := more + [stackCount];
      tmpAmount := tmpAmount - stackCount;
    }
  }

  // ---------- the market ----------

  predicate PlayerOk(p: Player, types: map<nat, ItemType>) {
    forall w :: w in p.goods ==> w.item in types && StacksOk(p.goods[w], types[w.item].stackable)
  }

  class Game {
    const types: map<nat, ItemType>
    const minFee: nat
    const maxFee: nat
    const maxOffers: nat // at a time and player; 0 for no limit
    var players: seq<Player>
    var offers: seq<Offer>

    ghost predicate Valid()
      reads this
    {
      (forall i :: 0 <= i < |players| ==> PlayerOk(players[i], types))
      && forall i :: 0 <= i < |offers| ==> OfferOk(offers[i]) && offers[i].owner < |players|
    }

    // cash, bank and the money in open buy offers
    ghost function Wealth(): nat
      reads this
    {
      Total(Money, players) + Total(Escrow, offers)
    }

    // goods of one kind, in stock and in open sell offers
    ghost function Stock(ware: Ware): nat
      reads this
    {
      Total(Owned(ware), players) + Total(Deposited(ware), offers)
    }

    constructor (types: map<nat, ItemType>, minFee: nat, maxFee: nat, maxOffers: nat, players: seq<Player>)
      requires forall i :: 0 <= i < |players| ==> PlayerOk(players[i], types)
      ensures Valid() && this.players == players && offers == [] && this.types == types
      ensures this.minFee == minFee && this.maxFee == maxFee && this.maxOffers == maxOffers
    {
      this.types, this.minFee, this.maxFee, this.maxOffers := types, minFee, maxFee, maxOffers;
      this.players, offers := players, [];
    }

    // cash first, the rest from the bank
    method Debit(i: nat, total: nat)
      requires Valid() && i < |players| && total <= Money(players[i])
      modifies this`players
      ensures Valid() && players == old(players)[i := Paid(old(players)[i], total)]
      ensures Total(Money, players) == Total(Money, old(players)) - total
      ensures forall w :: Total(Owned(w), players) == Total(Owned(w), old(players))
    {
      var p := players[i];
      var debitCash := if p.cash < total then p.cash else total;
      var p' := p.(cash := p.cash - debitCash, bank := p.bank - (total - debitCash));
      TotalUpdate(Money, players, i, p');
      forall w {
        TotalUpdate(Owned(w), players, i, p');
      }
      players := players[i := p'];
    }

    method Credit(i: nat, total: nat)
      requires Valid() && i < |players|
      modifies this`players
      ensures Valid() && players == old(players)[i := Credited(old(players)[i], total)]
      ensures Total(Money, players) == Total(Money, old(players)) + total
      ensures forall w :: Total(Owned(w), players) == Total(Owned(w), old(players))
    {
      var p' := players[i].(bank := players[i].bank + total);
      TotalUpdate(Money, players, i, p');
      forall w {
        TotalUpdate(Owned(w), players, i, p');
      }
      players := players[i := p'];
    }

    // one ware of one player changed
    method SetStacks(i: nat, ware: Ware, stacks: seq<nat>)
      requires Valid() && i < |players| && ware.item in types && StacksOk(stacks, types[ware.item].stackable)
      modifies this`players
      ensures Valid() && OnlyThese(old(players), players, {i}) && Total(Money, players) == Total(Money, old(players))
      ensures players[i] == old(players)[i].(goods := old(players)[i].goods[ware := stacks])
      ensures forall w :: var change := if w == ware then Sum(stacks) - Sum(Stacks(old(players)[i], ware)) else 0;
        Total(Owned(w), players) == Total(Owned(w), old(players)) + change
    {
      var p := players[i];
      var p' := p.(goods := p.goods[ware := stacks]);
      TotalUpdate(Money, players, i, p');
      forall w {
        TotalUpdate(Owned(w), players, i, p');
      }
      players := players[i := p'];
    }

    method TakeGoods(i: nat, ware: Ware, amount: nat) returns (ok: bool)
      requires Valid() && i < |players| && ware.item in types && 0 < amount <= MAX_AMOUNT
      modifies this`players
      ensures Valid() && OnlyThese(old(players), players, {i}) && Total(Money, players) == Total(Money, old(players))
      ensures ok ==> Destocked(old(players)[i], players[i], ware, amount)
      ensures NoCash(old(players), players)
      ensures ok <==> Sum(Stacks(old(players)[i], ware)) >= amount
      ensures !ok ==> players == old(players)
      ensures ok ==> forall w ::
        Total(Owned(w), players) == Total(Owned(w), old(players)) - if w == ware then amount else 0
    {
      var stackable := types[ware.item].stackable;
      var stacks := Stacks(players[i], ware);
      var n := GetMarketItemList(stacks, amount, stackable);
      if n == 0 {
        return false;
      }
      var left := RemoveStacks(stacks, n, amount, stackable);
      SetStacks(i, ware, left);
      return true;
    }

    function Deliverable(ware: Ware, amount: nat): nat {
      if ware.item in types && types[ware.item].pickupable then amount else 0
    }

    method GiveGoods(i: nat, ware: Ware, amount: nat)
      requires Valid() && i < |players| && ware.item in types
      modifies this`players
      ensures Valid() && OnlyThese(old(players), players, {i}) && Total(Money, players) == Total(Money, old(players))
      ensures Restocked(old(players)[i], players[i], ware, Deliverable(ware, amount))
      ensures NoCash(old(players), players)
      ensures forall w :: var change := if w == ware then Deliverable(ware, amount) else 0;
        Total(Owned(w), players) == Total(Owned(w), old(players)) + change
    {
      var stacks := Stacks(players[i], ware);
      var more := AddStacks(stacks, amount, types[ware.item]);
      SetStacks(i, ware, more);
    }

    function OwnOffers(i: nat): nat
      reads this
    {
      Total(OwnedBy(i), offers)
    }

    function Fee(raw: nat): nat {
      if raw < minFee then minFee else if raw > maxFee then maxFee else raw
    }

    /** The loss is one percent of the price, raw, wherever that lies between the two bounds, and else the bound it
        misses. */
    ghost predicate Charged(loss: int, raw: nat) {
      minFee <= maxFee ==>
        && minFee <= loss <= maxFee
        && (minFee <= raw <= maxFee ==> loss == raw)
        && (raw < minFee ==> loss == minFee) && (raw > maxFee ==> loss == maxFee)
    }

    // what a player must meet and have to create an offer
    predicate MayCreate(i: nat, buys: bool, ware: Ware, amount: nat, price: nat, raw: nat)
      reads this
    {
      0 < amount <= MAX_AMOUNT && 0 < price <= MAX_PRICE && i < |players| && ware.item in types
      && (types[ware.item].stackable || amount <= MAX_SINGLE)
      && (maxOffers == 0 || OwnOffers(i) < maxOffers)
      && if buys then price * amount + Fee(raw) <= Money(players[i])
         else Fee(raw) <= Money(players[i]) && amount <= Sum(Stacks(players[i], ware))
    }

    // p' is p after paying the fee and giving up the price of a buy offer or the goods of a sell offer
    ghost predicate Parted(p: Player, p': Player, buys: bool, ware: Ware, amount: nat, price: nat, fee: nat) {
      if buys then price * amount + fee <= Money(p) && p' == Paid(p, price * amount + fee)
      else fee <= Money(p) && Destocked(Paid(p, fee), p', ware, amount)
    }

    // the goods of a sell offer or the price of a buy offer, and the fee
    method SetAside(i: nat, buys: bool, ware: Ware, amount: nat, price: nat, fee: nat) returns (ok: bool)
      requires Valid() && i < |players| && ware.item in types && 0 < amount <= MAX_AMOUNT && price <= MAX_PRICE
      modifies this`players
      ensures Valid() && OnlyThese(old(players), players, {i})
      ensures ok ==> Parted(old(players)[i], players[i], buys, ware, amount, price, fee)
      ensures ok ==> CashOf(old(players), players, i, false)
      ensures ok <==> if buys then price * amount + fee <= Money(old(players)[i])
        else fee <= Money(old(players)[i]) && amount <= Sum(Stacks(old(players)[i], ware))
      ensures !ok ==> players == old(players)
      ensures ok ==> Total(Money, players) == Total(Money, old(players)) - fee - if buys then price * amount else 0
      ensures ok ==> forall w :: var change := if !buys && w == ware then amount else 0;
        Total(Owned(w), players) == Total(Owned(w), old(players)) - change
    {
      if buys {
        ProductExact(price, amount);
        var totalPrice := Product(price, amount) + fee;
        if totalPrice > Money(players[i]) {
          return false;
        }
        Debit(i, totalPrice);
      } else {
        if fee > Money(players[i]) {
          return false;
        }
        var found := TakeGoods(i, ware, amount);
        if !found {
          return false;
        }
        PaidGoods(old(players)[i], players[i], ware, amount, fee);
        Debit(i, fee);
      }
      return true;
    }

    method AddOffer(offer: Offer)
      requires Valid() && OfferOk(offer) && offer.owner < |players|
      modifies this`offers
      ensures Valid() && offers == old(offers) + [offer]
      ensures Total(Escrow, offers) == Total(Escrow, old(offers)) + Escrow(offer)
      ensures forall w :: Total(Deposited(w), offers) == Total(Deposited(w), old(offers)) + Deposited(w)(offer)
    {
      TotalAppend(Escrow, offers, offer);
      forall w {
        TotalAppend(Deposited(w), offers, offer);
      }
      offers := offers + [offer];
    }

    method DropOffer(k: nat)
      requires Valid() && k < |offers|
      modifies this`offers
      ensures Valid() && offers == old(offers)[..k] + old(offers)[k + 1..]
      ensures Total(Escrow, offers) == Total(Escrow, old(offers)) - Escrow(old(offers)[k])
      ensures forall w :: Total(Deposited(w), offers) == Total(Deposited(w), old(offers)) - Deposited(w)(old(offers)[k])
    {
      TotalRemove(Escrow, offers, k);
      forall w {
        TotalRemove(Deposited(w), offers, k);
      }
      offers := offers[..k] + offers[k + 1..];
    }

    /** A buy offer sets its price aside, a sell offer its goods; only the fee leaves the players for good. allowed
        stands for the market window and the premium rule, raw for one percent of the price. */
    method CreateOffer(i: nat, buys: bool, ware: Ware, amount: nat, price: nat, allowed: bool, raw: nat)
        returns (created: bool)
      requires Valid()
      modifies this`players, this`offers
      ensures Valid() && (created <==> allowed && old(MayCreate(i, buys, ware, amount, price, raw)))
      ensures if created then offers == old(offers) + [Offer(i, buys, ware, amount, price)]
        else players == old(players) && offers == old(offers)
      ensures created ==> OnlyThese(old(players), players, {i})
      ensures created ==> Parted(old(players)[i], players[i], buys, ware, amount, price, Fee(raw))
      ensures Wealth() == old(Wealth()) - (if created then Fee(raw) else 0)
      ensures created ==> Charged(old(Wealth()) - Wealth(), raw)
      ensures created ==> CashOf(old(players), players, i, false)
      ensures created ==>
        && 0 < amount <= MAX_AMOUNT && 0 < price <= MAX_PRICE && ware.item in types
        && (types[ware.item].stackable || amount <= MAX_SINGLE)
      ensures Capped(old(offers), offers, maxOffers)
      ensures forall w :: Stock(w) == old(Stock(w))
    {
      hide CashOf, Parted, Capped, OnlyThese, PlayerOk;
      CappedSame(offers, maxOffers);
      if amount == 0 || amount > MAX_AMOUNT || price == 0 || price > MAX_PRICE {
        return false;
      }
      if i >= |players| || !allowed || ware.item !in types {
        return false;
      }
      if !types[ware.item].stackable && amount > MAX_SINGLE {
        return false;
      }
      if maxOffers != 0 && OwnOffers(i) >= maxOffers {
        return false;
      }
      var paid := SetAside(i, buys, ware, amount, price, Fee(raw));
      if !paid {
        return false;
      }
      CappedAppend(offers, Offer(i, buys, ware, amount, price), maxOffers);
      AddOffer(Offer(i, buys, ware, amount, price));
      return true;
    }

    // goods lost when an inbox refuses them
    function Refused(ware: Ware, amount: nat): nat {
      amount - Deliverable(ware, amount)
    }

    function LostAt(offer: Offer, ware: Ware): nat {
      if !offer.buys && offer.ware == ware then Refused(ware, offer.amount) else 0
    }

    predicate MayCancel(i: nat, k: nat)
      reads this
    {
      i < |players| && k < |offers| && offers[k].owner == i && (offers[k].buys || offers[k].ware.item in types)
    }

    // p' is p with what the offer had set aside
    ghost predicate Refunded(p: Player, p': Player, offer: Offer) {
      if offer.buys then p' == Credited(p, offer.price * offer.amount)
      else Restocked(p, p', offer.ware, Deliverable(offer.ware, offer.amount))
    }

    /** The owner gets back what the offer set aside; goods nobody can pick up are lost. */
    method CancelOffer(i: nat, k: nat, allowed: bool) returns (cancelled: bool)
      requires Valid()
      modifies this`players, this`offers
      ensures Valid() && (!cancelled ==> players == old(players) && offers == old(offers))
      ensures cancelled <==> allowed && old(MayCancel(i, k))
      ensures cancelled ==>
        OnlyThese(old(players), players, {i}) && Refunded(old(players)[i], players[i], old(offers)[k])
      ensures cancelled ==> offers == old(offers)[..k] + old(offers)[k + 1..] && NoCash(old(players), players)
      ensures Capped(old(offers), offers, maxOffers)
      ensures cancelled ==> old(offers)[k].owner == i
      ensures Wealth() == old(Wealth())
      ensures forall w :: Stock(w) == old(Stock(w)) - if cancelled then LostAt(old(offers)[k], w) else 0
    {
      if i >= |players| || !allowed || k >= |offers| || offers[k].owner != i {
        return false;
      }
      var offer := offers[k];
      if offer.buys {
        ProductExact(offer.price, offer.amount);
        Credit(i, Product(offer.price, offer.amount));
      } else {
        if offer.ware.item !in types {
          return false;
        }
        GiveGoods(i, offer.ware, offer.amount);
      }
      CappedRemove(offers, k, maxOffers);
      DropOffer(k);
      return true;
    }

    // acceptOffer or deleteOffer
    method ReduceOffer(k: nat, amount: nat)
      requires Valid() && k < |offers| && 0 < amount <= offers[k].amount
      modifies this`offers
      ensures Valid() && offers == After(old(offers), k, amount) && Capped(old(offers), offers, maxOffers)
      ensures Total(Escrow, offers)
        == Total(Escrow, old(offers)) - if old(offers)[k].buys then old(offers)[k].price * amount else 0
      ensures forall w :: var sold := if !old(offers)[k].buys && old(offers)[k].ware == w then amount else 0;
        Total(Deposited(w), offers) == Total(Deposited(w), old(offers)) - sold
    {
      var offer := offers[k];
      if amount == offer.amount {
        CappedRemove(offers, k, maxOffers);
        DropOffer(k);
      } else {
        var rest := offer.(amount := offer.amount - amount);
        assert offer.price * rest.amount == offer.price * offer.amount - offer.price * amount;
        CappedUpdate(offers, k, rest, maxOffers);
        TotalUpdate(Escrow, offers, k, rest);
        forall w {
          TotalUpdate(Deposited(w), offers, k, rest);
        }
        offers := offers[k := rest];
      }
    }

    static function After(offers: seq<Offer>, k: nat, amount: nat): seq<Offer>
      requires k < |offers| && amount <= offers[k].amount
    {
      if amount == offers[k].amount then offers[..k] + offers[k + 1..]
      else offers[k := offers[k].(amount := offers[k].amount - amount)]
    }

    // what a player must meet and have to accept part of an offer
    predicate MayAccept(i: nat, k: nat, amount: nat)
      reads this
    {
      0 < amount <= MAX_AMOUNT && i < |players| && k < |offers|
      && offers[k].owner < |players| && players[offers[k].owner].account != players[i].account
      && amount <= offers[k].amount && offers[k].ware.item in types
      && if offers[k].buys then amount <= Sum(Stacks(players[i], offers[k].ware))
         else offers[k].price * amount <= Money(players[i])
    }

    // who accepts a buy offer gives goods for the owner's escrow, who accepts a sell offer gives money for the goods
    ghost predicate Exchanged(before: seq<Player>, after: seq<Player>, i: nat, offer: Offer, amount: nat)
      requires i < |before| == |after| && offer.owner < |before|
    {
      var o, total := offer.owner, offer.price * amount;
      && OnlyThese(before, after, {i, o})
      && (offer.buys ==>
            && Destocked(Credited(before[i], total), after[i], offer.ware, amount)
            && Restocked(before[o], after[o], offer.ware, Deliverable(offer.ware, amount)))
      && (!offer.buys ==>
            && total <= Money(before[i])
            && Restocked(Paid(before[i], total), after[i], offer.ware, Deliverable(offer.ware, amount))
            && after[o] == Credited(before[o], total))
    }

    // goods against the money of a buy offer, or money against the goods of a sell offer
    method Exchange(i: nat, offer: Offer, amount: nat) returns (ok: bool)
      requires Valid() && i < |players| && OfferOk(offer) && offer.owner < |players| && offer.ware.item in types
      requires 0 < amount <= offer.amount && players[offer.owner].account != players[i].account
      modifies this`players
      ensures Valid() && |players| == |old(players)|
      ensures ok ==> Exchanged(old(players), players, i, offer, amount)
      ensures ok ==> CashOf(old(players), players, i, offer.buys)
      ensures ok <==> if offer.buys then amount <= Sum(Stacks(old(players)[i], offer.ware))
        else offer.price * amount <= Money(old(players)[i])
      ensures !ok ==> players == old(players)
      ensures ok ==> var gain := if offer.buys then offer.price * amount else 0;
        Total(Money, players) == Total(Money, old(players)) + gain
      ensures ok ==> forall w :: var change := if offer.ware != w then 0
        else if offer.buys then Deliverable(w, amount) - amount else Deliverable(w, amount);
        Total(Owned(w), players) == Total(Owned(w), old(players)) + change
    {
      hide PlayerOk, Restocked, Destocked, Sum, Product;
      ProductExact(offer.price, amount);
      var totalPrice := Product(offer.price, amount);
      if offer.buys {
        var found := TakeGoods(i, offer.ware, amount);
        if !found {
          return false;
        }
        PaidGoods(old(players)[i], players[i], offer.ware, amount, totalPrice);
        Credit(i, totalPrice);
        GiveGoods(offer.owner, offer.ware, amount);
      } else {
        if totalPrice > Money(players[i]) {
          return false;
        }
        Debit(i, totalPrice);
        ghost var paid := players;
        assert paid[i].cash <= old(players)[i].cash && (paid[i].bank < old(players)[i].bank ==> paid[i].cash == 0);
        GiveGoods(i, offer.ware, amount);
        GoodsOnly(paid[i], players[i], offer.ware, Deliverable(offer.ware, amount));
        Credit(offer.owner, totalPrice);
      }
      return true;
    }

    /** Part of an offer changes hands: no money is made or lost, and goods only if nobody can pick them up. */
    method AcceptOffer(i: nat, k: nat, amount: nat, allowed: bool) returns (accepted: bool)
      requires Valid()
      modifies this`players, this`offers
      ensures Valid() && (accepted <==> allowed && old(MayAccept(i, k, amount)))
      ensures !accepted ==> players == old(players) && offers == old(offers)
      ensures accepted ==>
        && 0 < amount <= old(offers)[k].amount && i < |old(players)| && old(offers)[k].owner < |old(players)|
        && old(players)[old(offers)[k].owner].account != old(players)[i].account
      ensures Capped(old(offers), offers, maxOffers)
      ensures accepted && amount == old(offers)[k].amount ==> offers == old(offers)[..k] + old(offers)[k + 1..]
      ensures accepted && amount < old(offers)[k].amount ==>
        && |offers| == |old(offers)| && (forall j :: 0 <= j < |offers| && j != k ==> offers[j] == old(offers)[j])
        && offers[k].amount + amount == old(offers)[k].amount
        && offers[k] == old(offers)[k].(amount := offers[k].amount)
      ensures accepted ==> CashOf(old(players), players, i, old(offers)[k].buys)
      ensures accepted ==> |players| == |old(players)| && Exchanged(old(players), players, i, old(offers)[k], amount)
      ensures Wealth() == old(Wealth())
      ensures forall w :: var lost := if accepted && old(offers)[k].ware == w then Refused(w, amount) else 0;
        Stock(w) == old(Stock(w)) - lost
    {
      hide CashOf, Exchanged;
      if amount == 0 || amount > MAX_AMOUNT || i >= |players| || !allowed || k >= |offers| {
        return false;
      }
      var offer := offers[k];
      if players[offer.owner].account == players[i].account || amount > offer.amount || offer.ware.item !in types {
        return false;
      }
      var done := Exchange(i, offer, amount);
      if !done {
        return false;
      }
      ReduceOffer(k, amount);
      return true;
    }

    // one command, and the fee if it makes an offer
    method Obey(c: Command) returns (fee: nat, made: bool)
      requires Valid()
      modifies this`players, this`offers
      ensures Valid() && Wealth() == old(Wealth()) - fee && |offers| <= |old(offers)| + if made then 1 else 0
      ensures if made then minFee <= maxFee ==> minFee <= fee <= maxFee else fee == 0
      ensures Capped(old(offers), offers, maxOffers)
      ensures forall w: Ware :: w.item in types && types[w.item].pickupable ==> Stock(w) == old(Stock(w))
    {
      fee, made := 0, false;
      match c {
        case Create(i, buys, ware, amount, price, allowed, raw) =>
          made := CreateOffer(i, buys, ware, amount, price, allowed, raw);
          fee := if made then Fee(raw) else 0;
        case Cancel(i, k, allowed) =>
          var cancelled := CancelOffer(i, k, allowed);
        case Accept(i, k, amount, allowed) =>
          var accepted := AcceptOffer(i, k, amount, allowed);
      }
    }

    /** Any run: the wealth of all players and open offers falls by the fees and nothing else, one fee within its bounds
        for each offer created, and no goods that can be picked up are made or lost. */
    method Run(commands: seq<Command>) returns (fees: nat, made: nat)
      requires Valid()
      modifies this`players, this`offers
      ensures Valid() && Wealth() == old(Wealth()) - fees
      ensures made <= |commands| && |offers| <= |old(offers)| + made && Capped(old(offers), offers, maxOffers)
      ensures minFee <= maxFee ==> made * minFee <= fees <= made * maxFee
      ensures forall w: Ware :: w.item in types && types[w.item].pickupable ==> Stock(w) == old(Stock(w))
    {
      hide Valid, Wealth, Stock;
      fees, made := 0, 0;
      for n := 0 to |commands|
        invariant Valid() && Wealth() == old(Wealth()) - fees
        invariant made <= n && |offers| <= |old(offers)| + made && Capped(old(offers), offers, maxOffers)
        invariant minFee <= maxFee ==> made * minFee <= fees <= made * maxFee
        invariant forall w: Ware :: w.item in types && types[w.item].pickupable ==> Stock(w) == old(Stock(w))
      {
        var fee, more := Obey(commands[n]);
        fees, made := fees + fee, made + if more then 1 else 0;
      }
    }
  }

  /** A player with 5 pieces of a ware that nobody can pick up offers them, and cancels: they are gone. */
  method OfferedAndGone() returns (created: bool, cancelled: bool, had: nat, has: nat)
    ensures created && cancelled && had == 5 && has == 0
  {
    var ware := Ware(7, 0);
    var seller := Player(1, 10, 0, map[ware := [5]]);
    var game := new Game(map[7 := ItemType(true, false)], 1, 1, 0, [seller]);
    assert Stacks(seller, ware) == [5];
    SumOne(5);
    had := Sum(Stacks(game.players[0], ware));
    created := game.CreateOffer(0, false, ware, 5, 1, true, 1);
    assert game.offers[0] == Offer(0, false, ware, 5, 1);
    cancelled := game.CancelOffer(0, 0, true);
    has := Sum(Stacks(game.players[0], ware));
  }

  datatype Command =
    | Create(i: nat, buys: bool, ware: Ware, amount: nat, price: nat, allowed: bool, raw: nat)
    | Cancel(i: nat, k: nat, allowed: bool)
    | Accept(i: nat, k: nat, amount: nat, allowed: bool)
}
