/** How a player's conditions are written to the database and read back: attribute by attribute, with an END byte
    after each condition. */
module Conditions {
  import opened Options

  type Byte = b: int | 0 <= b < 0x100
  // 32 bits, whatever they stand for: int32_t, uint32_t or float
  type Word = w: int | 0 <= w < 0x1_0000_0000
  type Small = n: int | -0x80 <= n < 0x80

  const FOREVER: Word := 0xFFFF_FFFF // -1 ticks

  function Signed(w: Word): int {
    if w < 0x8000_0000 then w else w - 0x1_0000_0000
  }

  // ---------- bytes ----------

  function Le(w: Word): (s: seq<Byte>)
    ensures |s| == 4
  {
    [w % 0x100, w / 0x100 % 0x100, w / 0x1_0000 % 0x100, w / 0x100_0000]
  }

  function UnLe(s: seq<Byte>): Word
    requires |s| == 4
  {
    var (b0: int, b1: int, b2: int, b3: int) := (s[0], s[1], s[2], s[3]);
    b0 + b1 * 0x100 + b2 * 0x1_0000 + b3 * 0x100_0000
  }

  lemma WordBytes(w: Word)
    ensures UnLe(Le(w)) == w
  {
    assert w == w / 0x100 * 0x100 + w % 0x100;
    assert w / 0x100 == w / 0x1_0000 * 0x100 + w / 0x100 % 0x100;
    assert w / 0x1_0000 == w / 0x100_0000 * 0x100 + w / 0x1_0000 % 0x100;
  }

  // the id is one signed byte in memory and four bytes in the stream
  function FromSmall(n: Small): Word {
    if n >= 0 then n else n + 0x1_0000_0000
  }

  function ToSmall(w: Word): Small {
    var low := w % 0x100;
    if low < 0x80 then low else low - 0x100
  }

  function Flag(b: bool): Byte {
    if b then 1 else 0
  }

  // ---------- conditions ----------

  datatype Interval = Interval(timeLeft: Word, value: Word, interval: Word)

  datatype Head = Head(kind: Word, id: Small, ticks: Word, isBuff: bool, subId: Word, aggressive: bool)

  datatype Body =
    | Plain
    | Attributes(skills: seq<Word>, stats: seq<Word>, disableDefense: bool, specialSkills: seq<Word>)
    | Regeneration(healthTicks: Word, healthGain: Word, manaTicks: Word, manaGain: Word)
    | Soul(soulGain: Word, soulTicks: Word)
    | Damage(delayed: bool, periodDamage: Word, damageList: seq<Interval>)
    | Speed(speedDelta: Word, mina: Word, minb: Word, maxa: Word, maxb: Word)
    | Outfit(look: seq<Byte>)
    | Light(color: Byte, level: Byte, lightTicks: Word, lightInterval: Word)

  datatype Condition = Condition(head: Head, body: Body)

  const SKILLS: nat := 7
  const STATS: nat := 6
  const SPECIAL_SKILLS: nat := 9
  const OUTFIT_SIZE: nat := 16 // sizeof(Outfit_t)

  function Zeros(n: nat): (s: seq<Word>)
    ensures |s| == n
  {
    seq(n, i => 0)
  }

  // the class createCondition picks for a type, with its members as the constructor leaves them
  function NewBody(kind: Word): Option<Body> {
    if kind in {0x1, 0x2, 0x4, 0x8, 0x8000, 0x10_0000, 0x20_0000, 0x40_0000} then Some(Damage(false, 0, []))
    else if kind in {0x10, 0x20} then Some(Speed(0, 0, 0, 0, 0))
    else if kind == 0x40 then Some(Outfit(seq(OUTFIT_SIZE, i => 0)))
    else if kind == 0x100 then Some(Light(0, 0, 0, 0))
    else if kind == 0x2000 then Some(Regeneration(1000, 0, 1000, 0))
    else if kind == 0x4000 then Some(Soul(0, 0))
    else if kind == 0x8_0000 then Some(Attributes(Zeros(SKILLS), Zeros(STATS), false, Zeros(SPECIAL_SKILLS)))
    else if kind in {0x80, 0x200, 0x400, 0x800, 0x1000, 0x1_0000, 0x2_0000, 0x4_0000, 0x80_0000, 0x100_0000, 0x200_0000,
                     0x400_0000, 0x800_0000} then Some(Plain)
    else None
  }

  // 1 << n
  function Bit(n: nat): nat {
    if n == 0 then 1 else 2 * Bit(n - 1)
  }

  lemma Bits()
    ensures Bit(0) == 0x1 && Bit(1) == 0x2 && Bit(2) == 0x4 && Bit(3) == 0x8 && Bit(4) == 0x10 && Bit(5) == 0x20
    ensures Bit(6) == 0x40 && Bit(7) == 0x80 && Bit(8) == 0x100 && Bit(9) == 0x200 && Bit(10) == 0x400
    ensures Bit(11) == 0x800 && Bit(12) == 0x1000 && Bit(13) == 0x2000 && Bit(14) == 0x4000 && Bit(15) == 0x8000
    ensures Bit(16) == 0x1_0000 && Bit(17) == 0x2_0000 && Bit(18) == 0x4_0000 && Bit(19) == 0x8_0000
    ensures Bit(20) == 0x10_0000 && Bit(21) == 0x20_0000 && Bit(22) == 0x40_0000 && Bit(23) == 0x80_0000
    ensures Bit(24) == 0x100_0000 && Bit(25) == 0x200_0000 && Bit(26) == 0x400_0000 && Bit(27) == 0x800_0000
  {
  }

  /** The types that can be created are the single bits below 1 << 28, and the class is decided by the bit: damage that
      hurts over time, speed, and six classes of one type each. */
  lemma ClassOfBit(n: nat)
    requires n < 28
    ensures Bit(n) < 0x1000_0000 && NewBody(Bit(n)).Some?
    ensures var b := NewBody(Bit(n)).value;
      && (b.Damage? <==> n <= 3 || n == 15 || 20 <= n <= 22) && (b.Speed? <==> n == 4 || n == 5)
      && (b.Outfit? <==> n == 6) && (b.Light? <==> n == 8) && (b.Regeneration? <==> n == 13)
      && (b.Soul? <==> n == 14) && (b.Attributes? <==> n == 19)
  {
    Bits();
    hide Bit;
  }

  lemma OnlyBits(kind: Word)
    ensures NewBody(kind).Some? <==> exists n :: 0 <= n < 28 && kind == Bit(n)
  {
    Bits();
    forall n | 0 <= n < 28 ensures NewBody(kind).Some? || kind != Bit(n) {
      ClassOfBit(n);
    }
    hide Bit;
  }

  predicate SameShape(a: Body, b: Body) {
    match a
    case Plain => b.Plain?
    case Attributes(sk, st, _, sp) => b.Attributes? && |sk| == |b.skills| && |st| == |b.stats|
      && |sp| == |b.specialSkills|
    case Regeneration(_, _, _, _) => b.Regeneration?
    case Soul(_, _) => b.Soul?
    case Damage(_, _, _) => b.Damage?
    case Speed(_, _, _, _, _) => b.Speed?
    case Outfit(look) => b.Outfit? && |look| == |b.look|
    case Light(_, _, _, _) => b.Light?
  }

  // an object of the class its type calls for
  predicate WellFormed(c: Condition) {
    NewBody(c.head.kind).Some? && SameShape(NewBody(c.head.kind).value, c.body)
  }

  predicate Persistent(head: Head) {
    head.ticks != FOREVER && (head.id == -1 || head.id == 0 || head.kind == 0x1_0000)
  }

  // ---------- writing ----------

  const TYPE: Byte := 1
  const ID: Byte := 2
  const TICKS: Byte := 3
  const HEALTHTICKS: Byte := 4
  const HEALTHGAIN: Byte := 5
  const MANATICKS: Byte := 6
  const MANAGAIN: Byte := 7
  const DELAYED: Byte := 8
  const OWNER: Byte := 9
  const INTERVALDATA: Byte := 10
  const SPEEDDELTA: Byte := 11
  const FORMULA_MINA: Byte := 12
  const FORMULA_MINB: Byte := 13
  const FORMULA_MAXA: Byte := 14
  const FORMULA_MAXB: Byte := 15
  const LIGHTCOLOR: Byte := 16
  const LIGHTLEVEL: Byte := 17
  const LIGHTTICKS: Byte := 18
  const LIGHTINTERVAL: Byte := 19
  const SOULTICKS: Byte := 20
  const SOULGAIN: Byte := 21
  const SKILL: Byte := 22
  const STAT: Byte := 23
  const OUTFIT: Byte := 24
  const PERIODDAMAGE: Byte := 25
  const ISBUFF: Byte := 26
  const SUBID: Byte := 27
  const ISAGGRESSIVE: Byte := 28
  const DISABLEDEFENSE: Byte := 29
  const SPECIALSKILL: Byte := 30
  const END: Byte := 254

  // one attribute as written: its number, then its bytes
  datatype Prop = Prop(attr: Byte, payload: seq<Byte>)

  function Flat(props: seq<Prop>): seq<Byte> {
    if props == [] then [] else [props[0].attr] + props[0].payload + Flat(props[1..])
  }

  function HeadProps(h: Head): seq<Prop> {
    [Prop(TYPE, Le(h.kind)), Prop(ID, Le(FromSmall(h.id))), Prop(TICKS, Le(h.ticks)), Prop(ISBUFF, [Flag(h.isBuff)]),
     Prop(SUBID, Le(h.subId)), Prop(ISAGGRESSIVE, [Flag(h.aggressive)])]
  }

  function WordProps(attr: Byte, words: seq<Word>): (props: seq<Prop>)
    ensures |props| == |words|
  {
    seq(|words|, i requires 0 <= i < |words| => Prop(attr, Le(words[i])))
  }

  function IntervalBytes(d: Interval): (s: seq<Byte>)
    ensures |s| == 12
  {
    Le(d.timeLeft) + Le(d.value) + Le(d.interval)
  }

  function IntervalProps(list: seq<Interval>): (props: seq<Prop>)
    ensures |props| == |list|
  {
    seq(|list|, i requires 0 <= i < |list| => Prop(INTERVALDATA, IntervalBytes(list[i])))
  }

  function BodyProps(body: Body): seq<Prop> {
    match body
    case Plain => []
    case Attributes(skills, stats, disableDefense, specialSkills) =>
      WordProps(SKILL, skills) + WordProps(STAT, stats) + [Prop(DISABLEDEFENSE, [Flag(disableDefense)])]
      + WordProps(SPECIALSKILL, specialSkills)
    case Regeneration(healthTicks, healthGain, manaTicks, manaGain) =>
      [Prop(HEALTHTICKS, Le(healthTicks)), Prop(HEALTHGAIN, Le(healthGain)), Prop(MANATICKS, Le(manaTicks)),
       Prop(MANAGAIN, Le(manaGain))]
    case Soul(soulGain, soulTicks) => [Prop(SOULGAIN, Le(soulGain)), Prop(SOULTICKS, Le(soulTicks))]
    case Damage(delayed, periodDamage, damageList) =>
      [Prop(DELAYED, [Flag(delayed)]), Prop(PERIODDAMAGE, Le(periodDamage))] + IntervalProps(damageList)
    case Speed(speedDelta, mina, minb, maxa, maxb) =>
      [Prop(SPEEDDELTA, Le(speedDelta)), Prop(FORMULA_MINA, Le(mina)), Prop(FORMULA_MINB, Le(minb)),
       Prop(FORMULA_MAXA, Le(maxa)), Prop(FORMULA_MAXB, Le(maxb))]
    case Outfit(look) => [Prop(OUTFIT, look)]
    case Light(color, level, lightTicks, lightInterval) =>
      [Prop(LIGHTCOLOR, Le(color)), Prop(LIGHTLEVEL, Le(level)), Prop(LIGHTTICKS, Le(lightTicks)),
       Prop(LIGHTINTERVAL, Le(lightInterval))]
  }

  function OneSaved(c: Condition): seq<Prop> {
    HeadProps(c.head) + BodyProps(c.body) + [Prop(END, [])]
  }

  // what a player's save writes
  function SavedProps(cs: seq<Condition>): seq<Prop> {
    if cs == [] then []
    else (if Persistent(cs[0].head) then OneSaved(cs[0]) else []) + SavedProps(cs[1..])
  }

  // ---------- reading ----------

  // a condition being read, and how many skills, special skills and stats it has read
  datatype Loading = Loading(c: Condition, skill: nat, special: nat, stat: nat)

  datatype Read = Read(ok: bool, l: Loading, rest: seq<Byte>)

  function Fail(l: Loading, rest: seq<Byte>): Read {
    Read(false, l, rest)
  }

  function WithBody(l: Loading, body: Body, rest: seq<Byte>): Read {
    Read(true, l.(c := l.c.(body := body)), rest)
  }

  function WithHead(l: Loading, head: Head, rest: seq<Byte>): Read {
    Read(true, l.(c := l.c.(head := head)), rest)
  }

  // Condition::unserializeProp
  function HeadProp(l: Loading, attr: Byte, s: seq<Byte>): (r: Read)
    ensures |r.rest| <= |s|
  {
    var h := l.c.head;
    if attr == ISBUFF || attr == ISAGGRESSIVE then
      if |s| < 1 then Fail(l, s)
      else if attr == ISBUFF then WithHead(l, h.(isBuff := s[0] != 0), s[1..])
      else WithHead(l, h.(aggressive := s[0] != 0), s[1..])
    else if attr == TYPE || attr == ID || attr == TICKS || attr == SUBID then
      if |s| < 4 then Fail(l, s)
      else
        var w := UnLe(s[..4]);
        if attr == TYPE then WithHead(l, h.(kind := w), s[4..])
        else if attr == ID then WithHead(l, h.(id := ToSmall(w)), s[4..])
        else if attr == TICKS then WithHead(l, h.(ticks := w), s[4..])
        else WithHead(l, h.(subId := w), s[4..])
    else Read(attr == END, l, s)
  }

  function AddTicks(ticks: Word, interval: Word): Word {
    if ticks == FOREVER then ticks else (ticks + interval) % 0x1_0000_0000
  }

  predicate IsWordProp(body: Body, attr: Byte) {
    match body
    case Plain => false
    case Attributes(_, _, _, _) => attr == SKILL || attr == STAT || attr == SPECIALSKILL
    case Regeneration(_, _, _, _) => HEALTHTICKS <= attr <= MANAGAIN
    case Soul(_, _) => attr == SOULTICKS || attr == SOULGAIN
    case Damage(_, _, _) => attr == PERIODDAMAGE
    case Speed(_, _, _, _, _) => SPEEDDELTA <= attr <= FORMULA_MAXB
    case Outfit(_) => false
    case Light(_, _, _, _) => LIGHTCOLOR <= attr <= LIGHTINTERVAL
  }

  function SetWord(l: Loading, attr: Byte, w: Word, rest: seq<Byte>): (r: Read)
    requires IsWordProp(l.c.body, attr)
    ensures |r.rest| <= |rest|
  {
    var b := l.c.body;
    match b
    case Attributes(skills, stats, _, specialSkills) =>
      // past the end of its array the read is undefined; the model refuses it
      if attr == SKILL then
        if l.skill >= |skills| then Fail(l, rest)
        else WithBody(l.(skill := l.skill + 1), b.(skills := skills[l.skill := w]), rest)
      else if attr == STAT then
        if l.stat >= |stats| then Fail(l, rest)
        else WithBody(l.(stat := l.stat + 1), b.(stats := stats[l.stat := w]), rest)
      else if l.special >= |specialSkills| then Fail(l, rest)
      else WithBody(l.(special := l.special + 1), b.(specialSkills := specialSkills[l.special := w]), rest)
    case Regeneration(_, _, _, _) =>
      if attr == HEALTHTICKS then WithBody(l, b.(healthTicks := w), rest)
      else if attr == HEALTHGAIN then WithBody(l, b.(healthGain := w), rest)
      else if attr == MANATICKS then WithBody(l, b.(manaTicks := w), rest)
      else WithBody(l, b.(manaGain := w), rest)
    case Soul(_, _) =>
      if attr == SOULGAIN then WithBody(l, b.(soulGain := w), rest) else WithBody(l, b.(soulTicks := w), rest)
    case Damage(_, _, _) => WithBody(l, b.(periodDamage := w), rest)
    case Speed(_, _, _, _, _) =>
      if attr == SPEEDDELTA then WithBody(l, b.(speedDelta := w), rest)
      else if attr == FORMULA_MINA then WithBody(l, b.(mina := w), rest)
      else if attr == FORMULA_MINB then WithBody(l, b.(minb := w), rest)
      else if attr == FORMULA_MAXA then WithBody(l, b.(maxa := w), rest)
      else WithBody(l, b.(maxb := w), rest)
    case Light(_, _, _, _) =>
      if attr == LIGHTCOLOR then WithBody(l, b.(color := w % 0x100), rest)
      else if attr == LIGHTLEVEL then WithBody(l, b.(level := w % 0x100), rest)
      else if attr == LIGHTTICKS then WithBody(l, b.(lightTicks := w), rest)
      else WithBody(l, b.(lightInterval := w), rest)
  }

  // unserializeProp of the condition's own class, then of Condition
  function UnserializeProp(l: Loading, attr: Byte, s: seq<Byte>): (r: Read)
    ensures |r.rest| <= |s|
  {
    var b := l.c.body;
    if IsWordProp(b, attr) then
      if |s| < 4 then Fail(l, s) else SetWord(l, attr, UnLe(s[..4]), s[4..])
    else if b.Attributes? && attr == DISABLEDEFENSE then
      if |s| < 1 then Fail(l, s) else WithBody(l, b.(disableDefense := s[0] != 0), s[1..])
    else if b.Damage? && attr == DELAYED then
      if |s| < 1 then Fail(l, s) else WithBody(l, b.(delayed := s[0] != 0), s[1..])
    else if b.Damage? && attr == OWNER then
      if |s| < 4 then Fail(l, s) else Read(true, l, s[4..])
    else if b.Damage? && attr == INTERVALDATA then
      if |s| < 12 then Fail(l, s)
      else
        var d := Interval(UnLe(s[..4]), UnLe(s[4..8]), UnLe(s[8..12]));
        var h := l.c.head;
        Read(true, l.(c := Condition(h.(ticks := AddTicks(h.ticks, d.interval)), b.(damageList := b.damageList + [d]))),
             s[12..])
    else if b.Outfit? && attr == OUTFIT then
      if |s| < OUTFIT_SIZE then Fail(l, s) else WithBody(l, b.(look := s[..OUTFIT_SIZE]), s[OUTFIT_SIZE..])
    else HeadProp(l, attr, s)
  }

  // unserialize: attributes up to END, or up to the end of the stream
  function Unserialize(l: Loading, s: seq<Byte>): (r: Read)
    ensures |r.rest| <= |s|
    decreases |s|
  {
    if s == [] then Read(true, l, s)
    else if s[0] == END then Read(true, l, s[1..])
    else
      var r := UnserializeProp(l, s[0], s[1..]);
      if r.ok then Unserialize(r.l, r.rest) else r
  }

  datatype Created = Nothing | Created(l: Loading, rest: seq<Byte>)

  // createCondition: the six attributes of the header, in order
  function Create(s: seq<Byte>): (r: Created)
    ensures r.Created? ==> |r.rest| < |s|
  {
    if |s| < 5 || s[0] != TYPE then Nothing
    else if |s| < 10 || s[5] != ID then Nothing
    else if |s| < 15 || s[10] != TICKS then Nothing
    else if |s| < 17 || s[15] != ISBUFF then Nothing
    else if |s| < 22 || s[17] != SUBID then Nothing
    else if |s| < 24 || s[22] != ISAGGRESSIVE then Nothing
    else
      var kind := UnLe(s[1..5]);
      match NewBody(kind)
      case None => Nothing
      case Some(body) =>
        // a damage condition is built without its ticks; its intervals bring them back
        var ticks := if body.Damage? then 0 else UnLe(s[11..15]);
        var head := Head(kind, ToSmall(UnLe(s[6..10])), ticks, s[16] != 0, UnLe(s[18..22]), s[23] != 0);
        Created(Loading(Condition(head, body), 0, 0, 0), s[24..])
  }

  // the loading loop: each condition goes to the front of the list
  function Load(s: seq<Byte>, list: seq<Condition>): seq<Condition>
    decreases |s|
  {
    match Create(s)
    case Nothing => list
    case Created(l, rest) =>
      var r := Unserialize(l, rest);
      Load(r.rest, if r.ok then [r.l.c] + list else list)
  }

  // ---------- reading what was written ----------

  // one attribute, read back from exactly its own bytes
  predicate Accepts(l: Loading, p: Prop) {
    var r := UnserializeProp(l, p.attr, p.payload);
    p.attr != END && r.ok && r.rest == []
  }

  function Fold(l: Loading, props: seq<Prop>): Option<Loading>
    decreases |props|
  {
    if props == [] then Some(l)
    else if Accepts(l, props[0]) then Fold(UnserializeProp(l, props[0].attr, props[0].payload).l, props[1..])
    else None
  }

  // what follows an attribute does not change how it is read
  lemma PropLocal(l: Loading, p: Prop, rest: seq<Byte>)
    requires Accepts(l, p)
    ensures UnserializeProp(l, p.attr, p.payload + rest)
      == UnserializeProp(l, p.attr, p.payload).(rest := rest)
  {
    var s, t := p.payload, p.payload + rest;
    var n := |s|;
    assert t[n..] == rest;
    assert n >= 4 ==> t[..4] == s[..4];
    assert n >= 12 ==> t[4..8] == s[4..8] && t[8..12] == s[8..12];
    assert n >= OUTFIT_SIZE ==> t[..OUTFIT_SIZE] == s[..OUTFIT_SIZE];
  }

  lemma {:induction false} FoldReads(l: Loading, props: seq<Prop>, rest: seq<Byte>)
    requires Fold(l, props).Some?
    ensures Unserialize(l, Flat(props) + [END] + rest) == Read(true, Fold(l, props).value, rest)
    decreases |props|
  {
    var s := Flat(props) + [END] + rest;
    if props == [] {
      assert s == [END] + rest;
    } else {
      var p := props[0];
      var tail := Flat(props[1..]) + [END] + rest;
      assert s == [p.attr] + (p.payload + tail);
      assert s[1..] == p.payload + tail;
      PropLocal(l, p, tail);
      FoldReads(UnserializeProp(l, p.attr, p.payload).l, props[1..], rest);
    }
  }

  lemma {:induction false} FoldAppend(l: Loading, a: seq<Prop>, b: seq<Prop>)
    requires Fold(l, a).Some?
    ensures Fold(l, a + b) == Fold(Fold(l, a).value, b)
    decreases |a|
  {
    if a == [] {
      assert a + b == b;
    } else {
      assert (a + b)[1..] == a[1..] + b;
      FoldAppend(UnserializeProp(l, a[0].attr, a[0].payload).l, a[1..], b);
    }
  }

  lemma FoldOne(l: Loading, attr: Byte, payload: seq<Byte>, next: Loading, props: seq<Prop>)
    requires attr != END && UnserializeProp(l, attr, payload) == Read(true, next, [])
    ensures Fold(l, [Prop(attr, payload)] + props) == Fold(next, props)
  {
    assert ([Prop(attr, payload)] + props)[1..] == props;
  }

  // a word attribute
  lemma FoldWord(l: Loading, attr: Byte, w: Word, next: Loading, props: seq<Prop>)
    requires attr != END && IsWordProp(l.c.body, attr) && SetWord(l, attr, w, []) == Read(true, next, [])
    ensures Fold(l, [Prop(attr, Le(w))] + props) == Fold(next, props)
  {
    WordBytes(w);
    assert Le(w)[..4] == Le(w) && Le(w)[4..] == [];
    FoldOne(l, attr, Le(w), next, props);
  }

  // ---------- each body ----------

  function Fresh(head: Head, body: Body): Loading {
    Loading(Condition(head, body), 0, 0, 0)
  }

  lemma RegenerationBody(h: Head, b0: Body, b: Body)
    requires b0.Regeneration? && b.Regeneration?
    ensures Fold(Fresh(h, b0), BodyProps(b)) == Some(Fresh(h, b))
  {
    var b1 := b0.(healthTicks := b.healthTicks);
    var b2 := b1.(healthGain := b.healthGain);
    var b3 := b2.(manaTicks := b.manaTicks);
    var t1 := [Prop(MANAGAIN, Le(b.manaGain))] + [];
    var t2 := [Prop(MANATICKS, Le(b.manaTicks))] + t1;
    var t3 := [Prop(HEALTHGAIN, Le(b.healthGain))] + t2;
    FoldWord(Fresh(h, b0), HEALTHTICKS, b.healthTicks, Fresh(h, b1), t3);
    FoldWord(Fresh(h, b1), HEALTHGAIN, b.healthGain, Fresh(h, b2), t2);
    FoldWord(Fresh(h, b2), MANATICKS, b.manaTicks, Fresh(h, b3), t1);
    FoldWord(Fresh(h, b3), MANAGAIN, b.manaGain, Fresh(h, b), []);
    assert BodyProps(b) == [Prop(HEALTHTICKS, Le(b.healthTicks))] + t3;
  }

  lemma SoulBody(h: Head, b0: Body, b: Body)
    requires b0.Soul? && b.Soul?
    ensures Fold(Fresh(h, b0), BodyProps(b)) == Some(Fresh(h, b))
  {
    var t1 := [Prop(SOULTICKS, Le(b.soulTicks))] + [];
    FoldWord(Fresh(h, b0), SOULGAIN, b.soulGain, Fresh(h, b0.(soulGain := b.soulGain)), t1);
    FoldWord(Fresh(h, b0.(soulGain := b.soulGain)), SOULTICKS, b.soulTicks, Fresh(h, b), []);
    assert BodyProps(b) == [Prop(SOULGAIN, Le(b.soulGain))] + t1;
  }

  lemma SpeedBody(h: Head, b0: Body, b: Body)
    requires b0.Speed? && b.Speed?
    ensures Fold(Fresh(h, b0), BodyProps(b)) == Some(Fresh(h, b))
  {
    var b1 := b0.(speedDelta := b.speedDelta);
    var b2 := b1.(mina := b.mina);
    var b3 := b2.(minb := b.minb);
    var b4 := b3.(maxa := b.maxa);
    var t1 := [Prop(FORMULA_MAXB, Le(b.maxb))] + [];
    var t2 := [Prop(FORMULA_MAXA, Le(b.maxa))] + t1;
    var t3 := [Prop(FORMULA_MINB, Le(b.minb))] + t2;
    var t4 := [Prop(FORMULA_MINA, Le(b.mina))] + t3;
    FoldWord(Fresh(h, b0), SPEEDDELTA, b.speedDelta, Fresh(h, b1), t4);
    FoldWord(Fresh(h, b1), FORMULA_MINA, b.mina, Fresh(h, b2), t3);
    FoldWord(Fresh(h, b2), FORMULA_MINB, b.minb, Fresh(h, b3), t2);
    FoldWord(Fresh(h, b3), FORMULA_MAXA, b.maxa, Fresh(h, b4), t1);
    FoldWord(Fresh(h, b4), FORMULA_MAXB, b.maxb, Fresh(h, b), []);
    assert BodyProps(b) == [Prop(SPEEDDELTA, Le(b.speedDelta))] + t4;
  }

  lemma LightBody(h: Head, b0: Body, b: Body)
    requires b0.Light? && b.Light?
    ensures Fold(Fresh(h, b0), BodyProps(b)) == Some(Fresh(h, b))
  {
    var b1 := b0.(color := b.color);
    var b2 := b1.(level := b.level);
    var b3 := b2.(lightTicks := b.lightTicks);
    var t1 := [Prop(LIGHTINTERVAL, Le(b.lightInterval))] + [];
    var t2 := [Prop(LIGHTTICKS, Le(b.lightTicks))] + t1;
    var t3 := [Prop(LIGHTLEVEL, Le(b.level))] + t2;
    FoldWord(Fresh(h, b0), LIGHTCOLOR, b.color, Fresh(h, b1), t3);
    FoldWord(Fresh(h, b1), LIGHTLEVEL, b.level, Fresh(h, b2), t2);
    FoldWord(Fresh(h, b2), LIGHTTICKS, b.lightTicks, Fresh(h, b3), t1);
    FoldWord(Fresh(h, b3), LIGHTINTERVAL, b.lightInterval, Fresh(h, b), []);
    assert BodyProps(b) == [Prop(LIGHTCOLOR, Le(b.color))] + t3;
  }

  lemma OutfitBody(h: Head, b0: Body, b: Body)
    requires b0.Outfit? && b.Outfit? && |b.look| == OUTFIT_SIZE
    ensures Fold(Fresh(h, b0), BodyProps(b)) == Some(Fresh(h, b))
  {
    assert b.look[..OUTFIT_SIZE] == b.look && b.look[OUTFIT_SIZE..] == [];
    FoldOne(Fresh(h, b0), OUTFIT, b.look, Fresh(h, b), []);
    assert BodyProps(b) == [Prop(OUTFIT, b.look)] + [];
  }

  // the ticks the intervals of a damage condition add up to
  function TicksAfter(ticks: Word, list: seq<Interval>): Word
    decreases |list|
  {
    if list == [] then ticks else TicksAfter(AddTicks(ticks, list[0].interval), list[1..])
  }

  function Damaged(l: Loading, list: seq<Interval>): Loading
    requires l.c.body.Damage?
  {
    var h, b := l.c.head, l.c.body;
    l.(c := Condition(h.(ticks := TicksAfter(h.ticks, list)), b.(damageList := b.damageList + list)))
  }

  lemma IntervalRead(l: Loading, d: Interval)
    requires l.c.body.Damage?
    ensures UnserializeProp(l, INTERVALDATA, IntervalBytes(d)) == Read(true, Damaged(l, [d]), [])
  {
    var s := IntervalBytes(d);
    WordBytes(d.timeLeft);
    WordBytes(d.value);
    WordBytes(d.interval);
    hide Le, UnLe;
    assert s[..4] == Le(d.timeLeft) && s[4..8] == Le(d.value) && s[8..12] == Le(d.interval) && s[12..] == [];
    assert TicksAfter(l.c.head.ticks, [d]) == AddTicks(l.c.head.ticks, d.interval);
  }

  lemma {:induction false} FoldIntervals(l: Loading, list: seq<Interval>)
    requires l.c.body.Damage?
    ensures Fold(l, IntervalProps(list)) == Some(Damaged(l, list))
    decreases |list|
  {
    hide UnserializeProp, IntervalBytes, AddTicks;
    if list == [] {
      assert l.c.body.damageList + [] == l.c.body.damageList;
    } else {
      var d := list[0];
      IntervalRead(l, d);
      var next := Damaged(l, [d]);
      FoldIntervals(next, list[1..]);
      assert Damaged(next, list[1..]) == Damaged(l, list) by {
        assert TicksAfter(l.c.head.ticks, [d]) == AddTicks(l.c.head.ticks, d.interval);
        assert l.c.body.damageList + [d] + list[1..] == l.c.body.damageList + list;
      }
      FoldOne(l, INTERVALDATA, IntervalBytes(d), next, IntervalProps(list[1..]));
      assert IntervalProps(list) == [Prop(INTERVALDATA, IntervalBytes(d))] + IntervalProps(list[1..]);
    }
  }

  lemma DamageBody(h: Head, b0: Body, b: Body)
    requires b0.Damage? && b0.damageList == [] && b.Damage?
    ensures Fold(Fresh(h, b0), BodyProps(b)) == Some(Fresh(h.(ticks := TicksAfter(h.ticks, b.damageList)), b))
  {
    var b1 := b0.(delayed := b.delayed);
    var b2 := b1.(periodDamage := b.periodDamage);
    var t1 := IntervalProps(b.damageList);
    var t2 := [Prop(PERIODDAMAGE, Le(b.periodDamage))] + t1;
    FoldOne(Fresh(h, b0), DELAYED, [Flag(b.delayed)], Fresh(h, b1), t2);
    FoldWord(Fresh(h, b1), PERIODDAMAGE, b.periodDamage, Fresh(h, b2), t1);
    FoldIntervals(Fresh(h, b2), b.damageList);
    assert [] + b.damageList == b.damageList;
    assert BodyProps(b) == [Prop(DELAYED, [Flag(b.delayed)])] + t2;
  }

  // ---------- the arrays of an attributes condition ----------

  predicate IsSlot(attr: Byte) {
    attr == SKILL || attr == STAT || attr == SPECIALSKILL
  }

  function Slots(b: Body, attr: Byte): seq<Word>
    requires b.Attributes?
  {
    if attr == SKILL then b.skills else if attr == STAT then b.stats else b.specialSkills
  }

  function At(l: Loading, attr: Byte): nat {
    if attr == SKILL then l.skill else if attr == STAT then l.stat else l.special
  }

  function Filled(l: Loading, attr: Byte, slots: seq<Word>, at: nat): Loading
    requires l.c.body.Attributes?
  {
    var b := l.c.body;
    if attr == SKILL then l.(skill := at, c := l.c.(body := b.(skills := slots)))
    else if attr == STAT then l.(stat := at, c := l.c.(body := b.(stats := slots)))
    else l.(special := at, c := l.c.(body := b.(specialSkills := slots)))
  }

  lemma {:induction false} FoldSlots(l: Loading, attr: Byte, words: seq<Word>)
    requires l.c.body.Attributes? && IsSlot(attr) && At(l, attr) + |words| == |Slots(l.c.body, attr)|
    ensures var at := At(l, attr);
      Fold(l, WordProps(attr, words))
      == Some(Filled(l, attr, Slots(l.c.body, attr)[..at] + words, at + |words|))
    decreases |words|
  {
    hide UnserializeProp;
    var at, slots := At(l, attr), Slots(l.c.body, attr);
    if words == [] {
      assert slots[..at] + words == slots;
    } else {
      var next := Filled(l, attr, slots[at := words[0]], at + 1);
      FoldWord(l, attr, words[0], next, WordProps(attr, words[1..]));
      FoldSlots(next, attr, words[1..]);
      assert slots[at := words[0]][..at + 1] + words[1..] == slots[..at] + words;
      assert WordProps(attr, words) == [Prop(attr, Le(words[0]))] + WordProps(attr, words[1..]);
    }
  }

  function AttributesTail(b: Body): seq<Prop>
    requires b.Attributes?
  {
    [Prop(DISABLEDEFENSE, [Flag(b.disableDefense)])] + WordProps(SPECIALSKILL, b.specialSkills)
  }

  lemma AttributesProps(b: Body)
    requires b.Attributes?
    ensures BodyProps(b) == WordProps(SKILL, b.skills) + (WordProps(STAT, b.stats) + AttributesTail(b))
  {
  }

  lemma AttributesEnd(c: Condition, b: Body, n: nat, m: nat)
    requires c.body.Attributes? && b.Attributes? && SameShape(c.body, b)
    requires c.body.skills == b.skills && c.body.stats == b.stats
    ensures Fold(Loading(c, n, 0, m), AttributesTail(b)) == Some(Loading(c.(body := b), n, |b.specialSkills|, m))
  {
    var c' := c.(body := c.body.(disableDefense := b.disableDefense));
    var t := WordProps(SPECIALSKILL, b.specialSkills);
    FoldOne(Loading(c, n, 0, m), DISABLEDEFENSE, [Flag(b.disableDefense)], Loading(c', n, 0, m), t);
    FoldAll(Loading(c', n, 0, m), SPECIALSKILL, b.specialSkills, Loading(c.(body := b), n, |b.specialSkills|, m), []);
    assert t == t + [];
  }

  lemma AttributesBody(h: Head, b0: Body, b: Body)
    requires b0.Attributes? && b.Attributes? && SameShape(b0, b)
    ensures Fold(Fresh(h, b0), BodyProps(b))
      == Some(Loading(Condition(h, b), |b.skills|, |b.specialSkills|, |b.stats|))
  {
    hide UnserializeProp, WordProps, BodyProps, AttributesTail, Fold;
    var b1 := b0.(skills := b.skills);
    var b2 := b1.(stats := b.stats);
    var n, m := |b.skills|, |b.stats|;
    AttributesProps(b);
    FoldAll(Fresh(h, b0), SKILL, b.skills, Loading(Condition(h, b1), n, 0, 0),
            WordProps(STAT, b.stats) + AttributesTail(b));
    FoldAll(Loading(Condition(h, b1), n, 0, 0), STAT, b.stats, Loading(Condition(h, b2), n, 0, m), AttributesTail(b));
    AttributesEnd(Condition(h, b2), b, n, m);
  }

  // a whole array, and what follows it
  lemma FoldAll(l: Loading, attr: Byte, words: seq<Word>, next: Loading, props: seq<Prop>)
    requires l.c.body.Attributes? && IsSlot(attr) && At(l, attr) == 0 && |words| == |Slots(l.c.body, attr)|
    requires next == Filled(l, attr, words, |words|)
    ensures Fold(l, WordProps(attr, words) + props) == Fold(next, props)
  {
    FoldSlots(l, attr, words);
    assert Slots(l.c.body, attr)[..0] + words == words;
    FoldAppend(l, WordProps(attr, words), props);
  }

  // ---------- a condition, a list ----------

  // what comes back: everything written, except that a damage condition counts its ticks from its intervals
  function Restored(c: Condition): Condition {
    if c.body.Damage? then c.(head := c.head.(ticks := TicksAfter(0, c.body.damageList))) else c
  }

  lemma BodyReadBack(c: Condition)
    requires WellFormed(c)
    ensures var h := c.head.(ticks := if c.body.Damage? then 0 else c.head.ticks);
      var r := Fold(Fresh(h, NewBody(c.head.kind).value), BodyProps(c.body));
      r.Some? && r.value.c == Restored(c)
  {
    var h := c.head.(ticks := if c.body.Damage? then 0 else c.head.ticks);
    var b0 := NewBody(c.head.kind).value;
    match c.body {
      case Plain =>
      case Attributes(_, _, _, _) => AttributesBody(h, b0, c.body);
      case Regeneration(_, _, _, _) => RegenerationBody(h, b0, c.body);
      case Soul(_, _) => SoulBody(h, b0, c.body);
      case Damage(_, _, _) => DamageBody(h, b0, c.body);
      case Speed(_, _, _, _, _) => SpeedBody(h, b0, c.body);
      case Outfit(_) => OutfitBody(h, b0, c.body);
      case Light(_, _, _, _) => LightBody(h, b0, c.body);
    }
  }

  lemma HeadReadBack(c: Condition, rest: seq<Byte>)
    requires WellFormed(c)
    ensures var h := c.head.(ticks := if c.body.Damage? then 0 else c.head.ticks);
      Create(Flat(HeadProps(c.head)) + rest) == Created(Fresh(h, NewBody(c.head.kind).value), rest)
  {
    var h := c.head;
    HeadFlat(h, rest);
    WordBytes(h.kind);
    WordBytes(FromSmall(h.id));
    WordBytes(h.ticks);
    WordBytes(h.subId);
    hide Le, UnLe, Flat;
    var k, i, t, u := Le(h.kind), Le(FromSmall(h.id)), Le(h.ticks), Le(h.subId);
    var s := Flat(HeadProps(c.head)) + rest;
    assert s[1..5] == k && s[6..10] == i && s[11..15] == t && s[18..22] == u && s[24..] == rest;
  }

  // the 24 bytes of a header, and what follows
  function HeadBytes(h: Head, rest: seq<Byte>): seq<Byte> {
    [TYPE] + Le(h.kind) + ([ID] + Le(FromSmall(h.id)) + ([TICKS] + Le(h.ticks) + ([ISBUFF] + [Flag(h.isBuff)]
    + ([SUBID] + Le(h.subId) + ([ISAGGRESSIVE] + [Flag(h.aggressive)] + rest)))))
  }

  lemma HeadFlat(h: Head, rest: seq<Byte>)
    ensures Flat(HeadProps(h)) + rest == HeadBytes(h, rest)
  {
    hide Le, UnLe, Flat;
    var t1 := [Prop(ISAGGRESSIVE, [Flag(h.aggressive)])] + [];
    var t2 := [Prop(SUBID, Le(h.subId))] + t1;
    var t3 := [Prop(ISBUFF, [Flag(h.isBuff)])] + t2;
    var t4 := [Prop(TICKS, Le(h.ticks))] + t3;
    var t5 := [Prop(ID, Le(FromSmall(h.id)))] + t4;
    assert HeadProps(h) == [Prop(TYPE, Le(h.kind))] + t5;
    FlatThen(Prop(TYPE, Le(h.kind)), t5, rest);
    FlatThen(Prop(ID, Le(FromSmall(h.id))), t4, rest);
    FlatThen(Prop(TICKS, Le(h.ticks)), t3, rest);
    FlatThen(Prop(ISBUFF, [Flag(h.isBuff)]), t2, rest);
    FlatThen(Prop(SUBID, Le(h.subId)), t1, rest);
    FlatThen(Prop(ISAGGRESSIVE, [Flag(h.aggressive)]), [], rest);
    FlatNone(rest);
  }

  lemma FlatNone(rest: seq<Byte>)
    ensures Flat([]) + rest == rest
  {
  }

  lemma FlatThen(p: Prop, props: seq<Prop>, rest: seq<Byte>)
    ensures Flat([p] + props) + rest == [p.attr] + p.payload + (Flat(props) + rest)
  {
    FlatCons(p, props);
  }

  lemma FlatCons(p: Prop, props: seq<Prop>)
    ensures Flat([p] + props) == [p.attr] + p.payload + Flat(props)
  {
    assert ([p] + props)[1..] == props;
  }

  lemma {:induction false} FlatAppend(a: seq<Prop>, b: seq<Prop>)
    ensures Flat(a + b) == Flat(a) + Flat(b)
    decreases |a|
  {
    if a == [] {
      assert a + b == b;
    } else {
      assert (a + b)[1..] == a[1..] + b;
      FlatAppend(a[1..], b);
    }
  }

  // the persistent conditions, last first: each one read went to the front
  function Stored(cs: seq<Condition>): seq<Condition> {
    if cs == [] then []
    else Stored(cs[1..]) + if Persistent(cs[0].head) then [Restored(cs[0])] else []
  }

  lemma LoadNothing(list: seq<Condition>)
    ensures Load([], list) == list
  {
  }

  lemma LoadOne(c: Condition, more: seq<Byte>, list: seq<Condition>)
    requires WellFormed(c)
    ensures Load(Flat(OneSaved(c)) + more, list) == Load(more, [Restored(c)] + list)
  {
    var head, body, end := HeadProps(c.head), BodyProps(c.body), [Prop(END, [])];
    var rest := Flat(body) + [END] + more;
    FlatAppend(head + body, end);
    FlatAppend(head, body);
    FlatCons(end[0], []);
    assert end == end + [];
    assert Flat(OneSaved(c)) + more == Flat(head) + rest;
    HeadReadBack(c, rest);
    BodyReadBack(c);
    FoldReads(Create(Flat(head) + rest).l, body, more);
  }

  lemma {:induction false} LoadSaved(cs: seq<Condition>, list: seq<Condition>)
    requires forall c :: c in cs ==> WellFormed(c)
    ensures Load(Flat(SavedProps(cs)), list) == Stored(cs) + list
    decreases |cs|
  {
    hide Load, OneSaved, Restored, Persistent, WellFormed;
    if cs == [] {
      LoadNothing(list);
    } else {
      var c, more := cs[0], SavedProps(cs[1..]);
      if Persistent(c.head) {
        FlatAppend(OneSaved(c), more);
        LoadOne(c, Flat(more), list);
        LoadSaved(cs[1..], [Restored(c)] + list);
        assert Stored(cs[1..]) + ([Restored(c)] + list) == Stored(cs) + list;
      } else {
        assert SavedProps(cs) == more;
        LoadSaved(cs[1..], list);
      }
    }
  }

  lemma {:induction false} StoredMeans(cs: seq<Condition>, c: Condition)
    ensures !c.body.Damage? ==> (c in Stored(cs) <==> c in cs && Persistent(c.head))
    ensures c in cs && Persistent(c.head) ==> Restored(c) in Stored(cs)
    decreases |cs|
  {
    hide Persistent, TicksAfter;
    if cs != [] {
      StoredMeans(cs[1..], c);
    }
  }

  /** Reading back what a save wrote gives the persistent conditions, field by field, in reverse order. */
  lemma RoundTrip(cs: seq<Condition>)
    requires forall c :: c in cs ==> WellFormed(c)
    ensures Load(Flat(SavedProps(cs)), []) == Stored(cs)
    ensures forall c: Condition :: !c.body.Damage? ==>
      (c in Load(Flat(SavedProps(cs)), []) <==>
         c in cs && c.head.ticks != FOREVER && (c.head.id == -1 || c.head.id == 0 || c.head.kind == Bit(16)))
    ensures forall c :: c in cs && c.head.ticks != FOREVER && (c.head.id == -1 || c.head.id == 0) && c.body.Damage? ==>
      c.(head := c.head.(ticks := TicksAfter(0, c.body.damageList))) in Load(Flat(SavedProps(cs)), [])
  {
    LoadSaved(cs, []);
    assert Stored(cs) + [] == Stored(cs);
    Bits();
    forall c: Condition ensures !c.body.Damage? ==> (c in Stored(cs) <==> c in cs && Persistent(c.head))
      ensures c in cs && Persistent(c.head) ==> Restored(c) in Stored(cs)
    {
      StoredMeans(cs, c);
    }
    hide Bit;
  }

  function TotalInterval(list: seq<Interval>): int
  {
    if list == [] then 0 else Signed(list[0].interval) + TotalInterval(list[1..])
  }

  /** With positive intervals that fit in 31 bits, the ticks of a restored damage condition are their sum. */
  lemma {:induction false} DamageTicks(ticks: Word, list: seq<Interval>)
    requires Signed(ticks) >= 0 && (forall d :: d in list ==> Signed(d.interval) >= 0)
    requires Signed(ticks) + TotalInterval(list) < 0x8000_0000
    ensures Signed(TicksAfter(ticks, list)) == Signed(ticks) + TotalInterval(list)
    decreases |list|
  {
    if list != [] {
      PositiveTotal(list[1..]);
      DamageTicks(AddTicks(ticks, list[0].interval), list[1..]);
    }
  }

  lemma PositiveTotal(list: seq<Interval>)
    requires forall d :: d in list ==> Signed(d.interval) >= 0
    ensures TotalInterval(list) >= 0
  {
  }
}
