/** The byte streams the conditions of a player are saved to and loaded from. */
module ConditionStreams {
  import opened Conditions

  class PropWriteStream {
    var buffer: seq<Byte>
    ghost var written: seq<Prop>

    ghost predicate Valid()
      reads this
    {
      buffer == Flat(written)
    }

    constructor ()
      ensures Valid() && written == []
    {
      buffer, written := [], [];
    }

    method Write(attr: Byte, payload: seq<Byte>)
      requires Valid()
      modifies this
      ensures Valid() && written == old(written) + [Prop(attr, payload)]
    {
      FlatAppend(written, [Prop(attr, payload)]);
      FlatCons(Prop(attr, payload), []);
      assert [Prop(attr, payload)] == [Prop(attr, payload)] + [];
      buffer := buffer + [attr] + payload;
      written := written + [Prop(attr, payload)];
    }

    method WriteWords(attr: Byte, words: seq<Word>)
      requires Valid()
      modifies this
      ensures Valid() && written == old(written) + WordProps(attr, words)
    {
      for i := 0 to |words|
        invariant Valid() && written == old(written) + WordProps(attr, words)[..i]
      {
        Write(attr, Le(words[i]));
      }
    }

    /** serialize of each class: the header, then the class's own attributes. */
    method Serialize(c: Condition)
      requires Valid()
      modifies this
      ensures Valid() && written == old(written) + HeadProps(c.head) + BodyProps(c.body)
    {
      var h := c.head;
      Write(TYPE, Le(h.kind));
      Write(ID, Le(FromSmall(h.id)));
      Write(TICKS, Le(h.ticks));
      Write(ISBUFF, [Flag(h.isBuff)]);
      Write(SUBID, Le(h.subId));
      Write(ISAGGRESSIVE, [Flag(h.aggressive)]);
      assert written == old(written) + HeadProps(h);
      SerializeBody(c.body);
    }

    method SerializeBody(body: Body)
      requires Valid()
      modifies this
      ensures Valid() && written == old(written) + BodyProps(body)
    {
      hide Flat, Le;
      match body {
        case Plain =>
        case Attributes(_, _, _, _) => SerializeAttributes(body);
        case Regeneration(_, _, _, _) => SerializeRegeneration(body);
        case Soul(_, _) =>
          Write(SOULGAIN, Le(body.soulGain));
          Write(SOULTICKS, Le(body.soulTicks));
        case Damage(_, _, _) => SerializeDamage(body);
        case Speed(_, _, _, _, _) => SerializeSpeed(body);
        case Outfit(look) => Write(OUTFIT, look);
        case Light(_, _, _, _) => SerializeLight(body);
      }
    }

    method SerializeAttributes(body: Body)
      requires Valid() && body.Attributes?
      modifies this
      ensures Valid() && written == old(written) + BodyProps(body)
    {
      hide Flat, Le, WordProps;
      WriteWords(SKILL, body.skills);
      WriteWords(STAT, body.stats);
      Write(DISABLEDEFENSE, [Flag(body.disableDefense)]);
      WriteWords(SPECIALSKILL, body.specialSkills);
    }

    method SerializeRegeneration(body: Body)
      requires Valid() && body.Regeneration?
      modifies this
      ensures Valid() && written == old(written) + BodyProps(body)
    {
      hide Flat, Le;
      Write(HEALTHTICKS, Le(body.healthTicks));
      Write(HEALTHGAIN, Le(body.healthGain));
      Write(MANATICKS, Le(body.manaTicks));
      Write(MANAGAIN, Le(body.manaGain));
    }

    method SerializeDamage(body: Body)
      requires Valid() && body.Damage?
      modifies this
      ensures Valid() && written == old(written) + BodyProps(body)
    {
      hide Flat, Le, IntervalBytes;
      Write(DELAYED, [Flag(body.delayed)]);
      Write(PERIODDAMAGE, Le(body.periodDamage));
      ghost var before := written;
      for i := 0 to |body.damageList|
        invariant Valid() && written == before + IntervalProps(body.damageList)[..i]
      {
        Write(INTERVALDATA, IntervalBytes(body.damageList[i]));
      }
    }

    method SerializeSpeed(body: Body)
      requires Valid() && body.Speed?
      modifies this
      ensures Valid() && written == old(written) + BodyProps(body)
    {
      hide Flat, Le;
      Write(SPEEDDELTA, Le(body.speedDelta));
      Write(FORMULA_MINA, Le(body.mina));
      Write(FORMULA_MINB, Le(body.minb));
      Write(FORMULA_MAXA, Le(body.maxa));
      Write(FORMULA_MAXB, Le(body.maxb));
    }

    method SerializeLight(body: Body)
      requires Valid() && body.Light?
      modifies this
      ensures Valid() && written == old(written) + BodyProps(body)
    {
      hide Flat, Le;
      Write(LIGHTCOLOR, Le(body.color));
      Write(LIGHTLEVEL, Le(body.level));
      Write(LIGHTTICKS, Le(body.lightTicks));
      Write(LIGHTINTERVAL, Le(body.lightInterval));
    }

    /** The part of a player's save that writes the conditions. */
    method SavePlayer(conditions: seq<Condition>)
      requires Valid() && written == []
      modifies this
      ensures Valid() && buffer == Flat(SavedProps(conditions))
    {
      hide Flat, Persistent, HeadProps, BodyProps;
      for i := 0 to |conditions|
        invariant Valid() && written + SavedProps(conditions[i..]) == SavedProps(conditions)
      {
        assert conditions[i..][1..] == conditions[i + 1..];
        if Persistent(conditions[i].head) {
          Serialize(conditions[i]);
          Write(END, []);
        }
      }
      assert written == SavedProps(conditions);
    }
  }

  class PropStream {
    const data: seq<Byte>
    var p: nat

    ghost predicate Valid()
      reads this
    {
      p <= |data|
    }

    function Rest(): seq<Byte>
      requires Valid()
      reads this
    {
      data[p..]
    }

    constructor (bytes: seq<Byte>)
      ensures Valid() && Rest() == bytes
    {
      data, p := bytes, 0;
    }

    method ReadByte() returns (ok: bool, b: Byte)
      requires Valid()
      modifies this
      ensures Valid() && ok == (old(Rest()) != [])
      ensures if ok then old(Rest()) == [b] + Rest() else Rest() == old(Rest())
    {
      if p == |data| {
        return false, 0;
      }
      b := data[p];
      p := p + 1;
      return true, b;
    }

    method MoveTo(ghost rest: seq<Byte>, left: nat)
      requires Valid() && left == |rest| <= |Rest()| && rest == Rest()[|Rest()| - left..]
      modifies this
      ensures Valid() && Rest() == rest
    {
      p := |data| - left;
    }

    /** The unserialize loop. */
    method Unserialize(start: Loading) returns (ok: bool, l: Loading)
      requires Valid()
      modifies this
      ensures Valid() && Read(ok, l, Rest()) == Conditions.Unserialize(start, old(Rest()))
    {
      l := start;
      var more, attr := ReadByte();
      while more && attr != END
        invariant Valid()
        invariant Conditions.Unserialize(start, old(Rest()))
          == Conditions.Unserialize(l, if more then [attr] + Rest() else [])
        invariant !more ==> Rest() == []
        decreases |Rest()|, more
      {
        var r := UnserializeProp(l, attr, Rest());
        PropSuffix(l, attr, Rest());
        MoveTo(r.rest, |r.rest|);
        l := r.l;
        if !r.ok {
          return false, l;
        }
        more, attr := ReadByte();
      }
      return true, l;
    }

    /** The loading loop of a login. */
    method LoadPlayer() returns (list: seq<Condition>)
      requires Valid()
      modifies this
      ensures list == Load(old(Rest()), [])
    {
      list := [];
      while true
        invariant Valid() && Load(Rest(), list) == Load(old(Rest()), [])
        decreases |Rest()|
      {
        var created := Create(Rest());
        if created == Nothing {
          return;
        }
        assert created.rest == Rest()[24..];
        MoveTo(created.rest, |created.rest|);
        var ok, l := Unserialize(created.l);
        if ok {
          list := [l.c] + list;
        }
      }
    }
  }

  lemma PropSuffix(l: Loading, attr: Byte, s: seq<Byte>)
    ensures var rest := UnserializeProp(l, attr, s).rest; rest == s[|s| - |rest|..]
  {
  }
}
