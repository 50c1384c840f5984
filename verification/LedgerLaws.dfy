/** What each thing players do comes to, in hit points, coins and slots. */
module LedgerLaws {
  import opened Prelude
  import opened Bytes
  import opened Names
  import opened Placement
  import opened Items
  import opened Inventories
  import opened Players
  import opened Trade
  import opened Grounds
  import opened Ledgers
  import Saves

  /** A player here and alive, whose things are in order. */
  ghost predicate Lives(v: Scene, k: nat, h: Hand) {
    && 0 < v.divisor && |v.saves| == |v.hands| && k < |v.hands|
    && h.Fit(v.registry) && h.here && !h.dead
  }

  // ---- Blows ----

  /** A blow that leaves a hit point takes what it takes, and nothing falls. */
  lemma Bleeds(v: Scene, k: nat, damage: int, pos: Position, h: Hand, h': Hand, piles': Piles)
    requires Lives(v, k, h) && Moves(v, Hit(k, damage, pos), h, h', piles') && damage < h.progress.hp
    ensures piles' == v.piles
    ensures damage <= 0 ==> h' == h
    ensures 0 < damage ==>
              var p := h.progress;
              h' == h.(progress := Progress(p.level, p.experience, p.hp - damage, p.maxHp, p.mana, p.maxMana))
  {
  }

  /** The dead feel nothing. */
  lemma DeadFeelNothing(v: Scene, k: nat, damage: int, pos: Position, h: Hand, h': Hand, piles': Piles)
    requires 0 < v.divisor && |v.saves| == |v.hands| && k < |v.hands| && h.dead
    requires Moves(v, Hit(k, damage, pos), h, h', piles')
    ensures h' == h && piles' == v.piles
  {
  }

  /** Any other kills: no hit points, no items, the safe part of the gold, less experience, the same level and safe. */
  lemma Dies(v: Scene, k: nat, damage: int, pos: Position, h: Hand, h': Hand, piles': Piles)
    requires Lives(v, k, h) && Moves(v, Hit(k, damage, pos), h, h', piles') && 0 < damage && h.progress.hp <= damage
    requires h.rules.Levelled(h.progress.level, h.progress.experience)
    ensures h'.dead && h'.here && h'.progress.hp == 0 && h'.safe == h.safe && h'.rules == h.rules
    ensures h'.progress.level == h.progress.level && h'.progress.maxHp == h.progress.maxHp
            && h'.progress.mana == h.progress.mana && h'.progress.maxMana == h.progress.maxMana
    ensures |h'.slots| == |h.slots| && forall i | 0 <= i < |h.slots| :: h'.slots[i] == Slot(null, 0, None)
    ensures var kept := h.rules.safeGold(h.progress.level); h'.gold == if h.gold < kept then h.gold else kept
    ensures var level := h.progress.level;
            var left := h.progress.experience - h.rules.expLoss(h.progress.experience);
            var least := if level > 1 then h.rules.levelLimit(level - 1) else 0;
            h'.progress.experience == if left >= least then left else least
  {
    LossMeans(h.rules, h.progress.level, h.progress.experience, h.rules.expLoss(h.progress.experience));
  }

  /** No pile is disturbed by a death, and the new ones lie on open ground. */
  lemma DeathDisturbsNothing(v: Scene, k: nat, damage: int, pos: Position, h: Hand, h': Hand, piles': Piles)
    requires Lives(v, k, h) && Moves(v, Hit(k, damage, pos), h, h', piles')
    ensures forall p | p in v.piles :: p in piles' && piles'[p] == v.piles[p]
    ensures forall p | p in piles' && p !in v.piles :: p in Grounds.Room(v.terrain, v.piles)
  {
    hide Scattered, Laid, Grounds.Room, Hand.Dropped, Parcels;
    if h.Hurt(damage).dead {
      var spots :| Strewn(v.terrain, pos, v.piles, spots, h.Dropped(), piles');
      LaidKeepsPiles(v.terrain, pos, v.piles, spots, h.Dropped());
      forall i | 0 <= i < |spots| ensures spots[i] in Grounds.Room(v.terrain, v.piles) {
        LaidEach(v.terrain, pos, v.piles, spots, h.Dropped(), i);
      }
    }
  }

  /** Where there is room for all of it, what was on each slot lies somewhere whole, and the gold on a nearest cell. */
  lemma DeathDropsAll(v: Scene, k: nat, damage: int, pos: Position, h: Hand, h': Hand, piles': Piles, i: nat)
    requires Lives(v, k, h) && Moves(v, Hit(k, damage, pos), h, h', piles') && 0 < damage && h.progress.hp <= damage
    requires v.terrain.IsValid(pos) && |h.slots| < |Grounds.Room(v.terrain, v.piles)| && i < |Occupied(h.slots)|
    ensures exists p ::
              && p in Grounds.Room(v.terrain, v.piles) && p in piles'
              && piles'[p] == Parcel(0, Occupied(h.slots)[i].item, Occupied(h.slots)[i].quantity)
    ensures h.gold > h.rules.safeGold(h.progress.level) ==>
              exists p ::
                && Nearest(v.terrain, pos, v.piles, p) && p in piles'
                && piles'[p] == Parcel(h.gold - h.rules.safeGold(h.progress.level), null, 0)
  {
    hide Scattered, Grounds.Room, Laid;
    var loot := Loot(h.gold - h.SafeGold(), Occupied(h.slots));
    var spots :| Strewn(v.terrain, pos, v.piles, spots, h.Dropped(), piles');
    ParcelsInOrder(loot, i);
    OccupiedFewer(h.slots);
    LaidEach(v.terrain, pos, v.piles, spots, h.Dropped(), (if loot.gold > 0 then 1 else 0) + i);
    if loot.gold > 0 {
      LaidEach(v.terrain, pos, v.piles, spots, h.Dropped(), 0);
      FirstIsNearest(v.terrain, pos, v.piles, spots, h.Dropped());
    }
  }

  lemma {:induction false} OccupiedFewer(slots: seq<Slot>)
    ensures |Occupied(slots)| <= |slots|
  {
    if slots != [] {
      OccupiedFewer(slots[1..]);
    }
  }

  lemma {:induction false} FirstIsNearest(m: WorldMap, center: Position, piles: Piles, spots: seq<Position>,
                                          parcels: seq<Parcel>)
    requires 0 < |spots| <= |parcels| && Scattered(m, center, piles, spots, parcels)
    ensures Nearest(m, center, piles, spots[0])
    decreases |spots|
  {
    var n := |spots| - 1;
    if n > 0 {
      assert spots[..n][0] == spots[0];
      FirstIsNearest(m, center, piles, spots[..n], parcels);
    } else {
      assert spots[..0] == [];
    }
  }

  // ---- The ground ----

  /** Gold is picked up as far as it fits, and the rest of the pile is gone. */
  lemma PicksUpGold(v: Scene, k: nat, pos: Position, h: Hand, h': Hand, piles': Piles)
    requires Lives(v, k, h) && Moves(v, PickUp(k, pos), h, h', piles') && pos in v.piles && 0 < v.piles[pos].gold
    ensures piles' == v.piles - {pos} && h' == h.(gold := h'.gold)
    ensures var cap, sum := h.rules.goldCap(h.progress.level), h.gold + v.piles[pos].gold;
            h'.gold == if sum < cap then sum else cap
  {
  }

  /** An item is picked up with all its units, if a slot is empty or, for a potion, has a stack of it. */
  lemma PicksUpItem(v: Scene, k: nat, pos: Position, h: Hand, h': Hand, piles': Piles, x: Item, n: int, key: Text)
    requires Lives(v, k, h) && Moves(v, PickUp(k, pos), h, h', piles')
    requires pos in v.piles && v.piles[pos] == Parcel(0, x, n)
    ensures if (exists i | 0 <= i < |h.slots| :: h.slots[i].item == null)
               || (x.kind.Potion? && exists i | 0 <= i < |h.slots| ::
                     h.slots[i].item != null && h.slots[i].item.name == x.name)
            then
              && piles' == v.piles - {pos} && h' == h.(slots := h'.slots)
              && Inventories.Units(h'.slots, key)
                 == Inventories.Units(h.slots, key) + (if key == Normalize(x.name) then n else 0)
            else piles' == v.piles && h' == h
  {
    hide Inventories.Units, Added, CanAdd;
    AddableWhen(h.slots, x);
    if CanAdd(h.slots, x) {
      UnitsAfterAdd(h.slots, x, n, key);
    }
  }

  lemma NothingToPickUp(v: Scene, k: nat, pos: Position, h: Hand, h': Hand, piles': Piles)
    requires 0 < v.divisor && |v.saves| == |v.hands| && k < |v.hands| && Moves(v, PickUp(k, pos), h, h', piles')
    requires h.dead || pos !in v.piles
    ensures h' == h && piles' == v.piles
  {
  }

  /** What was in the slot lies on an open cell that none is nearer than, and the slot is empty. */
  lemma DropsSlot(v: Scene, k: nat, pos: Position, index: int, h: Hand, h': Hand, piles': Piles)
    requires Lives(v, k, h) && Moves(v, Ledgers.Drop(k, pos, index), h, h', piles')
    ensures if 0 <= index < |h.slots| && h.slots[index].item != null && v.terrain.IsValid(pos)
               && Grounds.Room(v.terrain, v.piles) != {}
            then
              && h' == h.(slots := h.slots[index := Slot(null, 0, None)])
              && exists p :: Nearest(v.terrain, pos, v.piles, p)
                             && piles' == v.piles[p := Parcel(0, h.slots[index].item, h.slots[index].quantity)]
            else h' == h && piles' == v.piles
  {
    hide Nearest, Grounds.Room;
  }

  // ---- The bank ----

  /** Gold goes from hand to safe, if there is that much of it, and back, if there is that much there. */
  lemma MovesGold(v: Scene, k: nat, amount: int, h: Hand, h': Hand, piles': Piles)
    requires Lives(v, k, h)
    ensures Moves(v, Ledgers.DepositGold(k, amount), h, h', piles') ==>
              && piles' == v.piles
              && if 0 < amount <= h.gold
                 then h' == h.(gold := h.gold - amount, safe := Safe(h.safe.items, h.safe.gold + amount)) else h' == h
    ensures Moves(v, Ledgers.WithdrawGold(k, amount), h, h', piles') ==>
              && piles' == v.piles
              && var cap := h.rules.goldCap(h.progress.level);
                 if 0 < amount <= h.safe.gold
                 then h' == h.(gold := if h.gold + amount < cap then h.gold + amount else cap,
                               safe := Safe(h.safe.items, h.safe.gold - amount))
                 else h' == h
  {
  }

  /** One unit off the slots and one item more in the safe, both of that name; or nothing of that name is carried. */
  lemma DepositsUnit(v: Scene, k: nat, name: Text, h: Hand, h': Hand, piles': Piles, key: Text)
    requires Lives(v, k, h) && Moves(v, Ledgers.Deposit(k, name), h, h', piles')
    ensures piles' == v.piles && h'.gold == h.gold && h'.safe.gold == h.safe.gold && h'.progress == h.progress
    ensures var carried := exists i | 0 <= i < |h.slots| ::
                             h.slots[i].item != null && Normalize(h.slots[i].item.name) == Normalize(name);
            var one := if carried && key == Normalize(name) then 1 else 0;
            && Inventories.Units(h'.slots, key) == Inventories.Units(h.slots, key) - one
            && Stored(h'.safe.items, key) == Stored(h.safe.items, key) + one
            && (!carried ==> h' == h)
  {
    hide Inventories.Units, Stored, OneLess, Sound;
    var i := FirstIndex(h.slots, Keyed(Normalize(name)));
    if j :| 0 <= j < |h.slots| && h.slots[j].item != null && Normalize(h.slots[j].item.name) == Normalize(name) {
      assert Keyed(Normalize(name))(h.slots[j]);
    }
    if i != -1 {
      var x := h'.safe.items[|h.safe.items|];
      SoundAfterOneLess(v.registry, h.slots, i);
      StoredConcat(h.safe.items, [x], key);
      OneStored(x, key);
    }
  }

  /** One item of that name out of the safe and into the slots, where there is room for it. */
  lemma WithdrawsUnit(v: Scene, k: nat, name: Text, h: Hand, h': Hand, piles': Piles, key: Text)
    requires Lives(v, k, h) && Moves(v, Ledgers.Withdraw(k, name), h, h', piles')
    requires exists i | 0 <= i < |h.slots| :: h.slots[i].item == null
    ensures piles' == v.piles && h'.gold == h.gold && h'.safe.gold == h.safe.gold && h'.progress == h.progress
    ensures var kept := exists x :: x in h.safe.items && Normalize(x.name) == Normalize(name);
            var one := if kept && key == Normalize(name) then 1 else 0;
            && Inventories.Units(h'.slots, key) == Inventories.Units(h.slots, key) + one
            && Stored(h'.safe.items, key) == Stored(h.safe.items, key) - one
            && (!kept ==> h' == h)
  {
    hide Inventories.Units, Stored, Added, Sound, CanAdd;
    var items := h.safe.items;
    var i := FirstIndex(items, Called(Normalize(name)));
    if j :| 0 <= j < |items| && Normalize(items[j].name) == Normalize(name) {
      assert Called(Normalize(name))(items[j]);
    }
    if i != -1 {
      AddableWhen(h.slots, items[i]);
      StoredWithout(items, i, key);
      UnitsAfterAdd(h.slots, items[i], 1, key);
    }
  }

  // ---- Merchants and priests ----

  /** What costs no more than there is, is sold here and has room, is bought for its price; nothing else is. */
  lemma BuysFor(v: Scene, k: nat, name: Text, priest: bool, h: Hand, h': Hand, piles': Piles, t: Template, key: Text)
    requires Lives(v, k, h) && Moves(v, Ledgers.Buy(k, name, priest), h, h', piles')
    requires v.registry.Valid() && t in v.registry.templates.Values && Normalize(name) == Normalize(t.name)
    ensures piles' == v.piles && h'.safe == h.safe && h'.progress == h.progress
    ensures var sold := if priest then t.kind.Potion? || t.kind.MagicWeapon? else !t.kind.MagicWeapon?;
            var room := (exists i | 0 <= i < |h.slots| :: h.slots[i].item == null)
                        || (t.kind.Potion? && exists i | 0 <= i < |h.slots| ::
                              h.slots[i].item != null && h.slots[i].item.name == t.name);
            if sold && room && t.price <= h.gold then
              && h'.gold == h.gold - t.price
              && Inventories.Units(h'.slots, key)
                 == Inventories.Units(h.slots, key) + if key == Normalize(name) then 1 else 0
            else h' == h
  {
    hide Inventories.Units, Sound, Bought, Trade.Room, Offer, Hand.Owns;
    RegistryFinds(v.registry, name, t);
    RoomWhen(v.registry, h.slots, name, t);
    var sold := if priest then t.kind.Potion? || t.kind.MagicWeapon? else !t.kind.MagicWeapon?;
    OfferAnswers(v.registry, h.dead, h.gold, h.slots, name, sold);
    if Sells(v.registry, h, name, priest) {
      BoughtUnits(v.registry, h.slots, name, h'.slots, key);
    }
  }

  lemma BoughtUnits(reg: Registry, slots: seq<Slot>, name: Text, slots': seq<Slot>, key: Text)
    requires Bought(reg, slots, name, slots')
    ensures Inventories.Units(slots', key) == Inventories.Units(slots, key) + if key == Normalize(name) then 1 else 0
  {
    hide Inventories.Units, Added, CanAdd, Normalize;
    var i :| 0 <= i < |slots'| && slots'[i].item != null
             && reg.Knows(slots'[i].item) && Normalize(slots'[i].item.name) == Normalize(name)
             && CanAdd(slots, slots'[i].item) && slots' == Added(slots, slots'[i].item, 1);
    UnitsAfterAdd(slots, slots'[i].item, 1, key);
  }

  /** One unit of what is carried, other than a magic weapon, for its price divided, as far as it fits under the cap. */
  lemma SellsFor(v: Scene, k: nat, name: Text, h: Hand, h': Hand, piles': Piles, t: Template, key: Text)
    requires Lives(v, k, h) && Moves(v, Ledgers.Sell(k, name), h, h', piles')
    requires v.registry.Valid() && t in v.registry.templates.Values && Normalize(name) == Normalize(t.name)
    ensures piles' == v.piles && h'.safe == h.safe && h'.progress == h.progress
    ensures var carried := exists i | 0 <= i < |h.slots| ::
                             h.slots[i].item != null && Normalize(h.slots[i].item.name) == Normalize(name);
            var cap, sum := h.rules.goldCap(h.progress.level), h.gold + t.price / v.divisor;
            if carried && !t.kind.MagicWeapon? then
              && h'.gold == (if sum < cap then sum else cap)
              && Inventories.Units(h'.slots, key)
                 == Inventories.Units(h.slots, key) - if key == Normalize(name) then 1 else 0
            else h' == h
  {
    hide Inventories.Units, OneLess, Sound;
    RegistryFinds(v.registry, name, t);
    var i := FirstIndex(h.slots, Keyed(Normalize(name)));
    if j :| 0 <= j < |h.slots| && h.slots[j].item != null && Normalize(h.slots[j].item.name) == Normalize(name) {
      assert Keyed(Normalize(name))(h.slots[j]);
    }
    if i != -1 {
      SoundAfterOneLess(v.registry, h.slots, i);
    }
  }

  // ---- Equipment, potions, experience, coming and going ----

  /** One unit of a potion is gone, and hit points or mana are up by what it restores, to the maximum at most. */
  lemma DrinksPotion(v: Scene, k: nat, index: int, h: Hand, h': Hand, piles': Piles, health: bool, restore: int)
    requires Lives(v, k, h) && Moves(v, Ledgers.Use(k, index), h, h', piles')
    requires 0 <= index < |h.slots| && h.slots[index].item != null
    requires h.slots[index].item.kind == Potion(health, restore)
    ensures piles' == v.piles && h'.gold == h.gold && h'.safe == h.safe && h'.slots == OneLess(h.slots, index)
    ensures var p := h.progress;
            var hp := if p.hp + restore < p.maxHp then p.hp + restore else p.maxHp;
            var mana := if p.mana + restore < p.maxMana then p.mana + restore else p.maxMana;
            h'.progress == if restore <= 0 || (!health && !h.caster) then p
                           else if health then Progress(p.level, p.experience, hp, p.maxHp, p.mana, p.maxMana)
                           else Progress(p.level, p.experience, p.hp, p.maxHp, mana, p.maxMana)
  {
    hide OneLess;
  }

  /** What was worn comes off; else it goes on, and what was worn in its place comes off. */
  lemma PutsOnOrOff(v: Scene, k: nat, index: int, h: Hand, h': Hand, piles': Piles, e: EquipmentSlot, j: nat)
    requires Lives(v, k, h) && Moves(v, Ledgers.Use(k, index), h, h', piles')
    requires 0 <= index < |h.slots| && h.slots[index].item != null && h.slots[index].item.kind.Slot() == Some(e)
    requires j < |h.slots|
    ensures piles' == v.piles && h' == h.(slots := h'.slots) && |h'.slots| == |h.slots|
    ensures h'.slots[j] ==
            Slot(h.slots[j].item, h.slots[j].quantity,
                 if j == index then (if h.slots[j].equipped == None then Some(e) else None)
                 else if h.slots[index].equipped == None && h.slots[j].equipped == Some(e) then None
                 else h.slots[j].equipped)
  {
    WornSlots(v.registry, h.slots, index);
    hide Worn, Sound;
  }

  /** Experience adds up, and the level is the one it fits. */
  lemma Learns(v: Scene, k: nat, experience: nat, h: Hand, h': Hand, piles': Piles, level: nat)
    requires Lives(v, k, h) && Moves(v, Ledgers.Learn(k, experience), h, h', piles')
    requires h.rules.Levelled(h.progress.level, h.progress.experience)
    requires 0 < level && h.progress.experience + experience < h.rules.levelLimit(level)
    requires level > 1 ==> h.rules.levelLimit(level - 1) <= h.progress.experience + experience
    ensures piles' == v.piles && h' == h.(progress := h'.progress)
    ensures h'.progress.level == level && h'.progress.experience == h.progress.experience + experience
    ensures level == h.progress.level ==> h'.progress.hp == h.progress.hp && h'.progress.mana == h.progress.mana
    ensures level != h.progress.level ==>
              && h'.progress.hp == h'.progress.maxHp == h.rules.maxHp(level)
              && h'.progress.mana == h'.progress.maxMana == h.rules.maxMana(level)
  {
    GainMeans(h.rules, h.progress, experience, level);
    hide Gain;
  }

  /** The dead live again with full hit points and mana, and nothing else is different. */
  lemma Revives(v: Scene, k: nat, h: Hand, h': Hand, piles': Piles)
    requires 0 < v.divisor && |v.saves| == |v.hands| && k < |v.hands| && Moves(v, Ledgers.Revive(k), h, h', piles')
    ensures piles' == v.piles
    ensures var p := h.progress;
            h' == if h.here && h.dead
                  then h.(dead := false,
                          progress := Progress(p.level, p.experience, p.maxHp, p.maxHp, p.maxMana, p.maxMana))
                  else h
  {
  }

  /** Who leaves has nothing in hand; who reconnects has nothing in the safe. */
  lemma GoesAndComes(v: Scene, k: nat, h: Hand, h': Hand, piles': Piles)
    requires 0 < v.divisor && |v.saves| == |v.hands| && k < |v.hands|
    ensures Moves(v, Ledgers.Leave(k), h, h', piles') ==>
              && piles' == v.piles && h'.safe == h.safe && |h'.slots| == |h.slots|
              && (h.here ==>
                    && !h'.here && h'.gold == 0
                    && forall i | 0 <= i < |h.slots| :: h'.slots[i] == Slot(null, 0, None))
              && (!h.here ==> h' == h)
    ensures Moves(v, Ledgers.Reconnect(k), h, h', piles') ==>
              piles' == v.piles && h' == if h.here then h else h.(safe := Safe([], 0))
  {
  }

  /** Who comes back is alive, with the gold saved up to the cap, and slot after slot what was in hand when saved. */
  lemma ComesBack(v: Scene, k: nat, h: Hand, h': Hand, piles': Piles, s: Hand, i: nat)
    requires 0 < v.divisor && |v.saves| == |v.hands| && k < |v.hands| && !h.here && v.saves[k] == Some(s)
    requires s.rules.Valid() && s.progress.level < 65536 && s.gold <= s.rules.goldCap(s.progress.level)
    requires s.rules.Levelled(s.progress.level, s.progress.experience) && i < |Occupied(s.slots)|
    requires Moves(v, Ledgers.Return(k, true), h, h', piles')
    ensures piles' == v.piles && h'.here && !h'.dead && h'.safe == h.safe && h'.gold == s.gold
    ensures h'.progress.level == s.progress.level && h'.progress.experience == s.progress.experience
    ensures i < |h'.slots| && h'.slots[i].item != null
    ensures var was := Occupied(s.slots)[i];
            && was.item != null && h'.slots[i].item.name == was.item.name && h'.slots[i].item.kind == was.item.kind
            && h'.slots[i].quantity == was.quantity && h'.slots[i].equipped == was.equipped
  {
    hide Occupied;
  }

  /** A beginner has no gold, no items, and the full vitals of the first level. */
  lemma Begins(v: Scene, k: nat, h: Hand, h': Hand, piles': Piles, kindred: nat)
    requires 0 < v.divisor && |v.saves| == |v.hands| && k < |v.hands| && !h.here && kindred < |v.kinds|
    requires Moves(v, Ledgers.Begin(k, kindred, true), h, h', piles')
    ensures piles' == v.piles && h'.here && !h'.dead && h'.gold == 0 && h'.safe == h.safe
    ensures h'.rules == v.kinds[kindred].rules && h'.caster == v.kinds[kindred].caster
    ensures h'.progress.level == 1 && h'.progress.experience == 0
    ensures h'.progress.hp == h'.progress.maxHp == v.kinds[kindred].rules.maxHp(1)
    ensures h'.progress.mana == h'.progress.maxMana == v.kinds[kindred].rules.maxMana(1)
    ensures |h'.slots| == v.kinds[kindred].rules.maxItems
    ensures forall i | 0 <= i < |h'.slots| :: h'.slots[i] == Slot(null, 0, None)
  {
  }

  /** An autosave has everybody who is here as they are, and nobody else, unless it is not written. */
  lemma Autosaves(v: Scene, v': Scene, elsewhere: bool, k: nat)
    requires Follows(v, Ledgers.Autosave(elsewhere), v') && k < |v.hands|
    ensures v'.hands == v.hands && v'.piles == v.piles
    ensures v.hands[k].here ==> v'.saves[k] == Some(v.hands[k])
    ensures !v.hands[k].here ==> v'.saves[k] == None || v'.saves == v.saves
    ensures !v.hands[k].here && elsewhere ==> v'.saves[k] == None
  {
  }
}
