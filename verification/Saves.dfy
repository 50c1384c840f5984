/** Saving a player and rebuilding it: what survives the round trip. */
module Saves {
  import opened Prelude
  import opened Bytes
  import opened Names
  import opened Placement
  import opened Items
  import opened Inventories
  import opened Players
  import opened Worlds

  datatype SlotSave = SlotSave(itemName: Text, quantity: nat, equipped: bool)

  datatype PlayerSave = PlayerSave(
    nick: Text, caster: bool, level: nat, xp: nat, maxHp: int, maxMana: int, gold: nat, pos: Position,
    inventory: seq<SlotSave>)

  const LEVELS: nat := 0x1_0000

  function SavedSlot(s: Slot): SlotSave {
    if s.item == null then SlotSave([], 0, false) else SlotSave(s.item.name, Max(s.quantity, 0), s.equipped.Some?)
  }

  function Max(a: int, b: int): int {
    if a < b then b else a
  }

  /** A save keeps 16 bits of the level. */
  method TakeSnapshot(player: Player, pos: Position) returns (save: PlayerSave)
    requires player.Valid()
    ensures save.level == player.level % LEVELS
    ensures save.nick == player.name && save.caster == player.caster && save.xp == player.experience
    ensures save.maxHp == player.maxHp && save.maxMana == player.maxMana && save.gold == player.gold && save.pos == pos
    ensures |save.inventory| == |player.inventory.slots|
    ensures forall i | 0 <= i < |save.inventory| :: save.inventory[i] == SavedSlot(player.inventory.slots[i])
  {
    var slots: seq<SlotSave> := [];
    for i := 0 to |player.inventory.slots|
      invariant |slots| == i
      invariant forall k | 0 <= k < i :: slots[k] == SavedSlot(player.inventory.slots[k])
    {
      var slot := player.inventory.slots[i];
      var saved := SlotSave([], 0, false);
      if slot.item != null {
        saved := SlotSave(slot.item.name, slot.quantity, slot.equipped.Some?);
      }
      slots := slots + [saved];
    }
    save := PlayerSave(player.name, player.caster, player.level % LEVELS, player.experience, player.maxHp,
                       player.maxMana, player.gold, pos, slots);
  }

  /** A slot restored as it was, with another item object. */
  ghost predicate Same(s: Slot, t: Slot) {
    && s.item != null && t.item != null
    && s.item.name == t.item.name && s.item.kind == t.item.kind
    && s.quantity == t.quantity && s.equipped == t.equipped
  }

  /** The occupied slots in their order, and nothing after them. */
  ghost predicate Compacted(slots: seq<Slot>, occupied: seq<Slot>) {
    && |occupied| <= |slots|
    && (forall k | 0 <= k < |occupied| :: Same(slots[k], occupied[k]))
    && (forall k | |occupied| <= k < |slots| :: slots[k] == EMPTY)
  }

  /** Slots of one inventory that may follow each other: no stack merges, and nothing worn is replaced. */
  ghost predicate Separate(occupied: seq<Slot>, next: Slot) {
    forall k | 0 <= k < |occupied| ::
      && occupied[k].item != null
      && (next.item != null && next.item.kind.Potion? ==> occupied[k].item.name != next.item.name)
      && (next.equipped.Some? ==> occupied[k].equipped != next.equipped)
  }

  lemma {:induction false} OccupiedSeparate(reg: Registry, slots: seq<Slot>, i: nat)
    requires Sound(reg, slots) && i < |slots| && slots[i].item != null
    ensures Separate(Occupied(slots[..i]), slots[i])
    ensures |Occupied(slots[..i])| <= i
  {
    OccupiedMembers(slots[..i]);
    forall k | 0 <= k < |Occupied(slots[..i])|
      ensures var s := Occupied(slots[..i])[k];
              && s.item != null
              && (slots[i].item.kind.Potion? ==> s.item.name != slots[i].item.name)
              && (slots[i].equipped.Some? ==> s.equipped != slots[i].equipped)
    {
      var j :| 0 <= j < i && slots[j] == Occupied(slots[..i])[k];
      SameKeySameItem(reg, slots[j].item, slots[i].item);
    }
  }

  lemma {:induction false} OccupiedMembers(slots: seq<Slot>)
    ensures |Occupied(slots)| <= |slots|
    ensures forall k | 0 <= k < |Occupied(slots)| ::
              Occupied(slots)[k].item != null && exists j :: 0 <= j < |slots| && slots[j] == Occupied(slots)[k]
  {
    if slots != [] {
      OccupiedMembers(slots[1..]);
      forall k | 0 <= k < |Occupied(slots)|
        ensures Occupied(slots)[k].item != null && exists j :: 0 <= j < |slots| && slots[j] == Occupied(slots)[k]
      {
        var rest := Occupied(slots[1..]);
        var skip := if slots[0].item != null then 1 else 0;
        if k < skip {
          assert slots[0] == Occupied(slots)[k];
        } else {
          assert Occupied(slots)[k] == rest[k - skip];
          var j :| 0 <= j < |slots[1..]| && slots[1..][j] == rest[k - skip];
          assert slots[j + 1] == Occupied(slots)[k];
        }
      }
    }
  }

  /** Replaying one saved slot appends it: add_item finds the first free slot, and equip toggles and swaps nothing. */
  lemma ReplaySlot(slots: seq<Slot>, occupied: seq<Slot>, s: Slot, item: Item)
    requires Compacted(slots, occupied) && |occupied| < |slots|
    requires s.item != null && item.name == s.item.name && item.kind == s.item.kind
    requires Separate(occupied, s) && !Holds(slots, item)
    requires s.equipped.Some? ==> s.equipped == s.item.kind.Slot()
    ensures CanAdd(slots, item)
    ensures Added(slots, item, s.quantity) == slots[|occupied| := Slot(item, s.quantity, None)]
    ensures s.equipped.None? ==> Compacted(Added(slots, item, s.quantity), occupied + [s])
    ensures s.equipped.Some? ==>
              && FirstIndex(Added(slots, item, s.quantity), Is(item)) == |occupied|
              && Compacted(Worn(Added(slots, item, s.quantity), |occupied|), occupied + [s])
  {
    var n := |occupied|;
    assert FirstIndex(slots, Free()) == n by {
      assert Free()(slots[n]);
      assert forall k | 0 <= k < n :: !Free()(slots[k]);
    }
    var stack := FirstIndex(slots, Named(item.name));
    if item.kind.Slot().None? {
      assert forall k | 0 <= k < |slots| :: !Named(item.name)(slots[k]);
    }
    var added := Added(slots, item, s.quantity);
    assert added == slots[n := Slot(item, s.quantity, None)];
    if s.equipped.Some? {
      WornAtEnd(slots, occupied, s, item);
    }
  }

  lemma WornAtEnd(slots: seq<Slot>, occupied: seq<Slot>, s: Slot, item: Item)
    requires Compacted(slots, occupied) && |occupied| < |slots|
    requires s.item != null && item.name == s.item.name && item.kind == s.item.kind
    requires Separate(occupied, s) && !Holds(slots, item)
    requires s.equipped.Some? && s.equipped == s.item.kind.Slot()
    ensures var added := slots[|occupied| := Slot(item, s.quantity, None)];
            && FirstIndex(added, Is(item)) == |occupied|
            && Compacted(Worn(added, |occupied|), occupied + [s])
  {
    var n := |occupied|;
    var added := slots[n := Slot(item, s.quantity, None)];
    assert Is(item)(added[n]);
    assert forall k | 0 <= k < n :: !Is(item)(added[k]);
    var e := s.equipped.value;
    assert forall k | 0 <= k < |added| :: !WearingOther(e, item)(added[k]);
    assert Worn(added, n) == added[n := added[n].(equipped := Some(e))];
  }

  /** The level a restored player starts from, before its experience is replayed. */
  function StartLevel(save: PlayerSave): nat {
    if save.level > 1 then save.level else 1
  }

  function StartHp(save: PlayerSave): int {
    if save.maxHp > 0 then save.maxHp else 1
  }

  function StartMana(save: PlayerSave): int {
    if save.maxMana > 0 then save.maxMana else 0
  }

  /** Level, vitals and gold, written over those of a new player. */
  method Prime(player: Player, save: PlayerSave)
    requires player.level == 1 && player.gold == 0
    modifies player`level, player`gold, player`hp, player`maxHp, player`mana, player`maxMana
    ensures player.level == StartLevel(save)
    ensures player.hp == player.maxHp == StartHp(save) && player.mana == player.maxMana == StartMana(save)
    ensures player.gold == Min(save.gold, player.rules.goldCap(StartLevel(save)))
  {
    if save.level > 1 {
      player.level := save.level;
    }
    player.SetInitialStats(if save.maxHp > 0 then save.maxHp else 1, if save.maxMana > 0 then save.maxMana else 0);
    if save.gold > 0 {
      player.AddGold(save.gold);
    }
  }

  /** The progress of a player of this save: the saved experience on top of the saved level and vitals. */
  ghost function Reborn(rules: Rules, save: PlayerSave): Progress
    requires rules.Valid()
  {
    Reach(rules, Progress(StartLevel(save), 0, StartHp(save), StartHp(save), StartMana(save), StartMana(save)), save.xp)
  }

  /** The saved experience, where it is any. */
  method ReplayExperience(player: Player, xp: nat)
    requires player.rules.Valid() && 0 < player.level && player.experience == 0
    modifies player
    ensures player.Progressed() == Reach(player.rules, old(player.Progressed()), xp)
    ensures player.gold == old(player.gold) && player.dead == old(player.dead)
  {
    if xp > 0 {
      player.AddExperience(xp);
    } else {
      ReplayedLevel(player.rules, player.level, 0, player.level);
    }
  }

  /** Replaying experience from a level at or below the one it fits ends at that level. */
  lemma ReplayedLevel(rules: Rules, start: nat, xp: nat, level: nat)
    requires rules.Valid() && 0 < start <= level && xp < rules.levelLimit(level)
    requires level == start || rules.Levelled(level, xp)
    ensures LevelFor(rules, start, xp) == level
    ensures rules.Levelled(level, xp) && xp == 0 ==> level == start
  {
    LevelForFits(rules, start, xp);
    var reached := LevelFor(rules, start, xp);
    if reached != start {
      if level == start {
        assert false;
      }
      LevelIsDetermined(rules, xp, reached, level);
    } else if level != start {
      FloorAboveLimit(rules, start, level);
    }
  }

  /** A replayed player fits its level exactly when the experience reaches the level it was replayed from. */
  lemma RebornFits(rules: Rules, save: PlayerSave)
    requires rules.Valid()
    ensures var p := Reborn(rules, save);
            rules.Levelled(p.level, p.experience) <==> rules.Floor(StartLevel(save)) <= save.xp
    ensures StartLevel(save) <= Reborn(rules, save).level && Reborn(rules, save).experience == save.xp
    ensures Reborn(rules, save).hp == Reborn(rules, save).maxHp > 0
    ensures Reborn(rules, save).mana == Reborn(rules, save).maxMana >= 0
  {
    LevelForFits(rules, StartLevel(save), save.xp);
  }

  /** Level, vitals, gold and experience, replayed in this order. */
  method RebuildStats(save: PlayerSave, id: nat, rules: Rules, reg: Registry) returns (player: Player)
    requires rules.Valid() && reg.Valid()
    ensures fresh(player) && fresh(player.inventory) && !player.dead && player.id == id
    ensures player.Valid() <==> rules.Floor(StartLevel(save)) <= save.xp
    ensures player.name == save.nick && player.caster == save.caster && player.rules == rules
    ensures player.Progressed() == Reborn(rules, save)
    ensures player.gold == Min(save.gold, rules.goldCap(StartLevel(save)))
    ensures player.inventory.Valid() && player.inventory.registry == reg
    ensures |player.inventory.slots| == rules.maxItems
    ensures forall k | 0 <= k < |player.inventory.slots| :: player.inventory.slots[k] == EMPTY
  {
    player := new Player(id, save.nick, save.caster, rules, reg);
    Prime(player, save);
    ReplayExperience(player, save.xp);
    RebornFits(rules, save);
  }

  method ReplayAdd(inventory: Inventory, saved: SlotSave, ghost occupied: seq<Slot>, ghost s: Slot) returns (item: Item)
    requires inventory.Valid()
    requires Compacted(inventory.slots, occupied) && |occupied| < |inventory.slots|
    requires s.item != null && saved == SavedSlot(s) && Separate(occupied, s) && 0 < s.quantity
    requires inventory.registry.Knows(s.item) && (s.equipped.Some? ==> s.equipped == s.item.kind.Slot())
    modifies inventory
    ensures inventory.Valid() && |inventory.slots| == |old(inventory.slots)|
    ensures Holds(inventory.slots, item) && item.kind == s.item.kind
    ensures fresh(item) && forall x | Holds(inventory.slots, x) :: x == item || Holds(old(inventory.slots), x)
    ensures s.equipped.None? ==> Compacted(inventory.slots, occupied + [s])
    ensures s.equipped.Some? ==>
              && FirstIndex(inventory.slots, Is(item)) == |occupied|
              && Compacted(Worn(inventory.slots, |occupied|), occupied + [s])
  {
    item := inventory.registry.Create(saved.itemName);
    assert !Holds(inventory.slots, item);
    ReplaySlot(inventory.slots, occupied, s, item);
    var _ := inventory.AddItem(item, Max(1, saved.quantity));
    assert inventory.slots[|occupied|].item == item;
    forall x | Holds(inventory.slots, x)
      ensures x == item || Holds(old(inventory.slots), x)
    {
      var j :| 0 <= j < |inventory.slots| && inventory.slots[j].item == x;
      assert j != |occupied| ==> old(inventory.slots)[j].item == x;
    }
  }

  /** One saved slot that is not empty: create the item, add it, and put it on if it was on. */
  method Replay(inventory: Inventory, saved: SlotSave, ghost occupied: seq<Slot>, ghost s: Slot)
    requires inventory.Valid()
    requires Compacted(inventory.slots, occupied) && |occupied| < |inventory.slots|
    requires s.item != null && saved == SavedSlot(s) && Separate(occupied, s) && 0 < s.quantity
    requires inventory.registry.Knows(s.item) && (s.equipped.Some? ==> s.equipped == s.item.kind.Slot())
    modifies inventory
    ensures inventory.Valid()
    ensures Compacted(inventory.slots, occupied + [s])
    ensures |inventory.slots| == |old(inventory.slots)|
    ensures forall x | Holds(inventory.slots, x) :: fresh(x) || Holds(old(inventory.slots), x)
  {
    var item := ReplayAdd(inventory, saved, occupied, s);
    ghost var added := inventory.slots;
    if saved.equipped {
      var _ := inventory.Equip(item);
      WornHolds(inventory.registry, added, |occupied|);
    }
  }

  lemma WornHolds(reg: Registry, slots: seq<Slot>, i: nat)
    requires Sound(reg, slots) && i < |slots| && slots[i].item != null && slots[i].item.kind.Slot().Some?
    ensures forall x | Holds(Worn(slots, i), x) :: Holds(slots, x)
  {
    WornSlots(reg, slots, i);
    forall x | Holds(Worn(slots, i), x)
      ensures Holds(slots, x)
    {
      var j :| 0 <= j < |slots| && Worn(slots, i)[j].item == x;
      assert slots[j].item == x;
    }
  }

  /** Registries that have the same template under every name both have. */
  ghost predicate Agree(a: Registry, b: Registry) {
    forall key | key in a.templates && key in b.templates :: a.templates[key] == b.templates[key]
  }

  /** A save of this inventory, which was sound when it was taken. */
  ghost predicate SavedFrom(inventory: seq<SlotSave>, before: Registry, original: seq<Slot>) {
    && before.Valid() && Sound(before, original) && |original| == |inventory|
    && forall i | 0 <= i < |original| :: inventory[i] == SavedSlot(original[i])
  }

  /** Every item of a save can still be created. */
  predicate AllKnown(reg: Registry, inventory: seq<SlotSave>) {
    forall i | 0 <= i < |inventory| && inventory[i].itemName != [] :: reg.Exists(inventory[i].itemName)
  }

  lemma KnownStill(before: Registry, reg: Registry, item: Item)
    requires before.Valid() && before.Knows(item) && Agree(before, reg) && reg.Exists(item.name)
    ensures reg.Knows(item) && item.name != []
  {
    hide Normalize;
  }

  lemma NamedIfOccupied(before: Registry, s: Slot)
    requires before.Valid() && (s.item != null ==> before.Knows(s.item))
    ensures SavedSlot(s).itemName == [] <==> s.item == null
  {
  }

  /** The saved slots in order, up to the first whose item cannot be created: that one ends it all. */
  method RebuildInventory(inventory: Inventory, saved: seq<SlotSave>, ghost before: Registry,
                          ghost original: seq<Slot>)
    returns (complete: bool)
    requires inventory.Valid() && SavedFrom(saved, before, original) && Agree(before, inventory.registry)
    requires |inventory.slots| == |saved|
    requires forall k | 0 <= k < |inventory.slots| :: inventory.slots[k] == EMPTY
    modifies inventory
    ensures inventory.Valid() && |inventory.slots| == |saved|
    ensures complete <==> AllKnown(inventory.registry, saved)
    ensures complete ==> Compacted(inventory.slots, Occupied(original))
    ensures forall x | Holds(inventory.slots, x) :: fresh(x)
  {
    hide Separate, Normalize;
    for i := 0 to |saved|
      invariant inventory.Valid() && |inventory.slots| == |saved|
      invariant Compacted(inventory.slots, Occupied(original[..i]))
      invariant AllKnown(inventory.registry, saved[..i])
      invariant forall x | Holds(inventory.slots, x) :: fresh(x)
    {
      ExtendOccupied(original, i);
      NamedIfOccupied(before, original[i]);
      if saved[i].itemName == [] {
        continue;
      }
      if !inventory.registry.Exists(saved[i].itemName) {
        return false;
      }
      KnownStill(before, inventory.registry, original[i].item);
      OccupiedSeparate(before, original, i);
      Replay(inventory, saved[i], Occupied(original[..i]), original[i]);
    }
    assert original[..|original|] == original && saved[..|saved|] == saved;
    return true;
  }

  lemma ExtendOccupied(slots: seq<Slot>, i: nat)
    requires i < |slots|
    ensures Occupied(slots[..i + 1]) == Occupied(slots[..i]) + if slots[i].item != null then [slots[i]] else []
  {
    assert slots[..i + 1] == slots[..i] + [slots[i]];
    OccupiedConcat(slots[..i], [slots[i]]);
  }

  datatype RestoreError = UNKNOWN_ITEM | REFUSED(error: AddError)

  /** A player of this save, standing where it was saved; or nothing, if that cell is taken or an item unknown. */
  method Restore(world: World, id: nat, save: PlayerSave, rules: Rules, reg: Registry,
                 ghost before: Registry, ghost original: seq<Slot>)
    returns (r: Result<Player, RestoreError>)
    requires world.Valid() && rules.Valid() && reg.Valid()
    requires SavedFrom(save.inventory, before, original) && Agree(before, reg) && |original| == rules.maxItems
    modifies world, world.occupied
    ensures world.Valid() && world.occupied == old(world.occupied)
    ensures r.Ok? <==> id !in old(world.players) && AllKnown(reg, save.inventory) && save.pos in old(world.Vacant())
    ensures r == Err(UNKNOWN_ITEM) <==> id !in old(world.players) && !AllKnown(reg, save.inventory)
    ensures r.Ok? ==>
              && world.players == old(world.players)[id := Character(save.pos, false, DOWN, false, Hero)]
              && world.npcs == old(world.npcs) && world.pending == old(world.pending)
              && fresh(r.value) && !r.value.dead
              && (r.value.Valid() <==> rules.Floor(StartLevel(save)) <= save.xp)
              && r.value.name == save.nick && r.value.rules == rules && r.value.inventory.registry == reg
              && r.value.Progressed() == Reborn(rules, save)
              && r.value.gold == Min(save.gold, rules.goldCap(StartLevel(save)))
              && Compacted(r.value.inventory.slots, Occupied(original))
    ensures r.Err? ==> unchanged(world) && unchanged(world.occupied)
  {
    if id in world.players {
      return Err(REFUSED(DUPLICATE_ID));
    }
    var player := RebuildStats(save, id, rules, reg);
    var complete := RebuildInventory(player.inventory, save.inventory, before, original);
    if !complete {
      return Err(UNKNOWN_ITEM);
    }
    var error := world.AddPlayer(id, Character(save.pos, false, DOWN, false, Hero));
    if error.Some? {
      return Err(REFUSED(error.value));
    }
    return Ok(player);
  }

  lemma LowLevels(level: nat)
    ensures level % LEVELS <= level
    ensures level < LEVELS ==> level % LEVELS == level
  {
  }

  /** The gold that comes back of a save. */
  function GoldBack(rules: Rules, level: nat, gold: nat): int {
    Min(gold, rules.goldCap(if level % LEVELS > 1 then level % LEVELS else 1))
  }

  /** A level above 16 bits: the save starts over at level 1, whose cap takes gold that was fairly held. */
  lemma HighLevelLosesGold(rules: Rules)
    requires rules.Valid() && rules.goldCap(1) < rules.goldCap(LEVELS)
    ensures GoldBack(rules, LEVELS, rules.goldCap(LEVELS)) < rules.goldCap(LEVELS)
    ensures rules.Levelled(LEVELS, rules.Floor(LEVELS))
  {
  }

  /**
   * A save restored into its free cell, provided that every item carried can still be created: level and experience
   * come back, and the whole inventory in order without its gaps. Gold comes back exactly when it fits under the cap of
   * the 16-bit level the save starts from, so with the maximum vitals for every level below 65536.
   */
  method SaveAndRestore(player: Player, pos: Position, world: World, id: nat, reg: Registry)
    returns (r: Result<Player, RestoreError>)
    requires player.Valid() && |player.inventory.slots| == player.rules.maxItems
    requires world.Valid() && reg.Valid() && Agree(player.inventory.registry, reg)
    modifies world, world.occupied
    ensures world.Valid() && world.occupied == old(world.occupied)
    ensures r.Ok? <==>
              id !in old(world.players) && CarriesKnown(reg, player.inventory.slots) && pos in old(world.Vacant())
    ensures r == Err(UNKNOWN_ITEM) <==> id !in old(world.players) && !CarriesKnown(reg, player.inventory.slots)
    ensures r.Ok? ==>
              && world.players == old(world.players)[id := Character(pos, false, DOWN, false, Hero)]
              && world.npcs == old(world.npcs) && world.pending == old(world.pending)
              && r.value.Valid() && r.value.name == player.name
              && r.value.level == player.level && r.value.experience == player.experience
              && r.value.gold == GoldBack(player.rules, player.level, player.gold)
              && (player.level < LEVELS ==>
                    r.value.gold == player.gold && r.value.maxHp == player.maxHp && r.value.maxMana == player.maxMana)
              && Compacted(r.value.inventory.slots, Occupied(player.inventory.slots))
    ensures r.Ok? ==>
              var was, now := Occupied(player.inventory.slots), r.value.inventory.slots;
              && |was| <= |now| && (forall i | |was| <= i < |now| :: now[i] == Slot(null, 0, None))
              && forall i | 0 <= i < |was| ::
                   && now[i].item != null && was[i].item != null
                   && now[i].item.name == was[i].item.name && now[i].item.kind == was[i].item.kind
                   && now[i].quantity == was[i].quantity && now[i].equipped == was[i].equipped
    ensures r.Err? ==> unchanged(world) && unchanged(world.occupied)
  {
    hide Occupied, Sound, Normalize, Agree, World.Vacant;
    var save := TakeSnapshot(player, pos);
    LowLevels(player.level);
    RebornAgain(player.rules, save, player.level);
    CarriedIsSaved(player.inventory.registry, reg, player.inventory.slots, save.inventory);
    r := Restore(world, id, save, player.rules, reg, player.inventory.registry, player.inventory.slots);
  }

  /** Every item carried can still be created. */
  predicate CarriesKnown(reg: Registry, slots: seq<Slot>) {
    forall i | 0 <= i < |slots| && slots[i].item != null :: reg.Exists(slots[i].item.name)
  }

  lemma CarriedIsSaved(before: Registry, reg: Registry, slots: seq<Slot>, saved: seq<SlotSave>)
    requires SavedFrom(saved, before, slots)
    ensures AllKnown(reg, saved) <==> CarriesKnown(reg, slots)
  {
    forall i | 0 <= i < |slots|
      ensures saved[i].itemName == [] <==> slots[i].item == null
    {
      NamedIfOccupied(before, slots[i]);
    }
  }

  /** The level a player had when saved is the level it is replayed to. */
  lemma RebornAgain(rules: Rules, save: PlayerSave, level: nat)
    requires rules.Valid() && rules.Levelled(level, save.xp) && save.level == level % LEVELS
    ensures Reborn(rules, save).level == level && rules.Floor(StartLevel(save)) <= save.xp
    ensures level < LEVELS ==>
              Reborn(rules, save).maxHp == StartHp(save) && Reborn(rules, save).maxMana == StartMana(save)
  {
    LowLevels(level);
    ReplayedLevel(rules, StartLevel(save), save.xp, level);
    RebornFits(rules, save);
  }

  const SWORD: Text := [0x73]
  const POTION: Text := [0x70]

  function OneStall(): Registry {
    Registry(map[SWORD := Items.Template(SWORD, Weapon, 1)])
  }

  function TwoStalls(): Registry {
    Registry(OneStall().templates[POTION := Items.Template(POTION, Potion(true, 5), 1)])
  }

  function PlainRules(): Rules {
    Rules(l => 10 * l, l => 100 * l, l => 10, x => 0, l => 10, l => 0, 2)
  }

  lemma Stalls()
    ensures Normalize(SWORD) == SWORD && Normalize(POTION) == POTION
    ensures OneStall().Valid() && TwoStalls().Valid() && Agree(TwoStalls(), OneStall())
    ensures OneStall().Exists(SWORD) && TwoStalls().Exists(SWORD) && TwoStalls().Exists(POTION)
    ensures !OneStall().Exists(POTION)
  {
    assert Lower(0x73) == 0x73 && Lower(0x70) == 0x70;
    assert Normalize(SWORD[1..]) == [] && Normalize(POTION[1..]) == [];
  }

  method Shopper() returns (player: Player)
    ensures fresh(player) && fresh(player.inventory) && player.Valid()
    ensures player.inventory.registry == TwoStalls() && player.rules == PlainRules()
    ensures |player.inventory.slots| == 2
    ensures player.inventory.slots[0].item != null && player.inventory.slots[0].item.name == SWORD
    ensures player.inventory.slots[1].item != null && player.inventory.slots[1].item.name == POTION
    ensures player.inventory.slots[1].quantity == 1 && !player.dead && player.hp == 10
  {
    Stalls();
    hide Normalize, Lower, Sound;
    player := new Player(1, SWORD, false, PlainRules(), TwoStalls());
    var sword := TwoStalls().Create(SWORD);
    var _ := player.inventory.AddItem(sword, 1);
    var potion := TwoStalls().Create(POTION);
    var _ := player.inventory.AddItem(potion, 1);
  }

  /** A player with a sword and a potion, and a registry that has lost the potion: not even the sword comes back. */
  method OneLostItem() returns (world: World, r: Result<Player, RestoreError>)
    ensures OneStall().Exists(SWORD) && r == Err(UNKNOWN_ITEM)
    ensures world.players == map[] && Position(0, 0) in world.Vacant()
  {
    Stalls();
    hide Normalize, Sound;
    var player := Shopper();
    world := new World(WorldMap(1, 1, {}, map[], []), 0);
    assert world.terrain.Cells() == {Position(0, 0)};
    r := SaveAndRestore(player, Position(0, 0), world, 1, OneStall());
  }
}
