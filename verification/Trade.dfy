/** The bank and the city NPCs: every operation moves gold and items, or leaves both as they were. */
module Trade {
  import opened Prelude
  import opened Bytes
  import opened Names
  import opened Items
  import opened Inventories
  import opened Players

  datatype Safe = Safe(items: seq<Item>, gold: nat)

  /** Items of a safe filed under this normalized name. */
  function Stored(items: seq<Item>, key: Text): nat {
    if items == [] then 0 else (if Normalize(items[0].name) == key then 1 else 0) + Stored(items[1..], key)
  }

  lemma {:induction false} StoredConcat(a: seq<Item>, b: seq<Item>, key: Text)
    ensures Stored(a + b, key) == Stored(a, key) + Stored(b, key)
  {
    if a == [] {
      assert a + b == b;
    } else {
      StoredConcat(a[1..], b, key);
      assert (a + b)[1..] == a[1..] + b;
    }
  }

  function Called(key: Text): Item -> bool {
    (item: Item) => Normalize(item.name) == key
  }

  /** Known items, each once. */
  ghost predicate KnownOnce(reg: Registry, items: seq<Item>) {
    && (forall k | 0 <= k < |items| :: reg.Knows(items[k]))
    && (forall j, k | 0 <= j < k < |items| :: items[j] != items[k])
  }

  lemma KnownOnceWithout(reg: Registry, items: seq<Item>, i: nat)
    requires KnownOnce(reg, items) && i < |items|
    ensures KnownOnce(reg, items[..i] + items[i + 1..])
    ensures items[i] !in items[..i] + items[i + 1..]
    ensures forall x | x in items[..i] + items[i + 1..] :: x in items
  {
  }

  lemma StoredWithout(items: seq<Item>, i: nat, key: Text)
    requires i < |items|
    ensures Stored(items[..i] + items[i + 1..], key)
            == Stored(items, key) - if Normalize(items[i].name) == key then 1 else 0
  {
    StoredConcat(items[..i], items[i + 1..], key);
    StoredConcat(items[..i], items[i..], key);
    assert items == items[..i] + items[i..];
  }

  class Bank {
    var safes: map<nat, Safe>

    /** A player's safe; one that was never opened is empty. */
    function SafeOf(id: nat): Safe
      reads this
    {
      if id in safes then safes[id] else Safe([], 0)
    }

    ghost predicate Valid(reg: Registry)
      reads this
    {
      forall id | id in safes :: KnownOnce(reg, safes[id].items)
    }

    constructor ()
      ensures safes == map[]
    {
      safes := map[];
    }

    method DepositGold(id: nat, amount: nat) returns (done: bool)
      modifies this
      ensures done <==> 0 < amount
      ensures safes == if done then old(safes)[id := old(SafeOf(id)).(gold := old(SafeOf(id)).gold + amount)]
                       else old(safes)
    {
      if amount == 0 {
        return false;
      }
      safes := safes[id := SafeOf(id).(gold := SafeOf(id).gold + amount)];
      return true;
    }

    method WithdrawGold(id: nat, amount: nat) returns (done: bool)
      modifies this
      ensures done <==> id in old(safes) && amount <= old(SafeOf(id)).gold
      ensures safes == if done then old(safes)[id := old(SafeOf(id)).(gold := old(SafeOf(id)).gold - amount)]
                       else old(safes)
    {
      if id !in safes || safes[id].gold < amount {
        return false;
      }
      safes := safes[id := safes[id].(gold := safes[id].gold - amount)];
      return true;
    }

    method DepositItem(id: nat, item: Item)
      modifies this
      ensures safes == old(safes)[id := old(SafeOf(id)).(items := old(SafeOf(id)).items + [item])]
    {
      safes := safes[id := SafeOf(id).(items := SafeOf(id).items + [item])];
    }

    /** Takes out the first item that goes by this name. */
    method WithdrawItem(id: nat, name: Text) returns (item: Item?)
      modifies this
      ensures var items := old(SafeOf(id)).items;
              var k := FirstIndex(items, Called(Normalize(name)));
              if k == -1 then item == null && safes == old(safes)
              else && item == items[k]
                   && safes == old(safes)[id := old(SafeOf(id)).(items := items[..k] + items[k + 1..])]
    {
      if id !in safes {
        return null;
      }
      var key := NormalizeName(name);
      var items := safes[id].items;
      for k := 0 to |items|
        invariant safes == old(safes)
        invariant forall j | 0 <= j < k :: !Called(key)(items[j])
      {
        var candidate := NormalizeName(items[k].name);
        if candidate == key {
          safes := safes[id := safes[id].(items := items[..k] + items[k + 1..])];
          assert FirstIndex(items, Called(key)) == k;
          return items[k];
        }
      }
      return null;
    }
  }

  datatype Status =
    | SUCCESS | INSUFFICIENT_GOLD | INVENTORY_FULL | ITEM_NOT_FOUND | NOT_ALLOWED | PLAYER_DEAD
    | PLAYER_NOT_DEAD | ALREADY_FULL | INVALID_AMOUNT

  datatype Reply = Reply(status: Status, itemName: Text, gold: nat)

  function Refusal(status: Status): Reply {
    Reply(status, [], 0)
  }

  /** An item of this name can be taken in. */
  predicate Room(reg: Registry, slots: seq<Slot>, name: Text)
    requires reg.Exists(name)
  {
    || (reg.templates[Normalize(name)].kind.Slot().None? && FirstIndex(slots, Named(reg.DisplayName(name))) != -1)
    || FirstIndex(slots, Free()) != -1
  }

  lemma RoomForKnown(reg: Registry, slots: seq<Slot>, item: Item, name: Text)
    requires reg.Knows(item) && Normalize(item.name) == Normalize(name)
    ensures Room(reg, slots, name) <==> CanAdd(slots, item)
    ensures item.name == reg.DisplayName(name)
  {
  }

  /** The answer to a purchase, whatever the seller sells. */
  function Offer(reg: Registry, dead: bool, gold: nat, slots: seq<Slot>, name: Text, sold: bool): Status {
    if dead then PLAYER_DEAD
    else if !reg.Exists(name) then ITEM_NOT_FOUND
    else if !sold then NOT_ALLOWED
    else if gold < reg.Price(name) then INSUFFICIENT_GOLD
    else if !Room(reg, slots, name) then INVENTORY_FULL
    else SUCCESS
  }

  /** An item of this template can be taken in exactly when a slot is empty, or there is a stack of that potion. */
  lemma RoomWhen(reg: Registry, slots: seq<Slot>, name: Text, t: Template)
    requires reg.Valid() && t in reg.templates.Values && Normalize(name) == Normalize(t.name)
    ensures Room(reg, slots, name) <==>
              || (exists i | 0 <= i < |slots| :: slots[i].item == null)
              || (t.kind.Potion? && exists i | 0 <= i < |slots| ::
                    slots[i].item != null && slots[i].item.name == t.name)
  {
    if i :| 0 <= i < |slots| && slots[i].item == null {
      assert Free()(slots[i]);
    }
    if i :| 0 <= i < |slots| && slots[i].item != null && slots[i].item.name == t.name {
      assert Named(t.name)(slots[i]);
    }
  }

  /** Each answer to a purchase exactly in its case, by the template the name goes by. */
  lemma OfferAnswers(reg: Registry, dead: bool, gold: nat, slots: seq<Slot>, name: Text, sold: bool)
    requires reg.Valid()
    ensures var a := Offer(reg, dead, gold, slots, name, sold);
            && (a == PLAYER_DEAD <==> dead)
            && (a == ITEM_NOT_FOUND <==>
                  !dead && forall t | t in reg.templates.Values :: Normalize(t.name) != Normalize(name))
    ensures forall t | t in reg.templates.Values && Normalize(t.name) == Normalize(name) && !dead ::
              var a := Offer(reg, dead, gold, slots, name, sold);
              && (a == NOT_ALLOWED <==> !sold)
              && (a == INSUFFICIENT_GOLD <==> sold && gold < t.price)
              && (a == SUCCESS <==> sold && t.price <= gold && Room(reg, slots, name))
              && (a == INVENTORY_FULL <==> sold && t.price <= gold && !Room(reg, slots, name))
  {
    if reg.Exists(name) {
      assert reg.templates[Normalize(name)] in reg.templates.Values;
    }
  }

  function Answer(player: Player, name: Text, sold: bool): Status
    reads player, player.inventory
  {
    Offer(player.inventory.registry, player.dead, player.gold, player.inventory.slots, name, sold)
  }

  /** One unit of this name came in, onto its stack or into a free slot. */
  ghost predicate Bought(reg: Registry, slots: seq<Slot>, name: Text, slots': seq<Slot>) {
    exists i | 0 <= i < |slots'| && slots'[i].item != null ::
      && reg.Knows(slots'[i].item) && Normalize(slots'[i].item.name) == Normalize(name)
      && CanAdd(slots, slots'[i].item) && slots' == Added(slots, slots'[i].item, 1)
  }

  lemma BoughtIfAdded(reg: Registry, slots: seq<Slot>, name: Text, item: Item)
    requires Sound(reg, slots) && reg.Knows(item) && Normalize(item.name) == Normalize(name) && CanAdd(slots, item)
    ensures Bought(reg, slots, name, Added(slots, item, 1))
  {
    hide Normalize;
    var stack := FirstIndex(slots, Named(item.name));
    var slots' := Added(slots, item, 1);
    var i := if item.kind.Slot().None? && stack != -1 then stack else FirstIndex(slots, Free());
    assert slots'[i].item != null && slots'[i].item.name == item.name && slots'[i].item.kind == item.kind;
    assert Added(slots, slots'[i].item, 1) == slots';
  }

  /** Charges for an item and hands it over; the charge is undone when there is no room. */
  method Purchase(name: Text, player: Player) returns (reply: Reply)
    requires player.Valid() && player.inventory.registry.Exists(name) && !player.dead
    modifies player`gold, player.inventory
    ensures player.Valid()
    ensures reply.status == old(Answer(player, name, true))
    ensures reply.status != SUCCESS ==>
              player.gold == old(player.gold) && player.inventory.slots == old(player.inventory.slots)
    ensures reply.status == SUCCESS ==>
              && reply.gold == player.inventory.registry.Price(name)
              && reply.itemName == player.inventory.registry.DisplayName(name)
              && player.gold == old(player.gold) - reply.gold
              && forall key :: Units(player.inventory.slots, key)
                               == Units(old(player.inventory.slots), key) + if key == Normalize(name) then 1 else 0
    ensures reply.status == SUCCESS ==>
              Bought(player.inventory.registry, old(player.inventory.slots), name, player.inventory.slots)
    ensures forall x | Holds(player.inventory.slots, x) :: Holds(old(player.inventory.slots), x) || fresh(x)
  {
    hide Units, Normalize, FirstIndex, Bought, Added, CanAdd, Sound;
    var reg := player.inventory.registry;
    var price := reg.Price(name);
    var paid := player.RemoveGold(price);
    if !paid {
      return Refusal(INSUFFICIENT_GOLD);
    }
    var item := reg.Create(name);
    RoomForKnown(reg, player.inventory.slots, item, name);
    var room := player.inventory.CanAddItem(item);
    if !room {
      player.AddGold(price);
      return Refusal(INVENTORY_FULL);
    }
    BoughtIfAdded(reg, player.inventory.slots, name, item);
    GiveUnit(player, item);
    return Reply(SUCCESS, item.name, price);
  }

  method MerchantBuy(name: Text, player: Player) returns (reply: Reply)
    requires player.Valid()
    modifies player`gold, player.inventory
    ensures player.Valid()
    ensures reply.status == old(Answer(player, name, !player.inventory.registry.IsMagicWeapon(name)))
    ensures reply.status != SUCCESS ==>
              player.gold == old(player.gold) && player.inventory.slots == old(player.inventory.slots)
    ensures reply.status == SUCCESS ==>
              && reply.gold == player.inventory.registry.Price(name)
              && player.gold == old(player.gold) - reply.gold
              && forall key :: Units(player.inventory.slots, key)
                               == Units(old(player.inventory.slots), key) + if key == Normalize(name) then 1 else 0
    ensures reply.status == SUCCESS ==>
              Bought(player.inventory.registry, old(player.inventory.slots), name, player.inventory.slots)
    ensures forall x | Holds(player.inventory.slots, x) :: Holds(old(player.inventory.slots), x) || fresh(x)
  {
    var reg := player.inventory.registry;
    if player.dead {
      return Refusal(PLAYER_DEAD);
    }
    if !reg.Exists(name) {
      return Refusal(ITEM_NOT_FOUND);
    }
    if reg.IsMagicWeapon(name) {
      return Refusal(NOT_ALLOWED);
    }
    reply := Purchase(name, player);
  }

  method PriestBuy(name: Text, player: Player) returns (reply: Reply)
    requires player.Valid()
    modifies player`gold, player.inventory
    ensures player.Valid()
    ensures var reg := player.inventory.registry;
            reply.status == old(Answer(player, name, reg.IsPotion(name) || reg.IsMagicWeapon(name)))
    ensures reply.status != SUCCESS ==>
              player.gold == old(player.gold) && player.inventory.slots == old(player.inventory.slots)
    ensures reply.status == SUCCESS ==>
              && reply.gold == player.inventory.registry.Price(name)
              && player.gold == old(player.gold) - reply.gold
              && forall key :: Units(player.inventory.slots, key)
                               == Units(old(player.inventory.slots), key) + if key == Normalize(name) then 1 else 0
    ensures reply.status == SUCCESS ==>
              Bought(player.inventory.registry, old(player.inventory.slots), name, player.inventory.slots)
    ensures forall x | Holds(player.inventory.slots, x) :: Holds(old(player.inventory.slots), x) || fresh(x)
  {
    var reg := player.inventory.registry;
    if player.dead {
      return Refusal(PLAYER_DEAD);
    }
    if !reg.Exists(name) {
      return Refusal(ITEM_NOT_FOUND);
    }
    if !reg.IsPotion(name) && !reg.IsMagicWeapon(name) {
      return Refusal(NOT_ALLOWED);
    }
    reply := Purchase(name, player);
  }

  /** One unit for half its price, or whatever the divisor is; gold above the cap is lost. */
  method MerchantSell(name: Text, player: Player, divisor: nat) returns (reply: Reply)
    requires player.Valid() && 0 < divisor
    modifies player`gold, player.inventory
    ensures player.Valid()
    ensures reply.status != SUCCESS ==>
              player.gold == old(player.gold) && player.inventory.slots == old(player.inventory.slots)
    ensures reply.status ==
            if player.inventory.registry.IsMagicWeapon(name) then NOT_ALLOWED
            else if player.dead then PLAYER_DEAD
            else if FirstIndex(old(player.inventory.slots), Keyed(Normalize(name))) == -1 then ITEM_NOT_FOUND
            else SUCCESS
    ensures reply.status == SUCCESS ==>
              && reply.gold == player.inventory.registry.Price(name) / divisor
              && reply.itemName == player.inventory.registry.DisplayName(name)
              && player.gold == Min(old(player.gold) + reply.gold, player.rules.goldCap(player.level))
              && (forall key :: Units(player.inventory.slots, key)
                                == Units(old(player.inventory.slots), key) - if key == Normalize(name) then 1 else 0)
              && var slots := old(player.inventory.slots);
                 player.inventory.slots == OneLess(slots, FirstIndex(slots, Keyed(Normalize(name))))
  {
    hide Units, Normalize;
    var reg := player.inventory.registry;
    if reg.IsMagicWeapon(name) {
      return Refusal(NOT_ALLOWED);
    }
    if player.dead {
      return Refusal(PLAYER_DEAD);
    }
    var has := player.inventory.HasItemByName(name);
    if !has {
      return Refusal(ITEM_NOT_FOUND);
    }
    ghost var index := FirstIndex(player.inventory.slots, Keyed(Normalize(name)));
    SoundAfterOneLess(reg, player.inventory.slots, index);
    var item := player.inventory.RemoveItemByName(name);
    var sold := if item != null then item.name else reg.DisplayName(name);
    var price := reg.Price(name) / divisor;
    player.AddGold(price);
    return Reply(SUCCESS, sold, price);
  }

  method PriestHeal(player: Player) returns (reply: Reply)
    requires player.Valid()
    modifies player`hp, player`mana
    ensures player.Valid()
    ensures reply.status ==
            if player.dead then PLAYER_DEAD
            else if old(player.hp) == player.maxHp && old(player.mana) == player.maxMana then ALREADY_FULL
            else SUCCESS
    ensures reply.status != SUCCESS ==> player.hp == old(player.hp) && player.mana == old(player.mana)
    ensures reply.status == SUCCESS ==> player.hp == player.maxHp
    ensures reply.status == SUCCESS ==> player.mana == if player.caster then player.maxMana else old(player.mana)
  {
    if player.dead {
      return Refusal(PLAYER_DEAD);
    }
    if player.hp == player.maxHp && player.mana == player.maxMana {
      return Refusal(ALREADY_FULL);
    }
    var _ := player.Heal(player.maxHp);
    player.RestoreMana(player.maxMana);
    return Refusal(SUCCESS);
  }

  method PriestResurrect(player: Player) returns (reply: Reply)
    requires player.Valid()
    modifies player`dead, player`hp, player`mana
    ensures player.Valid() && !player.dead
    ensures reply.status == if old(player.dead) then SUCCESS else PLAYER_NOT_DEAD
    ensures old(player.dead) ==> player.hp == player.maxHp && player.mana == player.maxMana
  {
    if !player.dead {
      return Refusal(PLAYER_NOT_DEAD);
    }
    player.Resurrect();
    return Refusal(SUCCESS);
  }

  /** Gold in hand and in the safe together. */
  ghost function Wealth(player: Player, bank: Bank): nat
    reads player, bank
  {
    player.gold + bank.SafeOf(player.id).gold
  }

  method BankerDepositGold(amount: int, player: Player, bank: Bank) returns (reply: Reply)
    requires player.Valid()
    modifies player`gold, bank
    ensures player.Valid() && Wealth(player, bank) == old(Wealth(player, bank))
    ensures reply.status ==
            if player.dead then PLAYER_DEAD
            else if amount <= 0 then INVALID_AMOUNT
            else if amount > old(player.gold) then INSUFFICIENT_GOLD
            else SUCCESS
    ensures player.gold == if reply.status == SUCCESS then old(player.gold) - amount else old(player.gold)
    ensures reply.status != SUCCESS ==> bank.safes == old(bank.safes)
    ensures forall id | id != player.id :: bank.SafeOf(id) == old(bank.SafeOf(id))
    ensures bank.SafeOf(player.id).items == old(bank.SafeOf(player.id)).items
  {
    if player.dead {
      return Refusal(PLAYER_DEAD);
    }
    if amount <= 0 {
      return Refusal(INVALID_AMOUNT);
    }
    var paid := player.RemoveGold(amount);
    if !paid {
      return Refusal(INSUFFICIENT_GOLD);
    }
    var _ := bank.DepositGold(player.id, amount);
    return Reply(SUCCESS, [], amount);
  }

  /** The safe gives the whole amount; the hand keeps what fits under the cap and the rest is lost. */
  method BankerWithdrawGold(amount: int, player: Player, bank: Bank) returns (reply: Reply)
    requires player.Valid()
    modifies player`gold, bank
    ensures player.Valid()
    ensures reply.status ==
            if player.dead then PLAYER_DEAD
            else if amount <= 0 then INVALID_AMOUNT
            else if amount > old(bank.SafeOf(player.id)).gold then INSUFFICIENT_GOLD
            else SUCCESS
    ensures reply.status != SUCCESS ==> player.gold == old(player.gold) && bank.safes == old(bank.safes)
    ensures reply.status == SUCCESS ==>
              var room := player.rules.goldCap(player.level) - old(player.gold);
              && bank.SafeOf(player.id)
                 == old(bank.SafeOf(player.id)).(gold := old(bank.SafeOf(player.id)).gold - amount)
              && old(Wealth(player, bank)) - Wealth(player, bank) == if amount > room then amount - room else 0
    ensures forall id | id != player.id :: bank.SafeOf(id) == old(bank.SafeOf(id))
  {
    if player.dead {
      return Refusal(PLAYER_DEAD);
    }
    if amount <= 0 {
      return Refusal(INVALID_AMOUNT);
    }
    var given := bank.WithdrawGold(player.id, amount);
    if !given {
      return Refusal(INSUFFICIENT_GOLD);
    }
    player.AddGold(amount);
    return Reply(SUCCESS, [], amount);
  }

  /** Units of an item in the inventory and in the safe together. */
  ghost function Owned(player: Player, bank: Bank, key: Text): int
    reads player, player.inventory, bank
  {
    Units(player.inventory.slots, key) + Stored(bank.SafeOf(player.id).items, key)
  }

  /** No item is in the inventory and in the safe at once. */
  ghost predicate Disjoint(player: Player, bank: Bank)
    reads player, player.inventory, bank
  {
    forall x | x in bank.SafeOf(player.id).items :: !Holds(player.inventory.slots, x)
  }

  /** One unit out of the inventory: the carried item if it was the last, else a new one of the same name. */
  method TakeUnit(player: Player, name: Text) returns (item: Item)
    requires player.inventory.Valid() && FirstIndex(player.inventory.slots, Keyed(Normalize(name))) != -1
    modifies player.inventory
    ensures player.inventory.Valid()
    ensures fresh(item) || Holds(old(player.inventory.slots), item)
    ensures player.inventory.registry.Knows(item) && !Holds(player.inventory.slots, item)
    ensures Normalize(item.name) == Normalize(name) && item.name == player.inventory.registry.DisplayName(name)
    ensures forall x | Holds(player.inventory.slots, x) :: Holds(old(player.inventory.slots), x)
    ensures forall key :: Units(player.inventory.slots, key)
                          == Units(old(player.inventory.slots), key) - if key == Normalize(name) then 1 else 0
    ensures var i := FirstIndex(old(player.inventory.slots), Keyed(Normalize(name)));
            && player.inventory.slots == OneLess(old(player.inventory.slots), i)
            && if old(player.inventory.slots)[i].quantity > 1 then fresh(item)
               else item == old(player.inventory.slots)[i].item
  {
    var reg := player.inventory.registry;
    ghost var before, index := player.inventory.slots, FirstIndex(player.inventory.slots, Keyed(Normalize(name)));
    SoundAfterOneLess(reg, before, index);
    var owned := player.inventory.RemoveItemByName(name);
    forall x | Holds(player.inventory.slots, x)
      ensures Holds(before, x)
    {
      var k :| 0 <= k < |before| && player.inventory.slots[k].item == x;
      assert before[k].item == x;
    }
    if owned != null {
      assert before[index].item == owned;
      return owned;
    }
    item := reg.Create(name);
  }

  method Store(player: Player, bank: Bank, item: Item)
    requires bank.Valid(player.inventory.registry) && Disjoint(player, bank)
    requires player.inventory.registry.Knows(item)
    requires item !in bank.SafeOf(player.id).items && !Holds(player.inventory.slots, item)
    modifies bank
    ensures bank.Valid(player.inventory.registry) && Disjoint(player, bank)
    ensures forall key :: Stored(bank.SafeOf(player.id).items, key)
                          == Stored(old(bank.SafeOf(player.id)).items, key)
                             + if key == Normalize(item.name) then 1 else 0
    ensures bank.SafeOf(player.id) == old(bank.SafeOf(player.id)).(items := old(bank.SafeOf(player.id)).items + [item])
    ensures forall id | id != player.id :: bank.SafeOf(id) == old(bank.SafeOf(id))
  {
    ghost var items := bank.SafeOf(player.id).items;
    bank.DepositItem(player.id, item);
    forall key
      ensures Stored(items + [item], key) == Stored(items, key) + if key == Normalize(item.name) then 1 else 0
    {
      StoredConcat(items, [item], key);
    }
  }

  method Retrieve(player: Player, bank: Bank, name: Text) returns (item: Item?)
    requires bank.Valid(player.inventory.registry) && Disjoint(player, bank)
    modifies bank
    ensures bank.Valid(player.inventory.registry) && Disjoint(player, bank)
    ensures item == null <==> FirstIndex(old(bank.SafeOf(player.id)).items, Called(Normalize(name))) == -1
    ensures item == null ==> bank.safes == old(bank.safes)
    ensures item != null ==>
              && player.inventory.registry.Knows(item) && Normalize(item.name) == Normalize(name)
              && item !in bank.SafeOf(player.id).items && !Holds(player.inventory.slots, item)
              && item in old(bank.SafeOf(player.id)).items
              && (forall x | x in bank.SafeOf(player.id).items :: x in old(bank.SafeOf(player.id)).items)
              && forall key :: Stored(bank.SafeOf(player.id).items, key)
                               == Stored(old(bank.SafeOf(player.id)).items, key)
                                  - if key == Normalize(name) then 1 else 0
    ensures item != null ==>
              var items := old(bank.SafeOf(player.id)).items;
              var k := FirstIndex(items, Called(Normalize(name)));
              item == items[k] && bank.SafeOf(player.id).items == items[..k] + items[k + 1..]
    ensures bank.SafeOf(player.id).gold == old(bank.SafeOf(player.id)).gold
    ensures forall id | id != player.id :: bank.SafeOf(id) == old(bank.SafeOf(id))
  {
    hide Sound, Units, Holds;
    ghost var items := bank.SafeOf(player.id).items;
    ghost var k := FirstIndex(items, Called(Normalize(name)));
    item := bank.WithdrawItem(player.id, name);
    if item != null {
      KnownOnceWithout(player.inventory.registry, items, k);
      forall key
        ensures Stored(items[..k] + items[k + 1..], key)
                == Stored(items, key) - if key == Normalize(name) then 1 else 0
      {
        StoredWithout(items, k, key);
      }
    }
  }

  /** One unit goes to the safe; when it comes off a stack, the safe gets a new item of the same name. */
  method BankerDepositItem(name: Text, player: Player, bank: Bank) returns (reply: Reply)
    requires player.Valid() && bank.Valid(player.inventory.registry) && Disjoint(player, bank)
    modifies player.inventory, bank
    ensures player.Valid() && bank.Valid(player.inventory.registry) && Disjoint(player, bank)
    ensures reply.status ==
            if player.dead then PLAYER_DEAD
            else if FirstIndex(old(player.inventory.slots), Keyed(Normalize(name))) == -1 then ITEM_NOT_FOUND
            else SUCCESS
    ensures reply.status != SUCCESS ==>
              bank.safes == old(bank.safes) && player.inventory.slots == old(player.inventory.slots)
    ensures forall key :: Owned(player, bank, key) == old(Owned(player, bank, key))
    ensures reply.status == SUCCESS ==>
              && (forall key :: Units(player.inventory.slots, key)
                                == Units(old(player.inventory.slots), key) - if key == Normalize(name) then 1 else 0)
              && reply.itemName == player.inventory.registry.DisplayName(name)
    ensures bank.SafeOf(player.id).gold == old(bank.SafeOf(player.id)).gold
    ensures forall id | id != player.id :: bank.SafeOf(id) == old(bank.SafeOf(id))
    ensures forall x | Holds(player.inventory.slots, x) :: Holds(old(player.inventory.slots), x)
    ensures forall x | x in bank.SafeOf(player.id).items ::
              x in old(bank.SafeOf(player.id)).items || Holds(old(player.inventory.slots), x) || fresh(x)
    ensures reply.status == SUCCESS ==>
              var slots, items := old(player.inventory.slots), old(bank.SafeOf(player.id)).items;
              var i := FirstIndex(slots, Keyed(Normalize(name)));
              && player.inventory.slots == OneLess(slots, i)
              && |bank.SafeOf(player.id).items| == |items| + 1
              && var x := bank.SafeOf(player.id).items[|items|];
                 && bank.SafeOf(player.id).items == items + [x]
                 && Normalize(x.name) == Normalize(name)
                 && if slots[i].quantity > 1 then fresh(x) else x == slots[i].item
  {
    hide Sound, Units, Stored, FirstIndex, Normalize, KnownOnce;
    if player.dead {
      return Refusal(PLAYER_DEAD);
    }
    var has := player.inventory.HasItemByName(name);
    if !has {
      return Refusal(ITEM_NOT_FOUND);
    }
    var item := TakeUnit(player, name);
    Store(player, bank, item);
    return Reply(SUCCESS, item.name, 0);
  }

  /** The item goes back to the safe when the inventory has no room for it. */
  method BankerWithdrawItem(name: Text, player: Player, bank: Bank) returns (reply: Reply)
    requires player.Valid() && bank.Valid(player.inventory.registry) && Disjoint(player, bank)
    modifies player.inventory, bank
    ensures player.Valid() && bank.Valid(player.inventory.registry) && Disjoint(player, bank)
    ensures reply.status == SUCCESS ==>
              player.inventory.registry.Exists(name) && reply.itemName == player.inventory.registry.DisplayName(name)
    ensures reply.status ==
            if player.dead then PLAYER_DEAD
            else if FirstIndex(old(bank.SafeOf(player.id)).items, Called(Normalize(name))) == -1 then ITEM_NOT_FOUND
            else if player.inventory.registry.Exists(name)
                    && !Room(player.inventory.registry, old(player.inventory.slots), name) then INVENTORY_FULL
            else SUCCESS
    ensures forall key :: Owned(player, bank, key) == old(Owned(player, bank, key))
    ensures reply.status != SUCCESS ==> player.inventory.slots == old(player.inventory.slots)
    ensures reply.status == SUCCESS ==>
              forall key :: Units(player.inventory.slots, key)
                            == Units(old(player.inventory.slots), key) + if key == Normalize(name) then 1 else 0
    ensures bank.SafeOf(player.id).gold == old(bank.SafeOf(player.id)).gold
    ensures forall id | id != player.id :: bank.SafeOf(id) == old(bank.SafeOf(id))
    ensures forall x | Holds(player.inventory.slots, x) ::
              Holds(old(player.inventory.slots), x) || x in old(bank.SafeOf(player.id)).items
    ensures forall x | x in bank.SafeOf(player.id).items :: x in old(bank.SafeOf(player.id)).items
    ensures reply.status == ITEM_NOT_FOUND || reply.status == PLAYER_DEAD ==> bank.safes == old(bank.safes)
    ensures reply.status == SUCCESS || reply.status == INVENTORY_FULL ==>
              var items := old(bank.SafeOf(player.id)).items;
              var i := FirstIndex(items, Called(Normalize(name)));
              var rest := items[..i] + items[i + 1..];
              && (reply.status == SUCCESS <==> CanAdd(old(player.inventory.slots), items[i]))
              && bank.SafeOf(player.id).items == (if reply.status == SUCCESS then rest else rest + [items[i]])
              && (reply.status == SUCCESS ==>
                    player.inventory.slots == Added(old(player.inventory.slots), items[i], 1))
  {
    hide Sound, Units, Stored, FirstIndex, Normalize, KnownOnce;
    if player.dead {
      return Refusal(PLAYER_DEAD);
    }
    var item := Retrieve(player, bank, name);
    if item == null {
      return Refusal(ITEM_NOT_FOUND);
    }
    RoomForKnown(player.inventory.registry, player.inventory.slots, item, name);
    var room := player.inventory.CanAddItem(item);
    if !room {
      Store(player, bank, item);
      return Refusal(INVENTORY_FULL);
    }
    GiveUnit(player, item);
    return Reply(SUCCESS, item.name, 0);
  }

  /** One unit into the inventory, where there is room for it. */
  method GiveUnit(player: Player, item: Item)
    requires player.inventory.Valid() && player.inventory.registry.Knows(item)
    requires !Holds(player.inventory.slots, item) && CanAdd(player.inventory.slots, item)
    modifies player.inventory
    ensures player.inventory.Valid()
    ensures player.inventory.slots == Added(old(player.inventory.slots), item, 1)
    ensures forall x | Holds(player.inventory.slots, x) :: x == item || Holds(old(player.inventory.slots), x)
    ensures forall key :: Units(player.inventory.slots, key)
                          == Units(old(player.inventory.slots), key)
                             + if key == Normalize(item.name) then 1 else 0
  {
    ghost var before := player.inventory.slots;
    var _ := player.inventory.AddItem(item, 1);
    forall key
      ensures Units(player.inventory.slots, key) == Units(before, key) + if key == Normalize(item.name) then 1 else 0
    {
      UnitsAfterAdd(before, item, 1, key);
    }
    forall x | Holds(player.inventory.slots, x)
      ensures x == item || Holds(before, x)
    {
      var k :| 0 <= k < |before| && player.inventory.slots[k].item == x;
      assert x == item || before[k].item == x;
    }
  }
}
