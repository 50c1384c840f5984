/** The slots a player carries: stacking, wearing, removing. */
module Inventories {
  import opened Prelude
  import opened Bytes
  import opened Names
  import opened Items

  datatype Slot = Slot(item: Item?, quantity: int, equipped: Option<EquipmentSlot>)

  const EMPTY := Slot(null, 0, None)

  /** The least index whose element satisfies p, or -1. */
  function FirstIndex<T>(s: seq<T>, p: T -> bool): (i: int)
    ensures -1 <= i < |s|
    ensures i == -1 <==> forall k | 0 <= k < |s| :: !p(s[k])
    ensures i != -1 ==> p(s[i]) && forall k | 0 <= k < i :: !p(s[k])
  {
    if s == [] then -1
    else if p(s[0]) then 0
    else
      var i := FirstIndex(s[1..], p);
      assert forall k | 1 <= k < |s| :: s[k] == s[1..][k - 1];
      if i == -1 then -1 else i + 1
  }

  /** Units of the item filed under this normalized name. */
  function SlotUnits(s: Slot, key: Text): int {
    if s.item != null && Normalize(s.item.name) == key then s.quantity else 0
  }

  function Units(slots: seq<Slot>, key: Text): int {
    if slots == [] then 0 else SlotUnits(slots[0], key) + Units(slots[1..], key)
  }

  /** What every inventory operation keeps. */
  ghost predicate Sound(reg: Registry, slots: seq<Slot>) {
    && (forall i | 0 <= i < |slots| ::
          if slots[i].item == null then slots[i] == EMPTY
          else && 0 < slots[i].quantity
               && reg.Knows(slots[i].item)
               && (slots[i].equipped.Some? ==> slots[i].equipped == slots[i].item.kind.Slot()))
    && (forall i, j | 0 <= i < j < |slots| && slots[i].item != null && slots[j].item != null ::
          && slots[i].item != slots[j].item
          && (slots[i].item.kind.Potion? ==> slots[i].item.name != slots[j].item.name))
    && (forall i, j | 0 <= i < j < |slots| && slots[i].equipped.Some? :: slots[i].equipped != slots[j].equipped)
  }

  /** The item is already in some slot. */
  ghost predicate Holds(slots: seq<Slot>, item: Item) {
    exists i :: 0 <= i < |slots| && slots[i].item == item
  }

  function Free(): Slot -> bool {
    (s: Slot) => s.item == null
  }

  function Named(name: Text): Slot -> bool {
    (s: Slot) => s.item != null && s.item.name == name
  }

  function Keyed(key: Text): Slot -> bool {
    (s: Slot) => s.item != null && Normalize(s.item.name) == key
  }

  function Is(item: Item): Slot -> bool {
    (s: Slot) => s.item == item
  }

  function Wearing(e: EquipmentSlot): Slot -> bool {
    (s: Slot) => s.item != null && s.equipped == Some(e)
  }

  function WearingOther(e: EquipmentSlot, item: Item): Slot -> bool {
    (s: Slot) => s.item != null && s.equipped == Some(e) && s.item != item
  }

  // ---- What the operations compute ----

  predicate CanAdd(slots: seq<Slot>, item: Item) {
    (item.kind.Slot().None? && FirstIndex(slots, Named(item.name)) != -1) || FirstIndex(slots, Free()) != -1
  }

  function Added(slots: seq<Slot>, item: Item, quantity: int): seq<Slot>
    requires CanAdd(slots, item)
  {
    var stack := FirstIndex(slots, Named(item.name));
    if item.kind.Slot().None? && stack != -1
    then slots[stack := slots[stack].(quantity := slots[stack].quantity + quantity)]
    else slots[FirstIndex(slots, Free()) := Slot(item, quantity, None)]
  }

  function Unworn(slots: seq<Slot>, i: nat): seq<Slot>
    requires i < |slots|
  {
    slots[i := slots[i].(equipped := None)]
  }

  /** Slot i after its wearable item was put on, or taken off if it was on. */
  function Worn(slots: seq<Slot>, i: nat): seq<Slot>
    requires i < |slots| && slots[i].item != null && slots[i].item.kind.Slot().Some?
  {
    var e := slots[i].item.kind.Slot();
    if slots[i].equipped.Some? then Unworn(slots, i)
    else
      var other := FirstIndex(slots, WearingOther(e.value, slots[i].item));
      var freed := if other != -1 then Unworn(slots, other) else slots;
      freed[i := freed[i].(equipped := e)]
  }

  function OneLess(slots: seq<Slot>, i: nat): seq<Slot>
    requires i < |slots|
  {
    slots[i := if slots[i].quantity > 1 then slots[i].(quantity := slots[i].quantity - 1) else EMPTY]
  }

  function Occupied(slots: seq<Slot>): seq<Slot> {
    if slots == [] then []
    else (if slots[0].item != null then [slots[0]] else []) + Occupied(slots[1..])
  }

  function WornItems(slots: seq<Slot>): seq<Item> {
    if slots == [] then []
    else (if slots[0].item != null && slots[0].equipped.Some? then [slots[0].item] else []) + WornItems(slots[1..])
  }

  /** How many items are worn in one place. */
  function WornIn(slots: seq<Slot>, e: EquipmentSlot): nat {
    if slots == [] then 0 else (if Wearing(e)(slots[0]) then 1 else 0) + WornIn(slots[1..], e)
  }

  // ---- Properties ----

  lemma {:induction false} UnitsUpdate(slots: seq<Slot>, i: nat, s: Slot, key: Text)
    requires i < |slots|
    ensures Units(slots[i := s], key) == Units(slots, key) - SlotUnits(slots[i], key) + SlotUnits(s, key)
  {
    if i > 0 {
      UnitsUpdate(slots[1..], i - 1, s, key);
      assert slots[i := s][1..] == slots[1..][i - 1 := s];
    } else {
      assert slots[i := s][1..] == slots[1..];
    }
  }

  /** An item that can be added is added in full, and nothing else changes. */
  lemma UnitsAfterAdd(slots: seq<Slot>, item: Item, quantity: int, key: Text)
    requires CanAdd(slots, item)
    ensures Units(Added(slots, item, quantity), key)
            == Units(slots, key) + if key == Normalize(item.name) then quantity else 0
    ensures |Added(slots, item, quantity)| == |slots|
  {
    var stack := FirstIndex(slots, Named(item.name));
    if item.kind.Slot().None? && stack != -1 {
      UnitsUpdate(slots, stack, slots[stack].(quantity := slots[stack].quantity + quantity), key);
    } else {
      UnitsUpdate(slots, FirstIndex(slots, Free()), Slot(item, quantity, None), key);
    }
  }

  lemma SoundAfterAdd(reg: Registry, slots: seq<Slot>, item: Item, quantity: int)
    requires Sound(reg, slots) && reg.Knows(item) && 0 < quantity
    requires CanAdd(slots, item) && !Holds(slots, item)
    ensures Sound(reg, Added(slots, item, quantity))
  {
    hide FirstIndex, Normalize;
  }

  /** What wearing does to each slot: the new item goes on, whatever was worn in its place comes off. */
  lemma WornSlots(reg: Registry, slots: seq<Slot>, i: nat)
    requires Sound(reg, slots) && i < |slots| && slots[i].item != null && slots[i].item.kind.Slot().Some?
    ensures |Worn(slots, i)| == |slots|
    ensures Worn(slots, i)[i] ==
            slots[i].(equipped := if slots[i].equipped.Some? then None else slots[i].item.kind.Slot())
    ensures forall j | 0 <= j < |slots| && j != i ::
              Worn(slots, i)[j] ==
                if slots[i].equipped.None? && slots[j].equipped == slots[i].item.kind.Slot()
                then slots[j].(equipped := None) else slots[j]
  {
  }

  /** Wearing an item keeps the inventory sound although only one other slot is ever cleared. */
  lemma {:induction false} SoundAfterWear(reg: Registry, slots: seq<Slot>, i: nat)
    requires Sound(reg, slots) && i < |slots| && slots[i].item != null && slots[i].item.kind.Slot().Some?
    ensures Sound(reg, Worn(slots, i))
    ensures forall key :: Units(Worn(slots, i), key) == Units(slots, key)
  {
    hide Worn, Units, Normalize;
    WornSlots(reg, slots, i);
    SoundIfRefitted(reg, slots, Worn(slots, i));
    forall key
      ensures Units(Worn(slots, i), key) == Units(slots, key)
    {
      SameUnits(slots, Worn(slots, i), key);
    }
  }

  lemma SoundIfRefitted(reg: Registry, slots: seq<Slot>, slots': seq<Slot>)
    requires Sound(reg, slots) && |slots'| == |slots|
    requires forall j | 0 <= j < |slots| ::
               && slots'[j] == slots[j].(equipped := slots'[j].equipped)
               && (slots'[j].equipped.Some? ==>
                     slots[j].item != null && slots'[j].equipped == slots[j].item.kind.Slot())
    requires forall i, j | 0 <= i < j < |slots| && slots'[i].equipped.Some? :: slots'[i].equipped != slots'[j].equipped
    ensures Sound(reg, slots')
  {
  }

  lemma {:induction false} SameUnits(slots: seq<Slot>, slots': seq<Slot>, key: Text)
    requires |slots| == |slots'|
    requires forall j | 0 <= j < |slots| :: slots'[j].item == slots[j].item && slots'[j].quantity == slots[j].quantity
    ensures Units(slots', key) == Units(slots, key)
  {
    if slots != [] {
      SameUnits(slots[1..], slots'[1..], key);
    }
  }

  lemma SoundAfterOneLess(reg: Registry, slots: seq<Slot>, i: nat)
    requires Sound(reg, slots) && i < |slots| && slots[i].item != null
    ensures Sound(reg, OneLess(slots, i))
    ensures forall key :: Units(OneLess(slots, i), key)
                          == Units(slots, key) - if key == Normalize(slots[i].item.name) then 1 else 0
  {
    forall key
      ensures Units(OneLess(slots, i), key)
              == Units(slots, key) - if key == Normalize(slots[i].item.name) then 1 else 0
    {
      UnitsUpdate(slots, i, OneLess(slots, i)[i], key);
    }
  }

  /** Whatever is worn as a weapon is a weapon, and what is worn elsewhere is a defensive item. */
  lemma WornItemsAreOfTheirKind(reg: Registry, slots: seq<Slot>, e: EquipmentSlot)
    requires reg.Valid() && Sound(reg, slots) && FirstIndex(slots, Wearing(e)) != -1
    ensures var kind := slots[FirstIndex(slots, Wearing(e))].item.kind;
            if e == WEAPON then kind.Weapon? || kind.MagicWeapon? else kind == Defensive(e)
  {
  }

  lemma {:induction false} WornFrom(slots: seq<Slot>, i: nat, before: seq<Item>)
    requires i < |slots|
    ensures before + WornItems(slots[i..])
            == before + (if slots[i].item != null && slots[i].equipped.Some? then [slots[i].item] else [])
               + WornItems(slots[i + 1..])
  {
    assert slots[i..][1..] == slots[i + 1..];
  }

  lemma {:induction false} WornByPlace(slots: seq<Slot>)
    ensures |WornItems(slots)|
            == WornIn(slots, WEAPON) + WornIn(slots, ARMOR) + WornIn(slots, HELMET) + WornIn(slots, SHIELD)
  {
    if slots != [] {
      WornByPlace(slots[1..]);
      match slots[0].equipped
      case None =>
      case Some(WEAPON) =>
      case Some(ARMOR) =>
      case Some(HELMET) =>
      case Some(SHIELD) =>
    }
  }

  lemma {:induction false} WornOnce(slots: seq<Slot>, e: EquipmentSlot)
    requires forall i, j | 0 <= i < j < |slots| && slots[i].equipped.Some? :: slots[i].equipped != slots[j].equipped
    ensures WornIn(slots, e) <= 1
    ensures WornIn(slots, e) == 0 <==> forall i | 0 <= i < |slots| :: !Wearing(e)(slots[i])
  {
    if slots != [] {
      var rest := slots[1..];
      WornOnce(rest, e);
      assert forall i | 1 <= i < |slots| :: slots[i] == rest[i - 1];
      if Wearing(e)(slots[0]) {
        assert forall i | 0 <= i < |rest| :: !Wearing(e)(rest[i]);
      }
      if forall i | 0 <= i < |rest| :: !Wearing(e)(rest[i]) {
        assert forall i | 1 <= i < |slots| :: !Wearing(e)(slots[i]);
      }
    }
  }

  /** One item in each of the four places at most: the byte that counts them in a snapshot never overflows. */
  lemma WornAtMostFour(reg: Registry, slots: seq<Slot>)
    requires Sound(reg, slots)
    ensures |WornItems(slots)| <= 4
  {
    hide WornItems, WornIn;
    WornByPlace(slots);
    WornOnce(slots, WEAPON);
    WornOnce(slots, ARMOR);
    WornOnce(slots, HELMET);
    WornOnce(slots, SHIELD);
  }

  /** Looking an item up by a name or by its normalized form finds the same slot. */
  lemma LookupIgnoresAccents(slots: seq<Slot>, name: Text)
    ensures FirstIndex(slots, Keyed(Normalize(name))) == FirstIndex(slots, Keyed(Normalize(Normalize(name))))
  {
    NormalizeIdempotent(name);
  }

  lemma {:induction false} OccupiedUnits(slots: seq<Slot>, key: Text)
    ensures Units(Occupied(slots), key) == Units(slots, key)
  {
    if slots != [] {
      OccupiedUnits(slots[1..], key);
      if slots[0].item != null {
        assert Occupied(slots)[1..] == Occupied(slots[1..]);
      } else {
        assert Occupied(slots) == Occupied(slots[1..]);
      }
    }
  }

  lemma {:induction false} OccupiedConcat(a: seq<Slot>, b: seq<Slot>)
    ensures Occupied(a + b) == Occupied(a) + Occupied(b)
  {
    if a == [] {
      assert a + b == b;
    } else {
      OccupiedConcat(a[1..], b);
      var first := if a[0].item != null then [a[0]] else [];
      assert (a + b)[1..] == a[1..] + b && (a + b)[0] == a[0];
      assert Occupied(a + b) == first + Occupied(a[1..] + b);
    }
  }

  /** The occupied slots are slots of the inventory, so they hold different known items. */
  lemma {:induction false} OccupiedSlots(reg: Registry, slots: seq<Slot>)
    requires Sound(reg, slots)
    ensures forall k | 0 <= k < |Occupied(slots)| ::
              Occupied(slots)[k] in slots && Occupied(slots)[k].item != null
    ensures forall j, k | 0 <= j < k < |Occupied(slots)| :: Occupied(slots)[j].item != Occupied(slots)[k].item
  {
    hide Normalize, Registry.Knows;
    if slots != [] {
      OccupiedSlots(reg, slots[1..]);
      var rest := Occupied(slots[1..]);
      assert forall k | 0 <= k < |rest| :: rest[k] in slots[1..] && rest[k] in slots;
      if slots[0].item != null {
        assert forall k | 1 <= k < |slots| :: slots[k].item != slots[0].item;
        assert Occupied(slots)[1..] == rest;
      } else {
        assert Occupied(slots) == rest;
      }
    }
  }

  lemma {:induction false} NoUnits(slots: seq<Slot>, key: Text)
    requires forall i | 0 <= i < |slots| :: slots[i].item == null
    ensures Units(slots, key) == 0
  {
    if slots != [] {
      NoUnits(slots[1..], key);
    }
  }

  // ---- In plain words ----

  /** An item can be added when a slot is empty, and a potion also when there is a stack of its name. */
  lemma AddableWhen(slots: seq<Slot>, item: Item)
    ensures CanAdd(slots, item) <==>
              || (exists i | 0 <= i < |slots| :: slots[i].item == null)
              || (item.kind.Potion? && exists i | 0 <= i < |slots| ::
                    slots[i].item != null && slots[i].item.name == item.name)
  {
    if i :| 0 <= i < |slots| && slots[i].item == null {
      assert Free()(slots[i]);
    }
    if i :| 0 <= i < |slots| && slots[i].item != null && slots[i].item.name == item.name {
      assert Named(item.name)(slots[i]);
    }
  }

  /** A potion goes on top of the first stack of its name; anything else into the first empty slot, not worn. */
  lemma AddedWhere(slots: seq<Slot>, item: Item, quantity: int, i: nat)
    requires i < |slots| && CanAdd(slots, item)
    ensures item.kind.Potion? && slots[i].item != null && slots[i].item.name == item.name
            && (forall j | 0 <= j < i :: slots[j].item == null || slots[j].item.name != item.name) ==>
              Added(slots, item, quantity)
              == slots[i := Slot(slots[i].item, slots[i].quantity + quantity, slots[i].equipped)]
    ensures slots[i].item == null && (forall j | 0 <= j < i :: slots[j].item != null)
            && (!item.kind.Potion? || forall j | 0 <= j < |slots| ::
                  slots[j].item == null || slots[j].item.name != item.name) ==>
              Added(slots, item, quantity) == slots[i := Slot(item, quantity, None)]
  {
    FirstIs(slots, Named(item.name), i);
    FirstIs(slots, Free(), i);
  }

  lemma FirstIs<T>(s: seq<T>, p: T -> bool, i: nat)
    requires i < |s|
    ensures FirstIndex(s, p) == i <==> p(s[i]) && forall j | 0 <= j < i :: !p(s[j])
  {
  }

  /** One unit less in that slot, and the slot empty when it was the last. */
  lemma OneLessMeans(slots: seq<Slot>, i: nat)
    requires i < |slots| && slots[i].item != null && 0 < slots[i].quantity
    ensures slots[i].quantity == 1 ==> OneLess(slots, i) == slots[i := Slot(null, 0, None)]
    ensures slots[i].quantity > 1 ==>
              OneLess(slots, i) == slots[i := Slot(slots[i].item, slots[i].quantity - 1, slots[i].equipped)]
  {
  }

  /** With OccupiedConcat: the slots that hold something, in their order. */
  lemma OccupiedOne(s: Slot)
    ensures Occupied([]) == [] && Occupied([s]) == if s.item == null then [] else [s]
  {
    assert [s][1..] == [];
  }

  // ---- The object ----

  /** What equipping an item came to: nothing, a change of what is worn, or one unit of a potion drunk. */
  datatype EquipResult = NOT_CARRIED | REFITTED | DRUNK(potion: Kind)

  class Inventory {
    const registry: Registry
    var slots: seq<Slot>

    ghost predicate Valid()
      reads this
    {
      registry.Valid() && Sound(registry, slots)
    }

    constructor (reg: Registry, maxItems: nat)
      requires reg.Valid()
      ensures Valid() && registry == reg
      ensures |slots| == maxItems && forall i | 0 <= i < maxItems :: slots[i] == EMPTY
    {
      registry, slots := reg, seq(maxItems, _ => EMPTY);
    }

    method IndexWhere(p: Slot -> bool) returns (index: int)
      ensures index == FirstIndex(slots, p)
    {
      for i := 0 to |slots|
        invariant forall k | 0 <= k < i :: !p(slots[k])
      {
        if p(slots[i]) {
          return i;
        }
      }
      return -1;
    }

    method CanAddItem(item: Item) returns (can: bool)
      ensures can == CanAdd(slots, item)
    {
      if item.kind.Slot().None? {
        var stack := IndexWhere(Named(item.name));
        if stack != -1 {
          return true;
        }
      }
      var free := IndexWhere(Free());
      return free != -1;
    }

    method AddItem(item: Item?, quantity: int) returns (added: bool)
      requires Valid()
      requires item != null ==> registry.Knows(item) && !Holds(slots, item)
      modifies this
      ensures Valid()
      ensures added <==> item != null && 0 < quantity && CanAdd(old(slots), item)
      ensures slots == if added then Added(old(slots), item, quantity) else old(slots)
    {
      if item == null || quantity <= 0 {
        return false;
      }
      var can := CanAddItem(item);
      if !can {
        return false;
      }
      SoundAfterAdd(registry, slots, item, quantity);
      Put(item, quantity);
      return true;
    }

    /** Onto the stack of the same potion if there is one, else into the first free slot. */
    method Put(item: Item, quantity: int)
      requires CanAdd(slots, item)
      modifies this
      ensures slots == Added(old(slots), item, quantity)
    {
      if item.kind.Slot().None? {
        var stack := IndexWhere(Named(item.name));
        if stack != -1 {
          slots := slots[stack := slots[stack].(quantity := slots[stack].quantity + quantity)];
          return;
        }
      }
      var free := IndexWhere(Free());
      slots := slots[free := Slot(item, quantity, None)];
    }

    method Equip(item: Item) returns (r: EquipResult)
      requires Valid()
      modifies this
      ensures Valid()
      ensures r.NOT_CARRIED? <==> !Holds(old(slots), item)
      ensures r.NOT_CARRIED? ==> slots == old(slots)
      ensures r.REFITTED? <==> Holds(old(slots), item) && item.kind.Slot().Some?
      ensures r.REFITTED? ==> slots == Worn(old(slots), FirstIndex(old(slots), Is(item)))
      ensures r.DRUNK? ==>
                && Holds(old(slots), item) && r.potion == item.kind
                && slots == OneLess(old(slots), FirstIndex(old(slots), Is(item)))
    {
      var index := IndexWhere(Is(item));
      if index == -1 {
        return NOT_CARRIED;
      }
      var slot := item.kind.Slot();
      if slot.None? {
        var _ := RemoveItem(item);
        return DRUNK(item.kind);
      }
      SoundAfterWear(registry, slots, index);
      if slots[index].equipped.Some? {
        slots := slots[index := slots[index].(equipped := None)];
        return REFITTED;
      }
      var other := IndexWhere(WearingOther(slot.value, item));
      if other != -1 {
        slots := slots[other := slots[other].(equipped := None)];
      }
      slots := slots[index := slots[index].(equipped := slot)];
      return REFITTED;
    }

    /** Takes one unit. The item itself comes back only when it was the last. */
    method RemoveItem(item: Item) returns (owned: Item?)
      requires Valid()
      modifies this
      ensures Valid()
      ensures !Holds(old(slots), item) ==> slots == old(slots) && owned == null
      ensures Holds(old(slots), item) ==>
                var index := FirstIndex(old(slots), Is(item));
                && slots == OneLess(old(slots), index)
                && owned == if old(slots)[index].quantity > 1 then null else item
      ensures owned != null ==> !Holds(slots, item)
    {
      var index := IndexWhere(Is(item));
      if index == -1 {
        return null;
      }
      SoundAfterOneLess(registry, slots, index);
      if slots[index].quantity > 1 {
        slots := slots[index := slots[index].(quantity := slots[index].quantity - 1)];
        return null;
      }
      owned := slots[index].item;
      slots := slots[index := EMPTY];
    }

    method HasItemByName(name: Text) returns (has: bool)
      ensures has <==> FirstIndex(slots, Keyed(Normalize(name))) != -1
    {
      var key := NormalizeName(name);
      var index := IndexWhere(Keyed(key));
      return index != -1;
    }

    method RemoveItemByName(name: Text) returns (owned: Item?)
      requires Valid()
      modifies this
      ensures Valid()
      ensures var index := FirstIndex(old(slots), Keyed(Normalize(name)));
              if index == -1 then slots == old(slots) && owned == null
              else && slots == OneLess(old(slots), index)
                   && owned == if old(slots)[index].quantity > 1 then null else old(slots)[index].item
      ensures owned != null ==> !Holds(slots, owned)
    {
      var key := NormalizeName(name);
      var index := IndexWhere(Keyed(key));
      if index == -1 {
        return null;
      }
      var item := slots[index].item;
      assert Holds(slots, item) && FirstIndex(slots, Is(item)) == index;
      owned := RemoveItem(item);
    }

    method EquippedItem(e: EquipmentSlot) returns (item: Item?)
      requires Valid()
      ensures item != null <==> exists i :: 0 <= i < |slots| && slots[i].equipped == Some(e)
      ensures item != null && e == WEAPON ==> item.kind.Weapon? || item.kind.MagicWeapon?
      ensures item != null && e != WEAPON ==> item.kind == Defensive(e)
    {
      var index := IndexWhere(Wearing(e));
      if index == -1 {
        return null;
      }
      WornItemsAreOfTheirKind(registry, slots, e);
      return slots[index].item;
    }

    /** What a snapshot shows of a player. */
    method EquippedItems() returns (items: seq<Item>)
      requires Valid()
      ensures items == WornItems(slots) && |items| <= 4
    {
      ValidIsSound();
      assert WornItems([]) == [];
      WornAtMostFour(registry, slots);
      hide Inventory.Valid, Sound, WornItems;
      items := [];
      assert slots[0..] == slots && slots[|slots|..] == [];
      for i := 0 to |slots|
        invariant items + WornItems(slots[i..]) == WornItems(slots)
      {
        WornFrom(slots, i, items);
        assert items + [] == items;
        if slots[i].item != null && slots[i].equipped.Some? {
          items := items + [slots[i].item];
        }
      }
    }

    lemma ValidIsSound()
      requires Valid()
      ensures Sound(registry, slots)
    {
    }

    method PopSlot(index: int) returns (popped: Slot)
      requires Valid()
      modifies this
      ensures Valid()
      ensures if 0 <= index < |old(slots)|
              then popped == old(slots)[index] && slots == old(slots)[index := EMPTY]
              else popped == EMPTY && slots == old(slots)
    {
      if index < 0 || index >= |slots| {
        return EMPTY;
      }
      popped := slots[index];
      slots := slots[index := EMPTY];
    }

    method DropAll() returns (dropped: seq<Slot>)
      requires Valid()
      modifies this
      ensures Valid()
      ensures dropped == Occupied(old(slots))
      ensures |slots| == |old(slots)| && forall i | 0 <= i < |slots| :: slots[i] == EMPTY
    {
      dropped := [];
      for i := 0 to |slots|
        invariant |slots| == |old(slots)|
        invariant forall k | 0 <= k < i :: slots[k] == EMPTY
        invariant forall k | i <= k < |slots| :: slots[k] == old(slots)[k]
        invariant dropped == Occupied(old(slots)[..i])
      {
        assert old(slots)[..i + 1] == old(slots)[..i] + [slots[i]];
        OccupiedConcat(old(slots)[..i], [slots[i]]);
        assert slots[i] == old(slots)[i];
        if slots[i].item != null {
          dropped := dropped + [slots[i]];
          slots := slots[i := EMPTY];
        }
      }
      assert old(slots)[..|slots|] == old(slots);
    }
  }
}
