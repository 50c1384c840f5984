/** What lies on the ground: dropping, scattering loot, picking up. */
module Grounds {
  import opened Prelude
  import opened Bytes
  import opened Names
  import opened Placement
  import opened Items
  import opened Inventories
  import opened Players

  datatype Parcel = Parcel(gold: nat, item: Item?, quantity: int)

  type Piles = map<Position, Parcel>

  /** Gold, or at least one unit of a known item. */
  ghost predicate Sane(reg: Registry, p: Parcel) {
    if p.item == null then 0 < p.gold else p.gold == 0 && 0 < p.quantity && reg.Knows(p.item)
  }

  ghost predicate Lies(piles: Piles, x: Item) {
    exists p :: p in piles && piles[p].item == x
  }

  ghost predicate Clear(slots: seq<Slot>, piles: Piles) {
    forall k | 0 <= k < |slots| && slots[k].item != null :: !Lies(piles, slots[k].item)
  }

  /** Every pile is on open ground and holds gold or a known item, and no item is in two piles. */
  ghost predicate Tidy(m: WorldMap, reg: Registry, piles: Piles) {
    && (forall p | p in piles :: !m.IsBlocked(p) && Sane(reg, piles[p]))
    && (forall p, q | p in piles && q in piles && p != q && piles[p].item != null :: piles[p].item != piles[q].item)
  }

  function ParcelUnits(p: Parcel, key: Text): int {
    if p.item != null && Normalize(p.item.name) == key then p.quantity else 0
  }

  function UnitsOf(key: Text): Parcel -> int {
    (p: Parcel) => ParcelUnits(p, key)
  }

  function GoldOf(): Parcel -> int {
    (p: Parcel) => p.gold
  }

  /** The sum of a measure over all piles. */
  ghost function Total(piles: Piles, f: Parcel -> int): int
    decreases |piles|
  {
    if piles == map[] then 0
    else
      var p :| p in piles;
      f(piles[p]) + Total(piles - {p}, f)
  }

  function Sum(parcels: seq<Parcel>, f: Parcel -> int): int {
    if parcels == [] then 0 else Sum(parcels[..|parcels| - 1], f) + f(parcels[|parcels| - 1])
  }

  lemma {:induction false} TotalWithout(piles: Piles, f: Parcel -> int, p: Position)
    requires p in piles
    ensures Total(piles, f) == f(piles[p]) + Total(piles - {p}, f)
    decreases |piles|
  {
    var q :| q in piles && Total(piles, f) == f(piles[q]) + Total(piles - {q}, f);
    if p != q {
      TotalWithout(piles - {q}, f, p);
      TotalWithout(piles - {p}, f, q);
      assert piles - {q} - {p} == piles - {p} - {q};
    }
  }

  lemma TotalWith(piles: Piles, f: Parcel -> int, p: Position, parcel: Parcel)
    requires p !in piles
    ensures Total(piles[p := parcel], f) == Total(piles, f) + f(parcel)
  {
    TotalWithout(piles[p := parcel], f, p);
    assert piles[p := parcel] - {p} == piles;
  }

  /** The piles once these parcels were laid on these cells, one after the other. */
  function Laid(piles: Piles, spots: seq<Position>, parcels: seq<Parcel>): Piles
    requires |spots| <= |parcels|
  {
    if spots == [] then piles
    else Laid(piles, spots[..|spots| - 1], parcels)[spots[|spots| - 1] := parcels[|spots| - 1]]
  }

  /** Open ground with nothing on it. Who stands there does not matter. */
  ghost function Room(m: WorldMap, piles: Piles): set<Position> {
    m.Cells() - m.walls - piles.Keys
  }

  lemma RoomMeans(m: WorldMap, piles: Piles, x: int, y: int)
    ensures Position(x, y) in Room(m, piles) <==>
              0 <= x < m.width && 0 <= y < m.height && Position(x, y) !in m.walls && Position(x, y) !in piles
  {
  }

  ghost predicate Nearest(m: WorldMap, center: Position, piles: Piles, spot: Position) {
    spot in Room(m, piles) && forall p | p in Room(m, piles) :: Distance(center, spot) <= Distance(center, p)
  }

  /** Each parcel was laid on an open cell nearest to the center at that moment. */
  ghost predicate Scattered(m: WorldMap, center: Position, piles: Piles, spots: seq<Position>, parcels: seq<Parcel>)
    requires |spots| <= |parcels|
  {
    spots != [] ==>
      var n := |spots| - 1;
      Scattered(m, center, piles, spots[..n], parcels) && Nearest(m, center, Laid(piles, spots[..n], parcels), spots[n])
  }

  /** As many parcels as there are open cells were scattered, in order, and nothing else changed. */
  ghost predicate Strewn(m: WorldMap, center: Position, piles: Piles, spots: seq<Position>, parcels: seq<Parcel>,
                         piles': Piles)
  {
    && |spots| == (if m.IsValid(center) then Min(|parcels|, |Room(m, piles)|) else 0)
    && Scattered(m, center, piles, spots, parcels)
    && piles' == Laid(piles, spots, parcels)
  }

  /** Scattering overwrites nothing: every old pile stays as it was. */
  lemma {:induction false} LaidKeepsPiles(m: WorldMap, center: Position, piles: Piles, spots: seq<Position>,
                                          parcels: seq<Parcel>)
    requires |spots| <= |parcels| && Scattered(m, center, piles, spots, parcels)
    ensures forall p :: p in Laid(piles, spots, parcels) <==> p in piles || p in spots
    ensures forall p | p in piles :: Laid(piles, spots, parcels)[p] == piles[p]
    ensures |Room(m, Laid(piles, spots, parcels))| == |Room(m, piles)| - |spots|
  {
    if spots != [] {
      var n := |spots| - 1;
      LaidKeepsPiles(m, center, piles, spots[..n], parcels);
      var before := Laid(piles, spots[..n], parcels);
      assert forall p :: p in spots <==> p in spots[..n] || p == spots[n];
      RoomWith(m, before, spots[n], parcels[n]);
    }
  }

  lemma RoomWith(m: WorldMap, piles: Piles, spot: Position, parcel: Parcel)
    requires spot in Room(m, piles)
    ensures Room(m, piles[spot := parcel]) == Room(m, piles) - {spot}
    ensures |Room(m, piles[spot := parcel])| == |Room(m, piles)| - 1
  {
  }

  lemma LaidLast(m: WorldMap, center: Position, piles: Piles, spots: seq<Position>, parcels: seq<Parcel>, n: nat)
    requires |spots| <= |parcels| && Scattered(m, center, piles, spots, parcels) && n + 1 == |spots|
    ensures spots[n] in Room(m, piles) && spots[n] !in Laid(piles, spots[..n], parcels) && spots[n] !in spots[..n]
    ensures Laid(piles, spots, parcels) == Laid(piles, spots[..n], parcels)[spots[n] := parcels[n]]
  {
    LaidKeepsPiles(m, center, piles, spots[..n], parcels);
  }

  /** The parcels end up on different open cells, each with a cell of its own. */
  lemma {:induction false} LaidEach(m: WorldMap, center: Position, piles: Piles, spots: seq<Position>,
                                    parcels: seq<Parcel>, i: nat)
    requires |spots| <= |parcels| && Scattered(m, center, piles, spots, parcels) && i < |spots|
    ensures spots[i] in Room(m, piles) && spots[i] !in spots[..i]
    ensures spots[i] in Laid(piles, spots, parcels) && Laid(piles, spots, parcels)[spots[i]] == parcels[i]
    decreases |spots|
  {
    var n := |spots| - 1;
    LaidLast(m, center, piles, spots, parcels, n);
    if i < n {
      var fewer := spots[..n];
      assert fewer[i] == spots[i] && fewer[..i] == spots[..i];
      LaidEach(m, center, piles, fewer, parcels, i);
    }
  }

  /** Everything laid down is on the ground afterwards, by any measure. */
  lemma {:induction false} LaidTotal(m: WorldMap, center: Position, piles: Piles, spots: seq<Position>,
                                     parcels: seq<Parcel>, f: Parcel -> int)
    requires |spots| <= |parcels| && Scattered(m, center, piles, spots, parcels)
    ensures Total(Laid(piles, spots, parcels), f) == Total(piles, f) + Sum(parcels[..|spots|], f)
  {
    if spots != [] {
      var n := |spots| - 1;
      LaidTotal(m, center, piles, spots[..n], parcels, f);
      TotalWith(Laid(piles, spots[..n], parcels), f, spots[n], parcels[n]);
      assert parcels[..n + 1][..n] == parcels[..n];
    }
  }

  /** Parcels fit to be laid: sane, all different, and none of them on the ground yet. */
  ghost predicate Layable(reg: Registry, piles: Piles, parcels: seq<Parcel>) {
    && (forall i | 0 <= i < |parcels| :: Sane(reg, parcels[i]))
    && (forall i, j | 0 <= i < j < |parcels| && parcels[i].item != null :: parcels[i].item != parcels[j].item)
    && (forall i | 0 <= i < |parcels| && parcels[i].item != null :: !Lies(piles, parcels[i].item))
  }

  lemma {:induction false} LaidTidy(m: WorldMap, reg: Registry, center: Position, piles: Piles,
                                    spots: seq<Position>, parcels: seq<Parcel>)
    requires |spots| <= |parcels| && Scattered(m, center, piles, spots, parcels)
    requires Tidy(m, reg, piles) && Layable(reg, piles, parcels)
    ensures Tidy(m, reg, Laid(piles, spots, parcels))
    ensures forall x | Lies(Laid(piles, spots, parcels), x) ::
              Lies(piles, x) || exists i :: 0 <= i < |spots| && parcels[i].item == x
  {
    if spots != [] {
      var n := |spots| - 1;
      var before := Laid(piles, spots[..n], parcels);
      LaidTidy(m, reg, center, piles, spots[..n], parcels);
      LaidLast(m, center, piles, spots, parcels, n);
      forall x | Lies(before[spots[n] := parcels[n]], x)
        ensures x == parcels[n].item || Lies(before, x)
      {
        var p :| p in before[spots[n] := parcels[n]] && before[spots[n] := parcels[n]][p].item == x;
        assert p == spots[n] || (p in before && before[p].item == x);
      }
      forall p | p in before && parcels[n].item != null
        ensures before[p].item != parcels[n].item
      {
        if before[p].item != null {
          assert Lies(before, before[p].item);
        }
      }
    }
  }

  function ItemParcels(slots: seq<Slot>): seq<Parcel> {
    seq(|slots|, i requires 0 <= i < |slots| => Parcel(0, slots[i].item, slots[i].quantity))
  }

  /** The parcels of a loot, in the order they are laid: gold first. */
  function Parcels(loot: Loot): seq<Parcel> {
    (if loot.gold > 0 then [Parcel(loot.gold, null, 0)] else []) + ItemParcels(loot.items)
  }

  /** Gold is laid first, if there is any, and then the items in their order, each with all its units. */
  lemma ParcelsInOrder(loot: Loot, i: nat)
    requires i < |loot.items|
    ensures var first := if loot.gold > 0 then 1 else 0;
            && |Parcels(loot)| == first + |loot.items|
            && (loot.gold > 0 ==> Parcels(loot)[0] == Parcel(loot.gold, null, 0))
            && Parcels(loot)[first + i] == Parcel(0, loot.items[i].item, loot.items[i].quantity)
  {
  }

  lemma {:induction false} SumConcat(a: seq<Parcel>, b: seq<Parcel>, f: Parcel -> int)
    ensures Sum(a + b, f) == Sum(a, f) + Sum(b, f)
  {
    if b == [] {
      assert a + b == a;
    } else {
      SumConcat(a, b[..|b| - 1], f);
      assert (a + b)[..|a + b| - 1] == a + b[..|b| - 1];
    }
  }

  lemma {:induction false} ItemParcelsUnits(slots: seq<Slot>, key: Text)
    ensures Sum(ItemParcels(slots), UnitsOf(key)) == Units(slots, key)
    ensures Sum(ItemParcels(slots), GoldOf()) == 0
  {
    if slots != [] {
      ItemParcelsUnits(slots[1..], key);
      var first := Parcel(0, slots[0].item, slots[0].quantity);
      assert ItemParcels(slots) == [first] + ItemParcels(slots[1..]);
      SumConcat([first], ItemParcels(slots[1..]), UnitsOf(key));
      SumConcat([first], ItemParcels(slots[1..]), GoldOf());
      assert Sum([first], UnitsOf(key)) == ParcelUnits(first, key) && Sum([first], GoldOf()) == 0;
    }
  }

  /** A loot's parcels hold exactly its gold and its items. */
  lemma ParcelsTotal(loot: Loot, key: Text)
    ensures Sum(Parcels(loot), UnitsOf(key)) == Units(loot.items, key)
    ensures Sum(Parcels(loot), GoldOf()) == loot.gold
  {
    ItemParcelsUnits(loot.items, key);
    var head := if loot.gold > 0 then [Parcel(loot.gold, null, 0)] else [];
    SumConcat(head, ItemParcels(loot.items), UnitsOf(key));
    SumConcat(head, ItemParcels(loot.items), GoldOf());
    if loot.gold > 0 {
      assert head[..0] == [];
      assert Sum(head, GoldOf()) == loot.gold && Sum(head, UnitsOf(key)) == 0;
    }
  }

  lemma TidyWithout(m: WorldMap, reg: Registry, piles: Piles, pos: Position)
    requires Tidy(m, reg, piles) && pos in piles
    ensures Tidy(m, reg, piles - {pos})
    ensures forall x | Lies(piles - {pos}, x) :: Lies(piles, x)
    ensures piles[pos].item != null ==> !Lies(piles - {pos}, piles[pos].item)
  {
  }

  lemma TidyWith(m: WorldMap, reg: Registry, piles: Piles, spot: Position, parcel: Parcel)
    requires Tidy(m, reg, piles) && spot in Room(m, piles) && Sane(reg, parcel)
    requires parcel.item != null ==> !Lies(piles, parcel.item)
    ensures Tidy(m, reg, piles[spot := parcel])
    ensures forall x | Lies(piles[spot := parcel], x) :: x == parcel.item || Lies(piles, x)
  {
  }

  lemma ClearAfterTake(piles: Piles, pos: Position, slots: seq<Slot>, slots': seq<Slot>)
    requires pos in piles && piles[pos].item != null && Clear(slots, piles)
    requires !Lies(piles - {pos}, piles[pos].item)
    requires forall x | Holds(slots', x) :: x == piles[pos].item || Holds(slots, x)
    ensures Clear(slots', piles - {pos})
  {
    forall k | 0 <= k < |slots'| && slots'[k].item != null
      ensures !Lies(piles - {pos}, slots'[k].item)
    {
      var x := slots'[k].item;
      assert Holds(slots', x);
      if x != piles[pos].item {
        assert Holds(slots, x) && !Lies(piles, x);
        assert forall p | p in piles - {pos} :: (piles - {pos})[p] == piles[p];
      }
    }
  }

  /** The content of a slot moves to an open cell. */
  lemma SlotToGround(m: WorldMap, reg: Registry, piles: Piles, slots: seq<Slot>, index: nat, spot: Position)
    requires Tidy(m, reg, piles) && Sound(reg, slots) && Clear(slots, piles) && spot in Room(m, piles)
    requires index < |slots| && slots[index].item != null
    ensures var parcel := Parcel(0, slots[index].item, slots[index].quantity);
            && Tidy(m, reg, piles[spot := parcel])
            && Clear(slots[index := EMPTY], piles[spot := parcel])
            && forall key :: Units(slots[index := EMPTY], key) + Total(piles[spot := parcel], UnitsOf(key))
                             == Units(slots, key) + Total(piles, UnitsOf(key))
  {
    var parcel := Parcel(0, slots[index].item, slots[index].quantity);
    TidyWith(m, reg, piles, spot, parcel);
    forall key
      ensures Units(slots[index := EMPTY], key) + Total(piles[spot := parcel], UnitsOf(key))
              == Units(slots, key) + Total(piles, UnitsOf(key))
    {
      UnitsUpdate(slots, index, EMPTY, key);
      TotalWith(piles, UnitsOf(key), spot, parcel);
    }
  }

  /** Known items, at least one unit of each, all different, none of them on the ground. */
  ghost predicate Droppable(reg: Registry, items: seq<Slot>, piles: Piles) {
    && (forall k | 0 <= k < |items| ::
          && items[k].item != null && 0 < items[k].quantity
          && reg.Knows(items[k].item) && !Lies(piles, items[k].item))
    && (forall j, k | 0 <= j < k < |items| :: items[j].item != items[k].item)
  }

  lemma OccupiedDroppable(reg: Registry, slots: seq<Slot>, piles: Piles)
    requires Sound(reg, slots) && Clear(slots, piles)
    ensures Droppable(reg, Occupied(slots), piles)
    ensures forall k | 0 <= k < |Occupied(slots)| :: Holds(slots, Occupied(slots)[k].item)
  {
    hide Normalize, Registry.Knows, Lies, Occupied;
    OccupiedSlots(reg, slots);
    var dropped := Occupied(slots);
    forall k | 0 <= k < |dropped|
      ensures dropped[k].item != null && Holds(slots, dropped[k].item)
      ensures 0 < dropped[k].quantity && reg.Knows(dropped[k].item) && !Lies(piles, dropped[k].item)
    {
      var i :| 0 <= i < |slots| && slots[i] == dropped[k];
    }
  }

  lemma DroppableIsLayable(reg: Registry, gold: nat, items: seq<Slot>, piles: Piles)
    requires Droppable(reg, items, piles)
    ensures Layable(reg, piles, Parcels(Loot(gold, items)))
    ensures forall i | 0 <= i < |Parcels(Loot(gold, items))| ::
              var x := Parcels(Loot(gold, items))[i].item;
              x != null ==> exists k :: 0 <= k < |items| && items[k].item == x
  {
    hide Normalize, Registry.Knows, Lies;
    var first := if gold > 0 then 1 else 0;
    var all := Parcels(Loot(gold, items));
    forall i | first <= i < |all|
      ensures all[i] == Parcel(0, items[i - first].item, items[i - first].quantity)
    {
    }
  }

  /** What a sound inventory drops can be laid wherever none of it lies. */
  lemma LootIsLayable(reg: Registry, slots: seq<Slot>, gold: nat, piles: Piles)
    requires Sound(reg, slots) && Clear(slots, piles)
    ensures Layable(reg, piles, Parcels(Loot(gold, Occupied(slots))))
    ensures forall i | 0 <= i < |Parcels(Loot(gold, Occupied(slots)))| ::
              var x := Parcels(Loot(gold, Occupied(slots)))[i].item;
              x != null ==> Holds(slots, x)
  {
    hide Sound, Clear, Parcels, Layable, Occupied, Droppable;
    OccupiedDroppable(reg, slots, piles);
    DroppableIsLayable(reg, gold, Occupied(slots), piles);
  }

  /** After a death, by every measure: what is on the ground, what was there, and what found no cell. */
  lemma {:induction false} BuriedTotals(m: WorldMap, center: Position, piles: Piles, spots: seq<Position>, loot: Loot,
                                        slots: seq<Slot>, emptied: seq<Slot>, piles': Piles)
    requires loot.items == Occupied(slots) && Strewn(m, center, piles, spots, Parcels(loot), piles')
    requires forall i | 0 <= i < |emptied| :: emptied[i] == EMPTY
    ensures |spots| <= |Parcels(loot)|
    ensures var lost := Parcels(loot)[|spots|..];
            && Total(piles', GoldOf()) + Sum(lost, GoldOf()) == Total(piles, GoldOf()) + loot.gold
            && forall key :: Units(emptied, key) + Total(piles', UnitsOf(key)) + Sum(lost, UnitsOf(key))
                             == Units(slots, key) + Total(piles, UnitsOf(key))
  {
    hide Laid, Scattered, Nearest, Sum, Total, Units, Occupied, Parcels;
    var all := Parcels(loot);
    assert all == all[..|spots|] + all[|spots|..];
    LaidTotal(m, center, piles, spots, all, GoldOf());
    SumConcat(all[..|spots|], all[|spots|..], GoldOf());
    ParcelsTotal(loot, []);
    forall key
      ensures Units(emptied, key) + Total(Laid(piles, spots, all), UnitsOf(key)) + Sum(all[|spots|..], UnitsOf(key))
              == Units(slots, key) + Total(piles, UnitsOf(key))
    {
      LaidTotal(m, center, piles, spots, all, UnitsOf(key));
      SumConcat(all[..|spots|], all[|spots|..], UnitsOf(key));
      ParcelsTotal(loot, key);
      OccupiedUnits(slots, key);
      NoUnits(emptied, key);
    }
  }

  lemma BuriedTidy(m: WorldMap, reg: Registry, center: Position, piles: Piles, spots: seq<Position>, loot: Loot,
                   slots: seq<Slot>, piles': Piles)
    requires Tidy(m, reg, piles) && Sound(reg, slots) && Clear(slots, piles)
    requires loot.items == Occupied(slots) && Strewn(m, center, piles, spots, Parcels(loot), piles')
    ensures Tidy(m, reg, piles')
    ensures forall p | p in piles :: p in piles' && piles'[p] == piles[p]
    ensures forall x | Lies(piles', x) :: Lies(piles, x) || Holds(slots, x)
  {
    hide Laid, Scattered, Tidy, Sound, Lies, Holds;
    LootIsLayable(reg, slots, loot.gold, piles);
    LaidKeepsPiles(m, center, piles, spots, Parcels(loot));
    LaidTidy(m, reg, center, piles, spots, Parcels(loot));
  }

  class Ground {
    const terrain: WorldMap
    const registry: Registry
    var piles: Piles

    ghost predicate Valid()
      reads this
    {
      registry.Valid() && Tidy(terrain, registry, piles)
    }

    /** The player uses this world's registry and carries nothing that lies on the ground. */
    ghost predicate Meets(player: Player)
      reads this, player, player.inventory
    {
      && player.Valid() && player.inventory.registry == registry
      && Clear(player.inventory.slots, piles)
    }

    ghost function Open(): set<Position>
      reads this
    {
      Room(terrain, piles)
    }

    constructor (m: WorldMap, reg: Registry)
      requires reg.Valid()
      ensures Valid() && piles == map[] && terrain == m && registry == reg
    {
      terrain, registry, piles := m, reg, map[];
    }

    method ClosestOpen(start: Position) returns (spot: Option<Position>)
      ensures spot.None? <==> !terrain.IsValid(start) || Open() == {}
      ensures spot.Some? ==>
                && spot.value in Open()
                && forall p | p in Open() :: Distance(start, spot.value) <= Distance(start, p)
    {
      var taken := piles;
      var accepts := p => p !in taken;
      forall p
        ensures p in Open() <==> IsFree(terrain, accepts, p)
      {
        assert terrain.IsValid(p) ==> Position(p.x, p.y) == p;
      }
      spot := FindClosestFree(terrain, start, accepts);
    }

    /** Lays a parcel on the open cell nearest to the center, if there is one. */
    method Lay(center: Position, parcel: Parcel) returns (spot: Option<Position>)
      modifies this
      ensures spot.None? <==> !terrain.IsValid(center) || old(Open()) == {}
      ensures spot.None? ==> piles == old(piles)
      ensures spot.Some? ==>
                && spot.value in old(Open()) && piles == old(piles)[spot.value := parcel]
                && forall p | p in old(Open()) :: Distance(center, spot.value) <= Distance(center, p)
    {
      spot := ClosestOpen(center);
      if spot.Some? {
        piles := piles[spot.value := parcel];
      }
    }

    /** Loading a map puts an item where it says, or beside it if that cell is blocked or taken. */
    method AddGroundItem(pos: Position, parcel: Parcel) returns (ghost spot: Option<Position>)
      modifies this
      ensures spot.None? <==> !terrain.IsValid(pos) || old(Open()) == {}
      ensures spot.None? ==> piles == old(piles)
      ensures spot.Some? ==>
                && spot.value in old(Open()) && piles == old(piles)[spot.value := parcel]
                && forall p | p in old(Open()) :: Distance(pos, spot.value) <= Distance(pos, p)
      ensures pos in old(Open()) ==> spot == Some(pos)
    {
      if !terrain.IsValid(pos) {
        return None;
      }
      assert Position(pos.x, pos.y) == pos;
      assert pos in Open() <==> !terrain.IsBlocked(pos) && pos !in piles;
      var free := pos;
      if terrain.IsBlocked(pos) || pos in piles {
        var beside := ClosestOpen(pos);
        if beside.None? {
          return None;
        }
        free := beside.value;
      }
      piles := piles[free := parcel];
      return Some(free);
    }

    /** Lays the next parcel, unless no cell is left. */
    method LayNext(center: Position, parcel: Parcel, ghost before: Piles, ghost spots: seq<Position>,
                   ghost all: seq<Parcel>)
      returns (spot: Option<Position>)
      requires Progressing(center, before, spots, all)
      requires Stuck(center) || (|spots| < |all| && all[|spots|] == parcel)
      modifies this
      ensures spot.None? <==> old(Stuck(center))
      ensures spot.None? ==> Stuck(center) && Progressing(center, before, spots, all)
      ensures spot.Some? ==> |spots| < |all| && Progressing(center, before, spots + [spot.value], all)
    {
      hide Laid, Scattered;
      spot := Lay(center, parcel);
      if spot.Some? {
        ScatteredNext(terrain, center, before, spots, all, spot.value);
      }
    }

    /** Loot around a center: as many parcels as there are open cells, none of them on top of another pile. */
    method DropLoot(center: Position, loot: Loot) returns (ghost spots: seq<Position>)
      modifies this
      ensures Strewn(terrain, center, old(piles), spots, Parcels(loot), piles)
    {
      spots := [];
      ghost var all := Parcels(loot);
      ghost var first := if loot.gold > 0 then 1 else 0;
      assert Progressing(center, piles, [], all);
      assert Stuck(center) <== !terrain.IsValid(center);
      hide Laid, Scattered, Stuck, Progressing;
      if loot.gold > 0 {
        assert all[0] == Parcel(loot.gold, null, 0);
        var spot := LayNext(center, Parcel(loot.gold, null, 0), old(piles), [], all);
        if spot.Some? {
          spots := [spot.value];
          assert spots == [] + [spot.value];
        }
      }
      for k := 0 to |loot.items|
        invariant Progressing(center, old(piles), spots, all)
        invariant |spots| == first + k || (|spots| < first + k && Stuck(center))
        invariant !terrain.IsValid(center) ==> spots == []
      {
        assert all[first + k] == Parcel(0, loot.items[k].item, loot.items[k].quantity);
        var spot := LayNext(center, Parcel(0, loot.items[k].item, loot.items[k].quantity), old(piles), spots, all);
        if spot.None? {
          break;
        }
        spots := spots + [spot.value];
      }
      assert |spots| == |all| || Stuck(center);
      Strewed(center, old(piles), spots, all);
    }

    lemma Strewed(center: Position, before: Piles, spots: seq<Position>, all: seq<Parcel>)
      requires Progressing(center, before, spots, all) && (|spots| == |all| || Stuck(center))
      requires !terrain.IsValid(center) ==> spots == []
      ensures Strewn(terrain, center, before, spots, all, piles)
    {
      LaidKeepsPiles(terrain, center, before, spots, all);
    }

    /** Units of an item carried and on the ground together. */
    ghost function AllUnits(player: Player, key: Text): int
      reads this, player, player.inventory
    {
      Units(player.inventory.slots, key) + Total(piles, UnitsOf(key))
    }

    /** Takes what lies under the player's feet. */
    method PickUp(player: Player, pos: Position) returns (taken: bool)
      requires Valid() && Meets(player)
      modifies this, player`gold, player.inventory
      ensures Valid() && Meets(player)
      ensures taken <==>
              && !player.dead && pos in old(piles)
              && (old(piles)[pos].gold > 0 || CanAdd(old(player.inventory.slots), old(piles)[pos].item))
      ensures piles == if taken then old(piles) - {pos} else old(piles)
      ensures forall key :: AllUnits(player, key) == old(AllUnits(player, key))
      ensures player.gold ==
              if taken then Min(old(player.gold) + old(piles)[pos].gold, player.rules.goldCap(player.level))
              else old(player.gold)
      ensures player.inventory.slots ==
              if taken && old(piles)[pos].item != null
              then Added(old(player.inventory.slots), old(piles)[pos].item, old(piles)[pos].quantity)
              else old(player.inventory.slots)
      ensures forall x | Holds(player.inventory.slots, x) ::
                Holds(old(player.inventory.slots), x) || Lies(old(piles), x)
    {
      if player.dead || pos !in piles {
        return false;
      }
      TidyWithout(terrain, registry, piles, pos);
      var pile := piles[pos];
      if pile.gold > 0 {
        forall key
          ensures Total(piles - {pos}, UnitsOf(key)) == Total(piles, UnitsOf(key))
        {
          TotalWithout(piles, UnitsOf(key), pos);
        }
        player.AddGold(pile.gold);
        piles := piles - {pos};
        return true;
      }
      var can := player.inventory.CanAddItem(pile.item);
      if !can {
        return false;
      }
      PickUpItem(player, pos);
      return true;
    }

    method PickUpItem(player: Player, pos: Position)
      requires Valid() && Meets(player) && pos in piles && piles[pos].gold == 0
      requires CanAdd(player.inventory.slots, piles[pos].item)
      modifies this, player.inventory
      ensures Valid() && Meets(player)
      ensures piles == old(piles) - {pos}
      ensures player.inventory.slots
              == Added(old(player.inventory.slots), old(piles)[pos].item, old(piles)[pos].quantity)
      ensures forall key :: AllUnits(player, key) == old(AllUnits(player, key))
      ensures forall x | Holds(player.inventory.slots, x) ::
                Holds(old(player.inventory.slots), x) || Lies(old(piles), x)
    {
      var pile := piles[pos];
      TidyWithout(terrain, registry, piles, pos);
      forall key
        ensures Total(piles, UnitsOf(key)) == ParcelUnits(pile, key) + Total(piles - {pos}, UnitsOf(key))
      {
        TotalWithout(piles, UnitsOf(key), pos);
      }
      assert Lies(piles, pile.item);
      ghost var before := player.inventory.slots;
      GiveMany(player, pile.item, pile.quantity);
      ClearAfterTake(piles, pos, before, player.inventory.slots);
      piles := piles - {pos};
    }

    /** Puts a slot's whole content on the nearest open cell. With no such cell the slot is left alone. */
    method DropItem(player: Player, pos: Position, index: int) returns (dropped: bool, ghost spot: Option<Position>)
      requires Valid() && Meets(player)
      modifies this, player.inventory
      ensures Valid() && Meets(player)
      ensures dropped <==>
              && !player.dead && terrain.IsValid(pos) && old(Open()) != {}
              && 0 <= index < |old(player.inventory.slots)| && old(player.inventory.slots)[index].item != null
      ensures !dropped ==> piles == old(piles) && player.inventory.slots == old(player.inventory.slots)
      ensures dropped ==>
                var s := old(player.inventory.slots)[index];
                && player.inventory.slots == old(player.inventory.slots)[index := EMPTY]
                && spot.Some? && Nearest(terrain, pos, old(piles), spot.value)
                && piles == old(piles)[spot.value := Parcel(0, s.item, s.quantity)]
      ensures forall key :: AllUnits(player, key) == old(AllUnits(player, key))
    {
      if player.dead {
        return false, None;
      }
      var free := ClosestOpen(pos);
      if free.None? {
        return false, None;
      }
      ghost var before := player.inventory.slots;
      var slot := player.inventory.PopSlot(index);
      if slot.item == null {
        assert 0 <= index < |before| ==> before[index := EMPTY] == before;
        return false, None;
      }
      SlotToGround(terrain, registry, piles, before, index, free.value);
      piles := piles[free.value := Parcel(0, slot.item, slot.quantity)];
      return true, free;
    }

    /**
     * A death: what the player drops lies around, gold first, each parcel on a nearest open cell. Lost are the last
     * parcels, which found no cell, and with room for all of it nothing is lost.
     */
    method Bury(player: Player, pos: Position) returns (ghost spots: seq<Position>, ghost lost: seq<Parcel>)
      requires Valid() && Meets(player)
      modifies this, player`gold, player`experience, player.inventory
      ensures Valid() && Meets(player)
      ensures player.gold == Min(old(player.gold), player.rules.safeGold(player.level))
      ensures player.experience ==
              Lose(player.rules, player.level, old(player.experience), player.rules.expLoss(old(player.experience)))
      ensures forall i | 0 <= i < |player.inventory.slots| :: player.inventory.slots[i] == EMPTY
      ensures forall p | p in old(piles) :: p in piles && piles[p] == old(piles)[p]
      ensures forall x | Lies(piles, x) :: Lies(old(piles), x) || Holds(old(player.inventory.slots), x)
      ensures player.gold + Total(piles, GoldOf()) + Sum(lost, GoldOf()) == old(player.gold + Total(piles, GoldOf()))
      ensures forall key :: AllUnits(player, key) + Sum(lost, UnitsOf(key)) == old(AllUnits(player, key))
      ensures |player.inventory.slots| == |old(player.inventory.slots)|
      ensures var all := Parcels(Loot(old(player.gold) - player.gold, Occupied(old(player.inventory.slots))));
              && Strewn(terrain, pos, old(piles), spots, all, piles)
              && |spots| <= |all| && lost == all[|spots|..]
    {
      hide Strewn, Sum, Total, Lies, Holds, Units, Occupied, Tidy, Parcels;
      ghost var before, slots := piles, player.inventory.slots;
      var loot := player.DropLoot();
      spots := DropLoot(pos, loot);
      BuriedTidy(terrain, registry, pos, before, spots, loot, slots, piles);
      BuriedTotals(terrain, pos, before, spots, loot, slots, player.inventory.slots, piles);
      lost := Parcels(loot)[|spots|..];
    }

    /** No further parcel can be laid here. */
    ghost predicate Stuck(center: Position)
      reads this
    {
      !terrain.IsValid(center) || Open() == {}
    }

    ghost predicate Progressing(center: Position, before: Piles, spots: seq<Position>, all: seq<Parcel>)
      reads this
    {
      && |spots| <= |all| && Scattered(terrain, center, before, spots, all)
      && piles == Laid(before, spots, all)
    }
  }

  /** A whole pile into the inventory, where there is room for it. */
  method GiveMany(player: Player, item: Item, quantity: int)
    requires player.Valid() && player.inventory.registry.Knows(item) && 0 < quantity
    requires !Holds(player.inventory.slots, item) && CanAdd(player.inventory.slots, item)
    modifies player.inventory
    ensures player.Valid()
    ensures player.inventory.slots == Added(old(player.inventory.slots), item, quantity)
    ensures forall x | Holds(player.inventory.slots, x) :: x == item || Holds(old(player.inventory.slots), x)
    ensures forall key :: Units(player.inventory.slots, key)
                          == Units(old(player.inventory.slots), key)
                             + if key == Normalize(item.name) then quantity else 0
  {
    ghost var before := player.inventory.slots;
    var _ := player.inventory.AddItem(item, quantity);
    forall key
      ensures Units(player.inventory.slots, key)
              == Units(before, key) + if key == Normalize(item.name) then quantity else 0
    {
      UnitsAfterAdd(before, item, quantity, key);
    }
    forall x | Holds(player.inventory.slots, x)
      ensures x == item || Holds(before, x)
    {
      var k :| 0 <= k < |before| && player.inventory.slots[k].item == x;
      assert x == item || before[k].item == x;
    }
  }

  lemma ScatteredNext(m: WorldMap, center: Position, before: Piles, spots: seq<Position>, all: seq<Parcel>,
                      spot: Position)
    requires |spots| < |all| && Scattered(m, center, before, spots, all)
    requires Nearest(m, center, Laid(before, spots, all), spot)
    ensures Scattered(m, center, before, spots + [spot], all)
    ensures Laid(before, spots + [spot], all) == Laid(before, spots, all)[spot := all[|spots|]]
  {
  }
}
