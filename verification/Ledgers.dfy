/** Who owns what, as values: what each thing players do moves, what it loses, and what that comes to over a run. */
module Ledgers {
  import opened Prelude
  import opened Bytes
  import opened Names
  import opened Placement
  import opened Items
  import opened Inventories
  import opened Players
  import opened Trade
  import opened Grounds
  import Saves

  datatype Event =
    | PickUp(player: nat, pos: Position)
    | Drop(player: nat, pos: Position, index: int)
    | Deposit(player: nat, name: Text)
    | Withdraw(player: nat, name: Text)
    | DepositGold(player: nat, amount: int)
    | WithdrawGold(player: nat, amount: int)
    | Buy(player: nat, name: Text, priest: bool)
    | Sell(player: nat, name: Text)
    | Use(player: nat, index: int)
    | Hit(player: nat, damage: int, pos: Position)
    | Learn(player: nat, experience: nat)
    | Revive(player: nat)
    | Leave(player: nat)
    | Reconnect(player: nat)
    | Return(player: nat, room: bool)
    | Begin(player: nat, kindred: nat, room: bool)
    | Autosave(elsewhere: bool)

  /** What a race and a class come to. */
  datatype Kindred = Kindred(rules: Rules, caster: bool)

  /** What is counted: gold, or the units of a name. */
  datatype What = Gold | Units(key: Text)

  ghost function Measure(what: What): Parcel -> int {
    match what
    case Gold => GoldOf()
    case Units(key) => UnitsOf(key)
  }

  /** A player with a safe. Who is not here has nothing but the safe, and does no more than the dead. */
  datatype Hand = Hand(here: bool, rules: Rules, caster: bool, progress: Progress, dead: bool, gold: nat,
                       slots: seq<Slot>, safe: Safe)
  {
    ghost predicate Fit(reg: Registry) {
      && rules.Valid() && Sound(reg, slots) && gold <= Cap()
      && (!here ==> dead && gold == 0 && forall i | 0 <= i < |slots| :: slots[i] == EMPTY)
    }

    ghost function InHand(what: What): int {
      match what
      case Gold => gold
      case Units(key) => Inventories.Units(slots, key)
    }

    ghost function InSafe(what: What): int {
      match what
      case Gold => safe.gold
      case Units(key) => Stored(safe.items, key)
    }

    ghost function Cap(): nat {
      rules.goldCap(progress.level)
    }

    ghost function Owns(what: What): int {
      InHand(what) + InSafe(what)
    }

    ghost function Carried(): set<Item> {
      set s | s in slots && s.item != null :: s.item as Item
    }

    ghost function Kept(): set<Item> {
      set x | x in safe.items
    }

    /** There is something in this slot. */
    ghost predicate Has(index: int) {
      0 <= index < |slots| && slots[index].item != null
    }

    /** After a blow, which the dead do not feel. */
    ghost function Hurt(damage: int): Hand {
      if dead || damage <= 0 then this
      else if damage < progress.hp then this.(progress := progress.(hp := progress.hp - damage))
      else this.(progress := progress.(hp := 0), dead := true)
    }

    /** The gold a death leaves in hand. */
    ghost function SafeGold(): nat {
      Min(gold, rules.safeGold(progress.level))
    }

    /** What falls to the ground at death: gold first, then every item. */
    ghost function Dropped(): seq<Parcel> {
      Parcels(Loot(gold - SafeGold(), Occupied(slots)))
    }

    /** After a death. */
    ghost function Stripped(): Hand {
      this.(gold := SafeGold(), slots := seq(|slots|, _ => EMPTY), progress := progress.(
        experience := Lose(rules, progress.level, progress.experience, rules.expLoss(progress.experience))))
    }
  }

  /** All players and what the last autosave has of them, the ground, and what the game's configuration fixes. */
  datatype Scene = Scene(terrain: WorldMap, registry: Registry, divisor: nat, kinds: seq<Kindred>, hands: seq<Hand>,
                         saves: seq<Option<Hand>>, piles: Piles)
  {
    predicate Concerns(e: Event) {
      !e.Autosave? && e.player < |hands|
    }

    /** An autosave takes everybody who is here and forgets the others; with nobody anywhere it is not written. */
    ghost function Snapshot(elsewhere: bool): seq<Option<Hand>> {
      if !elsewhere && forall k | 0 <= k < |hands| :: !hands[k].here then saves
      else seq(|hands|, k requires 0 <= k < |hands| => if hands[k].here then Some(hands[k]) else None)
    }

    /** No item is in two places. */
    ghost predicate Apart() {
      && (forall k | 0 <= k < |hands| :: hands[k].Carried() !! Lying(piles) && hands[k].Kept() !! Lying(piles))
      && (forall j, k | 0 <= j < |hands| && 0 <= k < |hands| :: hands[j].Carried() !! hands[k].Kept())
      && (forall j, k | 0 <= j < k < |hands| ::
            hands[j].Carried() !! hands[k].Carried() && hands[j].Kept() !! hands[k].Kept())
    }

    ghost predicate Fit() {
      && registry.Valid() && 0 < divisor && Tidy(terrain, registry, piles) && Apart()
      && (forall k | 0 <= k < |kinds| :: kinds[k].rules.Valid())
      && (forall k | 0 <= k < |hands| :: hands[k].Fit(registry))
      && |saves| == |hands| && (forall k | 0 <= k < |saves| && saves[k].Some? :: saves[k].value.Fit(registry))
    }

    /** Carried, in safes and on the ground. */
    ghost function Everywhere(what: What): int {
      OwnedBy(hands, what) + Total(piles, Measure(what))
    }

    /** The item is nowhere yet. */
    ghost predicate Unknown(x: Item) {
      && x !in Lying(piles)
      && forall k | 0 <= k < |hands| :: x !in hands[k].Carried() && x !in hands[k].Kept()
    }

    /** Open ground with nothing on it, when a blow kills here. */
    ghost function Cells(center: Position): nat {
      if terrain.IsValid(center) then |Grounds.Room(terrain, piles)| else 0
    }
  }

  ghost function Lying(piles: Piles): set<Item> {
    set p | p in piles && piles[p].item != null :: piles[p].item as Item
  }

  ghost function OwnedBy(hands: seq<Hand>, what: What): int {
    if hands == [] then 0 else OwnedBy(hands[..|hands| - 1], what) + hands[|hands| - 1].Owns(what)
  }

  // ---- What each event does to the player and the ground ----

  ghost predicate PickedUp(h: Hand, piles: Piles, pos: Position, h': Hand, piles': Piles) {
    if h.dead || pos !in piles then h' == h && piles' == piles
    else if piles[pos].gold > 0 then
      h' == h.(gold := Min(h.gold + piles[pos].gold, h.Cap())) && piles' == piles - {pos}
    else if piles[pos].item != null && CanAdd(h.slots, piles[pos].item) then
      h' == h.(slots := Added(h.slots, piles[pos].item, piles[pos].quantity)) && piles' == piles - {pos}
    else h' == h && piles' == piles
  }

  ghost predicate SlotDropped(m: WorldMap, h: Hand, piles: Piles, pos: Position, index: int, h': Hand, piles': Piles) {
    if h.dead || !m.IsValid(pos) || Grounds.Room(m, piles) == {} || !h.Has(index) then h' == h && piles' == piles
    else
      && h' == h.(slots := h.slots[index := EMPTY])
      && exists spot :: Nearest(m, pos, piles, spot)
                        && piles' == piles[spot := Parcel(0, h.slots[index].item, h.slots[index].quantity)]
  }

  /** The last unit goes to the safe as it is; one off a stack becomes an item of its own. */
  ghost predicate Deposited(h: Hand, name: Text, h': Hand) {
    var i := FirstIndex(h.slots, Keyed(Normalize(name)));
    if h.dead || i == -1 then h' == h
    else
      && |h'.safe.items| == |h.safe.items| + 1
      && var x := h'.safe.items[|h.safe.items|];
         && h' == h.(slots := OneLess(h.slots, i), safe := h.safe.(items := h.safe.items + [x]))
         && Normalize(x.name) == Normalize(name)
         && (h.slots[i].quantity <= 1 ==> x == h.slots[i].item)
  }

  /** With no room in the inventory the item goes back, to the end of the safe. */
  ghost predicate Withdrawn(h: Hand, name: Text, h': Hand) {
    var items := h.safe.items;
    var i := FirstIndex(items, Called(Normalize(name)));
    if h.dead || i == -1 then h' == h
    else
      var rest := items[..i] + items[i + 1..];
      h' == if CanAdd(h.slots, items[i])
            then h.(slots := Added(h.slots, items[i], 1), safe := h.safe.(items := rest))
            else h.(safe := h.safe.(items := rest + [items[i]]))
  }

  ghost function GoldDeposited(h: Hand, amount: int): Hand {
    if h.dead || amount <= 0 || amount > h.gold then h
    else h.(gold := h.gold - amount, safe := h.safe.(gold := h.safe.gold + amount))
  }

  ghost predicate PaysOut(h: Hand, amount: int) {
    !h.dead && 0 < amount <= h.safe.gold
  }

  ghost function GoldWithdrawn(h: Hand, amount: int): Hand {
    if !PaysOut(h, amount) then h
    else h.(gold := Min(h.gold + amount, h.Cap()), safe := h.safe.(gold := h.safe.gold - amount))
  }

  /** The merchant sells no magic weapons, the priest sells these and potions only. */
  ghost predicate Sells(reg: Registry, h: Hand, name: Text, priest: bool) {
    var sold := if priest then reg.IsPotion(name) || reg.IsMagicWeapon(name) else !reg.IsMagicWeapon(name);
    Offer(reg, h.dead, h.gold, h.slots, name, sold) == SUCCESS
  }

  ghost predicate Purchased(reg: Registry, h: Hand, name: Text, priest: bool, h': Hand) {
    if !Sells(reg, h, name, priest) then h' == h
    else
      && reg.Price(name) <= h.gold
      && h' == h.(gold := h.gold - reg.Price(name), slots := h'.slots)
      && Bought(reg, h.slots, name, h'.slots)
  }

  ghost predicate Buys(reg: Registry, h: Hand, name: Text) {
    !h.dead && !reg.IsMagicWeapon(name) && FirstIndex(h.slots, Keyed(Normalize(name))) != -1
  }

  ghost function Sold(reg: Registry, divisor: nat, h: Hand, name: Text): Hand
    requires 0 < divisor
  {
    if !Buys(reg, h, name) then h
    else h.(slots := OneLess(h.slots, FirstIndex(h.slots, Keyed(Normalize(name)))),
            gold := Min(h.gold + reg.Price(name) / divisor, h.Cap()))
  }

  ghost predicate Drinks(h: Hand, index: int) {
    !h.dead && h.Has(index) && h.slots[index].item.kind.Slot().None?
  }

  /** What lies in a slot is put on or off, or one unit of it is drunk. */
  ghost function Used(h: Hand, index: int): Hand {
    if h.dead || !h.Has(index) then h
    else if !Drinks(h, index) then h.(slots := Worn(h.slots, index))
    else h.(slots := OneLess(h.slots, index), progress := Drunk(h, h.slots[index].item.kind))
  }

  ghost function Drunk(h: Hand, kind: Kind): Progress
    requires kind.Potion?
  {
    var p := h.progress;
    if kind.restore <= 0 then p
    else if kind.health then p.(hp := Min(p.hp + kind.restore, p.maxHp))
    else if h.caster then p.(mana := Min(p.mana + kind.restore, p.maxMana))
    else p
  }

  /** A blow that kills strews what the player drops. */
  ghost predicate Struck(m: WorldMap, h: Hand, piles: Piles, damage: int, pos: Position, h': Hand, piles': Piles) {
    var hurt := h.Hurt(damage);
    if hurt.dead == h.dead then h' == hurt && piles' == piles
    else h' == hurt.Stripped() && exists spots :: Strewn(m, pos, piles, spots, h.Dropped(), piles')
  }

  ghost predicate Learned(h: Hand, experience: nat, h': Hand) {
    if h.here then h.rules.Valid() && h' == h.(progress := Gain(h.rules, h.progress, experience)) else h' == h
  }

  ghost function Revived(h: Hand): Hand {
    if h.here && h.dead
    then h.(dead := false, progress := h.progress.(hp := h.progress.maxHp, mana := h.progress.maxMana))
    else h
  }

  /** A player who leaves takes what is in hand out of the world; the safe stays. */
  ghost function Gone(h: Hand): Hand {
    if h.here then h.(here := false, dead := true, gold := 0, slots := seq(|h.slots|, _ => EMPTY)) else h
  }

  /** A new connection has a new id, and the safe is filed under the old one. */
  ghost function Reconnected(h: Hand): Hand {
    if h.here then h else h.(safe := Safe([], 0))
  }

  /** What a save holds of the player's progress. */
  function SaveOf(h: Hand): Saves.PlayerSave {
    Saves.PlayerSave([], h.caster, h.progress.level % Saves.LEVELS, h.progress.experience, h.progress.maxHp,
                     h.progress.maxMana, h.gold, Position(0, 0), [])
  }

  ghost function GoldBack(saved: Hand): int {
    Saves.GoldBack(saved.rules, saved.progress.level, saved.gold)
  }

  ghost predicate Comes(h: Hand, saved: Option<Hand>, room: bool) {
    !h.here && room && saved.Some?
  }

  /** The player of the last autosave, alive, with new items like those saved, and the safe of this connection. */
  ghost predicate Returned(h: Hand, saved: Option<Hand>, room: bool, h': Hand) {
    if !Comes(h, saved, room) then h' == h
    else
      var s := saved.value;
      && s.rules.Valid()
      && h' == h.(here := true, dead := false, rules := s.rules, caster := s.caster,
                  progress := Saves.Reborn(s.rules, SaveOf(s)), gold := h'.gold, slots := h'.slots)
      && h'.gold == GoldBack(s)
      && Saves.Compacted(h'.slots, Occupied(s.slots))
  }

  /** A new player of this kindred, with nothing. */
  ghost function Begun(h: Hand, kinds: seq<Kindred>, kindred: nat, room: bool): Hand {
    if h.here || !room || kindred >= |kinds| then h
    else
      var r := kinds[kindred].rules;
      Hand(true, r, kinds[kindred].caster, Progress(1, 0, r.maxHp(1), r.maxHp(1), r.maxMana(1), r.maxMana(1)),
           false, 0, seq(r.maxItems, _ => EMPTY), h.safe)
  }

  ghost predicate Moves(v: Scene, e: Event, h: Hand, h': Hand, piles': Piles)
    requires 0 < v.divisor && v.Concerns(e) && |v.saves| == |v.hands|
  {
    var piles := v.piles;
    match e
    case PickUp(_, pos) => PickedUp(h, piles, pos, h', piles')
    case Drop(_, pos, index) => SlotDropped(v.terrain, h, piles, pos, index, h', piles')
    case Deposit(_, name) => Deposited(h, name, h') && piles' == piles
    case Withdraw(_, name) => Withdrawn(h, name, h') && piles' == piles
    case DepositGold(_, amount) => h' == GoldDeposited(h, amount) && piles' == piles
    case WithdrawGold(_, amount) => h' == GoldWithdrawn(h, amount) && piles' == piles
    case Buy(_, name, priest) => Purchased(v.registry, h, name, priest, h') && piles' == piles
    case Sell(_, name) => h' == Sold(v.registry, v.divisor, h, name) && piles' == piles
    case Use(_, index) => h' == Used(h, index) && piles' == piles
    case Hit(_, damage, pos) => Struck(v.terrain, h, piles, damage, pos, h', piles')
    case Learn(_, experience) => Learned(h, experience, h') && piles' == piles
    case Revive(_) => h' == Revived(h) && piles' == piles
    case Leave(_) => h' == Gone(h) && piles' == piles
    case Reconnect(_) => h' == Reconnected(h) && piles' == piles
    case Return(k, room) => Returned(h, v.saves[k], room, h') && piles' == piles
    case Begin(_, kindred, room) => h' == Begun(h, v.kinds, kindred, room) && piles' == piles
  }

  /** One event: it concerns one player and the ground, and what items they have after it they had, or are new. */
  ghost predicate Follows(v: Scene, e: Event, v': Scene) {
    && 0 < v.divisor && |v.saves| == |v.hands|
    && if e.Autosave? then v' == v.(saves := v.Snapshot(e.elsewhere))
    else if !v.Concerns(e) then v' == v
    else
      var k := e.player;
      && |v'.hands| == |v.hands|
      && v' == v.(hands := v.hands[k := v'.hands[k]], piles := v'.piles)
      && Moves(v, e, v.hands[k], v'.hands[k], v'.piles)
      && Separate(v'.hands[k], v'.piles)
      && forall x | x in Things(v'.hands[k], v'.piles) :: x in Things(v.hands[k], v.piles) || v.Unknown(x)
  }

  /** What a player has and what is on the ground. */
  ghost function Things(h: Hand, piles: Piles): set<Item> {
    h.Carried() + h.Kept() + Lying(piles)
  }

  ghost predicate Separate(h: Hand, piles: Piles) {
    h.Carried() !! h.Kept() && h.Carried() !! Lying(piles) && h.Kept() !! Lying(piles)
  }

  // ---- What an event loses, and what trade and drink bring and take ----

  /** This event kills a player. */
  ghost predicate Kills(v: Scene, e: Event) {
    e.Hit? && v.Concerns(e) && !v.hands[e.player].dead && v.hands[e.player].Hurt(e.damage).dead
  }

  /** What a dying player drops beyond the open cells there are. */
  ghost function Unlaid(v: Scene, e: Event): seq<Parcel> {
    if !Kills(v, e) then []
    else
      var all := v.hands[e.player].Dropped();
      all[Min(|all|, v.Cells(e.pos))..]
  }

  /** Gold that does not fit under the cap of its new owner. */
  ghost function Spilt(v: Scene, e: Event): nat
    requires 0 < v.divisor
  {
    if !v.Concerns(e) then 0
    else
      var h := v.hands[e.player];
      if e.PickUp? && !h.dead && e.pos in v.piles then Above(h, v.piles[e.pos].gold)
      else if e.WithdrawGold? && PaysOut(h, e.amount) then Above(h, e.amount)
      else if e.Sell? && Buys(v.registry, h, e.name) then Above(h, v.registry.Price(e.name) / v.divisor)
      else 0
  }

  ghost function Above(h: Hand, amount: nat): nat {
    if h.gold + amount > h.Cap() && amount > 0 then h.gold + amount - h.Cap() else 0
  }

  ghost function Lost(v: Scene, e: Event, what: What): int
    requires 0 < v.divisor
  {
    Sum(Unlaid(v, e), Measure(what)) + if what.Gold? then Spilt(v, e) else 0
  }

  /** What comes from the city NPCs, less what goes to them or is drunk. */
  ghost function Traded(v: Scene, e: Event, what: What): int
    requires 0 < v.divisor
  {
    if !v.Concerns(e) then 0
    else
      var h, price := v.hands[e.player], if e.Buy? || e.Sell? then v.registry.Price(e.name) else 0;
      if e.Buy? && Sells(v.registry, h, e.name, e.priest) then
        if what.Gold? then 0 - price else if what.key == Normalize(e.name) then 1 else 0
      else if e.Sell? && Buys(v.registry, h, e.name) then
        if what.Gold? then price / v.divisor else if what.key == Normalize(e.name) then -1 else 0
      else if e.Use? && Drinks(h, e.index) then
        if what.Units? && what.key == Normalize(h.slots[e.index].item.name) then -1 else 0
      else 0
  }

  /** What a returning player brings into the world out of a save. */
  ghost function Brought(v: Scene, e: Event, what: What): int
    requires |v.saves| == |v.hands|
  {
    if !e.Return? || !v.Concerns(e) || !Comes(v.hands[e.player], v.saves[e.player], e.room) then 0
    else
      var s := v.saves[e.player].value;
      if what.Gold? then GoldBack(s) else s.InHand(what)
  }

  /** What goes out of the world: with a player who leaves, and with a safe nobody has the key to any more. */
  ghost function Forsaken(v: Scene, e: Event, what: What): int {
    if !v.Concerns(e) then 0
    else
      var h := v.hands[e.player];
      if e.Leave? && h.here then h.InHand(what)
      else if e.Reconnect? && !h.here then h.InSafe(what)
      else 0
  }

  // ---- Balance ----

  lemma {:induction false} OwnedByUpdate(hands: seq<Hand>, k: nat, h: Hand, what: What)
    requires k < |hands|
    ensures OwnedBy(hands[k := h], what) - OwnedBy(hands, what) == h.Owns(what) - hands[k].Owns(what)
  {
    hide Hand.Owns;
    var n := |hands| - 1;
    if k < n {
      OwnedByUpdate(hands[..n], k, h, what);
      assert hands[k := h][..n] == hands[..n][k := h];
    } else {
      assert hands[k := h][..n] == hands[..n];
    }
  }

  lemma PickUpBalances(m: WorldMap, reg: Registry, h: Hand, piles: Piles, pos: Position, h': Hand, piles': Piles,
                       what: What)
    requires h.Fit(reg) && Tidy(m, reg, piles) && PickedUp(h, piles, pos, h', piles')
    ensures h'.Owns(what) + Total(piles', Measure(what))
            + (if what.Gold? && !h.dead && pos in piles then Above(h, piles[pos].gold) else 0)
            == h.Owns(what) + Total(piles, Measure(what))
  {
    hide Inventories.Units, Sound, Total, Added, CanAdd, Stored, Normalize;
    if !h.dead && pos in piles {
      TotalWithout(piles, Measure(what), pos);
      if piles[pos].gold == 0 && CanAdd(h.slots, piles[pos].item) && what.Units? {
        UnitsAfterAdd(h.slots, piles[pos].item, piles[pos].quantity, what.key);
      }
    }
  }

  lemma DropBalances(m: WorldMap, h: Hand, piles: Piles, pos: Position, index: int, h': Hand, piles': Piles, what: What)
    requires SlotDropped(m, h, piles, pos, index, h', piles')
    ensures h'.Owns(what) + Total(piles', Measure(what)) == h.Owns(what) + Total(piles, Measure(what))
  {
    hide Inventories.Units, Total, Stored, Normalize;
    if h' != h {
      var parcel := Parcel(0, h.slots[index].item, h.slots[index].quantity);
      var spot :| Nearest(m, pos, piles, spot) && piles' == piles[spot := parcel];
      TotalWith(piles, Measure(what), spot, parcel);
      if what.Units? {
        UnitsUpdate(h.slots, index, EMPTY, what.key);
      }
    }
  }

  lemma DepositBalances(reg: Registry, h: Hand, name: Text, h': Hand, what: What)
    requires h.Fit(reg) && Deposited(h, name, h')
    ensures h'.Owns(what) == h.Owns(what)
  {
    hide Inventories.Units, Stored, Normalize, OneLess;
    var i := FirstIndex(h.slots, Keyed(Normalize(name)));
    if !h.dead && i != -1 && what.Units? {
      var x := h'.safe.items[|h.safe.items|];
      SoundAfterOneLess(reg, h.slots, i);
      StoredConcat(h.safe.items, [x], what.key);
      OneStored(x, what.key);
    }
  }

  lemma OneStored(x: Item, key: Text)
    ensures Stored([x], key) == if Normalize(x.name) == key then 1 else 0
  {
    hide Normalize;
    assert Stored([x], key) == (if Normalize(x.name) == key then 1 else 0) + Stored([], key);
  }

  lemma WithdrawBalances(h: Hand, name: Text, h': Hand, what: What)
    requires Withdrawn(h, name, h')
    ensures h'.Owns(what) == h.Owns(what)
  {
    hide Inventories.Units, Stored, Normalize, Added, CanAdd;
    var items := h.safe.items;
    var i := FirstIndex(items, Called(Normalize(name)));
    if !h.dead && i != -1 && what.Units? {
      StoredWithout(items, i, what.key);
      if CanAdd(h.slots, items[i]) {
        UnitsAfterAdd(h.slots, items[i], 1, what.key);
      } else {
        StoredConcat(items[..i] + items[i + 1..], [items[i]], what.key);
        OneStored(items[i], what.key);
      }
    }
  }

  lemma HitBalances(m: WorldMap, h: Hand, piles: Piles, damage: int, pos: Position, h': Hand, piles': Piles, what: What)
    requires Struck(m, h, piles, damage, pos, h', piles')
    ensures var all := h.Dropped();
            var n := Min(|all|, if m.IsValid(pos) then |Grounds.Room(m, piles)| else 0);
            h'.Owns(what) + Total(piles', Measure(what))
            + (if h.Hurt(damage).dead != h.dead then Sum(all[n..], Measure(what)) else 0)
            == h.Owns(what) + Total(piles, Measure(what))
  {
    hide Inventories.Units, Stored, Normalize, Total, Sum, Parcels, Occupied;
    if h.Hurt(damage).dead != h.dead {
      var spots :| Strewn(m, pos, piles, spots, h.Dropped(), piles');
      BuriedTotals(m, pos, piles, spots, Loot(h.gold - h.SafeGold(), Occupied(h.slots)), h.slots, h'.slots, piles');
    }
  }

  lemma BuyBalances(reg: Registry, h: Hand, name: Text, priest: bool, h': Hand, what: What)
    requires Purchased(reg, h, name, priest, h')
    ensures h'.Owns(what)
            == h.Owns(what) + if !Sells(reg, h, name, priest) then 0
                              else if what.Gold? then 0 - reg.Price(name)
                              else if what.key == Normalize(name) then 1 else 0
  {
    hide Inventories.Units, Stored, Normalize, Added, CanAdd, Sells;
    if Sells(reg, h, name, priest) {
      var i :| 0 <= i < |h'.slots| && h'.slots[i].item != null
               && reg.Knows(h'.slots[i].item) && Normalize(h'.slots[i].item.name) == Normalize(name)
               && CanAdd(h.slots, h'.slots[i].item) && h'.slots == Added(h.slots, h'.slots[i].item, 1);
      if what.Units? {
        UnitsAfterAdd(h.slots, h'.slots[i].item, 1, what.key);
      }
    }
  }

  lemma SellBalances(reg: Registry, divisor: nat, h: Hand, name: Text, what: What)
    requires 0 < divisor && h.Fit(reg)
    ensures var price := reg.Price(name) / divisor;
            var buys := Buys(reg, h, name);
            Sold(reg, divisor, h, name).Owns(what) + (if what.Gold? && buys then Above(h, price) else 0)
            == h.Owns(what) + if !buys then 0 else if what.Gold? then price
                              else if what.key == Normalize(name) then -1 else 0
  {
    hide Inventories.Units, Stored, Normalize, OneLess, Sound;
    if Buys(reg, h, name) {
      SoundAfterOneLess(reg, h.slots, FirstIndex(h.slots, Keyed(Normalize(name))));
    }
  }

  lemma UseBalances(reg: Registry, h: Hand, index: int, what: What)
    requires h.Fit(reg)
    ensures Used(h, index).Owns(what)
            == h.Owns(what) + if Drinks(h, index) && what.Units? && what.key == Normalize(h.slots[index].item.name)
                              then -1 else 0
  {
    hide Inventories.Units, Stored, Normalize, OneLess, Worn;
    if !h.dead && h.Has(index) {
      if Drinks(h, index) {
        SoundAfterOneLess(reg, h.slots, index);
      } else {
        SoundAfterWear(reg, h.slots, index);
      }
    }
  }

  lemma GoldBalances(h: Hand, amount: int, what: What)
    requires h.gold <= h.Cap()
    ensures GoldDeposited(h, amount).Owns(what) == h.Owns(what)
    ensures GoldWithdrawn(h, amount).Owns(what) + (if what.Gold? && PaysOut(h, amount) then Above(h, amount) else 0)
            == h.Owns(what)
  {
    hide Inventories.Units, Stored;
  }

  lemma FateBalances(h: Hand, experience: nat, h': Hand, what: What)
    requires Learned(h, experience, h') || h' == Revived(h)
    ensures h'.Owns(what) == h.Owns(what)
  {
    hide Inventories.Units, Stored, Gain;
  }

  /** Slots restored as they were hold the same units. */
  lemma {:induction false} CompactedUnits(slots: seq<Slot>, occupied: seq<Slot>, key: Text)
    requires Saves.Compacted(slots, occupied)
    ensures Inventories.Units(slots, key) == Inventories.Units(occupied, key)
  {
    if occupied == [] {
      NoUnits(slots, key);
    } else {
      assert Saves.Same(slots[0], occupied[0]);
      assert Saves.Compacted(slots[1..], occupied[1..]);
      CompactedUnits(slots[1..], occupied[1..], key);
    }
  }

  lemma ReturnBalances(reg: Registry, h: Hand, saved: Option<Hand>, room: bool, h': Hand, what: What)
    requires h.Fit(reg) && Returned(h, saved, room, h')
    ensures h'.Owns(what)
            == h.Owns(what) + if !Comes(h, saved, room) then 0
                              else if what.Gold? then GoldBack(saved.value) else saved.value.InHand(what)
  {
    hide Inventories.Units, Stored, Sound, Saves.Compacted, Saves.Reborn;
    if Comes(h, saved, room) && what.Units? {
      CompactedUnits(h'.slots, Occupied(saved.value.slots), what.key);
      OccupiedUnits(saved.value.slots, what.key);
      NoUnits(h.slots, what.key);
    }
  }

  lemma ComingAndGoingBalances(reg: Registry, h: Hand, kinds: seq<Kindred>, kindred: nat, room: bool, what: What)
    requires h.Fit(reg)
    ensures Begun(h, kinds, kindred, room).Owns(what) == h.Owns(what)
    ensures Gone(h).Owns(what) + (if h.here then h.InHand(what) else 0) == h.Owns(what)
    ensures Reconnected(h).Owns(what) + (if h.here then 0 else h.InSafe(what)) == h.Owns(what)
  {
    hide Inventories.Units, Sound;
    if what.Units? {
      NoUnits(Gone(h).slots, what.key);
      if Begun(h, kinds, kindred, room) != h {
        NoUnits(h.slots, what.key);
        NoUnits(Begun(h, kinds, kindred, room).slots, what.key);
      }
    }
  }

  /** With the ground: picking up, dropping, dying. */
  lemma GroundBalances(v: Scene, e: Event, h': Hand, piles': Piles, what: What)
    requires e.PickUp? || e.Drop? || e.Hit?
    requires v.Fit() && v.Concerns(e)
    requires Moves(v, e, v.hands[e.player], h', piles')
    ensures h'.Owns(what) + Total(piles', Measure(what)) + Lost(v, e, what) + Forsaken(v, e, what)
            == v.hands[e.player].Owns(what) + Total(v.piles, Measure(what)) + Traded(v, e, what) + Brought(v, e, what)
  {
    hide Total, Tidy, Sound, Scene.Apart, Measure, Hand.Dropped, Hand.Owns;
    hide PickedUp, SlotDropped, Struck, FirstIndex;
    var h := v.hands[e.player];
    match e
    case PickUp(_, pos) => PickUpBalances(v.terrain, v.registry, h, v.piles, pos, h', piles', what);
    case Drop(_, pos, index) => DropBalances(v.terrain, h, v.piles, pos, index, h', piles', what);
    case Hit(_, damage, pos) => HitBalances(v.terrain, h, v.piles, damage, pos, h', piles', what);
  }

  lemma MoveBalances(v: Scene, e: Event, h': Hand, piles': Piles, what: What)
    requires v.Fit() && v.Concerns(e)
    requires Moves(v, e, v.hands[e.player], h', piles')
    ensures h'.Owns(what) + Total(piles', Measure(what)) + Lost(v, e, what) + Forsaken(v, e, what)
            == v.hands[e.player].Owns(what) + Total(v.piles, Measure(what)) + Traded(v, e, what) + Brought(v, e, what)
  {
    hide Total, Tidy, Sound, Scene.Apart, Measure, Hand.Dropped, Hand.Owns, Normalize;
    hide PickedUp, SlotDropped, Deposited, Withdrawn, Struck, FirstIndex, Bought, Sells, Buys, Drinks, Used, Sold;
    hide GoldDeposited, GoldWithdrawn, PaysOut, Above, Learned, Revived, Purchased, Gone, Reconnected, Returned, Begun;
    hide Comes, GoldBack, Hand.InHand, Hand.InSafe;
    var h := v.hands[e.player];
    if e.PickUp? || e.Drop? || e.Hit? {
      GroundBalances(v, e, h', piles', what);
    } else if Travels(e) {
      TravelBalances(v, e, h', piles', what);
    } else {
      assert Unlaid(v, e) == [] && piles' == v.piles;
      match e
      case Deposit(_, name) => DepositBalances(v.registry, h, name, h', what);
      case Withdraw(_, name) => WithdrawBalances(h, name, h', what);
      case DepositGold(_, amount) => GoldBalances(h, amount, what);
      case WithdrawGold(_, amount) => GoldBalances(h, amount, what);
      case Buy(_, name, priest) => BuyBalances(v.registry, h, name, priest, h', what);
      case Sell(_, name) => SellBalances(v.registry, v.divisor, h, name, what);
      case Use(_, index) => UseBalances(v.registry, h, index, what);
      case Learn(_, experience) => FateBalances(h, experience, h', what);
      case Revive(_) => FateBalances(h, 0, h', what);
    }
  }

  /** Leaving, reconnecting, returning, beginning. */
  lemma TravelBalances(v: Scene, e: Event, h': Hand, piles': Piles, what: What)
    requires v.Fit() && v.Concerns(e) && Travels(e)
    requires Moves(v, e, v.hands[e.player], h', piles')
    ensures h'.Owns(what) + Total(piles', Measure(what)) + Lost(v, e, what) + Forsaken(v, e, what)
            == v.hands[e.player].Owns(what) + Total(v.piles, Measure(what)) + Traded(v, e, what) + Brought(v, e, what)
  {
    hide Total, Tidy, Sound, Scene.Apart, Measure, Hand.Owns, Gone, Reconnected, Returned, Begun;
    hide Comes, GoldBack, Hand.InHand, Hand.InSafe;
    var h := v.hands[e.player];
    assert Unlaid(v, e) == [] && piles' == v.piles;
    match e
    case Return(k, room) => ReturnBalances(v.registry, h, v.saves[k], room, h', what);
    case Leave(_) => ComingAndGoingBalances(v.registry, h, v.kinds, 0, false, what);
    case Reconnect(_) => ComingAndGoingBalances(v.registry, h, v.kinds, 0, false, what);
    case Begin(_, kindred, room) => ComingAndGoingBalances(v.registry, h, v.kinds, kindred, room, what);
  }

  /**
   * An event loses exactly what it spills over a cap, strews with no cell left or takes out of the world, and gains
   * exactly what trade brings or a save puts back.
   */
  lemma StepBalances(v: Scene, e: Event, v': Scene, what: What)
    requires v.Fit() && Follows(v, e, v')
    ensures v'.Everywhere(what) + Lost(v, e, what) + Forsaken(v, e, what)
            == v.Everywhere(what) + Traded(v, e, what) + Brought(v, e, what)
  {
    hide Total, Measure, Moves, Scene.Apart, Tidy, Hand.Fit, Hand.Owns, Scene.Unknown;
    if v.Concerns(e) {
      MoveBalances(v, e, v'.hands[e.player], v'.piles, what);
      OwnedByUpdate(v.hands, e.player, v'.hands[e.player], what);
    }
  }

  // ---- Whole runs ----

  ghost predicate Traced(trail: seq<Scene>, events: seq<Event>) {
    && |trail| == |events| + 1
    && (forall i | 0 <= i < |trail| :: trail[i].Fit())
    && forall i | 0 <= i < |events| :: Follows(trail[i], events[i], trail[i + 1])
  }

  lemma NobodyMoves(v: Scene, e: Event)
    requires 0 < v.divisor && |v.saves| == |v.hands| && !e.Autosave? && !v.Concerns(e)
    ensures Follows(v, e, v)
  {
  }

  lemma NothingHappens(v: Scene, e: Event)
    requires 0 < v.divisor && |v.saves| == |v.hands| && v.Concerns(e) && Separate(v.hands[e.player], v.piles)
    requires Moves(v, e, v.hands[e.player], v.hands[e.player], v.piles)
    ensures Follows(v, e, v)
  {
    hide Moves, Separate, Scene.Unknown;
    assert v.hands == v.hands[e.player := v.hands[e.player]];
  }

  lemma TracedNext(trail: seq<Scene>, events: seq<Event>, e: Event, v: Scene)
    requires Traced(trail, events) && v.Fit() && Follows(trail[|events|], e, v)
    ensures Traced(trail + [v], events + [e])
  {
    hide Scene.Fit, Follows;
  }

  ghost function AllUnlaid(trail: seq<Scene>, events: seq<Event>): seq<Parcel>
    requires |trail| == |events| + 1
  {
    if events == [] then []
    else
      var n := |events| - 1;
      AllUnlaid(trail[..n + 1], events[..n]) + Unlaid(trail[n], events[n])
  }

  ghost function AllSpilt(trail: seq<Scene>, events: seq<Event>): nat
    requires Traced(trail, events)
  {
    if events == [] then 0
    else
      var n := |events| - 1;
      AllSpilt(trail[..n + 1], events[..n]) + Spilt(trail[n], events[n])
  }

  ghost function AllTraded(trail: seq<Scene>, events: seq<Event>, what: What): int
    requires Traced(trail, events)
  {
    if events == [] then 0
    else
      var n := |events| - 1;
      AllTraded(trail[..n + 1], events[..n], what) + Traded(trail[n], events[n], what)
  }

  ghost function AllBrought(trail: seq<Scene>, events: seq<Event>, what: What): int
    requires Traced(trail, events)
  {
    if events == [] then 0
    else
      var n := |events| - 1;
      AllBrought(trail[..n + 1], events[..n], what) + Brought(trail[n], events[n], what)
  }

  ghost function AllForsaken(trail: seq<Scene>, events: seq<Event>, what: What): int
    requires Traced(trail, events)
  {
    if events == [] then 0
    else
      var n := |events| - 1;
      AllForsaken(trail[..n + 1], events[..n], what) + Forsaken(trail[n], events[n], what)
  }

  /**
   * Whatever all players do, in whatever order: what there was, and what trade and saves brought, is carried, in a safe
   * or on the ground, but for what dying players dropped beyond the open cells, gold over a cap, and what left with
   * players or stayed in safes nobody can open.
   */
  lemma {:induction false} RunBalances(trail: seq<Scene>, events: seq<Event>, what: What)
    requires Traced(trail, events)
    ensures trail[|events|].Everywhere(what)
            + Sum(AllUnlaid(trail, events), Measure(what)) + (if what.Gold? then AllSpilt(trail, events) else 0)
            + AllForsaken(trail, events, what)
            == trail[0].Everywhere(what) + AllTraded(trail, events, what) + AllBrought(trail, events, what)
  {
    hide Follows, Scene.Everywhere, Unlaid, Spilt, Traded, Brought, Forsaken, Measure, Tidy, Scene.Apart, Hand.Fit;
    if events != [] {
      var n := |events| - 1;
      RunBalances(trail[..n + 1], events[..n], what);
      StepBalances(trail[n], events[n], trail[n + 1], what);
      SumConcat(AllUnlaid(trail[..n + 1], events[..n]), Unlaid(trail[n], events[n]), Measure(what));
    }
  }

  /** A death meets enough open cells for all that is dropped. */
  ghost predicate Roomy(v: Scene, e: Event) {
    Kills(v, e) ==> |v.hands[e.player].Dropped()| <= v.Cells(e.pos)
  }

  /** Nothing is lost on the ground exactly when every death of the run met enough open cells. */
  lemma {:induction false} NothingUnlaid(trail: seq<Scene>, events: seq<Event>)
    requires |trail| == |events| + 1
    ensures AllUnlaid(trail, events) == [] <==> forall i | 0 <= i < |events| :: Roomy(trail[i], events[i])
  {
    hide Unlaid, Roomy;
    if events != [] {
      var n := |events| - 1;
      var earlier, before := trail[..n + 1], events[..n];
      NothingUnlaid(earlier, before);
      assert forall i | 0 <= i < n :: earlier[i] == trail[i] && before[i] == events[i];
      assert (forall i | 0 <= i < n :: Roomy(earlier[i], before[i]))
             <==> forall i | 0 <= i < n :: Roomy(trail[i], events[i]);
      UnlaidUnlessRoomy(trail[n], events[n]);
    }
  }

  lemma UnlaidUnlessRoomy(v: Scene, e: Event)
    ensures Unlaid(v, e) == [] <==> Roomy(v, e)
  {
    hide Kills, Hand.Dropped, Scene.Cells;
  }

  /** What a dying player drops is gold, or at least one unit of a known item. */
  lemma DroppedSane(reg: Registry, h: Hand)
    requires Sound(reg, h.slots)
    ensures forall p | p in h.Dropped() :: Sane(reg, p)
  {
    LootIsLayable(reg, h.slots, h.gold - h.SafeGold(), map[]);
  }

  /** What a run loses was there: gold, or at least one unit of a known item. Nothing is made out of a loss. */
  lemma {:induction false} UnlaidSane(trail: seq<Scene>, events: seq<Event>)
    requires Traced(trail, events)
    ensures trail[|events|].registry == trail[0].registry
    ensures forall p | p in AllUnlaid(trail, events) :: Sane(trail[0].registry, p)
  {
    hide Sane, Sound, Hand.Dropped, Hand.Hurt, Scene.Apart, Tidy, Moves, Scene.Unknown;
    if events != [] {
      var n := |events| - 1;
      UnlaidSane(trail[..n + 1], events[..n]);
      if Kills(trail[n], events[n]) {
        DroppedSane(trail[n].registry, trail[n].hands[events[n].player]);
      }
    }
  }

  lemma {:induction false} SaneSum(reg: Registry, parcels: seq<Parcel>, what: What)
    requires forall p | p in parcels :: Sane(reg, p)
    ensures 0 <= Sum(parcels, Measure(what))
  {
    if parcels != [] {
      var n := |parcels| - 1;
      SaneSum(reg, parcels[..n], what);
      assert parcels[n] in parcels;
    }
  }

  lemma {:induction false} UnitsNotNegative(slots: seq<Slot>, key: Text)
    requires forall i | 0 <= i < |slots| :: slots[i].item != null ==> 0 < slots[i].quantity
    ensures 0 <= Inventories.Units(slots, key)
  {
    if slots != [] {
      UnitsNotNegative(slots[1..], key);
    }
  }

  lemma {:induction false} ForsakenNotNegative(trail: seq<Scene>, events: seq<Event>, what: What)
    requires Traced(trail, events)
    ensures 0 <= AllForsaken(trail, events, what)
  {
    hide Follows, Scene.Apart, Tidy, Inventories.Units, Registry.Knows, Stored;
    if events != [] {
      var n := |events| - 1;
      ForsakenNotNegative(trail[..n + 1], events[..n], what);
      if what.Units? && trail[n].Concerns(events[n]) {
        UnitsNotNegative(trail[n].hands[events[n].player].slots, what.key);
      }
    }
  }

  /** No run makes gold, or a unit of any item, but by trade and out of saves. */
  lemma NothingMade(trail: seq<Scene>, events: seq<Event>, what: What)
    requires Traced(trail, events)
    ensures trail[|events|].Everywhere(what)
            <= trail[0].Everywhere(what) + AllTraded(trail, events, what) + AllBrought(trail, events, what)
  {
    hide Sane, Scene.Everywhere, Scene.Fit, Follows, Sum, AllForsaken, AllTraded, AllBrought, AllUnlaid, AllSpilt;
    RunBalances(trail, events, what);
    UnlaidSane(trail, events);
    SaneSum(trail[0].registry, AllUnlaid(trail, events), what);
    ForsakenNotNegative(trail, events, what);
  }

  lemma {:induction false} NothingTraded(trail: seq<Scene>, events: seq<Event>, what: What)
    requires Traced(trail, events) && forall e | e in events :: !e.Buy? && !e.Sell? && !e.Use?
    ensures AllTraded(trail, events, what) == 0
  {
    hide Follows, Scene.Fit;
    if events != [] {
      var n := |events| - 1;
      assert events[n] in events;
      NothingTraded(trail[..n + 1], events[..n], what);
    }
  }

  /**
   * Without trade and drink, and as long as every death meets enough open cells, the units of an item are kept exactly
   * when saves bring back what leaving took away.
   */
  lemma RoomyRunConserves(trail: seq<Scene>, events: seq<Event>, key: Text)
    requires Traced(trail, events) && forall e | e in events :: !e.Buy? && !e.Sell? && !e.Use?
    requires forall i | 0 <= i < |events| :: Roomy(trail[i], events[i])
    ensures trail[|events|].Everywhere(Units(key)) == trail[0].Everywhere(Units(key))
            <==> AllBrought(trail, events, Units(key)) == AllForsaken(trail, events, Units(key))
  {
    hide Follows, Scene.Fit, Scene.Everywhere, Roomy, AllForsaken, AllTraded, AllBrought, AllUnlaid, AllSpilt;
    RunBalances(trail, events, Units(key));
    NothingTraded(trail, events, Units(key));
    NothingUnlaid(trail, events);
  }

  /** As long as nobody comes back, leaves for good or changes connection, nothing is brought and nothing forsaken. */
  lemma {:induction false} NobodyTravels(trail: seq<Scene>, events: seq<Event>, what: What)
    requires Traced(trail, events) && forall e | e in events :: !e.Leave? && !e.Reconnect? && !e.Return?
    ensures AllBrought(trail, events, what) == 0 && AllForsaken(trail, events, what) == 0
  {
    hide Follows, Scene.Fit;
    if events != [] {
      var n := |events| - 1;
      assert events[n] in events;
      NobodyTravels(trail[..n + 1], events[..n], what);
    }
  }

  // ---- Leaving and coming back ----

  /** Neither an autosave nor this player's return. */
  predicate LeavesAway(e: Event, k: nat) {
    !e.Autosave? && (e.player == k ==> !e.Return? && !e.Begin?)
  }

  /** Who is away stays away, and the save stays what it is, until an autosave or the player's return. */
  lemma AwayStays(v: Scene, e: Event, v': Scene, k: nat)
    requires v.Fit() && Follows(v, e, v') && k < |v.hands| && !v.hands[k].here
    requires LeavesAway(e, k)
    ensures |v'.hands| == |v'.saves| == |v.hands| && !v'.hands[k].here && v'.saves[k] == v.saves[k]
  {
    hide Tidy, Scene.Apart, Sound, Normalize, FirstIndex, Scene.Unknown, Separate, Things;
  }

  lemma {:induction false} AwayMeanwhile(trail: seq<Scene>, events: seq<Event>, i: nat, j: nat, k: nat)
    requires Traced(trail, events) && i <= j <= |events| && k < |trail[i].hands| && !trail[i].hands[k].here
    requires forall m | i <= m < j :: LeavesAway(events[m], k)
    ensures |trail[j].hands| == |trail[j].saves| == |trail[i].hands|
    ensures !trail[j].hands[k].here && trail[j].saves[k] == trail[i].saves[k]
    decreases j
  {
    hide Follows, Tidy, Scene.Apart, Hand.Fit;
    if i < j {
      AwayMeanwhile(trail, events, i, j - 1, k);
      AwayStays(trail[j - 1], events[j - 1], trail[j], k);
    }
  }

  /** What a save puts back into its player's hands. */
  ghost function Restored(saved: Hand, what: What): int {
    if what.Gold? then GoldBack(saved) else saved.InHand(what)
  }

  /**
   * A player who leaves and comes back, with no autosave in between, changes the total by what the save had less what
   * was in hand on leaving, whatever the others do meanwhile.
   */
  lemma ReturnAfterLeaving(trail: seq<Scene>, events: seq<Event>, i: nat, j: nat, k: nat, what: What)
    requires Traced(trail, events) && i < j < |events|
    requires k < |trail[i].hands| && trail[i].hands[k].here && trail[i].saves[k].Some?
    requires events[i] == Leave(k) && events[j] == Return(k, true)
    requires forall m | i < m < j :: LeavesAway(events[m], k)
    ensures Brought(trail[j], events[j], what) - Forsaken(trail[i], events[i], what)
            == Restored(trail[i].saves[k].value, what) - trail[i].hands[k].InHand(what)
  {
    hide Tidy, Scene.Apart, Hand.Fit, GoldBack, Hand.InHand, Scene.Unknown, Separate, Things;
    assert Follows(trail[i], events[i], trail[i + 1]);
    AwayMeanwhile(trail, events, i + 1, j, k);
  }

  /** Saved at the last moment, nothing is made and no unit is lost; gold neither, where it fits under the cap again. */
  lemma SavedOnLeaving(trail: seq<Scene>, events: seq<Event>, i: nat, k: nat, what: What)
    requires Traced(trail, events) && 0 < i < |events| && events[i - 1].Autosave?
    requires k < |trail[i - 1].hands| && trail[i - 1].hands[k].here
    ensures k < |trail[i].saves| && trail[i].saves[k] == Some(trail[i].hands[k])
    ensures Restored(trail[i].hands[k], what) == trail[i].hands[k].InHand(what)
            <==> what.Units? || trail[i].hands[k].gold
                                <= trail[i].hands[k].rules.goldCap(Saves.StartLevel(SaveOf(trail[i].hands[k])))
  {
    hide Tidy, Scene.Apart, Hand.Fit, Inventories.Units;
    assert Follows(trail[i - 1], events[i - 1], trail[i]);
  }

  lemma AutosaveStep(v: Scene, v': Scene, k: nat, key: Text)
    requires v.Fit() && Follows(v, Autosave(false), v') && k < |v.hands| && v.hands[k].here
    ensures v' == v.(saves := v'.saves) && |v'.saves| == |v.saves| && v'.saves[k] == Some(v.hands[k])
    ensures v'.Everywhere(Units(key)) == v.Everywhere(Units(key))
  {
    hide Tidy, Scene.Apart, Hand.Fit;
  }

  lemma DropStep(v: Scene, v': Scene, k: nat, pos: Position, index: int, key: Text)
    requires v.Fit() && Follows(v, Drop(k, pos, index), v')
    requires k < |v.hands| && v.hands[k].here && !v.hands[k].dead && v.hands[k].Has(index)
    requires v.terrain.IsValid(pos) && Grounds.Room(v.terrain, v.piles) != {}
    ensures |v'.hands| == |v.hands| && v'.saves == v.saves
    ensures v'.hands[k] == v.hands[k].(slots := v.hands[k].slots[index := EMPTY])
    ensures v'.Everywhere(Units(key)) == v.Everywhere(Units(key))
  {
    StepBalances(v, Drop(k, pos, index), v', Units(key));
    hide Tidy, Scene.Apart, Hand.Fit, Scene.Everywhere, Separate, Things;
  }

  lemma LeaveStep(v: Scene, v': Scene, k: nat, key: Text)
    requires v.Fit() && Follows(v, Leave(k), v') && k < |v.hands| && v.hands[k].here
    ensures |v'.hands| == |v.hands| && v'.saves == v.saves && !v'.hands[k].here
    ensures v'.Everywhere(Units(key)) == v.Everywhere(Units(key)) - Inventories.Units(v.hands[k].slots, key)
  {
    StepBalances(v, Leave(k), v', Units(key));
    hide Tidy, Scene.Apart, Hand.Fit, Scene.Everywhere, Separate, Things;
  }

  lemma ReturnStep(v: Scene, v': Scene, k: nat, key: Text)
    requires v.Fit() && Follows(v, Return(k, true), v') && k < |v.hands| && !v.hands[k].here && v.saves[k].Some?
    ensures v'.Everywhere(Units(key))
            == v.Everywhere(Units(key)) + Inventories.Units(v.saves[k].value.slots, key)
  {
    StepBalances(v, Return(k, true), v', Units(key));
    hide Tidy, Scene.Apart, Hand.Fit, Scene.Everywhere, Separate, Things, Saves.Compacted;
  }

  /** Saved, dropped, left and come back: what the slot held is there twice. */
  lemma ComesBackTwice(trail: seq<Scene>, k: nat, pos: Position, index: int, key: Text)
    requires Traced(trail, [Autosave(false), Drop(k, pos, index), Leave(k), Return(k, true)])
    requires k < |trail[0].hands| && trail[0].hands[k].here && !trail[0].hands[k].dead && trail[0].hands[k].Has(index)
    requires trail[0].terrain.IsValid(pos) && Grounds.Room(trail[0].terrain, trail[0].piles) != {}
    ensures trail[4].Everywhere(Units(key))
            == trail[0].Everywhere(Units(key)) + SlotUnits(trail[0].hands[k].slots[index], key)
  {
    hide Tidy, Scene.Apart, Hand.Fit, Inventories.Units, Normalize, Follows, Scene.Everywhere;
    var events := [Autosave(false), Drop(k, pos, index), Leave(k), Return(k, true)];
    assert events[0] == Autosave(false) && events[1] == Drop(k, pos, index);
    assert events[2] == Leave(k) && events[3] == Return(k, true);
    AutosaveStep(trail[0], trail[1], k, key);
    DropStep(trail[1], trail[2], k, pos, index, key);
    LeaveStep(trail[2], trail[3], k, key);
    ReturnStep(trail[3], trail[4], k, key);
    UnitsUpdate(trail[0].hands[k].slots, index, EMPTY, key);
  }

  // ---- Who takes part ----

  /** Events about coming and going, which are not a player's turn. */
  predicate Travels(e: Event) {
    e.Leave? || e.Reconnect? || e.Return? || e.Begin? || e.Autosave?
  }

  lemma MovesKeepSize(v: Scene, e: Event, h: Hand, h': Hand, piles': Piles)
    requires 0 < v.divisor && v.Concerns(e) && |v.saves| == |v.hands| && Moves(v, e, h, h', piles') && !Travels(e)
    ensures h'.rules == h.rules && |h'.slots| == |h.slots| && h'.here == h.here
  {
    hide FirstIndex, Normalize, Strewn, Offer, Gain, Lose, Drunk, Nearest, Hand.Cap, Hand.Dropped;
  }

  /** Who is not here does nothing. */
  lemma AwayDoesNothing(v: Scene, e: Event)
    requires v.Fit() && v.Concerns(e) && !Travels(e) && !v.hands[e.player].here
    requires Separate(v.hands[e.player], v.piles)
    ensures Follows(v, e, v)
  {
    hide FirstIndex, Normalize, Strewn, Tidy, Scene.Apart, Sound, Separate, Things, Scene.Unknown;
    var h := v.hands[e.player];
    assert Moves(v, e, h, h, v.piles);
    assert v.hands == v.hands[e.player := h];
  }

  // ---- No item in two places ----

  lemma WhereItemsAre(h: Hand, piles: Piles)
    ensures forall x: Item :: Holds(h.slots, x) <==> x in h.Carried()
    ensures forall x: Item :: Lies(piles, x) <==> x in Lying(piles)
    ensures Clear(h.slots, piles) <==> h.Carried() !! Lying(piles)
  {
    assert forall x: Item :: Holds(h.slots, x) <==> x in h.Carried();
    assert forall x: Item :: Lies(piles, x) <==> x in Lying(piles);
  }

  lemma TakenUp(h: Hand, piles: Piles, h': Hand, piles': Piles)
    requires Separate(h, piles) && Clear(h'.slots, piles') && h'.safe.items == h.safe.items
    requires forall x: Item | Holds(h'.slots, x) :: Holds(h.slots, x) || Lies(piles, x)
    requires piles' == piles || exists pos :: piles' == piles - {pos}
    ensures Things(h', piles') <= Things(h, piles) && Separate(h', piles')
  {
    hide Clear, Holds, Lies, Hand.Carried;
    WhereItemsAre(h, piles);
    WhereItemsAre(h', piles');
    assert Lying(piles') <= Lying(piles);
    forall x | x in h'.Carried()
      ensures x in h.Carried() + Lying(piles)
    {
      assert Holds(h'.slots, x);
    }
  }

  lemma PutDown(h: Hand, piles: Piles, h': Hand, piles': Piles, index: int, spot: Position)
    requires Separate(h, piles) && Clear(h'.slots, piles') && h.Has(index)
    requires h' == h.(slots := h.slots[index := EMPTY])
    requires piles' == piles[spot := Parcel(0, h.slots[index].item, h.slots[index].quantity)]
    ensures Things(h', piles') <= Things(h, piles) && Separate(h', piles')
  {
    hide Clear;
    WhereItemsAre(h', piles');
    assert h'.Carried() <= h.Carried() && Lying(piles') <= Lying(piles) + h.Carried();
  }

  lemma ThrownDown(h: Hand, piles: Piles, h': Hand, piles': Piles)
    requires Separate(h, piles) && h'.safe == h.safe
    requires forall i | 0 <= i < |h'.slots| :: h'.slots[i] == EMPTY
    requires forall x: Item | Lies(piles', x) :: Lies(piles, x) || Holds(h.slots, x)
    ensures Things(h', piles') <= Things(h, piles) && Separate(h', piles')
  {
    hide Holds, Lies;
    WhereItemsAre(h, piles);
    WhereItemsAre(h', piles');
    assert h'.Carried() == {};
  }

  lemma TakenOut(h: Hand, piles: Piles, h': Hand)
    requires Separate(h, piles)
    requires forall x: Item | Holds(h'.slots, x) :: Holds(h.slots, x) || x in h.safe.items
    requires forall x | x in h'.safe.items :: x in h.safe.items && !Holds(h'.slots, x)
    ensures Things(h', piles) <= Things(h, piles) && Separate(h', piles)
  {
    hide Holds;
    WhereItemsAre(h, piles);
    WhereItemsAre(h', piles);
  }

  lemma NothingLeft(h: Hand, piles: Piles)
    requires Separate(h, piles)
    ensures Things(Gone(h), piles) <= Things(h, piles) && Separate(Gone(h), piles)
  {
    assert h.here ==> Gone(h).Carried() == {};
  }

  lemma NewSafe(h: Hand, piles: Piles)
    requires Separate(h, piles)
    ensures Things(Reconnected(h), piles) <= Things(h, piles) && Separate(Reconnected(h), piles)
  {
  }

  lemma FreshHand(h: Hand, kinds: seq<Kindred>, kindred: nat, room: bool, piles: Piles)
    requires Separate(h, piles)
    ensures var h' := Begun(h, kinds, kindred, room);
            Things(h', piles) <= Things(h, piles) && Separate(h', piles)
  {
    var h' := Begun(h, kinds, kindred, room);
    assert h' != h ==> h'.Carried() == {};
  }

  /** A returning player carries new items only. */
  lemma NewItems(v: Scene, h: Hand, h': Hand)
    requires Separate(h, v.piles) && h'.safe == h.safe
    requires forall x: Item | Holds(h'.slots, x) :: v.Unknown(x) && x !in h.safe.items
    ensures Separate(h', v.piles)
    ensures forall x | x in Things(h', v.piles) :: x in Things(h, v.piles) || v.Unknown(x)
  {
    hide Holds;
    WhereItemsAre(h', v.piles);
  }

  lemma StillApart(v: Scene, saves: seq<Option<Hand>>)
    requires v.Apart()
    ensures v.(saves := saves).Apart()
  {
  }

  lemma SoldOwn(reg: Registry, divisor: nat, h: Hand, name: Text)
    requires 0 < divisor
    ensures Sold(reg, divisor, h, name).Carried() <= h.Carried()
  {
    hide FirstIndex, Normalize;
  }

  lemma IndexOf(reg: Registry, slots: seq<Slot>, index: nat)
    requires Sound(reg, slots) && index < |slots| && slots[index].item != null
    ensures FirstIndex(slots, Is(slots[index].item)) == index
  {
  }

  lemma UsedOwn(reg: Registry, h: Hand, index: int)
    requires Sound(reg, h.slots)
    ensures Used(h, index).Carried() <= h.Carried()
  {
    hide Worn;
    if !h.dead && h.Has(index) && !Drinks(h, index) {
      WornSlots(reg, h.slots, index);
    }
  }

  /** One player's own items, the ground's, and new ones disturb nobody else. */
  lemma ApartAfter(v: Scene, e: Event, v': Scene)
    requires 0 < v.divisor && |v.saves| == |v.hands| && v.Apart() && Follows(v, e, v')
    ensures v'.Apart()
  {
    hide Hand.Carried, Hand.Kept, Lying, Moves;
    if !v.Concerns(e) {
      return;
    }
    var k := e.player;
    forall j | 0 <= j < |v.hands| && j != k
      ensures v.hands[j].Carried() !! Things(v'.hands[k], v'.piles)
      ensures v.hands[j].Kept() !! Things(v'.hands[k], v'.piles)
    {
      assert v.hands[j].Carried() !! Things(v.hands[k], v.piles);
      assert v.hands[j].Kept() !! Things(v.hands[k], v.piles);
    }
  }
}
