/** All players of a world, the bank and the ground together: what they do, in any order, is what the ledgers say. */
module Economies {
  import opened Prelude
  import opened Bytes
  import opened Names
  import opened Placement
  import opened Items
  import opened Inventories
  import opened Players
  import opened Trade
  import opened Grounds
  import opened Ledgers
  import Saves

  /** What the server keeps of a player: the save, whose race and class stand for the formulas. */
  datatype Record = Record(save: Saves.PlayerSave, rules: Rules)

  /** A record was taken of this player. */
  ghost predicate Recorded(reg: Registry, r: Option<Record>, h: Option<Hand>) {
    && (r.Some? <==> h.Some?)
    && (h.Some? ==>
          var save, hand := r.value.save, h.value;
          && hand.Fit(reg) && hand.rules.Levelled(hand.progress.level, hand.progress.experience)
          && |hand.slots| == hand.rules.maxItems && r.value.rules == hand.rules && save.caster == hand.caster
          && save.level == hand.progress.level % Saves.LEVELS && save.xp == hand.progress.experience
          && save.maxHp == hand.progress.maxHp && save.maxMana == hand.progress.maxMana && save.gold == hand.gold
          && Saves.SavedFrom(save.inventory, reg, hand.slots))
  }

  lemma SavedKnown(inventory: seq<Saves.SlotSave>, reg: Registry, slots: seq<Slot>)
    requires Saves.SavedFrom(inventory, reg, slots)
    ensures Saves.AllKnown(reg, inventory)
  {
    hide Normalize;
  }

  /** A player rebuilt from a record, with the same registry it was taken with. */
  method Rebuild(id: nat, r: Record, reg: Registry, ghost h: Hand) returns (p: Player)
    requires reg.Valid() && Recorded(reg, Some(r), Some(h))
    ensures fresh(p) && fresh(p.inventory) && p.Valid() && p.id == id && !p.dead
    ensures p.inventory.registry == reg && |p.inventory.slots| == p.rules.maxItems
    ensures h.rules.Valid() && p.rules == h.rules && p.caster == h.caster
    ensures p.Progressed() == Saves.Reborn(h.rules, SaveOf(h)) && p.gold == GoldBack(h)
    ensures Saves.Compacted(p.inventory.slots, Occupied(h.slots))
    ensures forall x | Holds(p.inventory.slots, x) :: fresh(x)
  {
    hide Sound, Rules.Valid, Saves.Compacted, Saves.AllKnown, Occupied;
    Saves.RebornAgain(h.rules, r.save, h.progress.level);
    p := Saves.RebuildStats(r.save, id, r.rules, reg);
    SavedKnown(r.save.inventory, reg, h.slots);
    var _ := Saves.RebuildInventory(p.inventory, r.save.inventory, reg, h.slots);
  }

  class Economy {
    const bank: Bank
    const ground: Ground
    const divisor: nat
    const kinds: seq<Kindred>
    var players: seq<Player>
    var here: seq<bool>
    var ids: seq<nat>
    var nextId: nat
    var saves: seq<Option<Record>>
    ghost var kept: seq<Option<Hand>>

    /** Players who are all here, with nothing saved. If they are new, as bank and ground are, all is in order. */
    constructor (players: seq<Player>, bank: Bank, ground: Ground, divisor: nat, kinds: seq<Kindred>)
      ensures this.players == players && this.bank == bank && this.ground == ground && this.divisor == divisor
      ensures this.kinds == kinds && here == seq(|players|, _ => true) && saves == seq(|players|, _ => None)
      ensures Beginning() ==> Valid()
    {
      this.players, this.bank, this.ground, this.divisor, this.kinds := players, bank, ground, divisor, kinds;
      here, ids := seq(|players|, _ => true), seq(|players|, k requires 0 <= k < |players| => players[k].id);
      nextId := After(players);
      saves, kept := seq(|players|, _ => None), seq(|players|, _ => None);
      new;
      if Beginning() {
        StartsInOrder();
      }
    }

    /** An id above all of these players'. */
    static function After(players: seq<Player>): nat {
      if players == [] then 0
      else
        var before := After(players[..|players| - 1]);
        if before <= players[|players| - 1].id then players[|players| - 1].id + 1 else before
    }

    static lemma {:induction false} AllBefore(players: seq<Player>)
      ensures forall p | p in players :: p.id < After(players)
    {
      if players != [] {
        AllBefore(players[..|players| - 1]);
      }
    }

    /** New players, each with a different id, a new bank and a tidy ground. */
    ghost predicate Beginning()
      reads this, bank, ground, players, Bags()
    {
      && 0 < divisor && (forall k | 0 <= k < |kinds| :: kinds[k].rules.Valid())
      && ground.Valid() && bank.safes == map[]
      && (forall j, k | 0 <= j < k < |players| ::
            players[j] != players[k] && players[j].inventory != players[k].inventory && players[j].id != players[k].id)
      && (forall k | 0 <= k < |players| ::
            var p := players[k];
            && p.Valid() && p.inventory.registry == ground.registry && |p.inventory.slots| == p.rules.maxItems
            && (forall i | 0 <= i < |p.inventory.slots| && p.inventory.slots[i].item != null ::
                  !Lies(ground.piles, p.inventory.slots[i].item))
            && forall j | 0 <= j < k :: Carries(players[j]) !! Carries(p))
    }

    static ghost function Carries(p: Player): set<Item>
      reads p.inventory
    {
      set s | s in p.inventory.slots && s.item != null :: s.item as Item
    }

    /** Everybody is here under the id the player has, and nothing is saved. */
    ghost predicate Unsaved()
      reads this
    {
      && Sized() && nextId == After(players)
      && forall k | 0 <= k < |players| ::
           here[k] && ids[k] == players[k].id && saves[k].None? && kept[k].None?
    }

    lemma StartsInOrder()
      requires Beginning() && Unsaved()
      ensures Valid()
    {
      hide Tidy, Rules.Valid, Sound, Player.Valid, Ground.Valid, Player.Progressed, Scene.Apart, Carries, Hands;
      AllBefore(players);
      StartsApart();
    }

    lemma StartsApart()
      requires Beginning() && Unsaved()
      ensures View().Apart()
    {
      hide Tidy, Rules.Valid, Sound, Player.Valid, Ground.Valid, Player.Progressed, Hands;
      HandsAre(|players|);
      forall k | 0 <= k < |players|
        ensures HandOf(k).Carried() == Carries(players[k]) && HandOf(k).Kept() == {}
        ensures HandOf(k).Carried() !! Lying(ground.piles)
      {
        WhereItemsAre(HandOf(k), ground.piles);
      }
      hide HandOf, Carries, Hand.Carried, Hand.Kept, Lying;
    }

    ghost function Bags(): set<Inventory>
      reads this
    {
      set p: Player | p in players :: p.inventory
    }

    /** The players and what they carry things in. */
    ghost function Everyone(): set<object>
      reads this
    {
      (set p: Player | p in players :: p as object) + (set p: Player | p in players :: p.inventory as object)
    }

    ghost predicate Sized()
      reads this
    {
      |here| == |ids| == |saves| == |kept| == |players|
    }

    /** A player who is here. */
    static ghost function Present(p: Player, safe: Safe): Hand
      reads p, p.inventory
    {
      Hand(true, p.rules, p.caster, p.Progressed(), p.dead, p.gold, p.inventory.slots, safe)
    }

    ghost function HandOf(k: nat): Hand
      requires Sized() && k < |players|
      reads this, bank, players[k], players[k].inventory
    {
      var p := players[k];
      if here[k] then Present(p, bank.SafeOf(ids[k]))
      else
        Hand(false, p.rules, p.caster, p.Progressed(), true, 0, seq(|p.inventory.slots|, _ => EMPTY),
             bank.SafeOf(ids[k]))
    }

    ghost function Hands(n: nat): seq<Hand>
      requires Sized() && n <= |players|
      reads this, bank, players, Bags()
    {
      if n == 0 then [] else Hands(n - 1) + [HandOf(n - 1)]
    }

    ghost function View(): Scene
      requires Sized()
      reads this, bank, ground, players, Bags()
    {
      Scene(ground.terrain, ground.registry, divisor, kinds, Hands(|players|), kept, ground.piles)
    }

    static lemma SeatedElsewhere(players: seq<Player>, here: seq<bool>, ids: seq<nat>, nextId: nat, reg: Registry,
                                 k: nat)
      requires Seated(players, here, ids, nextId, reg) && k < |players|
      ensures Seated(players, here[k := false], ids, nextId, reg)
      ensures !here[k] ==> Seated(players, here, ids[k := nextId], nextId + 1, reg)
    {
      hide Player.Valid;
    }

    lemma {:induction false} HandsAre(n: nat)
      requires Sized() && n <= |players|
      ensures |Hands(n)| == n && forall k | 0 <= k < n :: Hands(n)[k] == HandOf(k)
    {
      if n > 0 {
        HandsAre(n - 1);
      }
    }

    /** Different players in good order, each under an id of its own. */
    static ghost predicate Seated(players: seq<Player>, here: seq<bool>, ids: seq<nat>, nextId: nat, reg: Registry)
      reads players, set p: Player | p in players :: p.inventory
    {
      && |here| == |ids| == |players|
      && (forall j, k | 0 <= j < k < |players| ::
            players[j] != players[k] && players[j].inventory != players[k].inventory && ids[j] != ids[k])
      && (forall k | 0 <= k < |players| :: players[k].Valid() && players[k].inventory.registry == reg)
      && (forall k | 0 <= k < |players| :: |players[k].inventory.slots| == players[k].rules.maxItems)
      && (forall k | 0 <= k < |players| :: ids[k] < nextId && (here[k] ==> players[k].id == ids[k]))
    }

    static lemma SeatedWith(players: seq<Player>, here: seq<bool>, ids: seq<nat>, nextId: nat, reg: Registry, k: nat,
                            p: Player)
      requires Seated(players, here, ids, nextId, reg) && k < |players|
      requires p !in players && forall q | q in players :: q.inventory != p.inventory
      requires p.Valid() && p.id == ids[k]
      requires p.inventory.registry == reg && |p.inventory.slots| == p.rules.maxItems
      ensures Seated(players[k := p], here[k := true], ids, nextId, reg)
    {
      hide Player.Valid;
    }

    /** What each object sees to by itself. */
    ghost predicate InOrder()
      reads this, bank, ground, players, Bags()
    {
      && Sized() && ground.Valid() && bank.Valid(ground.registry) && 0 < divisor
      && (forall k | 0 <= k < |kinds| :: kinds[k].rules.Valid())
      && Seated(players, here, ids, nextId, ground.registry)
      && (forall id | nextId <= id :: bank.SafeOf(id) == Safe([], 0))
      && (forall k | 0 <= k < |players| :: Recorded(ground.registry, saves[k], kept[k]))
    }

    ghost predicate Valid()
      reads this, bank, ground, players, Bags()
    {
      InOrder() && View().Apart()
    }

    ghost predicate Views(v: Scene)
      reads this, bank, ground, players, Bags()
    {
      && Sized()
      && v.terrain == ground.terrain && v.registry == ground.registry && v.divisor == divisor && v.kinds == kinds
      && v.piles == ground.piles && v.saves == kept && |v.hands| == |players|
      && forall k | 0 <= k < |players| :: v.hands[k] == HandOf(k)
    }

    lemma ValidIsFit()
      requires Valid()
      ensures Views(View()) && View().Fit()
    {
      hide Scene.Apart, Tidy, Rules.Valid, Hands, Registry.Knows;
      HandsAre(|players|);
    }

    /** What the operations of player, ground and bank ask for. */
    ghost predicate Poised(k: nat)
      reads this, bank, ground, players, Bags()
    {
      && Sized() && k < |players| && here[k] && players[k].id == ids[k] && 0 < divisor
      && ground.Valid() && bank.Valid(ground.registry) && ground.Meets(players[k]) && Disjoint(players[k], bank)
      && Separate(HandOf(k), ground.piles)
    }

    /** What one player's turn leaves in order. */
    ghost predicate Done(k: nat)
      requires Sized() && k < |players|
      reads this, bank, ground, players[k], players[k].inventory
    {
      && players[k].Valid() && ground.Valid() && bank.Valid(ground.registry)
      && Separate(HandOf(k), ground.piles)
    }

    /** Items within reach of one player: carried, in the safe and on the ground. */
    ghost function Reach(k: nat): set<Item>
      requires Sized() && k < |players|
      reads this, bank, ground, players[k], players[k].inventory
    {
      Things(HandOf(k), ground.piles)
    }

    lemma Ready(k: nat)
      requires Valid() && k < |players|
      ensures Views(View()) && View().Fit() && Separate(HandOf(k), ground.piles)
      ensures here[k] ==> Poised(k)
      ensures ground.registry.Valid() && forall i | 0 <= i < |kinds| :: kinds[i].rules.Valid()
    {
      hide Tidy, Sound, Normalize, Hands, Rules.Valid, KnownOnce, Scene.Fit, Recorded;
      ValidIsFit();
      var h := View().hands[k];
      WhereItemsAre(h, ground.piles);
      assert h.Carried() !! h.Kept() && h.Carried() !! Lying(ground.piles);
    }

    method PickUp(k: nat, pos: Position)
      requires Poised(k)
      modifies ground, players[k], players[k].inventory
      ensures Done(k) && Reach(k) <= old(Reach(k))
      ensures PickedUp(old(HandOf(k)), old(ground.piles), pos, HandOf(k), ground.piles)
    {
      ghost var h, piles := HandOf(k), ground.piles;
      assert pos in piles ==> Sane(ground.registry, piles[pos]) && (piles[pos].gold > 0 <==> piles[pos].item == null);
      hide Sound, Tidy, Sane, Inventories.Units, Total, Normalize, Hand.Carried, Things, Separate, Added, CanAdd;
      hide Player.Valid, Ground.Valid, Bank.Valid, Bank.SafeOf;
      var _ := ground.PickUp(players[k], pos);
      assert PickedUp(h, piles, pos, HandOf(k), ground.piles);
      hide PickedUp;
      TakenUp(h, piles, HandOf(k), ground.piles);
    }

    method Drop(k: nat, pos: Position, index: int)
      requires Poised(k)
      modifies ground, players[k].inventory
      ensures Done(k) && Reach(k) <= old(Reach(k))
      ensures SlotDropped(ground.terrain, old(HandOf(k)), old(ground.piles), pos, index, HandOf(k), ground.piles)
    {
      hide Sound, Tidy, Inventories.Units, Total, Normalize, Hand.Carried, Things, Separate, Nearest;
      ghost var h, piles := HandOf(k), ground.piles;
      var dropped, spot := ground.DropItem(players[k], pos, index);
      if dropped {
        PutDown(h, piles, HandOf(k), ground.piles, index, spot.value);
      }
    }

    method Deposit(k: nat, name: Text)
      requires Poised(k)
      modifies bank, players[k].inventory
      ensures Done(k) && fresh(Reach(k) - old(Reach(k)))
      ensures forall id | id != players[k].id :: bank.SafeOf(id) == old(bank.SafeOf(id))
      ensures Deposited(old(HandOf(k)), name, HandOf(k))
    {
      hide Sound, Tidy, KnownOnce, Inventories.Units, Stored, FirstIndex, OneLess, Normalize;
      ghost var h := HandOf(k);
      var _ := BankerDepositItem(name, players[k], bank);
      WhereItemsAre(h, ground.piles);
      WhereItemsAre(HandOf(k), ground.piles);
    }

    method Withdraw(k: nat, name: Text)
      requires Poised(k)
      modifies bank, players[k].inventory
      ensures Done(k) && Reach(k) <= old(Reach(k))
      ensures forall id | id != players[k].id :: bank.SafeOf(id) == old(bank.SafeOf(id))
      ensures Withdrawn(old(HandOf(k)), name, HandOf(k))
    {
      hide Sound, Tidy, KnownOnce, Inventories.Units, Stored, FirstIndex, Normalize, Added, CanAdd;
      hide Player.Valid, Ground.Valid, Bank.Valid, Holds, Things, Separate, Hand.Carried, Hand.Kept;
      ghost var h := HandOf(k);
      var _ := BankerWithdrawItem(name, players[k], bank);
      TakenOut(h, ground.piles, HandOf(k));
    }

    /** Gold moves between a hand and a safe; items stay where they are. */
    method MoveGold(k: nat, amount: int, deposit: bool)
      requires Poised(k)
      modifies bank, players[k]
      ensures Done(k) && Reach(k) == old(Reach(k))
      ensures forall id | id != players[k].id :: bank.SafeOf(id) == old(bank.SafeOf(id))
      ensures HandOf(k)
              == if deposit then GoldDeposited(old(HandOf(k)), amount) else GoldWithdrawn(old(HandOf(k)), amount)
    {
      hide Sound, Tidy, Rules.Valid;
      if deposit {
        var _ := BankerDepositGold(amount, players[k], bank);
      } else {
        var _ := BankerWithdrawGold(amount, players[k], bank);
      }
      forall id | id in bank.safes
        ensures KnownOnce(ground.registry, bank.safes[id].items)
      {
        assert bank.SafeOf(id).items == old(bank.SafeOf(id)).items;
      }
    }

    method Buy(k: nat, name: Text, priest: bool)
      requires Poised(k)
      modifies players[k], players[k].inventory
      ensures Done(k) && fresh(Reach(k) - old(Reach(k)))
      ensures Purchased(ground.registry, old(HandOf(k)), name, priest, HandOf(k))
    {
      hide Sound, Tidy, KnownOnce, Inventories.Units, FirstIndex, Normalize, Bought, Offer;
      hide Player.Valid, Ground.Valid, Bank.Valid;
      ghost var h := HandOf(k);
      if priest {
        var _ := PriestBuy(name, players[k]);
        assert Purchased(ground.registry, h, name, true, HandOf(k));
      } else {
        var _ := MerchantBuy(name, players[k]);
        assert Purchased(ground.registry, h, name, false, HandOf(k));
      }
      hide Purchased;
      WhereItemsAre(h, ground.piles);
      WhereItemsAre(HandOf(k), ground.piles);
    }

    method Sell(k: nat, name: Text)
      requires Poised(k)
      modifies players[k], players[k].inventory
      ensures Done(k) && Reach(k) <= old(Reach(k))
      ensures HandOf(k) == Sold(ground.registry, divisor, old(HandOf(k)), name)
    {
      hide Sound, Tidy, KnownOnce, Inventories.Units, FirstIndex, OneLess, Normalize, Hand.Carried;
      ghost var h := HandOf(k);
      var _ := MerchantSell(name, players[k], divisor);
      SoldOwn(ground.registry, divisor, h, name);
    }

    /** What lies in a slot is put on or off, or one unit of it is drunk. */
    method Use(k: nat, index: int)
      requires Poised(k)
      modifies players[k], players[k].inventory
      ensures Done(k) && Reach(k) <= old(Reach(k))
      ensures HandOf(k) == Used(old(HandOf(k)), index)
    {
      hide Sound, Tidy, KnownOnce, FirstIndex, OneLess, Worn, Normalize, Hand.Carried;
      ghost var h := HandOf(k);
      var p := players[k];
      if !p.dead && 0 <= index < |p.inventory.slots| && p.inventory.slots[index].item != null {
        IndexOf(ground.registry, h.slots, index);
        UsedOwn(ground.registry, h, index);
        p.Equip(p.inventory.slots[index].item);
      }
    }

    /** A blow. If it kills, the player's loot is strewn around. */
    method Hit(k: nat, damage: int, pos: Position)
      requires Poised(k)
      modifies ground, players[k], players[k].inventory
      ensures Done(k) && Reach(k) <= old(Reach(k))
      ensures Struck(ground.terrain, old(HandOf(k)), old(ground.piles), damage, pos, HandOf(k), ground.piles)
    {
      hide Sound, Tidy, Inventories.Units, Total, Sum, Normalize, Strewn, Parcels, Occupied, Lies, Holds;
      hide Clear;
      ghost var h, piles := HandOf(k), ground.piles;
      var p := players[k];
      if !p.dead {
        p.ReceiveDamage(damage);
        assert HandOf(k) == h.Hurt(damage);
        if p.dead {
          ghost var spots, lost := ground.Bury(p, pos);
          assert HandOf(k) == h.Hurt(damage).Stripped();
          assert Strewn(ground.terrain, pos, piles, spots, h.Dropped(), ground.piles);
          ThrownDown(h, piles, HandOf(k), ground.piles);
        }
      }
    }

    method Learn(k: nat, experience: nat)
      requires Poised(k)
      modifies players[k]
      ensures Done(k) && Reach(k) == old(Reach(k))
      ensures Learned(old(HandOf(k)), experience, HandOf(k))
    {
      hide Sound, Tidy, Gain, KnownOnce;
      players[k].AddExperience(experience);
    }

    method Revive(k: nat)
      requires Poised(k)
      modifies players[k]
      ensures Done(k) && Reach(k) == old(Reach(k))
      ensures HandOf(k) == Revived(old(HandOf(k)))
    {
      hide Sound, Tidy, KnownOnce;
      players[k].Resurrect();
    }

    // ---- Turns ----

    /** One player's turn, whatever it is. */
    method Turn(k: nat, e: Event, ghost v: Scene)
      requires Sized() && !Travels(e) && k == e.player && k < |players| && Poised(k) && Views(v)
      modifies ground, bank, players[k], players[k].inventory
      ensures Done(k) && fresh(Reach(k) - old(Reach(k)))
      ensures forall id | id != players[k].id :: bank.SafeOf(id) == old(bank.SafeOf(id))
      ensures Moves(v, e, v.hands[k], HandOf(k), ground.piles)
    {
      hide Poised, Done, Reach, HandOf, Bank.SafeOf;
      hide PickedUp, SlotDropped, Deposited, Withdrawn, GoldDeposited, GoldWithdrawn, Purchased, Sold, Used, Struck;
      hide Learned, Revived;
      match e
      case PickUp(_, pos) => PickUp(k, pos);
      case Drop(_, pos, index) => Drop(k, pos, index);
      case Deposit(_, name) => Deposit(k, name);
      case Withdraw(_, name) => Withdraw(k, name);
      case DepositGold(_, amount) => MoveGold(k, amount, true);
      case WithdrawGold(_, amount) => MoveGold(k, amount, false);
      case Buy(_, name, priest) => Buy(k, name, priest);
      case Sell(_, name) => Sell(k, name);
      case Use(_, index) => Use(k, index);
      case Hit(_, damage, pos) => Hit(k, damage, pos);
      case Learn(_, experience) => Learn(k, experience);
      case Revive(_) => Revive(k);
    }

    /** A new item was nowhere before. */
    twostate lemma WasNowhere(new x: Item)
      requires fresh(x) && old(Sized()) && Sized() && |players| == |old(players)|
      ensures x !in old(Lying(ground.piles))
      ensures forall k | 0 <= k < |players| :: x !in old(HandOf(k)).Carried() && x !in old(HandOf(k)).Kept()
    {
    }

    /** One player's turn, seen from the whole. */
    lemma Settle(k: nat, v: Scene, e: Event)
      requires InOrder() && v.Fit() && v.Concerns(e) && k == e.player && |players| == |v.hands|
      requires v.terrain == ground.terrain && v.registry == ground.registry && v.divisor == divisor
      requires v.kinds == kinds && v.saves == kept
      requires forall j | 0 <= j < |players| && j != k :: HandOf(j) == v.hands[j]
      requires Separate(HandOf(k), ground.piles)
      requires Moves(v, e, v.hands[k], HandOf(k), ground.piles)
      requires forall x | x in Reach(k) :: x in Things(v.hands[k], v.piles) || v.Unknown(x)
      ensures Valid() && Follows(v, e, View())
    {
      hide Hands, Moves, Things, Separate, Scene.Unknown, Sound, Tidy, KnownOnce, Rules.Valid, Bank.SafeOf, Recorded;
      HandsAre(|players|);
      assert View().hands == v.hands[k := HandOf(k)];
      ApartAfter(v, e, View());
    }

    /** A turn leaves everybody in order, and everybody else as they were. */
    method OrderlyTurn(k: nat, e: Event, ghost v: Scene)
      requires Sized() && InOrder() && !Travels(e) && k == e.player && k < |players| && here[k]
      requires Poised(k) && Views(v)
      modifies ground, bank, players[k], players[k].inventory
      ensures InOrder() && Separate(HandOf(k), ground.piles)
      ensures fresh(Reach(k) - old(Reach(k)))
      ensures forall j | 0 <= j < |players| && j != k :: HandOf(j) == v.hands[j]
      ensures Moves(v, e, v.hands[k], HandOf(k), ground.piles)
    {
      hide Poised, Moves, Reach, Things, Separate, Player.Valid, Ground.Valid, Bank.Valid, Bank.SafeOf, Recorded;
      hide Rules.Valid;
      ghost var p := players[k];
      assert forall j | 0 <= j < |players| && j != k ::
          players[j] != p && players[j].inventory != p.inventory && ids[j] != p.id;
      Turn(k, e, v);
      MovesKeepSize(v, e, v.hands[k], HandOf(k), ground.piles);
    }

    lemma Among(p: Player)
      requires p in players
      ensures p in Everyone() && p.inventory in Everyone()
    {
    }

    /** Someone who is here does something. */
    method Act(e: Event)
      requires Sized() && Valid() && !Travels(e) && e.player < |players| && here[e.player]
      modifies ground, bank, Everyone()
      ensures Sized() && Valid() && Follows(old(View()), e, View())
    {
      hide View, Follows, Moves, Things, Separate, Scene.Fit, Player.Valid, Ground.Valid, Bank.Valid, Bank.SafeOf;
      hide Recorded, Seated;
      ValidIsFit();
      ghost var v := View();
      var k := e.player;
      Ready(k);
      Among(players[k]);
      OrderlyTurn(k, e, v);
      forall x | x in Reach(k)
        ensures x in Things(v.hands[k], v.piles) || v.Unknown(x)
      {
        if fresh(x) {
          WasNowhere(x);
        }
      }
      Settle(k, v, e);
    }

    // ---- Coming and going ----

    /** The player is taken out of the world with everything in hand. */
    method Leave(k: nat)
      requires Sized() && Valid() && k < |players|
      modifies this`here
      ensures Sized() && Valid() && Follows(old(View()), Event.Leave(k), View())
    {
      hide View, Follows, Scene.Fit, Player.Valid, Ground.Valid, Bank.Valid, Bank.SafeOf, Recorded, Sound, Hands;
      hide Seated;
      ghost var v := View();
      Ready(k);
      SeatedElsewhere(players, here, ids, nextId, ground.registry, k);
      here := here[k := false];
      assert HandOf(k) == Gone(v.hands[k]);
      NothingLeft(v.hands[k], v.piles);
      Settle(k, v, Event.Leave(k));
    }

    /** A player who is away logs in again, under a new id. */
    method Reconnect(k: nat)
      requires Sized() && Valid() && k < |players|
      modifies this`ids, this`nextId
      ensures Sized() && Valid() && Follows(old(View()), Event.Reconnect(k), View())
    {
      hide View, Follows, Scene.Fit, Player.Valid, Ground.Valid, Bank.Valid, Bank.SafeOf, Recorded, Sound, Hands;
      hide Seated;
      ghost var v := View();
      Ready(k);
      SeatedElsewhere(players, here, ids, nextId, ground.registry, k);
      if !here[k] {
        ids, nextId := ids[k := nextId], nextId + 1;
      }
      assert HandOf(k) == Reconnected(v.hands[k]);
      NewSafe(v.hands[k], v.piles);
      Settle(k, v, Event.Reconnect(k));
    }

    /** A new object for a player who was away. */
    method Seat(k: nat, p: Player, e: Event, ghost v: Scene)
      requires Sized() && Valid() && v == View() && Views(v) && v.Fit() && v.Concerns(e) && k == e.player && !here[k]
      requires p !in players && (forall q | q in players :: q.inventory != p.inventory)
      requires p.Valid() && p.id == ids[k]
      requires p.inventory.registry == ground.registry && |p.inventory.slots| == p.rules.maxItems
      requires var h' := Present(p, bank.SafeOf(ids[k]));
               && Moves(v, e, v.hands[k], h', v.piles) && Separate(h', v.piles)
               && forall x | x in Things(h', v.piles) :: x in Things(v.hands[k], v.piles) || v.Unknown(x)
      modifies this`players, this`here
      ensures Sized() && Valid() && Follows(v, e, View())
      ensures forall q | q in players :: q in old(players) || q == p
    {
      hide View, Follows, Scene.Fit, Player.Valid, Ground.Valid, Bank.Valid, Bank.SafeOf, Recorded, Sound, Hands, Moves;
      hide Separate, Things, Scene.Unknown, Present, Seated;
      SeatedWith(players, here, ids, nextId, ground.registry, k, p);
      players, here := players[k := p], here[k := true];
      Settle(k, v, e);
    }

    /** A player who is away starts anew. */
    method Begin(k: nat, kindred: nat, room: bool)
      requires Sized() && Valid() && k < |players|
      modifies this`players, this`here
      ensures Sized() && Valid() && Follows(old(View()), Event.Begin(k, kindred, room), View())
      ensures forall p | p in players :: p in old(players) || (fresh(p) && fresh(p.inventory))
    {
      hide View, Follows, Player.Valid, Ground.Valid, Bank.Valid, Bank.SafeOf, Recorded, Sound, Hands, Valid;
      hide Separate, Things, Tidy, Scene.Apart, Hand.Fit;
      ghost var v := View();
      Ready(k);
      FreshHand(v.hands[k], kinds, kindred, room, v.piles);
      if !here[k] && room && kindred < |kinds| {
        var p := new Player(ids[k], [], kinds[kindred].caster, kinds[kindred].rules, ground.registry);
        assert Present(p, bank.SafeOf(ids[k])) == Begun(v.hands[k], kinds, kindred, room);
        assert forall q | q in players :: q.inventory != p.inventory;
        ghost var h' := Present(p, bank.SafeOf(ids[k]));
        assert Moves(v, Event.Begin(k, kindred, room), v.hands[k], h', v.piles) && Separate(h', v.piles);
        assert forall x | x in Things(h', v.piles) :: x in Things(v.hands[k], v.piles);
        assert Bags() == old(Bags()) && p.inventory !in Bags() && p !in players;
        assert Valid() && v == View();
        Seat(k, p, Event.Begin(k, kindred, room), v);
      } else {
        NothingHappens(v, Event.Begin(k, kindred, room));
      }
    }

    /** A player who is away comes back as the last autosave has it, if there is one. */
    method Return(k: nat, room: bool)
      requires Sized() && Valid() && k < |players|
      modifies this`players, this`here
      ensures Sized() && Valid() && Follows(old(View()), Event.Return(k, room), View())
      ensures forall p | p in players :: p in old(players) || (fresh(p) && fresh(p.inventory))
    {
      hide View, Follows, Player.Valid, Ground.Valid, Bank.Valid, Bank.SafeOf, Sound, Hands, Valid, Saves.Compacted;
      hide Separate, Things, Tidy, Scene.Apart, Hand.Fit, GoldBack, Saves.Reborn;
      ghost var v := View();
      Ready(k);
      SavedAsKept(k);
      if !here[k] && room && saves[k].Some? {
        ghost var s := kept[k].value;
        var p := Rebuild(ids[k], saves[k].value, ground.registry, s);
        ghost var h' := Present(p, bank.SafeOf(ids[k]));
        forall x: Item | Holds(h'.slots, x)
          ensures v.Unknown(x) && x !in v.hands[k].safe.items
        {
          WasNowhere(x);
        }
        NewItems(v, v.hands[k], h');
        assert forall q | q in players :: q.inventory != p.inventory;
        assert Bags() == old(Bags()) && p.inventory !in Bags() && p !in players;
        assert Moves(v, Event.Return(k, room), v.hands[k], h', v.piles);
        assert Valid() && v == View();
        Seat(k, p, Event.Return(k, room), v);
      } else {
        NothingHappens(v, Event.Return(k, room));
      }
    }

    lemma SavedAsKept(k: nat)
      requires Sized() && Valid() && k < |players|
      ensures Recorded(ground.registry, saves[k], kept[k])
    {
    }

    /** Takes a record of everybody who is here, and forgets the others; with nobody anywhere nothing is written. */
    method Autosave(elsewhere: bool)
      requires Sized() && Valid()
      modifies this`saves, this`kept
      ensures Sized() && Valid() && Follows(old(View()), Event.Autosave(elsewhere), View())
    {
      hide Valid, View, Recorded, Tidy, Scene.Apart, Hand.Fit, HandOf, Seated;
      ValidIsFit();
      EachInOrder();
      ghost var v := View();
      var taken, somebody := Records(v);
      assert Bags() == old(Bags());
      assert Valid() && View() == v;
      if elsewhere || somebody {
        Keep(taken, v.Snapshot(elsewhere));
      }
    }

    method Keep(taken: seq<Option<Record>>, ghost snapshot: seq<Option<Hand>>)
      requires Sized() && Valid() && |taken| == |snapshot| == |players|
      requires forall k | 0 <= k < |players| :: Recorded(ground.registry, taken[k], snapshot[k])
      modifies this`saves, this`kept
      ensures Sized() && Valid() && View() == old(View()).(saves := snapshot)
    {
      hide Player.Valid, Ground.Valid, Bank.Valid, Bank.SafeOf, Recorded, Seated, Hands, Scene.Apart;
      HandsAre(|players|);
      ghost var v := View();
      saves, kept := taken, snapshot;
      HandsAre(|players|);
      assert View().hands == v.hands;
      StillApart(v, kept);
    }

    lemma EachInOrder()
      requires Sized() && Valid()
      ensures ground.registry.Valid()
      ensures forall k | 0 <= k < |players| ::
                && players[k].Valid() && players[k].inventory.registry == ground.registry
                && |players[k].inventory.slots| == players[k].rules.maxItems
    {
      hide Player.Valid, Tidy, Recorded, Hands, Scene.Apart;
    }

    /** A record of everybody who is here. */
    method Records(ghost v: Scene) returns (taken: seq<Option<Record>>, somebody: bool)
      requires Views(v) && ground.registry.Valid()
      requires forall k | 0 <= k < |players| ::
                 && players[k].Valid() && players[k].inventory.registry == ground.registry
                 && |players[k].inventory.slots| == players[k].rules.maxItems
      ensures |taken| == |players| && (somebody <==> exists k :: 0 <= k < |players| && v.hands[k].here)
      ensures forall k | 0 <= k < |players| ::
                Recorded(ground.registry, taken[k], if v.hands[k].here then Some(v.hands[k]) else None)
    {
      hide Player.Valid, HandOf, Bank.SafeOf;
      taken, somebody := [], false;
      for k := 0 to |players|
        invariant |taken| == k && (somebody <==> exists j :: 0 <= j < k && v.hands[j].here)
        invariant forall j | 0 <= j < k ::
                    Recorded(ground.registry, taken[j], if v.hands[j].here then Some(v.hands[j]) else None)
      {
        var record := None;
        assert v.hands[k] == HandOf(k);
        WhoIsHere(k);
        if here[k] {
          record := RecordOf(players[k], ground.registry, bank.SafeOf(ids[k]));
          somebody := true;
        }
        taken := taken + [record];
      }
    }

    lemma WhoIsHere(k: nat)
      requires Sized() && k < |players|
      ensures HandOf(k).here == here[k]
      ensures here[k] ==> HandOf(k) == Present(players[k], bank.SafeOf(ids[k]))
    {
    }

    static method RecordOf(p: Player, ghost reg: Registry, ghost safe: Safe) returns (r: Option<Record>)
      requires reg.Valid() && p.Valid() && p.inventory.registry == reg && |p.inventory.slots| == p.rules.maxItems
      ensures Recorded(reg, r, Some(Present(p, safe)))
    {
      hide Rules.Valid, Sound;
      var save := Saves.TakeSnapshot(p, Position(0, 0));
      r := Some(Record(save, p.rules));
    }

    // ---- Runs ----

    /** Anybody does anything: exactly what the ledgers say follows. */
    method Do(e: Event)
      requires Sized() && Valid()
      modifies this, ground, bank, Everyone()
      ensures Sized() && Valid() && Follows(old(View()), e, View())
      ensures forall o | o in Everyone() :: o in old(Everyone()) || fresh(o)
    {
      hide Valid, View, Follows;
      ValidIsFit();
      if e.Autosave? {
        Autosave(e.elsewhere);
      } else if e.player >= |players| {
        NobodyMoves(View(), e);
      } else if Travels(e) {
        match e
        case Leave(k) => Leave(k);
        case Reconnect(k) => Reconnect(k);
        case Return(k, room) => Return(k, room);
        case Begin(k, kindred, room) => Begin(k, kindred, room);
      } else if here[e.player] {
        Act(e);
      } else {
        Ready(e.player);
        AwayDoesNothing(View(), e);
      }
    }

    /**
     * Whatever all players do, in whatever order: the scenes it passes through follow one another, and what there was,
     * and what trade and saves brought, is carried, in a safe or on the ground, but for gold over a cap, for what dying
     * players dropped beyond the open cells, and for what left with players or stayed in safes nobody can open. What
     * was dropped is gold, or units of known items, and with enough open cells at every death nothing of it is lost.
     */
    method Run(events: seq<Event>) returns (ghost trail: seq<Scene>)
      requires Sized() && Valid()
      modifies this, ground, bank, Everyone()
      ensures Sized() && Valid() && Traced(trail, events) && trail[0] == old(View()) && trail[|events|] == View()
      ensures forall what ::
                View().Everywhere(what) + Sum(AllUnlaid(trail, events), Measure(what))
                + (if what.Gold? then AllSpilt(trail, events) else 0) + AllForsaken(trail, events, what)
                == old(View()).Everywhere(what) + AllTraded(trail, events, what) + AllBrought(trail, events, what)
      ensures AllUnlaid(trail, events) == [] <==> forall i | 0 <= i < |events| :: Roomy(trail[i], events[i])
      ensures forall p | p in AllUnlaid(trail, events) :: Sane(ground.registry, p)
    {
      hide Valid, View, Follows, Scene.Fit, Scene.Everywhere, Measure, Sane, Roomy;
      ValidIsFit();
      trail := [View()];
      for i := 0 to |events|
        invariant Sized() && Valid() && Traced(trail, events[..i])
        invariant trail[0] == old(View()) && trail[i] == View()
        invariant forall o | o in Everyone() :: o in old(Everyone()) || fresh(o)
      {
        Do(events[i]);
        ValidIsFit();
        TracedNext(trail, events[..i], events[i], View());
        assert events[..i + 1] == events[..i] + [events[i]];
        trail := trail + [View()];
      }
      assert events[..|events|] == events;
      forall what
        ensures View().Everywhere(what) + Sum(AllUnlaid(trail, events), Measure(what))
                + (if what.Gold? then AllSpilt(trail, events) else 0) + AllForsaken(trail, events, what)
                == old(View()).Everywhere(what) + AllTraded(trail, events, what) + AllBrought(trail, events, what)
      {
        RunBalances(trail, events, what);
      }
      NothingUnlaid(trail, events);
      UnlaidSane(trail, events);
    }
  }

  /** One player with a sword and a potion, alone on a map of one cell. */
  method Lonely() returns (economy: Economy)
    ensures fresh(economy) && fresh(economy.ground) && fresh(economy.bank) && fresh(economy.Everyone())
    ensures economy.Sized() && economy.Valid() && |economy.View().hands| == 1
    ensures var v := economy.View();
            var h := v.hands[0];
            && v.piles == map[] && v.terrain == WorldMap(1, 1, {}, map[], [])
            && h.here && !h.dead && h.progress.hp == 10
            && |h.slots| == 2 && h.Has(0) && h.Has(1)
            && h.slots[1].quantity == 1 && Normalize(h.slots[1].item.name) == Saves.POTION
  {
    Saves.Stalls();
    hide Normalize, Sound, Tidy, Economy.Valid, Economy.View, Scene.Fit, Player.Valid, Rules.Valid;
    var player := Saves.Shopper();
    var bank := new Bank();
    var ground := new Ground(WorldMap(1, 1, {}, map[], []), Saves.TwoStalls());
    economy := new Economy([player], bank, ground, 1, []);
    assert economy.Beginning();
    economy.ValidIsFit();
  }

  lemma OneCell()
    ensures Grounds.Room(WorldMap(1, 1, {}, map[], []), map[]) == {Position(0, 0)}
  {
  }

  /** A potion saved, dropped and left behind is there twice after coming back. */
  method PotionTwice() returns (ghost trail: seq<Scene>)
    ensures |trail| == 5 && trail[4].Everywhere(Units(Saves.POTION)) == trail[0].Everywhere(Units(Saves.POTION)) + 1
  {
    hide Normalize, Economy.Valid, Economy.View, Scene.Everywhere;
    OneCell();
    var economy := Lonely();
    trail := economy.Run([Autosave(false), Drop(0, Position(0, 0), 1), Leave(0), Return(0, true)]);
    ComesBackTwice(trail, 0, Position(0, 0), 1, Saves.POTION);
  }

  /** Two parcels and one open cell: one of them is lost. */
  method CrowdedDeath() returns (ghost trail: seq<Scene>, ghost events: seq<Event>)
    ensures Traced(trail, events) && AllUnlaid(trail, events) != []
  {
    hide Normalize, Economy.Valid, Economy.View, Scene.Everywhere, Scene.Fit;
    OneCell();
    var economy := Lonely();
    events := [Hit(0, 10, Position(0, 0))];
    trail := economy.Run([Hit(0, 10, Position(0, 0))]);
    TwoDropped(trail[0].hands[0]);
    assert !Roomy(trail[0], events[0]);
  }

  lemma TwoDropped(h: Hand)
    requires |h.slots| == 2 && h.Has(0) && h.Has(1)
    ensures |h.Dropped()| >= 2
  {
    assert h.slots[1..][1..] == [];
    assert |Occupied(h.slots[1..])| == 1;
  }
}
