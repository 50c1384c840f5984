/** Players: capped gold, levelled experience, vitals, and what is lost on death. */
module Players {
  import opened Prelude
  import opened Bytes
  import opened Names
  import opened Items
  import opened Inventories

  function Min(a: int, b: int): int {
    if a < b then a else b
  }

  /** The game's formulas, as functions of the level; expLoss is the experience taken by a death. */
  datatype Rules = Rules(
    levelLimit: nat -> nat, goldCap: nat -> nat, safeGold: nat -> nat, expLoss: nat -> nat,
    maxHp: nat -> int, maxMana: nat -> int, maxItems: nat)
  {
    ghost predicate Valid() {
      && 0 < levelLimit(1)
      && (forall l: nat, m: nat | l < m :: levelLimit(l) < levelLimit(m))
      && (forall l: nat, m: nat | l < m :: goldCap(l) <= goldCap(m))
      && (forall l: nat | 0 < l :: 0 < maxHp(l) && 0 <= maxMana(l))
    }

    /** The least experience a player of this level has. */
    function Floor(level: nat): nat {
      if level > 1 then levelLimit(level - 1) else 0
    }

    ghost predicate Levelled(level: nat, experience: nat) {
      0 < level && Floor(level) <= experience < levelLimit(level)
    }
  }

  /** What a gain of experience changes. */
  datatype Progress = Progress(level: nat, experience: nat, hp: int, maxHp: int, mana: int, maxMana: int)

  /** The level that levelling up from this one ends at. */
  ghost function LevelFor(r: Rules, level: nat, experience: nat): nat
    requires r.Valid()
    decreases if r.levelLimit(level) <= experience then experience - r.levelLimit(level) + 1 else 0
  {
    if experience < r.levelLimit(level) then level else LevelFor(r, level + 1, experience)
  }

  /** The level reached is the first whose limit is above the experience. */
  lemma {:induction false} LevelForFits(r: Rules, level: nat, experience: nat)
    requires r.Valid()
    ensures level <= LevelFor(r, level, experience) && experience < r.levelLimit(LevelFor(r, level, experience))
    ensures level < LevelFor(r, level, experience) ==> r.levelLimit(LevelFor(r, level, experience) - 1) <= experience
    decreases if r.levelLimit(level) <= experience then experience - r.levelLimit(level) + 1 else 0
  {
    if experience >= r.levelLimit(level) {
      LevelForFits(r, level + 1, experience);
    }
  }

  /** The same player at this level: vitals are renewed unless the level is the one it had. */
  function AtLevel(r: Rules, p: Progress, level: nat, experience: nat): Progress {
    if level == p.level then p.(experience := experience)
    else Progress(level, experience, r.maxHp(level), r.maxHp(level), r.maxMana(level), r.maxMana(level))
  }

  ghost function Reach(r: Rules, p: Progress, experience: nat): Progress
    requires r.Valid()
  {
    AtLevel(r, p, LevelFor(r, p.level, experience), experience)
  }

  ghost function Gain(r: Rules, p: Progress, amount: nat): Progress
    requires r.Valid()
  {
    Reach(r, p, p.experience + amount)
  }

  /** A level and an experience that fit each other determine the level. */
  lemma {:induction false} LevelIsDetermined(r: Rules, experience: nat, l: nat, m: nat)
    requires r.Valid() && r.Levelled(l, experience) && r.Levelled(m, experience)
    ensures l == m
  {
    FloorAboveLimit(r, l, m);
    FloorAboveLimit(r, m, l);
  }

  lemma FloorAboveLimit(r: Rules, l: nat, m: nat)
    requires r.Valid() && 0 < l
    ensures l < m ==> r.levelLimit(l) <= r.Floor(m)
  {
  }

  lemma {:induction false} LevelsInTwo(r: Rules, level: nat, a: nat, b: nat)
    requires r.Valid() && a <= b
    ensures LevelFor(r, LevelFor(r, level, a), b) == LevelFor(r, level, b)
    decreases if r.levelLimit(level) <= a then a - r.levelLimit(level) + 1 else 0
  {
    if r.levelLimit(level) <= a {
      LevelsInTwo(r, level + 1, a, b);
    }
  }

  lemma AtLevelTwice(r: Rules, p: Progress, l: nat, a: nat, m: nat, b: nat)
    requires p.level <= l <= m
    ensures AtLevel(r, AtLevel(r, p, l, a), m, b) == AtLevel(r, p, m, b)
  {
  }

  lemma ReachInTwo(r: Rules, p: Progress, x: nat, y: nat)
    requires r.Valid() && x <= y
    ensures Reach(r, Reach(r, p, x), y) == Reach(r, p, y)
  {
    var l := LevelFor(r, p.level, x);
    LevelsInTwo(r, p.level, x, y);
    LevelForFits(r, p.level, x);
    LevelForFits(r, l, y);
    AtLevelTwice(r, p, l, x, LevelFor(r, l, y), y);
  }

  /** Experience gained in two portions leaves the same level, experience and vitals as gained at once. */
  lemma GainInTwo(r: Rules, p: Progress, a: nat, b: nat)
    requires r.Valid()
    ensures Gain(r, Gain(r, p, a), b) == Gain(r, p, a + b)
  {
    ReachInTwo(r, p, p.experience + a, p.experience + a + b);
  }

  lemma GainKeepsLevelled(r: Rules, p: Progress, amount: nat)
    requires r.Valid() && r.Levelled(p.level, p.experience)
    ensures r.Levelled(Gain(r, p, amount).level, Gain(r, p, amount).experience)
    ensures p.level <= Gain(r, p, amount).level
  {
    LevelForFits(r, p.level, p.experience + amount);
  }

  /** Experience after a loss, which never costs a level. */
  function Lose(r: Rules, level: nat, experience: nat, amount: nat): nat {
    if experience > amount && experience - amount >= r.Floor(level) then experience - amount else r.Floor(level)
  }

  lemma LossKeepsLevel(r: Rules, level: nat, experience: nat, amount: nat)
    requires r.Valid() && r.Levelled(level, experience)
    ensures r.Levelled(level, Lose(r, level, experience, amount))
    ensures Lose(r, level, experience, amount) <= experience
    ensures experience - Lose(r, level, experience, amount) == Min(amount, experience - r.Floor(level))
  {
  }

  /**
   * What a gain comes to: the sum of experience, the one level it fits, and the vitals as they were at the old level,
   * or else full ones of the new level.
   */
  lemma GainMeans(r: Rules, p: Progress, amount: nat, level: nat)
    requires r.Valid() && r.Levelled(p.level, p.experience)
    requires 0 < level && p.experience + amount < r.levelLimit(level)
    requires level > 1 ==> r.levelLimit(level - 1) <= p.experience + amount
    ensures Gain(r, p, amount) == if level == p.level then p.(experience := p.experience + amount)
                                  else Progress(level, p.experience + amount, r.maxHp(level), r.maxHp(level),
                                                r.maxMana(level), r.maxMana(level))
  {
    GainKeepsLevelled(r, p, amount);
    LevelIsDetermined(r, p.experience + amount, level, Gain(r, p, amount).level);
  }

  /** What a loss comes to: at most the amount, down to the limit of the level below. */
  lemma LossMeans(r: Rules, level: nat, experience: nat, amount: nat)
    requires r.Valid() && r.Levelled(level, experience)
    ensures var least := if level > 1 then r.levelLimit(level - 1) else 0;
            && (experience - amount >= least ==> Lose(r, level, experience, amount) == experience - amount)
            && (experience - amount < least ==> Lose(r, level, experience, amount) == least)
  {
  }

  datatype Loot = Loot(gold: nat, items: seq<Slot>)

  class Player {
    const id: nat
    const name: Text
    const caster: bool
    const rules: Rules
    const inventory: Inventory
    var level: nat
    var gold: nat
    var experience: nat
    var hp: int
    var maxHp: int
    var mana: int
    var maxMana: int
    var dead: bool

    ghost predicate Valid()
      reads this, inventory
    {
      && inventory.Valid()
      && rules.Valid()
      && rules.Levelled(level, experience)
      && gold <= rules.goldCap(level)
      && 0 <= hp <= maxHp && 0 < maxHp
      && 0 <= mana <= maxMana
    }

    ghost function Progressed(): Progress
      reads this
    {
      Progress(level, experience, hp, maxHp, mana, maxMana)
    }

    /** A new player: level 1, no gold, no experience, an empty inventory. */
    constructor (i: nat, n: Text, casts: bool, r: Rules, reg: Registry)
      requires r.Valid() && reg.Valid()
      ensures Valid() && fresh(inventory) && inventory.registry == reg
      ensures id == i && name == n && caster == casts && rules == r
      ensures level == 1 && gold == 0 && experience == 0 && !dead
      ensures hp == maxHp == r.maxHp(1) && mana == maxMana == r.maxMana(1)
      ensures |inventory.slots| == r.maxItems && forall k | 0 <= k < r.maxItems :: inventory.slots[k] == EMPTY
    {
      id, name, caster, rules := i, n, casts, r;
      inventory := new Inventory(reg, r.maxItems);
      level, gold, experience, dead := 1, 0, 0, false;
      maxHp, hp := r.maxHp(1), r.maxHp(1);
      maxMana, mana := r.maxMana(1), r.maxMana(1);
    }

    method AddGold(amount: nat)
      modifies this`gold
      ensures gold == if old(gold) >= rules.goldCap(level) then old(gold)
                      else Min(old(gold) + amount, rules.goldCap(level))
      ensures old(Valid()) ==> Valid()
    {
      var max := rules.goldCap(level);
      if gold >= max {
        return;
      }
      var space := max - gold;
      gold := gold + Min(amount, space);
    }

    method RemoveGold(amount: nat) returns (paid: bool)
      requires Valid()
      modifies this`gold
      ensures Valid()
      ensures paid <==> amount <= old(gold)
      ensures gold == if paid then old(gold) - amount else old(gold)
    {
      if amount > gold {
        return false;
      }
      gold := gold - amount;
      return true;
    }

    method LevelUp()
      requires rules.Valid()
      modifies this`level, this`hp, this`maxHp, this`mana, this`maxMana
      ensures level == old(level) + 1
      ensures hp == maxHp == rules.maxHp(level) && mana == maxMana == rules.maxMana(level)
    {
      level := level + 1;
      SetInitialStats(rules.maxHp(level), rules.maxMana(level));
    }

    method AddExperience(amount: nat)
      requires rules.Valid()
      modifies this
      ensures Progressed() == Gain(rules, old(Progressed()), amount)
      ensures gold == old(gold) && dead == old(dead)
      ensures old(Valid()) ==> Valid()
    {
      if rules.Levelled(level, experience) {
        GainKeepsLevelled(rules, Progressed(), amount);
      }
      experience := experience + amount;
      LevelUpWhileDue();
    }

    method LevelUpWhileDue()
      requires rules.Valid()
      modifies this`level, this`hp, this`maxHp, this`mana, this`maxMana
      ensures Progressed() == AtLevel(rules, old(Progressed()), LevelFor(rules, old(level), experience), experience)
    {
      ghost var target := LevelFor(rules, level, experience);
      while experience >= rules.levelLimit(level)
        invariant old(level) <= level && LevelFor(rules, level, experience) == target
        invariant Progressed() == AtLevel(rules, old(Progressed()), level, experience)
        decreases experience - rules.levelLimit(level)
      {
        LevelUp();
      }
    }

    method RemoveExperience(amount: nat)
      requires Valid()
      modifies this`experience
      ensures Valid() && experience == Lose(rules, level, old(experience), amount)
    {
      LossKeepsLevel(rules, level, experience, amount);
      var floor := if level > 1 then rules.levelLimit(level - 1) else 0;
      if experience > amount && experience - amount >= floor {
        experience := experience - amount;
      } else {
        experience := floor;
      }
    }

    /** The level-up cheat: one level more, at the least experience of that level. */
    method CheatLevelUp() returns (done: bool)
      requires Valid()
      modifies this
      ensures Valid() && gold == old(gold) && dead == old(dead)
      ensures done <==> !old(dead)
      ensures done ==> level == old(level) + 1 && experience == rules.Floor(level) > old(experience)
      ensures !done ==> unchanged(this)
    {
      if dead {
        return false;
      }
      LevelUp();
      experience := rules.levelLimit(level - 1);
      return true;
    }

    method ReceiveDamage(damage: int)
      requires Valid()
      modifies this`hp, this`dead
      ensures Valid()
      ensures if old(dead) || damage <= 0 then hp == old(hp) && dead == old(dead)
              else hp == (if damage < old(hp) then old(hp) - damage else 0) && (dead <==> hp == 0)
    {
      if damage <= 0 || dead {
        return;
      }
      hp := hp - damage;
      if hp <= 0 {
        hp, dead := 0, true;
      }
    }

    method Heal(amount: int) returns (healed: int)
      requires Valid()
      modifies this`hp
      ensures Valid() && healed == hp - old(hp)
      ensures hp == if amount <= 0 || dead then old(hp) else Min(old(hp) + amount, maxHp)
    {
      if amount <= 0 || dead {
        return 0;
      }
      var before := hp;
      hp := hp + amount;
      if hp > maxHp {
        hp := maxHp;
      }
      return hp - before;
    }

    method RestoreMana(amount: int)
      requires Valid()
      modifies this`mana
      ensures Valid()
      ensures mana == if amount <= 0 || dead || !caster then old(mana) else Min(old(mana) + amount, maxMana)
    {
      if amount <= 0 || dead || !caster {
        return;
      }
      mana := mana + amount;
      if mana > maxMana {
        mana := maxMana;
      }
    }

    method Resurrect()
      requires Valid()
      modifies this`dead, this`hp, this`mana
      ensures Valid() && !dead
      ensures if old(dead) then hp == maxHp && mana == maxMana else hp == old(hp) && mana == old(mana)
    {
      if dead {
        dead, hp, mana := false, maxHp, maxMana;
      }
    }

    method SetInitialStats(maxHitPoints: int, maxManaPoints: int)
      modifies this`hp, this`maxHp, this`mana, this`maxMana
      ensures hp == maxHp == maxHitPoints && mana == maxMana == maxManaPoints
    {
      maxHp, hp := maxHitPoints, maxHitPoints;
      maxMana, mana := maxManaPoints, maxManaPoints;
    }

    /** Puts an item on or off, or drinks it: one unit goes, and hit points or mana come back. */
    method Equip(item: Item)
      requires Valid()
      modifies this, inventory
      ensures Valid()
      ensures unchanged(this`level, this`gold, this`experience, this`maxHp, this`maxMana, this`dead)
      ensures !Holds(old(inventory.slots), item) ==> unchanged(this) && inventory.slots == old(inventory.slots)
      ensures Holds(old(inventory.slots), item) && item.kind.Slot().Some? ==>
                && unchanged(this)
                && inventory.slots == Worn(old(inventory.slots), FirstIndex(old(inventory.slots), Is(item)))
      ensures Holds(old(inventory.slots), item) && item.kind.Slot().None? ==>
                && inventory.slots == OneLess(old(inventory.slots), FirstIndex(old(inventory.slots), Is(item)))
                && hp == (if item.kind.health && 0 < item.kind.restore && !dead
                          then Min(old(hp) + item.kind.restore, maxHp) else old(hp))
                && mana == (if !item.kind.health && 0 < item.kind.restore && !dead && caster
                            then Min(old(mana) + item.kind.restore, maxMana) else old(mana))
    {
      var r := inventory.Equip(item);
      if r.DRUNK? {
        if r.potion.health {
          var _ := Heal(r.potion.restore);
        } else {
          RestoreMana(r.potion.restore);
        }
      }
    }

    /** What falls to the ground at death: gold above the safe amount, and every item. */
    method DropLoot() returns (loot: Loot)
      requires Valid()
      modifies this`gold, this`experience, inventory
      ensures Valid()
      ensures loot.gold + gold == old(gold) && gold == Min(old(gold), rules.safeGold(level))
      ensures experience == Lose(rules, level, old(experience), rules.expLoss(old(experience)))
      ensures loot.items == Occupied(old(inventory.slots))
      ensures |inventory.slots| == |old(inventory.slots)|
      ensures forall i | 0 <= i < |inventory.slots| :: inventory.slots[i] == EMPTY
    {
      var safe := rules.safeGold(level);
      var dropped := if gold > safe then gold - safe else 0;
      if dropped > 0 {
        var _ := RemoveGold(dropped);
      }
      var lost := rules.expLoss(experience);
      if lost > 0 {
        RemoveExperience(lost);
      }
      var items := inventory.DropAll();
      return Loot(dropped, items);
    }
  }
}
