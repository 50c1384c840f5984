/** Items, and the registry that knows every item in play by its normalized name. */
module Items {
  import opened Prelude
  import opened Bytes
  import opened Names

  datatype EquipmentSlot = WEAPON | ARMOR | HELMET | SHIELD

  datatype Kind = Weapon | MagicWeapon | Defensive(part: EquipmentSlot) | Potion(health: bool, restore: int)
  {
    /** Where an item of this kind is worn; a potion is not. */
    function Slot(): Option<EquipmentSlot> {
      match this
      case Weapon => Some(WEAPON)
      case MagicWeapon => Some(WEAPON)
      case Defensive(part) => Some(part)
      case Potion(_, _) => None
    }
  }

  class Item {
    const name: Text
    const kind: Kind

    constructor (n: Text, k: Kind)
      ensures name == n && kind == k
    {
      name, kind := n, k;
    }
  }

  datatype Template = Template(name: Text, kind: Kind, price: nat)

  datatype Registry = Registry(templates: map<Text, Template>)
  {
    /**
     * Templates have names, are filed under their normalized names, and nothing defensive is worn as a weapon.
     */
    ghost predicate Valid() {
      forall key | key in templates ::
        && templates[key].name != []
        && Normalize(templates[key].name) == key
        && (templates[key].kind.Defensive? ==> templates[key].kind.part != WEAPON)
    }

    predicate Exists(name: Text) {
      Normalize(name) in templates
    }

    /** The item was made from a template. */
    predicate Knows(item: Item) {
      Exists(item.name)
      && templates[Normalize(item.name)].name == item.name
      && templates[Normalize(item.name)].kind == item.kind
    }

    predicate IsPotion(name: Text) {
      Exists(name) && templates[Normalize(name)].kind.Potion?
    }

    predicate IsMagicWeapon(name: Text) {
      Exists(name) && templates[Normalize(name)].kind.MagicWeapon?
    }

    function Price(name: Text): nat {
      if Exists(name) then templates[Normalize(name)].price else 0
    }

    function DisplayName(name: Text): Text {
      if Exists(name) then templates[Normalize(name)].name else name
    }

    method Create(name: Text) returns (item: Item)
      requires Valid() && Exists(name)
      ensures fresh(item) && Knows(item)
      ensures Normalize(item.name) == Normalize(name) && item.name == DisplayName(name)
    {
      var t := templates[Normalize(name)];
      item := new Item(t.name, t.kind);
    }
  }

  /** Known items that agree up to accents and case agree in name and kind. */
  lemma SameKeySameItem(reg: Registry, a: Item, b: Item)
    requires reg.Knows(a) && reg.Knows(b)
    ensures Normalize(a.name) == Normalize(b.name) <==> a.name == b.name
    ensures a.name == b.name ==> a.kind == b.kind
  {
  }

  /** A name and its normalized form are the same to every registry query. */
  lemma RegistryIgnoresAccents(reg: Registry, name: Text)
    ensures reg.Exists(name) <==> reg.Exists(Normalize(name))
    ensures reg.Price(name) == reg.Price(Normalize(name))
    ensures reg.IsPotion(name) <==> reg.IsPotion(Normalize(name))
    ensures reg.IsMagicWeapon(name) <==> reg.IsMagicWeapon(Normalize(name))
  {
    NormalizeIdempotent(name);
  }

  /** A name spelt in whatever case and accents finds the template of that name, and every answer is the template's. */
  lemma RegistryFinds(reg: Registry, name: Text, t: Template)
    requires reg.Valid() && t in reg.templates.Values && Normalize(name) == Normalize(t.name)
    ensures reg.Exists(name) && reg.Price(name) == t.price && reg.DisplayName(name) == t.name
    ensures reg.IsPotion(name) <==> t.kind.Potion?
    ensures reg.IsMagicWeapon(name) <==> t.kind.MagicWeapon?
  {
  }

  /** A name of no template is not there, costs nothing, and is shown as it is. */
  lemma RegistryMisses(reg: Registry, name: Text)
    requires reg.Valid() && forall t | t in reg.templates.Values :: Normalize(t.name) != Normalize(name)
    ensures !reg.Exists(name) && reg.Price(name) == 0 && reg.DisplayName(name) == name
    ensures !reg.IsPotion(name) && !reg.IsMagicWeapon(name)
  {
  }

  /** An item is known exactly when it has the name and the kind of some template. */
  lemma KnownItems(reg: Registry, item: Item)
    requires reg.Valid()
    ensures reg.Knows(item) <==> exists t | t in reg.templates.Values :: item.name == t.name && item.kind == t.kind
  {
    if reg.Knows(item) {
      assert reg.templates[Normalize(item.name)] in reg.templates.Values;
    }
  }

  /** Weapons of either sort go to the hand, armour, helmets and shields to their places, and potions nowhere. */
  lemma WhereWorn(kind: Kind)
    ensures kind.Slot() == Some(WEAPON) <==> kind.Weapon? || kind.MagicWeapon? || kind == Defensive(WEAPON)
    ensures kind.Slot() == Some(ARMOR) <==> kind == Defensive(ARMOR)
    ensures kind.Slot() == Some(HELMET) <==> kind == Defensive(HELMET)
    ensures kind.Slot() == Some(SHIELD) <==> kind == Defensive(SHIELD)
    ensures kind.Slot() == None <==> kind.Potion?
  {
  }
}
