/**
  Collectible items (src/game/Item.java) and their level characters
  (src/game/Game.java). An item is an immutable pair of a type character and
  a value; the value comes from a random draw, which the model takes as an
  input in 0..19 (the result of `(int) (Math.random() * 20)`).
 */
module Items {

  const DamageBoost: char := 'w'
  const HealthBoost: char := 'x'
  const Key: char := 'z'

  /** The characters the level loader turns into items: 'w' through 'z', including the unused 'y'. */
  predicate IsItemChar(ch: char)
  {
    DamageBoost <= ch <= Key
  }

  datatype Item = Item(kind: char, value: int)

  /** The constructor: the type is the given character, the value is the draw plus 31. */
  function NewItem(kind: char, draw: nat): (it: Item)
    requires draw < 20
    ensures it.kind == kind
    ensures 31 <= it.value <= 50
  {
    Item(kind, draw + 31)
  }

  /** Every value in 31..50 is reachable by some draw, and only those. */
  lemma ItemValueRange(kind: char, v: int)
    ensures (exists draw: nat :: draw < 20 && NewItem(kind, draw).value == v) <==> 31 <= v <= 50
  {
    if 31 <= v <= 50 {
      var draw: nat := v - 31;
      assert NewItem(kind, draw).value == v;
    }
  }

  /** What picking an item up does to the game, as GamePanel.itemPickedUp decides it. */
  datatype Effect = AddDamage(amount: int) | AddHealth(amount: int) | FoundKey | NoEffect

  function EffectOf(it: Item): (e: Effect)
    ensures it.kind == DamageBoost <==> e.AddDamage?
    ensures it.kind == HealthBoost <==> e.AddHealth?
    ensures it.kind == Key <==> e.FoundKey?
    ensures e.AddDamage? ==> e.amount == it.value
    ensures e.AddHealth? ==> e.amount == 5 * it.value
  {
    if it.kind == DamageBoost then AddDamage(it.value)
    else if it.kind == HealthBoost then AddHealth(5 * it.value)
    else if it.kind == Key then FoundKey
    else NoEffect
  }

  /** A 'y' item is created like the others but picking it up does nothing. */
  lemma UnusedItemHasNoEffect(draw: nat)
    requires draw < 20
    ensures IsItemChar('y')
    ensures EffectOf(NewItem('y', draw)) == NoEffect
  {
  }
}
