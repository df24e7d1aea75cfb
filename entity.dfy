/** Health-bearing actors: the player and the monsters. The source's
    `Monster` adds only a display colour to `Entity`, so both are one class
    here, with the colour as a tag the player leaves `Uncoloured`. */
module Entities {

  /** The display colours a monster is built with; `Black` is colour 0,
      which the line-only mode passes for every monster. */
  datatype Colour = Uncoloured | Black | Brown | LightGreen | LightRed

  /** The value of an entity at one moment. */
  datatype Vitals = Vitals(name: string, hp: int, maxHp: int, colour: Colour)

  /** `isDead`: zero or below counts as dead. */
  predicate Dead(hp: int) {
    hp <= 0
  }

  /** hp after `takeDamage(dmg)`: subtract, then clamp at zero (never at `maxHp`). */
  function AfterDamage(hp: int, dmg: int): (r: int)
    ensures r >= 0
    ensures Dead(r) <==> hp <= dmg
    ensures hp > dmg ==> r == hp - dmg
    ensures 0 <= hp && 0 <= dmg ==> r <= hp
  {
    if hp - dmg < 0 then 0 else hp - dmg
  }

  /** A fresh entity starts at full health. */
  function Fresh(name: string, h: int, colour: Colour): (v: Vitals)
    ensures v.hp == v.maxHp == h && v.name == name && v.colour == colour
  {
    Vitals(name, h, h, colour)
  }

  class Entity {
    var name: string
    var hp: int
    var maxHp: int
    var colour: Colour

    function Value(): Vitals
      reads this
    {
      Vitals(name, hp, maxHp, colour)
    }

    constructor (name: string, h: int, colour: Colour)
      ensures Value() == Fresh(name, h, colour)
    {
      this.name := name;
      this.hp := h;
      this.maxHp := h;
      this.colour := colour;
    }

    predicate IsDead()
      reads this
    {
      Dead(hp)
    }

    /** `takeDamage`: only `hp` changes. */
    method TakeDamage(dmg: int)
      modifies this
      ensures Value() == old(Value()).(hp := AfterDamage(old(hp), dmg))
    {
      hp := hp - dmg;
      if hp < 0 {
        hp := 0;
      }
    }

    /** The copy-assignment `currentMonster = Monster(n, h, c)`: the same
        object now holds a freshly built monster. */
    method Reset(v: Vitals)
      modifies this
      ensures Value() == v
    {
      name, hp, maxHp, colour := v.name, v.hp, v.maxHp, v.colour;
    }

    /** `player.hp = player.maxHp`, done on every level-up. */
    method Restore()
      modifies this
      ensures Value() == old(Value()).(hp := old(maxHp))
    {
      hp := maxHp;
    }
  }
}
