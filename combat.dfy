/** Combat rules shared by both play modes: the damage rolls, the
    resolution of a finished attempt, monster generation and word drawing.
    Every `rand()` result is a parameter (`roll`, `pick`); the model applies
    the source's `%` itself. */
module Combat {
  import opened Entities
  import opened Vocabulary

  /** What the last action reports to the player (its text is rendering). */
  datatype Feedback =
    | Silent
    | Hit(damage: int)
    | Miss(damage: int)
    | Shielded
    | Revealed
    | Frozen
    | Slashed(damage: int)
    | LevelledUp

  /** `5 + rand() % 5`: a correct answer's damage. */
  function HitDamage(roll: nat): (d: int)
    ensures 5 <= d <= 9
    ensures roll < 5 ==> d == 5 + roll
  {
    5 + roll % 5
  }

  /** `2 + rand() % 3`: what a wrong answer costs the player. */
  function MissDamage(roll: nat): (d: int)
    ensures 2 <= d <= 4
    ensures roll < 3 ==> d == 2 + roll
  {
    2 + roll % 3
  }

  /** `8 + rand() % 5`: the Slash skill's damage. */
  function SlashDamage(roll: nat): (d: int)
    ensures 8 <= d <= 12
    ensures roll < 5 ==> d == 8 + roll
  {
    8 + roll % 5
  }

  /** `dictionary[rand() % dictionary.size()]`. */
  function PickWord(dict: seq<Word>, pick: nat): (w: Word)
    requires |dict| > 0
    ensures w in dict
  {
    dict[pick % |dict|]
  }

  /** The state one attempt touches. */
  datatype Exchange = Exchange(player: Vitals, monster: Vitals, score: int, feedback: Feedback)

  /** Comparing a finished attempt with the answer: a hit damages the monster
      and scores ten per point of damage; a miss costs the player hp unless
      `shielded` (Freeze active, in the key-driven path only). */
  function Resolve(attempt: string, answer: string, player: Vitals, monster: Vitals,
                   score: int, roll: nat, shielded: bool): (e: Exchange)
    ensures attempt == answer ==>
              e.player == player &&
              e.monster == monster.(hp := AfterDamage(monster.hp, HitDamage(roll))) &&
              e.score == score + 10 * HitDamage(roll) &&
              e.feedback == Hit(HitDamage(roll))
    ensures attempt != answer ==>
              e.monster == monster && e.score == score &&
              e.player == (if shielded then player else player.(hp := AfterDamage(player.hp, MissDamage(roll)))) &&
              e.feedback == (if shielded then Shielded else Miss(MissDamage(roll)))
    ensures score <= e.score <= score + 90
    ensures attempt == answer && 0 <= monster.hp ==> monster.hp - 9 <= e.monster.hp <= monster.hp
    ensures attempt == answer && monster.hp > 0 ==> e.monster.hp < monster.hp
    ensures attempt != answer && !shielded && 0 <= player.hp ==> player.hp - 4 <= e.player.hp <= player.hp
    ensures attempt != answer && !shielded && player.hp > 0 ==> e.player.hp < player.hp
  {
    if attempt == answer then
      var damage := HitDamage(roll);
      Exchange(player, monster.(hp := AfterDamage(monster.hp, damage)), score + damage * 10, Hit(damage))
    else
      var damage := MissDamage(roll);
      if !shielded then
        Exchange(player.(hp := AfterDamage(player.hp, damage)), monster, score, Miss(damage))
      else
        Exchange(player, monster, score, Shielded)
  }

  /** The three monster kinds, chosen by level. */
  datatype Tier = Boss | Goblin | Slime

  function TierOf(level: nat): (t: Tier)
    ensures t == Boss <==> level % 3 == 0
    ensures t == Goblin <==> level % 3 != 0 && level % 2 == 0
  {
    if level % 3 == 0 then Boss else if level % 2 == 0 then Goblin else Slime
  }

  function TierName(t: Tier): string {
    match t
    case Boss => "Dragon Boss"
    case Goblin => "Goblin"
    case Slime => "Slime"
  }

  /** The colour the keyboard mode gives each tier. */
  function TierColour(t: Tier): Colour {
    match t
    case Boss => LightRed
    case Goblin => Brown
    case Slime => LightGreen
  }

  /** The hp budget of a level's monster: `10 + 5 * level`, plus 20 for a boss. */
  function Budget(level: nat): (hp: int)
    ensures hp >= 15 || level == 0
    ensures hp == 10 + 5 * level + (if TierOf(level) == Boss then 20 else 0)
  {
    var base := 10 + level * 5;
    if level % 3 == 0 then base + 20 else base
  }

  /** The monster generated for `level` (lines 110-117 and 515-528), at full health. */
  function MonsterFor(level: nat, colour: Colour): (m: Vitals)
    ensures m == Fresh(TierName(TierOf(level)), Budget(level), colour)
    ensures level >= 1 ==> !Dead(m.hp)
  {
    Fresh(TierName(TierOf(level)), Budget(level), colour)
  }

  /** Between two levels that are not a boss level the budget grows by five. */
  lemma BudgetGrowsOffBoss(level: nat)
    requires TierOf(level) != Boss && TierOf(level + 1) != Boss
    ensures Budget(level + 1) == Budget(level) + 5
  {
  }

  /** Right after every boss level the next monster is weaker than the boss:
      the hp budget does not grow at every level. */
  lemma BudgetDropsAfterBoss(level: nat)
    requires TierOf(level) == Boss
    ensures Budget(level + 1) == Budget(level) - 15
  {
  }
}
