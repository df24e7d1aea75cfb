/** The plain-text mode (`runSimpleModeCLI`, lines 105-153): one line per
    round, no skills and no shield, and a question that only changes after a
    hit. The rules are functions of a `Duel`; the class `SimpleSession` is the
    function's locals, proved to follow them. */
module SimpleMode {
  import opened Text
  import opened Entities
  import opened Vocabulary
  import opened Combat
  import Battle

  /** The locals of `runSimpleModeCLI` that outlive a round. */
  datatype Duel = Duel(player: Vitals, monster: Vitals, score: int, level: nat, current: Word)

  /** One line of input together with the `rand()` results its round draws. */
  datatype Turn = Turn(line: string, roll: nat, pick: nat)

  /** Between rounds: the hero's hp within 0..50, the monster alive and the
      one generated for the current level (every monster here is colour 0). */
  predicate Sound(d: Duel, dict: seq<Word>) {
    && d.player.maxHp == Battle.PlayerMaxHp && 0 <= d.player.hp <= d.player.maxHp
    && d.level >= 1 && d.score >= 0 && d.current in dict
    && d.monster == MonsterFor(d.level, Black).(hp := d.monster.hp)
    && 0 < d.monster.hp <= d.monster.maxHp
  }

  /** Lines 106-120: a fresh hero, level 1 and its monster (a 15 hp Slime). */
  function Begin(dict: seq<Word>, pick: nat): (d: Duel)
    requires |dict| > 0
    ensures Sound(d, dict)
    ensures d.player == Fresh("Hero", Battle.PlayerMaxHp, Uncoloured) && d.score == 0 && d.level == 1
    ensures d.monster.name == "Slime" && d.monster.hp == d.monster.maxHp == 15
  {
    Duel(Fresh("Hero", Battle.PlayerMaxHp, Uncoloured), MonsterFor(1, Black), 0, 1, PickWord(dict, pick))
  }

  /** One answered line (lines 133-149): the lowercased line is compared with
      the answer; a hit that leaves the monster alive draws a new question, a
      miss keeps the question, and a kill brings the next level, a full-health
      hero and a new question. */
  function Round(d: Duel, dict: seq<Word>, input: string, roll: nat, pick: nat): (e: Duel)
    requires |dict| > 0
    ensures Lowered(input) == d.current.english && d.monster.hp > HitDamage(roll) ==>
              e == d.(monster := d.monster.(hp := d.monster.hp - HitDamage(roll)),
                      score := d.score + 10 * HitDamage(roll),
                      current := PickWord(dict, pick))
    ensures Lowered(input) == d.current.english && d.monster.hp <= HitDamage(roll) ==>
              e == Duel(d.player.(hp := d.player.maxHp), MonsterFor(d.level + 1, Black),
                        d.score + 10 * HitDamage(roll) + 100, d.level + 1, PickWord(dict, pick))
    ensures Lowered(input) != d.current.english && !Dead(d.monster.hp) ==>
              e == d.(player := d.player.(hp := AfterDamage(d.player.hp, MissDamage(roll))))
    ensures Sound(d, dict) ==> Sound(e, dict)
  {
    var attempt := Lowered(input);
    var x := Resolve(attempt, d.current.english, d.player, d.monster, d.score, roll, false);
    if Dead(x.monster.hp) then
      Duel(x.player.(hp := x.player.maxHp), MonsterFor(d.level + 1, Black), x.score + 100, d.level + 1,
           PickWord(dict, pick))
    else
      Duel(x.player, x.monster, x.score, d.level,
           if attempt == d.current.english then PickWord(dict, pick) else d.current)
  }

  /** The loop of lines 126-150 over the lines read so far: it stops at a dead
      hero or at "esc"/"ESC"; the result is the state after the last line given. */
  function Play(d: Duel, dict: seq<Word>, turns: seq<Turn>): (r: Duel)
    requires |dict| > 0
    ensures Sound(d, dict) ==> Sound(r, dict)
    ensures d.score <= r.score && d.level <= r.level
    ensures Dead(d.player.hp) ==> r == d
    decreases |turns|
  {
    if Dead(d.player.hp) || turns == [] || Battle.IsEscapeLine(turns[0].line) then d
    else Play(Round(d, dict, turns[0].line, turns[0].roll, turns[0].pick), dict, turns[1..])
  }

  /** Answering the three level-1 questions with rolls of 0 (5 damage each)
      kills the 15 hp Slime: level 2, score 3 * 50 + 100, a full-health hero,
      and a 20 hp Goblin. */
  lemma {:induction false} ClearingLevelOne(dict: seq<Word>, p0: nat, p1: nat, p2: nat, p3: nat,
                                           a1: string, a2: string, a3: string)
    requires |dict| > 0
    requires Lowered(a1) == PickWord(dict, p0).english
    requires Lowered(a2) == PickWord(dict, p1).english
    requires Lowered(a3) == PickWord(dict, p2).english
    requires !Battle.IsEscapeLine(a1) && !Battle.IsEscapeLine(a2) && !Battle.IsEscapeLine(a3)
    ensures var r := Play(Begin(dict, p0), dict, [Turn(a1, 0, p1), Turn(a2, 0, p2), Turn(a3, 0, p3)]);
            r.level == 2 && r.score == 250 && r.player.hp == 50 &&
            r.monster.name == "Goblin" && r.monster.hp == 20 && r.current == PickWord(dict, p3)
  {
    var turns := [Turn(a1, 0, p1), Turn(a2, 0, p2), Turn(a3, 0, p3)];
    var d0 := Begin(dict, p0);
    var d1 := Round(d0, dict, a1, 0, p1);
    assert d1.monster.hp == 10 && d1.current == PickWord(dict, p1);
    var d2 := Round(d1, dict, a2, 0, p2);
    assert d2.monster.hp == 5 && d2.current == PickWord(dict, p2);
    var d3 := Round(d2, dict, a3, 0, p3);
    assert d3.level == 2;
    assert Play(d0, dict, turns) == Play(d1, dict, turns[1..]);
    assert turns[1..][1..] == [turns[2]];
    assert Play(d1, dict, turns[1..]) == Play(d2, dict, [turns[2]]);
    assert Play(d2, dict, [turns[2]]) == Play(d3, dict, []);
  }

  /** The locals of `runSimpleModeCLI`. */
  class SimpleSession {
    const dictionary: seq<Word>
    const player: Entity
    const monster: Entity
    var score: int
    var level: nat
    var current: Word

    function Snapshot(): Duel
      reads this, player, monster
    {
      Duel(player.Value(), monster.Value(), score, level, current)
    }

    ghost predicate Valid()
      reads this, player, monster
    {
      player != monster && |dictionary| > 0 && Sound(Snapshot(), dictionary)
    }

    constructor (dictionary: seq<Word>, pick: nat)
      requires |dictionary| > 0
      ensures Valid() && fresh(player) && fresh(monster)
      ensures Snapshot() == Begin(dictionary, pick)
    {
      this.dictionary := dictionary;
      player := new Entity("Hero", 50, Uncoloured);
      score := 0;
      level := 1;
      var m := MonsterFor(1, Black);
      monster := new Entity(m.name, m.hp, m.colour);
      current := dictionary[pick % |dictionary|];
    }

    /** Lines 131-149 for one line: true when the line asks to quit (nothing
        changes then), else the round is played. */
    method SubmitLine(input: string, roll: nat, pick: nat) returns (quit: bool)
      requires Valid()
      modifies this, player, monster
      ensures Valid()
      ensures quit == Battle.IsEscapeLine(input)
      ensures Snapshot() == if quit then old(Snapshot()) else Round(old(Snapshot()), dictionary, input, roll, pick)
    {
      if input == "esc" || input == "ESC" {
        return true;
      }
      var attempt := Lowercase(input);
      if attempt == current.english {
        var damage := 5 + roll % 5;
        monster.TakeDamage(damage);
        score := score + damage * 10;
        if !monster.IsDead() {
          current := dictionary[pick % |dictionary|];
        }
      } else {
        var damage := 2 + roll % 3;
        player.TakeDamage(damage);
      }
      if monster.IsDead() {
        level := level + 1;
        score := score + 100;
        player.Restore();
        monster.Reset(MonsterFor(level, Black));
        current := dictionary[pick % |dictionary|];
      }
      return false;
    }

    /** The whole loop of lines 126-150 over the lines `turns` supplies. */
    method Run(turns: seq<Turn>)
      requires Valid()
      modifies this, player, monster
      ensures Valid()
      ensures Snapshot() == Play(old(Snapshot()), dictionary, turns)
    {
      var i := 0;
      while i < |turns| && !player.IsDead()
        invariant 0 <= i <= |turns|
        invariant Valid()
        invariant Play(Snapshot(), dictionary, turns[i..]) == Play(old(Snapshot()), dictionary, turns)
      {
        assert turns[i..][1..] == turns[i + 1..];
        var quit := SubmitLine(turns[i].line, turns[i].roll, turns[i].pick);
        if quit {
          return;
        }
        i := i + 1;
      }
    }
  }
}
