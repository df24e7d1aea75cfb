/** The keyboard mode's game state (the locals of `main`) as one object,
    whose methods are the steps of its loops. Each method is proved to move
    the snapshot exactly as the matching function of `Battle` says, and to
    keep `Battle.Invariant`. */
module Arena {
  import opened Text
  import opened Entities
  import opened Skills
  import opened Vocabulary
  import opened Combat
  import opened Battle

  class Game {
    const dictionary: seq<Word>
    const player: Entity
    const monster: Entity
    var score: int
    var level: nat
    var target: Word
    var buffer: string
    var feedback: Feedback
    var skillReveal: Skill
    var skillFreeze: Skill
    var skillSlash: Skill
    var phase: Phase
    var exitGame: bool

    function Snapshot(): State
      reads this, player, monster
    {
      State(player.Value(), monster.Value(), score, level, target, buffer, feedback,
            skillReveal, skillFreeze, skillSlash, phase, exitGame)
    }

    ghost predicate Valid()
      reads this, player, monster
    {
      player != monster && |dictionary| > 0 && Invariant(Snapshot(), dictionary)
    }

    /** Lines 291-308, with the clock read at `now` and the first word drawn by `pick`. */
    constructor (dictionary: seq<Word>, now: int, pick: nat)
      requires |dictionary| > 0
      ensures Valid() && fresh(player) && fresh(monster)
      ensures Snapshot() == Opening(dictionary, now, pick)
    {
      this.dictionary := dictionary;
      player := new Entity("Hero", 50, Uncoloured);
      score := 0;
      level := 1;
      skillReveal := Create("Reveal Vowels", 8000, 4000, now);
      skillFreeze := Create("Freeze", 10000, 3000, now);
      skillSlash := Create("Slash", 6000, 0, now);
      monster := new Entity("Slime", 10, LightGreen);
      target := dictionary[pick % |dictionary|];
      buffer := "";
      feedback := Silent;
      phase := Start;
      exitGame := false;
    }

    /** The start screen's blocking key read (lines 339-342). */
    method PressStartKey(key: Key)
      requires Valid() && phase == Start
      modifies this
      ensures Valid()
      ensures Snapshot() == AfterStartKey(old(Snapshot()), key)
    {
      ghost var s0 := Snapshot();
      if key == Escape {
        exitGame := true;
      } else if key == Enter {
        phase := Play;
        feedback := Silent;
        buffer := "";
      }
      StartKeyKeepsInvariant(s0, dictionary, key);
    }

    /** The confirm key (lines 423-445): resolve the buffer against the target,
        draw a new word unless the monster died, and clear the buffer. */
    method Confirm(now: int, roll: nat, pick: nat)
      requires Valid() && phase == Play
      requires !monster.IsDead() && !player.IsDead() && !exitGame
      modifies this, player, monster
      ensures Valid()
      ensures Snapshot() == Battle.Confirm(old(Snapshot()), dictionary, now, roll, pick)
    {
      ghost var s0 := Snapshot();
      if buffer == target.english {
        var damage := 5 + roll % 5;
        monster.TakeDamage(damage);
        score := score + damage * 10;
        feedback := Hit(damage);
      } else {
        var damage := 2 + roll % 3;
        if !IsActive(skillFreeze, now) {
          player.TakeDamage(damage);
          feedback := Miss(damage);
        } else {
          feedback := Shielded;
        }
      }
      if !monster.IsDead() {
        target := dictionary[pick % |dictionary|];
      }
      buffer := "";
      KeyKeepsInvariant(s0, dictionary, Enter, now, roll, pick);
    }

    /** Key '3' (lines 460-469): Slash, when ready. */
    method UseSlash(now: int, roll: nat)
      requires Valid() && phase == Play
      requires !monster.IsDead() && !player.IsDead() && !exitGame
      modifies this, monster
      ensures Valid()
      ensures Snapshot() == CastSlash(old(Snapshot()), now, roll)
    {
      ghost var s0 := Snapshot();
      if IsReady(skillSlash, now) {
        var damage := 8 + roll % 5;
        monster.TakeDamage(damage);
        score := score + damage * 12;
        feedback := Slashed(damage);
        skillSlash := skillSlash.(nextReady := now + skillSlash.cooldownMs * NanosPerMs);
      }
      KeyKeepsInvariant(s0, dictionary, Code('3' as int), now, roll, 0);
    }

    /** One polled key in the battle loop (lines 420-474), at time `now`;
        `roll` is the `rand()` a damage uses, `pick` the one a new word uses. */
    method PressKey(key: Key, now: int, roll: nat, pick: nat)
      requires Valid() && phase == Play
      requires !monster.IsDead() && !player.IsDead() && !exitGame
      modifies this, player, monster
      ensures Valid()
      ensures Snapshot() == AfterKey(old(Snapshot()), dictionary, key, now, roll, pick)
    {
      ghost var s0 := Snapshot();
      match key
      case Escape =>
        exitGame := true;
      case Enter =>
        Confirm(now, roll, pick);
      case Code(c) =>
        if c == 8 || c == 127 {
          if buffer != [] {
            buffer := buffer[..|buffer| - 1];
          }
        } else if c == '1' as int {
          if IsReady(skillReveal, now) {
            skillReveal := skillReveal.(activeUntil := At(now + skillReveal.durationMs * NanosPerMs),
                              nextReady := now + skillReveal.cooldownMs * NanosPerMs);
            feedback := Revealed;
          }
        } else if c == '2' as int {
          if IsReady(skillFreeze, now) {
            skillFreeze := skillFreeze.(activeUntil := At(now + skillFreeze.durationMs * NanosPerMs),
                              nextReady := now + skillFreeze.cooldownMs * NanosPerMs);
            feedback := Frozen;
          }
        } else if c == '3' as int {
          UseSlash(now, roll);
        } else if 'a' as int <= c <= 'z' as int {
          if |buffer| < 20 {
            buffer := buffer + [c as char];
          }
        } else if 'A' as int <= c <= 'Z' as int {
          if |buffer| < 20 {
            buffer := buffer + [Lower(c as char)];
          }
        }
      KeyKeepsInvariant(s0, dictionary, key, now, roll, pick);
    }

    /** One line read in the blocking mode (lines 479-496): the line replaces
        the buffer, is lowercased in place, resolved, and cleared. */
    method SubmitLine(line: string, roll: nat, pick: nat)
      requires Valid() && phase == Play
      requires !monster.IsDead() && !player.IsDead() && !exitGame
      modifies this, player, monster
      ensures Valid()
      ensures Snapshot() == AfterLine(old(Snapshot()), dictionary, line, roll, pick)
    {
      ghost var s0 := Snapshot();
      buffer := line;
      if buffer == "esc" || buffer == "ESC" {
        exitGame := true;
      } else {
        buffer := Lowercase(buffer);
        if buffer == target.english {
          var damage := 5 + roll % 5;
          monster.TakeDamage(damage);
          score := score + damage * 10;
          feedback := Hit(damage);
        } else {
          var damage := 2 + roll % 3;
          player.TakeDamage(damage);
          feedback := Miss(damage);
        }
        if !monster.IsDead() {
          target := dictionary[pick % |dictionary|];
        }
        buffer := "";
      }
      LineKeepsInvariant(s0, dictionary, line, roll, pick);
    }

    /** After the battle loop (lines 503-532): nothing when the player is dead,
        else a dead monster levels the game up. */
    method EndOfBattle(pick: nat)
      requires Valid() && phase == Play
      modifies this, player, monster
      ensures Valid()
      ensures Snapshot() == AfterBattle(old(Snapshot()), dictionary, pick)
    {
      ghost var s0 := Snapshot();
      if player.IsDead() {
        return;
      }
      if monster.IsDead() {
        level := level + 1;
        score := score + 100;
        player.Restore();
        feedback := LevelledUp;
        var newHp := 10 + level * 5;
        var newName: string;
        var newColour: Colour;
        if level % 3 == 0 {
          newName, newColour, newHp := "Dragon Boss", LightRed, newHp + 20;
        } else if level % 2 == 0 {
          newName, newColour := "Goblin", Brown;
        } else {
          newName, newColour := "Slime", LightGreen;
        }
        monster.Reset(Fresh(newName, newHp, newColour));
        target := dictionary[pick % |dictionary|];
        buffer := "";
      }
      BattleEndKeepsInvariant(s0, dictionary, pick);
    }
  }
}
