/** The keyboard mode's battle rules as functions of a snapshot of the game
    (the locals of `main`): what one key, one submitted line, the end of a
    battle, or a key on the start screen does to it. The class in `game.dfy`
    is proved to do exactly this. */
module Battle {
  import opened Text
  import opened Entities
  import opened Skills
  import opened Vocabulary
  import opened Combat

  const PlayerMaxHp := 50
  const BufferLimit := 20

  /** A key from `getkey`: the confirm and cancel keys, or any other key code. */
  datatype Key = Escape | Enter | Code(c: int)

  /** The game's phases; the declared game-over phase is never entered, the loops just end. */
  datatype Phase = Start | Play

  datatype State = State(
    player: Vitals,
    monster: Vitals,
    score: int,
    level: nat,
    target: Word,
    buffer: string,
    feedback: Feedback,
    skillReveal: Skill,
    skillFreeze: Skill,
    skillSlash: Skill,
    phase: Phase,
    exitGame: bool)

  /** The typed buffer holds at most twenty lowercase letters. */
  predicate BufferOk(b: string) {
    |b| <= BufferLimit && forall i :: 0 <= i < |b| ==> IsLowerLetter(b[i])
  }

  /** What holds of the game between any two steps. A submitted "ESC" line
      stays in the buffer, but only as the game ends. */
  predicate Invariant(s: State, dict: seq<Word>) {
    && s.player.maxHp == PlayerMaxHp && 0 <= s.player.hp <= s.player.maxHp
    && 0 <= s.monster.hp <= s.monster.maxHp
    && s.level >= 1 && s.score >= 0
    && s.target in dict
    && (s.exitGame || BufferOk(s.buffer))
    && SameKind(s.skillReveal, Reveal(0)) && Coherent(s.skillReveal)
    && SameKind(s.skillFreeze, Freeze(0)) && Coherent(s.skillFreeze)
    && SameKind(s.skillSlash, Slash(0)) && Coherent(s.skillSlash)
  }

  /** The game as `main` sets it up at time `now` (lines 291-308). */
  function Opening(dict: seq<Word>, now: int, pick: nat): (s: State)
    requires |dict| > 0
    ensures Invariant(s, dict)
    ensures s.phase == Start && s.level == 1 && s.score == 0 && s.buffer == [] && !s.exitGame
    ensures s.player.hp == PlayerMaxHp && s.monster.hp == 10 && !Dead(s.monster.hp)
    ensures IsReady(s.skillReveal, now) && IsReady(s.skillFreeze, now) && IsReady(s.skillSlash, now)
  {
    State(Fresh("Hero", PlayerMaxHp, Uncoloured), Fresh("Slime", 10, LightGreen), 0, 1,
          PickWord(dict, pick), "", Silent, Reveal(now), Freeze(now), Slash(now), Start, false)
  }

  /** A key on the start screen (lines 339-342). */
  function AfterStartKey(s: State, key: Key): (t: State)
    ensures t.player == s.player && t.monster == s.monster && t.score == s.score && t.level == s.level
    ensures t.target == s.target && t.skillReveal == s.skillReveal && t.skillFreeze == s.skillFreeze
    ensures t.skillSlash == s.skillSlash
  {
    match key
    case Escape => s.(exitGame := true)
    case Enter => s.(phase := Play, feedback := Silent, buffer := "")
    case Code(_) => s
  }

  /** The confirm key (lines 423-445). */
  function Confirm(s: State, dict: seq<Word>, now: int, roll: nat, pick: nat): (t: State)
    requires |dict| > 0
    ensures s.buffer == s.target.english ==>
              t.player == s.player &&
              t.monster == s.monster.(hp := AfterDamage(s.monster.hp, HitDamage(roll))) &&
              t.score == s.score + 10 * HitDamage(roll)
    ensures s.buffer != s.target.english ==>
              t.monster == s.monster && t.score == s.score &&
              t.player == (if IsActive(s.skillFreeze, now) then s.player
                           else s.player.(hp := AfterDamage(s.player.hp, MissDamage(roll))))
    ensures t.buffer == []
    ensures t.target == (if Dead(t.monster.hp) then s.target else PickWord(dict, pick))
    ensures t.level == s.level && t.phase == s.phase && t.exitGame == s.exitGame
    ensures t.skillReveal == s.skillReveal && t.skillFreeze == s.skillFreeze && t.skillSlash == s.skillSlash
  {
    var e := Resolve(s.buffer, s.target.english, s.player, s.monster, s.score, roll, IsActive(s.skillFreeze, now));
    s.(player := e.player, monster := e.monster, score := e.score, feedback := e.feedback,
       target := if Dead(e.monster.hp) then s.target else PickWord(dict, pick),
       buffer := "")
  }

  /** Backspace (8 or 127): drop the last character, if any. */
  function Erase(s: State): (t: State)
    ensures t == s.(buffer := t.buffer)
    ensures s.buffer == [] ==> t.buffer == []
    ensures s.buffer != [] ==> t.buffer + [s.buffer[|s.buffer| - 1]] == s.buffer
  {
    if |s.buffer| > 0 then s.(buffer := s.buffer[..|s.buffer| - 1]) else s
  }

  /** A letter key: append its lowercase form while there is room. */
  function Type(s: State, ch: char): (t: State)
    ensures t == s.(buffer := t.buffer)
    ensures |s.buffer| < BufferLimit ==>
              |t.buffer| == |s.buffer| + 1 && t.buffer[..|s.buffer|] == s.buffer && t.buffer[|s.buffer|] == ch
    ensures |s.buffer| >= BufferLimit ==> t.buffer == s.buffer
    ensures BufferOk(s.buffer) && IsLowerLetter(ch) ==> BufferOk(t.buffer)
  {
    if |s.buffer| < BufferLimit then s.(buffer := s.buffer + [ch]) else s
  }

  /** Key '1': Reveal, when ready, opens its window and restarts its cooldown. */
  function CastReveal(s: State, now: int): (t: State)
    ensures !IsReady(s.skillReveal, now) ==> t == s
    ensures IsReady(s.skillReveal, now) ==>
              t == s.(skillReveal := t.skillReveal, feedback := Revealed) &&
              SameKind(t.skillReveal, s.skillReveal) &&
              (forall u :: IsReady(t.skillReveal, u) <==> u >= now + s.skillReveal.cooldownMs * NanosPerMs) &&
              (forall u :: IsActive(t.skillReveal, u) <==>
                 s.skillReveal.durationMs > 0 && u < now + s.skillReveal.durationMs * NanosPerMs)
  {
    if IsReady(s.skillReveal, now) then s.(skillReveal := Activate(s.skillReveal, now), feedback := Revealed) else s
  }

  /** Key '2': Freeze, the same way. */
  function CastFreeze(s: State, now: int): (t: State)
    ensures !IsReady(s.skillFreeze, now) ==> t == s
    ensures IsReady(s.skillFreeze, now) ==>
              t == s.(skillFreeze := t.skillFreeze, feedback := Frozen) &&
              SameKind(t.skillFreeze, s.skillFreeze) &&
              (forall u :: IsReady(t.skillFreeze, u) <==> u >= now + s.skillFreeze.cooldownMs * NanosPerMs) &&
              (forall u :: IsActive(t.skillFreeze, u) <==>
                 s.skillFreeze.durationMs > 0 && u < now + s.skillFreeze.durationMs * NanosPerMs)
  {
    if IsReady(s.skillFreeze, now) then s.(skillFreeze := Activate(s.skillFreeze, now), feedback := Frozen) else s
  }

  /** Key '3': Slash, when ready, hits the monster at once, scores twelve per
      point of damage, and restarts its cooldown. */
  function CastSlash(s: State, now: int, roll: nat): (t: State)
    ensures !IsReady(s.skillSlash, now) ==> t == s
    ensures IsReady(s.skillSlash, now) ==>
              t == s.(monster := t.monster, score := t.score, feedback := Slashed(SlashDamage(roll)),
                      skillSlash := t.skillSlash) &&
              t.monster == s.monster.(hp := AfterDamage(s.monster.hp, SlashDamage(roll))) &&
              t.score == s.score + 12 * SlashDamage(roll) &&
              SameKind(t.skillSlash, s.skillSlash) &&
              (forall u :: IsReady(t.skillSlash, u) <==> u >= now + s.skillSlash.cooldownMs * NanosPerMs) &&
              (forall u :: IsActive(t.skillSlash, u) <==> IsActive(s.skillSlash, u))
  {
    if IsReady(s.skillSlash, now) then
      var damage := SlashDamage(roll);
      s.(monster := s.monster.(hp := AfterDamage(s.monster.hp, damage)),
         score := s.score + damage * 12,
         feedback := Slashed(damage),
         skillSlash := Restart(s.skillSlash, now))
    else s
  }

  /** One key in the battle loop (lines 420-474). */
  function AfterKey(s: State, dict: seq<Word>, key: Key, now: int, roll: nat, pick: nat): (t: State)
    requires |dict| > 0
    ensures t.level == s.level && t.phase == s.phase && t.score >= s.score
    ensures t.exitGame <==> key == Escape || s.exitGame
    ensures key != Enter ==> t.player == s.player && t.target == s.target
    ensures key != Enter && !(key == Code('3' as int) && IsReady(s.skillSlash, now)) ==> t.monster == s.monster
    ensures 0 <= s.player.hp ==> t.player.hp <= s.player.hp
  {
    match key
    case Escape => s.(exitGame := true)
    case Enter => Confirm(s, dict, now, roll, pick)
    case Code(c) =>
      if c == 8 || c == 127 then Erase(s)
      else if c == '1' as int then CastReveal(s, now)
      else if c == '2' as int then CastFreeze(s, now)
      else if c == '3' as int then CastSlash(s, now, roll)
      else if 'a' as int <= c <= 'z' as int then Type(s, c as char)
      else if 'A' as int <= c <= 'Z' as int then Type(s, Lower(c as char))
      else s
  }

  predicate IsEscapeLine(line: string) {
    line == "esc" || line == "ESC"
  }

  /** One submitted line in the blocking mode (lines 479-496): no Freeze shield. */
  function AfterLine(s: State, dict: seq<Word>, line: string, roll: nat, pick: nat): (t: State)
    requires |dict| > 0
    ensures IsEscapeLine(line) ==> t == s.(buffer := line, exitGame := true)
    ensures !IsEscapeLine(line) && Lowered(line) == s.target.english ==>
              t.player == s.player &&
              t.monster == s.monster.(hp := AfterDamage(s.monster.hp, HitDamage(roll))) &&
              t.score == s.score + 10 * HitDamage(roll)
    ensures !IsEscapeLine(line) && Lowered(line) != s.target.english ==>
              t.monster == s.monster && t.score == s.score &&
              t.player == s.player.(hp := AfterDamage(s.player.hp, MissDamage(roll)))
    ensures !IsEscapeLine(line) ==>
              t.buffer == [] && t.target == (if Dead(t.monster.hp) then s.target else PickWord(dict, pick))
    ensures !IsEscapeLine(line) ==> t.exitGame == s.exitGame
    ensures t.level == s.level && t.phase == s.phase
    ensures t.skillReveal == s.skillReveal && t.skillFreeze == s.skillFreeze && t.skillSlash == s.skillSlash
  {
    if IsEscapeLine(line) then s.(buffer := line, exitGame := true)
    else
      var e := Resolve(Lowered(line), s.target.english, s.player, s.monster, s.score, roll, false);
      s.(player := e.player, monster := e.monster, score := e.score, feedback := e.feedback,
         target := if Dead(e.monster.hp) then s.target else PickWord(dict, pick),
         buffer := "")
  }

  /** The end of a battle (lines 503-532): a dead player ends the game as it
      stands; a dead monster brings the next level. */
  function AfterBattle(s: State, dict: seq<Word>, pick: nat): (t: State)
    requires |dict| > 0
    ensures Dead(s.player.hp) || !Dead(s.monster.hp) ==> t == s
    ensures !Dead(s.player.hp) && Dead(s.monster.hp) ==>
              t.level == s.level + 1 && t.score == s.score + 100 &&
              t.player == s.player.(hp := s.player.maxHp) &&
              t.monster == MonsterFor(t.level, TierColour(TierOf(t.level))) && !Dead(t.monster.hp) &&
              t.target == PickWord(dict, pick) && t.buffer == [] && t.feedback == LevelledUp &&
              t.skillReveal == s.skillReveal && t.skillFreeze == s.skillFreeze && t.skillSlash == s.skillSlash &&
              t.phase == s.phase && t.exitGame == s.exitGame
  {
    if Dead(s.player.hp) then s
    else if Dead(s.monster.hp) then
      var level := s.level + 1;
      s.(level := level, score := s.score + 100, player := s.player.(hp := s.player.maxHp),
         feedback := LevelledUp, monster := MonsterFor(level, TierColour(TierOf(level))),
         target := PickWord(dict, pick), buffer := "")
    else s
  }

  /** The hint line (lines 379-384): the masked answer while Reveal is active. */
  function HintText(s: State, now: int): (h: string)
    ensures |h| >= 6 && h[..6] == "Hint: "
    ensures IsActive(s.skillReveal, now) ==>
              |h| == 6 + |s.target.english| &&
              forall i :: 0 <= i < |s.target.english| ==>
                (h[6 + i] == s.target.english[i] || h[6 + i] == '_') &&
                (h[6 + i] == s.target.english[i] <==> IsVowel(Lower(s.target.english[i])) || s.target.english[i] == '_')
    ensures !IsActive(s.skillReveal, now) ==> h == "Hint: (press 1 to reveal vowels)"
  {
    if IsActive(s.skillReveal, now) then "Hint: " + Masked(s.target.english)
    else "Hint: (press 1 to reveal vowels)"
  }

  // ---------------------------------------------------------------------
  // Properties

  lemma StartKeyKeepsInvariant(s: State, dict: seq<Word>, key: Key)
    requires Invariant(s, dict)
    ensures Invariant(AfterStartKey(s, key), dict)
  {
  }

  /** Every key keeps the invariant: in particular the buffer never holds more
      than twenty characters, nor anything but 'a'..'z'. */
  lemma KeyKeepsInvariant(s: State, dict: seq<Word>, key: Key, now: int, roll: nat, pick: nat)
    requires |dict| > 0 && Invariant(s, dict)
    ensures Invariant(AfterKey(s, dict, key, now, roll, pick), dict)
  {
    var t := AfterKey(s, dict, key, now, roll, pick);
    match key
    case Escape =>
    case Enter =>
    case Code(c) =>
      if c == 8 || c == 127 {
      } else if c == '1' as int {
        if IsReady(s.skillReveal, now) { ActivationKeepsCoherent(s.skillReveal, now); }
      } else if c == '2' as int {
        if IsReady(s.skillFreeze, now) { ActivationKeepsCoherent(s.skillFreeze, now); }
      } else if c == '3' as int {
        if IsReady(s.skillSlash, now) { ActivationKeepsCoherent(s.skillSlash, now); }
      } else if 'a' as int <= c <= 'z' as int {
        if !s.exitGame && |s.buffer| < BufferLimit {
          assert t.buffer == s.buffer + [c as char];
        }
      } else if 'A' as int <= c <= 'Z' as int {
        if !s.exitGame && |s.buffer| < BufferLimit {
          assert t.buffer == s.buffer + [Lower(c as char)];
        }
      }
  }

  lemma LineKeepsInvariant(s: State, dict: seq<Word>, line: string, roll: nat, pick: nat)
    requires |dict| > 0 && Invariant(s, dict)
    ensures Invariant(AfterLine(s, dict, line, roll, pick), dict)
  {
  }

  lemma BattleEndKeepsInvariant(s: State, dict: seq<Word>, pick: nat)
    requires |dict| > 0 && Invariant(s, dict)
    ensures Invariant(AfterBattle(s, dict, pick), dict)
  {
  }

  /** Score and level never go down, whatever the input. */
  lemma ProgressNeverReverts(s: State, dict: seq<Word>, key: Key, line: string, now: int, roll: nat, pick: nat)
    requires |dict| > 0
    ensures AfterKey(s, dict, key, now, roll, pick).score >= s.score
    ensures AfterKey(s, dict, key, now, roll, pick).level == s.level
    ensures AfterLine(s, dict, line, roll, pick).score >= s.score
    ensures AfterBattle(s, dict, pick).score >= s.score
    ensures AfterBattle(s, dict, pick).level >= s.level
  {
  }

  /** A skill key pressed while its skill is cooling down changes nothing at
      all, monster hp and score included. */
  lemma CoolingSkillKeyIsIgnored(s: State, dict: seq<Word>, c: int, now: int, roll: nat, pick: nat)
    requires |dict| > 0
    requires (c == '1' as int && !IsReady(s.skillReveal, now)) ||
             (c == '2' as int && !IsReady(s.skillFreeze, now)) ||
             (c == '3' as int && !IsReady(s.skillSlash, now))
    ensures AfterKey(s, dict, Code(c), now, roll, pick) == s
  {
  }

  /** On the start screen only the confirm key starts play (with an empty
      buffer and no message); the cancel key ends the game; nothing else acts. */
  lemma StartScreenKeys(s: State, key: Key)
    ensures var t := AfterStartKey(s, key);
            (t.phase == Play <==> key == Enter || s.phase == Play) &&
            (t.exitGame <==> key == Escape || s.exitGame) &&
            (key == Enter ==> t.buffer == [] && t.feedback == Silent) &&
            (key.Code? ==> t == s)
  {
  }

  /** The editing keys touch the buffer and nothing else: a letter appends its
      lowercase form while fewer than twenty characters are held, backspace
      drops the last character of a non-empty buffer, and confirm always
      empties it. */
  lemma EditingKeys(s: State, dict: seq<Word>, c: int, now: int, roll: nat, pick: nat)
    requires |dict| > 0
    ensures 'a' as int <= c <= 'z' as int || 'A' as int <= c <= 'Z' as int ==>
              var t := AfterKey(s, dict, Code(c), now, roll, pick);
              t == s.(buffer := t.buffer) &&
              t.buffer == (if |s.buffer| < BufferLimit then s.buffer + [Lower(c as char)] else s.buffer) &&
              (|s.buffer| < BufferLimit ==> IsLowerLetter(t.buffer[|t.buffer| - 1]))
    ensures c == 8 || c == 127 ==>
              var t := AfterKey(s, dict, Code(c), now, roll, pick);
              t == s.(buffer := t.buffer) &&
              (s.buffer == [] ==> t.buffer == []) &&
              (s.buffer != [] ==> t.buffer + [s.buffer[|s.buffer| - 1]] == s.buffer)
    ensures AfterKey(s, dict, Enter, now, roll, pick).buffer == []
  {
    if 'a' as int <= c <= 'z' as int {
      assert Lower(c as char) == c as char;
    }
  }

  /** Freeze at a ready moment shields the player for exactly the next 3000 ms
      and cannot be cast again for 10000 ms; nothing else changes but the message. */
  lemma FreezeWindow(s: State, dict: seq<Word>, now: int, roll: nat, pick: nat, u: int)
    requires |dict| > 0 && Invariant(s, dict) && IsReady(s.skillFreeze, now)
    ensures var t := AfterKey(s, dict, Code('2' as int), now, roll, pick);
            t == s.(skillFreeze := t.skillFreeze, feedback := Frozen) &&
            (IsActive(t.skillFreeze, u) <==> u < now + 3000 * NanosPerMs) &&
            (IsReady(t.skillFreeze, u) <==> u >= now + 10000 * NanosPerMs)
  {
    var t := AfterKey(s, dict, Code('2' as int), now, roll, pick);
    assert t.skillFreeze == Activate(s.skillFreeze, now);
  }

  /** Freeze shields only the keyboard path: with the same wrong answer and
      Freeze active, confirming by key leaves the player's hp alone while a
      submitted line still costs hp. */
  lemma FreezeShieldsKeysOnly(s: State, dict: seq<Word>, now: int, roll: nat, pick: nat)
    requires |dict| > 0
    requires IsActive(s.skillFreeze, now) && s.player.hp > 0
    requires s.buffer != s.target.english && !IsEscapeLine(s.buffer) && Lowered(s.buffer) != s.target.english
    ensures AfterKey(s, dict, Enter, now, roll, pick).player == s.player
    ensures AfterLine(s, dict, s.buffer, roll, pick).player.hp < s.player.hp
  {
  }

  /** Slash at a ready moment deals 8..12 damage and restarts a 6000 ms
      cooldown; pressed again 1000 ms later it changes nothing. */
  lemma SlashTwice(s: State, dict: seq<Word>, now: int, roll: nat, roll2: nat, pick: nat)
    requires |dict| > 0 && Invariant(s, dict) && IsReady(s.skillSlash, now)
    ensures var t := AfterKey(s, dict, Code('3' as int), now, roll, pick);
            s.monster.hp - 12 <= t.monster.hp <= s.monster.hp &&
            t.score - s.score == 12 * SlashDamage(roll) &&
            t.skillSlash.nextReady == now + 6000 * NanosPerMs &&
            AfterKey(t, dict, Code('3' as int), now + 1000 * NanosPerMs, roll2, pick) == t
  {
    var t := AfterKey(s, dict, Code('3' as int), now, roll, pick);
    assert !IsReady(t.skillSlash, now + 1000 * NanosPerMs);
  }

  /** Reveal at a ready moment shows the masked answer for exactly the next
      4000 ms (while the target stays the same), then the placeholder again. */
  lemma RevealWindow(s: State, dict: seq<Word>, now: int, roll: nat, pick: nat, u: int)
    requires |dict| > 0 && Invariant(s, dict) && IsReady(s.skillReveal, now)
    ensures var t := AfterKey(s, dict, Code('1' as int), now, roll, pick);
            t.target == s.target &&
            (u < now + 4000 * NanosPerMs ==> HintText(t, u) == "Hint: " + Masked(s.target.english)) &&
            (u >= now + 4000 * NanosPerMs ==> HintText(t, u) == "Hint: (press 1 to reveal vowels)") &&
            (u < now + 8000 * NanosPerMs ==> AfterKey(t, dict, Code('1' as int), u, roll, pick) == t)
  {
    var t := AfterKey(s, dict, Code('1' as int), now, roll, pick);
    assert t.skillReveal == Activate(s.skillReveal, now);
    assert IsActive(t.skillReveal, u) <==> u < now + 4000 * NanosPerMs;
    assert IsReady(t.skillReveal, u) <==> u >= now + 8000 * NanosPerMs;
  }

  /** A loaded answer holding an uppercase letter can never be hit: keys are
      stored lowercase and a submitted line is lowercased before the
      case-sensitive comparison, so every confirm and every line is a miss. */
  lemma UppercaseAnswerNeverHit(s: State, dict: seq<Word>, line: string, now: int, roll: nat, pick: nat, i: int)
    requires |dict| > 0 && Invariant(s, dict) && !s.exitGame
    requires 0 <= i < |s.target.english| && IsUpper(s.target.english[i])
    ensures AfterKey(s, dict, Enter, now, roll, pick).monster == s.monster
    ensures !IsEscapeLine(line) ==> AfterLine(s, dict, line, roll, pick).monster == s.monster
  {
    var answer := s.target.english;
    assert !IsLowerLetter(answer[i]) && !BufferOk(answer);
    var lowered := Lowered(line);
    assert forall k :: 0 <= k < |lowered| ==> !IsUpper(lowered[k]);
    assert !(forall k :: 0 <= k < |answer| ==> !IsUpper(answer[k]));
  }
}
