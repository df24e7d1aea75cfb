# Word Warrior battle engine in Dafny

Word Warrior (`guess.cpp`) is a typing RPG. The hero answers a Chinese prompt
by typing its English word. A correct answer damages the monster. A wrong one
costs the hero hp. Killing the monster brings the next level and a stronger
monster. In keyboard mode, three timed skills help:

- Reveal shows the vowels of the answer.
- Freeze shields the hero from misses.
- Slash deals immediate damage.

A separate plain-text mode plays the same duel one typed line at a time.

This project models the engine with the terminal, the clock and the random
source abstracted away:

- A key or a line is a method argument.
- The clock reading `now` is an integer count of `steady_clock` ticks, taken to be nanoseconds, so that `remainingMs` really truncates.
- Every `rand()` result is a parameter (`roll` for a damage roll, `pick` for a word draw). The model applies the source's `% n` itself.

Modules:

- `Text` (text.dfy): the C locale's `isspace`/`tolower`, the in-place lowercasing of a submitted line, and `vowelHint`.
- `Entities` (entity.dfy): `Entity`/`Monster` as a class whose `TakeDamage` updates `hp` in place.
- `Skills` (skills.dfy): the skill timer: `isReady`, `isActive`, `remainingMs` and the two kinds of activation.
- `Vocabulary` (vocabulary.dfy): the built-in word list, the per-line parsing of `loadDictionaryFromFile`, and the global dictionary as a class whose `Load` loops over the lines of the file.
- `Combat` (combat.dfy): damage rolls, the resolution of one attempt, word drawing and the monster generated for each level.
- `Battle` (battle.dfy): the keyboard mode's rules, as functions of a snapshot of `main`'s locals. It also holds the invariant those rules keep and the game's properties.
- `Arena` (game.dfy): `main`'s locals as the class `Game`. Each of its methods is proved to change the state exactly as the matching `Battle` function says, and to keep the invariant.
- `SimpleMode` (simple_mode.dfy): `runSimpleModeCLI` as functions of a `Duel`, and as the class `SimpleSession` proved against them.

The source behaves as follows, and so does the model, in some places where a reader might expect otherwise:

- `isDead` is `hp <= 0`.
- `takeDamage` clamps at 0 only, never at `maxHp`.
- `remainingMs` truncates. Within the last millisecond of a cooldown it reports 0 while the skill is still not ready.
- Freeze shields only the key-driven confirm. Both line-driven paths always damage the hero.
- The keyboard mode's first monster has 10 hp. The plain-text mode's first monster is the level-1 monster, with 15 hp.
- Answers are compared case-sensitively with `english`, after the input is lowercased. A word loaded with an uppercase letter can therefore never be answered (`Battle.UppercaseAnswerNeverHit`).
- The hp budget of the next monster is not always larger. It drops by 15 right after every boss level (`Combat.BudgetDropsAfterBoss`).
- The declared `STATE_GAMEOVER` phase is never entered. The loops simply end.
- The file loader (`Vocabulary.Lexicon.Load`) parses each line as the code does, blank-tail prompts included. The intended parse (`Vocabulary.ParseLine`, `Vocabulary.Entries`, `Vocabulary.Reloaded`) is kept beside it and proved to load the same answers in the same cases (see "## Findings").
- In the plain-text mode a miss keeps the same question. The keyboard mode draws a new one after every confirm.
- In `main`, the line-driven branch of the battle loop (lines 476-497) can only run when `simpleMode` is set. But `main` returns before the battle loop in exactly that case (lines 279-283), so the branch is unreachable as written. It is modelled anyway (`Battle.AfterLine`, `Arena.Game.SubmitLine`).

## Model

| member | source | states |
|---|---|---|
| `Text.Lower` | guess.cpp:473 | `tolower` in the C locale: an uppercase letter becomes its lowercase partner, anything else is unchanged; the result is never uppercase |
| `Text.Lowercase` | guess.cpp:481 | the in-place lowercasing loop yields `Lowered(s)`: same length, no uppercase left, only uppercase characters changed |
| `Text.Lowered` | guess.cpp:481 | lowercasing keeps the length, leaves no uppercase letter and changes only uppercase letters |
| `Text.Mask` | guess.cpp:252-254 | a character is kept exactly when its lowercase form is a vowel (or it is already '_'), otherwise it becomes '_' |
| `Text.Masked` | guess.cpp:249-257 | the hint has the word's length, and each position shows the word's character exactly when its lowercase form is a vowel (or it is '_'), else '_' |
| `Text.VowelHint` | guess.cpp:249-257 | `vowelHint` returns a string of the word's length keeping each character whose lowercase form is a/e/i/o/u and '_' elsewhere |
| `Text.MaskedIdempotent` | guess.cpp:249-257 | the hint of a hint is the hint itself |
| `Entities.AfterDamage` | guess.cpp:77-83 | hp after damage is never negative, is dead exactly when the old hp was at most the damage, equals `hp - dmg` otherwise, and never exceeds the old hp for non-negative damage |
| `Entities.Dead` | guess.cpp:83 | `isDead`: hp at or below zero |
| `Entities.Entity.IsDead` | guess.cpp:83 | the entity's current hp is at or below zero |
| `Entities.Fresh` | guess.cpp:74 | a new entity starts with `hp == maxHp ==` the given health |
| `Entities.Entity.constructor` | guess.cpp:74 | the constructed entity is the fresh entity of that name, health and colour |
| `Entities.Entity.TakeDamage` | guess.cpp:77-80 | only `hp` changes, to `AfterDamage(old hp, dmg)` |
| `Entities.Entity.Reset` | guess.cpp:528 | the copy-assignment of a newly built monster replaces every field |
| `Entities.Entity.Restore` | guess.cpp:511 | only `hp` changes, back to `maxHp` |
| `Skills.Create` | guess.cpp:46-50 | a new skill is ready and not active at the moment it is made, and is coherent when its duration is within its cooldown |
| `Skills.IsReady` | guess.cpp:52-54 | ready exactly from `nextReady` on |
| `Skills.IsActive` | guess.cpp:56-58 | active exactly when the duration is positive and the clock is before `activeUntil` (never before a first activation) |
| `Skills.TimersAreMonotone` | guess.cpp:52-58 | as time moves on a ready skill stays ready and a closed window stays closed |
| `Skills.RemainingMs` | guess.cpp:60-64 | 0 when ready; otherwise the whole milliseconds left, truncated, so it is 0 exactly when less than a millisecond remains |
| `Skills.Activate` | guess.cpp:449-451 | after activation at `now` the skill is ready exactly from `now + cooldown` and active exactly before `now + duration` (never, for a zero duration) |
| `Skills.Restart` | guess.cpp:466 | Slash's restart makes the skill ready exactly from `now + cooldown` and leaves its activity unchanged |
| `Skills.ActiveMeansCooling` | guess.cpp:52-58 | a coherent skill is never ready while active |
| `Skills.ActivationKeepsCoherent` | guess.cpp:448-468 | activating or restarting a ready coherent skill keeps its window within its cooldown |
| `Skills.SlashNeverActive` | guess.cpp:299 | a skill made like Slash, with duration 0, is never active |
| `Vocabulary.SkipSpaces` | guess.cpp:234 | `>>` skips exactly the whitespace before the token |
| `Vocabulary.TokenEnd` | guess.cpp:234 | `>>` reads exactly the non-whitespace run, stopping at whitespace or the end |
| `Vocabulary.LeadingBlanks` | guess.cpp:238 | `find_first_not_of(" \t")`: the blank prefix and the first non-blank position, or the length for none |
| `Vocabulary.Split` | guess.cpp:232-235 | no token exactly when the line is all whitespace; otherwise a non-empty space-free token preceded only by whitespace, and the rest of the line starting with whitespace or empty |
| `Vocabulary.PromptAsWritten` | guess.cpp:238-240 | the prompt as the code computes it: "?" for an empty rest, the rest unchanged when it is all blanks, else the rest without its leading blanks |
| `Vocabulary.Prompt` | guess.cpp:238-240 | the intended prompt: leading blanks stripped, "?" when nothing else is left; never empty, never starting with a blank |
| `Vocabulary.ParseLine` | guess.cpp:231-241 | a line yields no entry exactly when it is all whitespace, and every entry it yields is well formed |
| `Vocabulary.ParseLineAsWritten` | guess.cpp:231-241 | a line as the code parses it: no entry exactly when it is all whitespace; otherwise a non-empty space-free answer and a non-empty prompt |
| `Vocabulary.AsWrittenDiffersOnBlankTail` | guess.cpp:238-240 | the code's parse and the intended one differ exactly on lines whose rest after the token is non-empty and all blanks |
| `Vocabulary.BlankTailExample` | guess.cpp:238-240 | the line `"apple  "` gets the prompt `"  "` as written, and "?" as intended; a file of that one line loads `("apple", "  ")` as written and `("apple", "?")` as intended |
| `Vocabulary.ParseFormatted` | guess.cpp:231-241 | a well-formed entry written as `english + " " + chinese` parses back to itself |
| `Vocabulary.Entries` | guess.cpp:228-242 | the intended loader: a file yields at most one entry per line, each well formed |
| `Vocabulary.EntriesAppend` | guess.cpp:230-242 | the entries of two consecutive runs of lines are the concatenation of their entries |
| `Vocabulary.MalformedLineSkipped` | guess.cpp:236 | a record followed by an all-whitespace line yields exactly that record |
| `Vocabulary.Reloaded` | guess.cpp:243-245 | with the intended parse, the file's entries replace the list when there are any; an unopenable file or one without entries leaves it, so a non-empty list stays non-empty |
| `Vocabulary.EntriesAsWritten` | guess.cpp:228-242 | the entries the code's loop collects: at most one per line, each with a non-empty space-free answer and a non-empty prompt |
| `Vocabulary.EntriesAsWrittenAppend` | guess.cpp:230-242 | the code's entries of two consecutive runs of lines are the concatenation of their entries |
| `Vocabulary.ParsesAgreeOnAnswers` | guess.cpp:231-241 | both parses give an entry for exactly the same lines, with the same answer |
| `Vocabulary.EntriesAgreeOnAnswers` | guess.cpp:228-242 | both loaders collect the same number of entries with the same answers in the same order |
| `Vocabulary.ReloadedAsWritten` | guess.cpp:243-245 | as the code loads: the file's entries replace the list when there are any; an unopenable file or one without entries leaves it, so a non-empty list stays non-empty |
| `Vocabulary.ReloadsAgreeOnAnswers` | guess.cpp:243-245 | the code's load and the intended one replace the list in exactly the same cases and leave the same answers |
| `Vocabulary.Lexicon.constructor` | guess.cpp:30-36 | the dictionary starts as the fifteen built-in words |
| `Vocabulary.Lexicon.Load` | guess.cpp:224-246 | the loop over the file's lines leaves exactly `ReloadedAsWritten(old words, file)`, so a non-empty dictionary stays non-empty |
| `Combat.HitDamage` | guess.cpp:426 | a correct answer deals 5..9, exactly `5 + roll` for a roll below 5 |
| `Combat.MissDamage` | guess.cpp:432 | a wrong answer costs 2..4, exactly `2 + roll` for a roll below 3 |
| `Combat.SlashDamage` | guess.cpp:462 | Slash deals 8..12, exactly `8 + roll` for a roll below 5 |
| `Combat.PickWord` | guess.cpp:443 | a drawn word is always in the dictionary |
| `Combat.Resolve` | guess.cpp:423-440 | a hit costs the monster `HitDamage` and scores ten per point, hero untouched; a miss leaves monster and score alone and costs the hero `MissDamage` unless shielded; score grows by at most 90; a live target strictly loses hp |
| `Combat.TierOf` | guess.cpp:520-526 | boss exactly on multiples of 3, goblin exactly on other even levels |
| `Combat.TierName` | guess.cpp:520-526 | the names "Dragon Boss", "Goblin" and "Slime" of the three tiers |
| `Combat.TierColour` | guess.cpp:520-526 | the keyboard mode's colours: light red, brown and light green |
| `Combat.Budget` | guess.cpp:515-521 | `10 + 5 * level`, plus 20 on a boss level; at least 15 from level 1 |
| `Combat.MonsterFor` | guess.cpp:110-117 | the level's monster is a fresh entity with the tier's name and the level's budget, alive from level 1 |
| `Combat.BudgetGrowsOffBoss` | guess.cpp:515-528 | between two non-boss levels the budget grows by exactly 5 |
| `Combat.BudgetDropsAfterBoss` | guess.cpp:515-528 | right after a boss level the budget drops by exactly 15 |
| `Battle.Opening` | guess.cpp:291-308 | the game opens on the start screen at level 1 and score 0: a 50 hp hero, a live 10 hp monster, an empty buffer, all skills ready, the invariant holding |
| `Battle.AfterStartKey` | guess.cpp:339-342 | a start-screen key never touches hp, score, level, target or skills |
| `Battle.Erase` | guess.cpp:446-447 | backspace changes only the buffer: an empty buffer stays empty, otherwise exactly its last character goes |
| `Battle.Type` | guess.cpp:470-474 | a letter changes only the buffer: below 20 characters it is appended, at 20 nothing changes; a buffer of lowercase letters stays one |
| `Battle.CastReveal` | guess.cpp:448-453 | when cooling, nothing changes; when ready, only Reveal and the message change, ready again exactly from `now + cooldown`, active exactly before `now + duration` |
| `Battle.CastFreeze` | guess.cpp:454-459 | when cooling, nothing changes; when ready, only Freeze and the message change, ready again exactly from `now + cooldown`, active exactly before `now + duration` |
| `Battle.CastSlash` | guess.cpp:460-469 | when cooling, nothing changes; when ready, the monster takes `SlashDamage`, score grows by twelve per point, and Slash is ready again exactly from `now + cooldown` with its activity unchanged |
| `Battle.AfterKey` | guess.cpp:420-474 | a key never changes level or phase nor lowers the score; only Escape sets the exit flag; only confirm can hurt the hero or change the question; only confirm or a ready Slash can hurt the monster |
| `Battle.HintText` | guess.cpp:379-384 | while Reveal is active the hint is "Hint: " and one character per answer character, showing exactly its vowels and '_'; otherwise the fixed placeholder |
| `Battle.Confirm` | guess.cpp:423-445 | confirm resolves the buffer (Freeze shields a miss), clears the buffer, draws a new word unless the monster died, and leaves level, phase and skills alone |
| `Battle.AfterLine` | guess.cpp:479-496 | "esc"/"ESC" ends the game with the line kept; any other line is lowercased and resolved with no shield, then the buffer is cleared |
| `Battle.AfterBattle` | guess.cpp:503-532 | a dead hero or a live monster changes nothing; a dead monster gives level + 1, score + 100, a healed hero, the next level's monster alive, a new word and an empty buffer |
| `Battle.StartKeyKeepsInvariant` | guess.cpp:339-342 | a start-screen key keeps the invariant |
| `Battle.KeyKeepsInvariant` | guess.cpp:420-474 | every battle key keeps the invariant: hp in range, buffer of at most 20 lowercase letters, target in the dictionary, skills coherent |
| `Battle.LineKeepsInvariant` | guess.cpp:479-496 | every submitted line keeps the invariant |
| `Battle.BattleEndKeepsInvariant` | guess.cpp:503-532 | the level-up keeps the invariant |
| `Battle.ProgressNeverReverts` | guess.cpp:420-532 | no key, line or level-up lowers the score or the level |
| `Battle.CoolingSkillKeyIsIgnored` | guess.cpp:448-469 | a skill key pressed while its skill cools down changes nothing at all, including monster hp and score |
| `Battle.StartScreenKeys` | guess.cpp:339-342 | on the start screen only confirm starts play (buffer and message cleared) and only cancel ends the game; other keys do nothing |
| `Battle.EditingKeys` | guess.cpp:445-474 | letters append their lowercase form only below 20 characters, backspace drops the last character only of a non-empty buffer, confirm empties it, and nothing else changes |
| `Battle.FreezeWindow` | guess.cpp:454-458 | Freeze at a ready moment shields for exactly the next 3000 ms and is ready again exactly 10000 ms later |
| `Battle.FreezeShieldsKeysOnly` | guess.cpp:431-493 | with Freeze active, a wrong confirm leaves the hero's hp alone while the same wrong line costs hp |
| `Battle.SlashTwice` | guess.cpp:460-469 | a ready Slash deals 8..12, scores twelve per point and cools for 6000 ms; a second press 1000 ms later changes nothing |
| `Battle.RevealWindow` | guess.cpp:379-384 | after Reveal the hint shows the masked answer for exactly 4000 ms, then the placeholder; pressing it again within 8000 ms changes nothing |
| `Battle.UppercaseAnswerNeverHit` | guess.cpp:470-483 | an answer holding an uppercase letter is never hit by a confirm or a line |
| `Arena.Game.constructor` | guess.cpp:291-308 | the new game is `Battle.Opening` and valid |
| `Arena.Game.PressStartKey` | guess.cpp:339-342 | the state moves as `AfterStartKey` says and stays valid |
| `Arena.Game.Confirm` | guess.cpp:423-445 | the state moves as `Battle.Confirm` says |
| `Arena.Game.UseSlash` | guess.cpp:460-469 | the state moves as `CastSlash` says |
| `Arena.Game.PressKey` | guess.cpp:420-474 | the state moves as `AfterKey` says and stays valid |
| `Arena.Game.SubmitLine` | guess.cpp:479-496 | the state moves as `AfterLine` says and stays valid |
| `Arena.Game.EndOfBattle` | guess.cpp:503-532 | the state moves as `AfterBattle` says and stays valid |
| `SimpleMode.Begin` | guess.cpp:106-120 | the duel opens at level 1 and score 0 with a 50 hp hero and a 15 hp Slime |
| `SimpleMode.Round` | guess.cpp:133-149 | a hit that does not kill costs the monster `HitDamage`, scores ten per point and draws a new question; a killing hit brings level + 1, score + 100 on top, a healed hero, the next monster and a new question; a miss only costs the hero `MissDamage` and keeps the question; soundness is kept |
| `SimpleMode.Play` | guess.cpp:126-150 | the loop over the typed lines keeps soundness, never lowers score or level, and does nothing once the hero is dead |
| `SimpleMode.ClearingLevelOne` | guess.cpp:110-149 | three correct answers with minimum rolls clear level 1: level 2, score 250, a full-health hero and a 20 hp Goblin |
| `SimpleMode.SimpleSession.constructor` | guess.cpp:106-120 | the new session is `Begin` and sound |
| `SimpleMode.SimpleSession.SubmitLine` | guess.cpp:131-149 | "esc"/"ESC" quits and changes nothing; any other line moves the state as `Round` says |
| `SimpleMode.SimpleSession.Run` | guess.cpp:126-150 | the loop over the lines leaves the state `Play` computes |

## Left out

- Rendering: `Monster::draw`, `drawHPBar`, `clearArea`, `printLineAt`, `fillRow`, `fillScreen`, `screenWidth`/`screenHeight`, colours and the cursor. These are terminal output. The feedback message is kept as a tag (`Combat.Feedback`), not as text.
- The hp bar fill and the cooldown display strings. Both use floating point.
- The input calls (`kbhit`, `getkey`, `getline`, `cin.get`), `msleep` pacing, the redraw caching of the question and hint lines, and the outer frame loop of `main`. A key or a line is a method argument instead. The battle loop's own stopping conditions are not modelled as a loop in keyboard mode.
- `steady_clock::now()`, `rand()` and `srand`. They become parameters. The clock's tick is taken to be one nanosecond.
- Opening and reading `words.txt`. The file is a sequence of lines, or `None` when it cannot be opened.
- `main`'s argument and environment mode detection, and the game-over screen.
- The rlutil key codes. Escape and Enter are abstract keys; every other key is its integer code.
- Integer overflow of `int` hp, score and the time arithmetic. Integers are unbounded here.
- `SimpleMode.Play`: covers the lines read so far. At the end of input the loop keeps running on a stale `input`: empty if the input ended with a newline, else the last line lowercased. That tail is not modelled.
- Characters are Unicode code points rather than UTF-8 bytes. Answers and typed lines are taken to be ASCII: `vowelHint` emits one character per byte, so the hint of a non-ASCII answer is longer in the source, and `tolower` on a negative `char` is undefined there. Prompts are only displayed, never inspected.

## Findings

| source | as written | input that shows it | evidently intended | confidence | as-written member | corrected member |
|---|---|---|---|---|---|---|
| guess.cpp:238-240 | when the text after the answer is non-empty and all spaces or tabs, `find_first_not_of` returns `npos` and the text is kept unstripped, so the `"?"` fallback never fires for it | the `words.txt` line `"apple  "` gives the prompt `"  "` | leading blanks stripped, and `"?"` whenever nothing else remains | medium, not executed | `Vocabulary.BlankTailExample` | `Vocabulary.Entries` |
