# Hunt the Zombies — a Dafny model of the game core

"Hunt the Zombies" is a single-file top-down shooter (`main.cpp`). The player
moves, aims with the mouse and fires bullets at enemies that come in from the
edges of a 1600 × 900 field. Timed powerups heal the player or speed them up.
There are two modes. In the classic mode, 30 kills win and zero health loses.
In the time trial, the score after 60 seconds is turned into XP.

This project models the game's logic, not its presentation:

- `entities.dfy` (module `Entities`): the three kinds of entity, each held by
  value with an `active` flag. It covers a bullet's flight and bounds test,
  an enemy's kind, speed range and damage, where a spawn enters the field, and
  a powerup's lifetime.
- `vitals.dfy` (module `Vitals`): the `Player` class. Health is clamped to
  [0, 100]. The speed boost runs for five seconds at 1.5 × the base speed.
- `collections.dfy` (module `Collections`): the `erase(remove_if(…))`
  compaction as the order-keeping filter `Survivors`. `Compact` is the loop
  proved against that filter.
- `combat.dfy` (module `Combat`): the three collision passes of a frame as
  functions of the collections they run over.
  - Enemy contact: damage, then the enemy is consumed.
  - Powerup pickup: heal or boost, then the powerup is consumed.
  - Bullet × enemy: the first live enemy a live bullet overlaps dies with it.
  - Each pass has lemmas about what it does to health and to the live counts.
- `game.dfy` (module `Session`): the screen state machine, the spawn rules
  and the `Game` class. `Game` holds the collections, counters and timers,
  with one method per input event (`HandleEvent`) and one per frame
  (`PlayFrame`). The loop iteration that combines them is `Tick`.

Floats are modelled as mathematical reals. Things the program gets from
outside are parameters. Random draws are a `Draws` record: values in [0, 1)
for the uniform real distributions, a 0..99 roll and a 0/1 coin. The overlap
tests of `checkCollision` are index predicates in a `World` record, and so is
where each enemy's pursuit takes it. Input events arrive already classified.

Some behaviours of the program are easy to miss; the model keeps each one:

- The program compacts bullets right after moving them
  (`main.cpp:610-611`), before the collision passes. It compacts enemies and
  powerups only after the passes (`main.cpp:688-691`). A bullet killed by a
  hit therefore stays in the vector, inactive, until the next frame.
  `Game.Valid` asks every enemy and powerup to be live, but not every bullet.
- The three checks in the event loop (`main.cpp:529-573`) are independent
  `if`s. A left click on a mode button starts the session, and the same
  event is then seen as a shot. So the session starts with one bullet
  (`Session.FiresBullet`).
- A health boost touched at full health is consumed without healing. The
  `else if` tests only for a speed boost (`main.cpp:662-668`).
- A powerup ages even when it is already inactive (`main.cpp:659-660`).
- Enemy contact does not count as a kill (`main.cpp:651-657`).
- `GameOver` overrides a time trial that expires in the same frame
  (`main.cpp:695-722`).

## Model

| member | source | states |
|---|---|---|
| Entities.Fire | main.cpp:217-226 | a new bullet is live, its circle is centred on the origin, its velocity is 600 × the direction, and so its speed is 600 × the direction's length |
| Entities.Advance | main.cpp:228-236 | a live bullet moves by velocity × dt and stays live exactly when the new position is inside [0,1600] × [0,900]; a dead bullet is unchanged; velocity never changes |
| Entities.Spawned | main.cpp:252-270 | a new enemy is live at its position, with damage 15 (first kind) or 30 (second kind), and a speed in [80,120) or [120,180) |
| Entities.EdgePoint | main.cpp:624-633 | the entry point lies on the chosen edge (y = 0, x = 1600, y = 900 or x = 0) and inside the field |
| Entities.Dropped | main.cpp:640-647 | a new powerup is live with lifetime 10, at a point in [100,1500) × [100,800); it is a health boost exactly when the coin is 0 |
| Entities.Age | main.cpp:312-316 | the lifetime drops by dt, live or not; the powerup stays live exactly when it was live and time is left; position and kind are kept |
| Collections.Survivors | main.cpp:688-691 | compaction keeps only live entries, all taken from the input, never more than the input |
| Collections.SurvivorsAppend | main.cpp:688-691 | compaction distributes over concatenation, so survivors keep their relative order |
| Collections.SurvivorsAllAlive | main.cpp:688-691 | compaction drops nothing if and only if every entry is live |
| Collections.SurvivorsKeepLive | main.cpp:688-691 | an entry survives compaction exactly when it is in the collection and live: every live entry is kept and no dead one is |
| Collections.SurvivorsIdempotent | main.cpp:688-691 | compacting an already compacted collection changes nothing |
| Collections.SurvivorsKill | main.cpp:674-676 | deactivating one live entry leaves exactly one survivor fewer |
| Collections.SurvivorsMonotone | main.cpp:651-657 | a pass that only deactivates entries never adds survivors |
| Collections.Compact | main.cpp:610-611 | the remove_if loop returns exactly the survivors, in order |
| Vitals.AfterDamage | main.cpp:165-168 | health after damage is health − damage, or 0 if that would be negative; never above the old health for non-negative damage |
| Vitals.AfterHeal | main.cpp:170-173 | health after healing is health + amount, or the cap if that would exceed it; never below the old health |
| Vitals.DamageAccumulates | main.cpp:165-168 | two clamped hits equal one clamped hit of their sum |
| Vitals.Player.constructor | main.cpp:134-145 | a new player has full health, base speed 300 and no boost, and satisfies the invariant |
| Vitals.Player.Reset | main.cpp:147-153 | a reset gives full health, base speed and no boost, and keeps the invariant |
| Vitals.Player.Update | main.cpp:155-163 | a running boost's timer drops by dt; the boost ends, and the speed returns to base, exactly when the timer reaches zero; nothing else changes |
| Vitals.Player.TakeDamage | main.cpp:165-168 | health becomes AfterDamage of the old health; speed and boost are untouched; the invariant holds for non-negative damage |
| Vitals.Player.Heal | main.cpp:170-173 | health becomes AfterHeal of the old health, capped at maxHealth; the invariant holds for non-negative amounts |
| Vitals.Player.ApplySpeedBoost | main.cpp:175-179 | the boost is on, with speed 1.5 × base and 5 seconds left, whatever came before; health is untouched |
| Combat.Pursued | main.cpp:272-282 | only a live enemy moves; activity, kind and damage are kept |
| Combat.ContactDamage | main.cpp:651-657 | the damage the contact loop deals over its first n enemies: that of every live enemy touching the player, once each (characterised by Combat.ContactHealthIsClampedTotal) |
| Combat.ContactHealth | main.cpp:651-657 | the health after the contact loop's first n enemies, one clamped hit at a time; never negative when it starts non-negative |
| Combat.Contacts | main.cpp:651-657 | the enemies after the contact loop, one entry per enemy (characterised by Combat.ContactsOnlyKill) |
| Combat.Consumed | main.cpp:653-656 | an enemy is live after the contact check exactly when it was live and did not touch the player; nothing else about it changes |
| Combat.ContactsOnlyKill | main.cpp:651-657 | the contact pass keeps every enemy's kind and damage, kills exactly the live touching ones, and never adds to the live count |
| Combat.ContactHealthIsClampedTotal | main.cpp:651-657 | the contact pass leaves the player at the total damage of the consumed enemies subtracted from health, clamped at zero |
| Combat.ContactScenario | main.cpp:651-657 | one touching enemy of the first kind takes a full-health player to 85 and is consumed |
| Combat.Collected | main.cpp:659-669 | a powerup is aged and stays live exactly when it survives aging and does not touch the player, whatever its kind and the player's health |
| Combat.Pickups | main.cpp:659-669 | the powerups after the pickup loop, one entry per powerup, each as Combat.Collected gives it |
| Combat.HealthGrabs | main.cpp:659-669 | the number of health boosts picked up among the first n powerups, at most n |
| Combat.SpeedGrabs | main.cpp:659-669 | the number of speed boosts picked up among the first n powerups, at most n |
| Combat.PickupHealth | main.cpp:659-669 | the health after the pickup loop's first n powerups, healing only below full health; it never drops, and it never exceeds full health when it starts within it |
| Combat.PickupHealthIsCappedTotal | main.cpp:659-669 | the pickup pass heals 20 per health boost picked up, capped at full health |
| Combat.FullHealthPickupScenario | main.cpp:662-668 | a health boost touched at full health is consumed and heals nothing |
| Combat.FirstTarget | main.cpp:673-674 | the target found is a live enemy that the bullet overlaps, and no earlier enemy qualifies; none is found only if no enemy qualifies |
| Combat.HitPass | main.cpp:672-686 | the nested bullet × enemy loop from bullet i on, as a function: the new bullets, the new enemies and the hits in order (characterised by the HitPass lemmas below) |
| Combat.HitPassShape | main.cpp:672-686 | the bullet pass only deactivates: every bullet and enemy is unchanged or is the same entity, now dead |
| Combat.HitPassCounts | main.cpp:672-686 | the pass lowers the live bullets and the live enemies by exactly the number of hits |
| Combat.HitPassHits | main.cpp:672-686 | every hit pairs a live bullet with a live enemy it overlaps, and both are dead afterwards |
| Combat.HitPassHitsDistinct | main.cpp:672-686 | the hits' bullets strictly increase and their enemies are pairwise distinct: no bullet scores twice and no enemy dies twice |
| Combat.HitPassComplete | main.cpp:672-686 | after the pass, no live bullet overlaps a live enemy |
| Session.AfterEvent | main.cpp:529-573 | during play, events never change the screen; on an end screen, only SPACE leaves, and it goes to the menu; in the menu, each mode button starts its mode and nothing else leaves the menu |
| Session.AfterEvents | main.cpp:524-574 | the screen after the poll loop's events in order; events alone never lead to an end screen |
| Session.EventsKeepPlaying | main.cpp:558-567 | no sequence of events ends a session being played |
| Session.FrameEnd | main.cpp:695-722 | a frame ends in GameOver exactly when health is at most 0; in Victory exactly for a live classic player with at least 30 kills; in the results exactly for a live time-trial player whose timer ran out; otherwise the mode continues |
| Session.EnemyDue | main.cpp:613-620 | the spawner fires once its timer reaches 1.5 seconds, and in the classic mode only while live enemies plus kills are below 30 |
| Session.Flown | main.cpp:607-609 | every bullet one frame further: same count, same velocities, and no bullet comes back to life |
| Session.DrawnEnemy | main.cpp:622-637 | a spawned enemy is live, well formed, on the field's border, and of the first kind exactly when the roll is below 60 |
| Session.KillTotalKept | main.cpp:651-691 | after the contact and bullet passes and compaction, live enemies plus kills stay within 30 |
| Session.PassesKeepWellFormed | main.cpp:651-686 | the collision passes keep every enemy's damage equal to its kind's |
| Session.Game.constructor | main.cpp:390-460 | the game starts in the menu with empty collections, zero counters, a full time-trial clock and a valid player |
| Session.Game.Start | main.cpp:531-552 | a mode click resets the player, empties the collections, zeroes the spawn timers and the mode's counters, and keeps the invariant |
| Session.Game.HandleEvent | main.cpp:524-573 | the screen follows AfterEvent; the window closes on a close event or the exit button; a session start empties the collections and resets the player; a click fires a bullet while playing or when it starts a session; nothing else changes |
| Session.Game.AdvanceBullets | main.cpp:607-609 | every bullet is advanced by one frame: the bullets become Flown of the old ones |
| Session.Game.SpawnEnemy | main.cpp:613-638 | when EnemyDue holds, the timer restarts and exactly the drawn enemy is appended; otherwise only the timer grows |
| Session.Game.SpawnPowerup | main.cpp:640-648 | after 7 seconds the timer restarts and exactly the drawn powerup is appended; otherwise only the timer grows |
| Session.Game.ContactEnemies | main.cpp:650-657 | the enemies become Contacts of the old enemies, health becomes ContactHealth, and speed and boost are untouched |
| Session.Game.ContactEnemy | main.cpp:652-656 | enemy k moves and is consumed if live and touching; only then does the player take its damage; nothing else changes |
| Session.Game.CollectPowerups | main.cpp:659-670 | the powerups become Pickups of the old ones, health becomes PickupHealth, and a speed boost is on afresh exactly when one was picked up |
| Session.Game.CollectPowerup | main.cpp:660-669 | powerup k ages and is consumed if grabbed; a grabbed health boost heals 20 only below full health; a grabbed speed boost restarts the boost; otherwise the boost is untouched |
| Session.Game.ResolveHits | main.cpp:672-686 | the nested loops produce exactly the bullets and enemies of HitPass, and the current mode's kill counter grows by its number of hits |
| Session.Game.ResolveBullet | main.cpp:673-685 | a live bullet i and the first live enemy it overlaps (FirstTarget) both die and the mode's counter grows by one; without such an enemy nothing changes |
| Session.Game.Passes | main.cpp:650-686 | the three passes give the bullets and enemies of HitPass over Contacts, the powerups of Pickups, the health of PickupHealth after ContactHealth, the boost by SpeedGrabs, and kills grown by the hits; the classic cap holds for the survivors |
| Session.Game.Collide | main.cpp:650-691 | as Passes, with enemies and powerups then compacted to their Survivors; the invariant is kept |
| Session.Game.EndFrame | main.cpp:695-722 | the time trial's clock runs down by dt; when it expires the XP becomes 10 per kill plus 300; the screen becomes FrameEnd |
| Session.Game.Prepare | main.cpp:594-648 | the boost runs down as in Player.Update; the bullets become the Survivors of Flown bullets; exactly when EnemyDue the spawn timer restarts and DrawnEnemy is appended, else the timer grows; the same for the powerup after 7 seconds; the classic cap holds |
| Session.Game.Settle | main.cpp:650-722 | everything Collide states about the collections, health, boost and kills, then the end of frame: FrameEnd, the clock, and the XP set on a time trial's expiry (even under GameOver) and kept otherwise; the invariant holds |
| Session.Game.PlayFrame | main.cpp:583-723 | a playing frame keeps the invariant, ends on FrameEnd, only raises the current mode's kill counter; the XP becomes 10 per kill plus 300 exactly when a time trial's clock runs out, even if GameOver overrides, and is otherwise kept |
| Session.Game.Tick | main.cpp:520-723 | one loop iteration leaves the screen at AfterEvents of its events, then FrameEnd if a session is being played; it keeps the invariant |

## Left out

- Rendering: textures, fonts, text, the health bar, the background, the
  title and end screens. These are presentation and change no game state.
- Sound and music, and the console warnings for missing assets. These are
  I/O.
- The frame clock and the frame-rate limit. `dt` is a parameter.
- Player movement (WASD, normalisation and clamping to the field) and
  `rotateTowards`. These are geometry over floats and the sprite's bounds.
  Health and speed are modelled; the player's position is not.
- Enemy pursuit (`Enemy::update` direction and step): the new position of
  each live enemy is a parameter.
- `checkCollision`, `getBounds`, `getCenter`, `distance` and `normalize`:
  overlap comes in as index predicates. A bullet's aim arrives as a
  direction with the click.
- Random number generation: the draws are parameters. The model does not
  capture their distributions: a uniform edge, the 60 / 40 split of enemy
  kinds, the 50 / 50 split of powerup kinds.
- Button hover and its highlight (`Button::update`, refreshed in the menu
  after each frame's events). A click carries the button whose hover flag
  is set, and the model does not track when that flag was last refreshed.
- Float rounding: positions, timers and speeds are exact reals.
- Closing the window ends the loop only at the next `isOpen` test. The model
  records this as `windowOpen` and does not model the process exit. Once the
  window is closed the windowing library delivers no more events, so the
  program sees none of that iteration's later events; `Game.Tick` still
  applies them. Nothing observable follows, because the process then exits.
- Session.Game.PlayFrame: states the invariant, the end screen, the
  counters and the XP. The exact new collections, health and boost are
  stated by the two halves it calls, `Prepare` and `Settle`, and are not
  repeated in its own contract.
- Session.Game.Tick: states the invariant and the screen. What the frame
  does to the collections is stated by `PlayFrame` and the methods beneath
  it.
