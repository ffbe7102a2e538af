# Wave spawner, enemy health and pause menu — a Dafny model

This project models the core of a wave-based shooter written for Unity in C#.
It covers three parts.

- **The enemy spawner** (`EnemySpawner`). It keeps four counters: the wave number, the live registered enemies, the size of the next wave and the total kills. Its controller loop waits for a settle delay and announces and starts the first wave. Then, while the wave number is below `maxWaves`, it waits for the alive count to reach zero, waits out the intermission, and announces and starts the next wave. A wave start advances the wave number and makes one spawn attempt per enemy. An enemy counts as alive only if it was created and has a health component, and the spawner subscribes its death handler to that enemy. The start then rounds the next wave's size up to `ceil(size × multiplier)`. The death handler takes one off the alive count and adds one kill. The counters are shown with the .NET `D2` format.
- **Enemy health** (`EnemyHealth`). Health starts at `maxHealth`. Damage is ignored once the enemy is dead. Otherwise it lowers health, and at zero or below the enemy dies. The write-once dead flag guards the death path, which raises the death notification.
- **The pause menu** (`PauseMenu`). The static paused flag is tied to the engine's time scale. Escape toggles between pause and resume. Restart, main menu and teardown force the unpaused, running state.

The model is functional. Each component is an immutable record with one pure transition per source method. The spawner and the enemies are joined into one `Waves.World`. In it, a timed wait is the abstract `Elapse` event. A wave start carries the outcome of each spawn attempt (`NotCreated`, `CreatedWithoutHealth`, `CreatedWithHealth`). Damage arrives as `Damage(target, amount)` events. Health and time scale are exact reals. The difficulty multiplier is an exact ratio `num/den`, so escalation is an integer ceiling division.

The central proved facts:

- `Waves.Valid` is the world invariant, and every event keeps it. Under it, the alive counter equals the number of registered enemies not yet dead, and the kill counter equals the number that died. So the alive count is never negative, and the wait for a cleared wave ends exactly when every registered enemy is dead. This holds because the death notification is raised at most once per enemy (`EnemyHealth.DeathRaisedAtMostOnce`).
- A wave after the first starts only once every enemy registered so far is dead. At most `max(1, maxWaves)` waves start. The loop exits only after exactly that many. No wave starts after the loop exits.
- `Waves.PlayEncounter` runs the controller loop against a player who clears every wave. It returns a trace that is an actual run of the model, and that trace starts exactly `max(1, maxWaves)` waves.

Where the written design and the code differ, the model follows the code:

- The death handler decrements the alive count with no floor at zero. The model proves the count never goes negative anyway.
- With no enemy prefab assigned, a wave start logs an error and returns. The wave number is already advanced, nothing is spawned and the size is not escalated. The loop then continues through every remaining wave without any combat, rather than stopping with a configuration error.
- The wave number is advanced by the wave start, and the cap is checked after each start. It is not advanced in the intermission.

## Model

| member | source | states |
|---|---|---|
| `Labels.FormatD2` | Assets/Models/Enemies/Scripts/Enemies.cs:297 | the `D2` rendering has at least two characters; for 0–9 it is a zero followed by the digit; from 10 up it is the plain decimal with no padding; a negative value starts with '-' |
| `Labels.FormatD2ReadsBack` | Assets/Models/Enemies/Scripts/Enemies.cs:293-299 | reading the padded label back gives the counter's value, for every integer |
| `Labels.FormatD2Injective` | Assets/Models/Enemies/Scripts/Enemies.cs:293-299 | two different counter values never show the same label |
| `Labels.LabelsShowTheirNumber` | Assets/Models/Enemies/Scripts/Enemies.cs:141-150 | the warning text is the wave text wrapped in '¡' and '!'; the wave number can be read back from the wave, warning and kill labels |
| `EnemyHealth.Spawned` | Assets/Models/Enemies/Scripts/EnemyHealth.cs:19-24 | an enemy starts at full health and not dead |
| `EnemyHealth.Die` | Assets/Models/Enemies/Scripts/EnemyHealth.cs:36-39 | afterwards the enemy is dead; the notification is raised iff it was alive before; health is untouched |
| `EnemyHealth.TakeDamage` | Assets/Models/Enemies/Scripts/EnemyHealth.cs:26-34 | a dead enemy is left unchanged and raises nothing; a live one loses exactly `amount`; it ends dead iff it was dead or the new health is at most zero; the notification is raised iff a live enemy died in this call |
| `EnemyHealth.DeadEnemyIgnoresDamage` | Assets/Models/Enemies/Scripts/EnemyHealth.cs:28 | any sequence of damage calls on a dead enemy changes nothing and raises no notification |
| `EnemyHealth.DeathRaisedAtMostOnce` | Assets/Models/Enemies/Scripts/EnemyHealth.cs:26-51 | over any damage sequence the death notification is raised at most once, the dead flag is never cleared, and the enemy ends dead iff it started dead or raised the notification |
| `EnemyHealth.DeathRaisedIffLethal` | Assets/Models/Enemies/Scripts/EnemyHealth.cs:26-33 | a live enemy raises its notification iff its health minus the running total of damage ever reaches zero or below; otherwise it survives with health reduced by the total |
| `Spawner.Start` | Assets/Models/Enemies/Scripts/Enemies.cs:39-47 | the spawner starts at wave 0 with no enemies alive and no kills, and its next wave has `enemiesPerWave` enemies |
| `Spawner.Escalate` | Assets/Models/Enemies/Scripts/Enemies.cs:126 | the next size is at least size × multiplier and less than that plus one, so it is the ceiling of the product |
| `Spawner.EscalateIsLeastUpperBound` | Assets/Models/Enemies/Scripts/Enemies.cs:126 | no integer at or above the exact product is smaller than the escalated size |
| `Spawner.EscalateMonotonic` | Assets/Models/Enemies/Scripts/Enemies.cs:126 | with a non-negative multiplier, a larger wave never escalates to a smaller one |
| `Spawner.EscalateNeverShrinks` | Assets/Models/Enemies/Scripts/Enemies.cs:126 | with a multiplier of at least one, a non-negative wave size never decreases |
| `Spawner.EscalateGrows` | Assets/Models/Enemies/Scripts/Enemies.cs:126 | with a multiplier above one, a non-empty wave strictly grows |
| `Spawner.DefaultEscalationFromThree` | Assets/Models/Enemies/Scripts/Enemies.cs:9-15 | the default three enemies and multiplier 1.2 escalate to 4 and then to 5 |
| `Spawner.RegisteredCountsHealthyEnemies` | Assets/Models/Enemies/Scripts/Enemies.cs:99-124 | the net alive increase of a burst is the number of attempts that produced an enemy with health; it lies between 0 and the number of attempts and reaches the top iff every attempt succeeded |
| `Spawner.SpawnBurst` | Assets/Models/Enemies/Scripts/Enemies.cs:99-124 | the count-up and count-back-down spawn loop adds exactly the enemies with health to the alive count, between zero and one per attempt |
| `Spawner.StartWave` | Assets/Models/Enemies/Scripts/Enemies.cs:88-127 | the wave number always advances by one and kills are untouched; without a prefab the alive count and next size are unchanged; otherwise the alive count grows by the enemies created with health, and the next size is the ceiling of size × multiplier |
| `Spawner.OnEnemyDeath` | Assets/Models/Enemies/Scripts/Enemies.cs:129-135 | one kill more, and alive plus kills is conserved; wave number and next size are untouched |
| `Waves.BeginIsValid` | Assets/Models/Enemies/Scripts/Enemies.cs:39-47 | the encounter starts with counters (0, 0, enemiesPerWave, 0) and satisfies the world invariant |
| `Waves.StepKeepsValid` | Assets/Models/Enemies/Scripts/Enemies.cs:70-135 | every event keeps the world invariant (alive = live registered enemies, kills = dead ones, size = escalation per started wave, wave number in step with the phase, nobody alive outside combat); a wave starts only when announced, below the cap and with every registered enemy dead, advancing the wave number by one; kills never decrease |
| `Waves.RunKeepsValid` | Assets/Models/Enemies/Scripts/Enemies.cs:70-135 | over any run the invariant holds, the wave number grows by the number of wave starts, and kills never decrease |
| `Waves.EncounterBounds` | Assets/Models/Enemies/Scripts/Enemies.cs:70-86 | from the start of an encounter, waves started = wave number ≤ max(1, maxWaves); 0 ≤ alive = registered − kills; once the loop has exited exactly max(1, maxWaves) waves have started |
| `Waves.ClearedIffAllDead` | Assets/Models/Enemies/Scripts/Enemies.cs:79 | the alive count is never negative, and it is zero (so the clear-wait ends) iff every registered enemy is dead |
| `Waves.CompleteIsFinal` | Assets/Models/Enemies/Scripts/Enemies.cs:77-86 | after the loop exits, only damage can still happen; no wave starts and the wave number stays put |
| `Waves.AnnouncedWaveStarts` | Assets/Models/Enemies/Scripts/Enemies.cs:83-91 | the wave number a warning announces (current + 1) is the one the wave start assigns, shown with the same rendering |
| `Waves.SizesNeverShrink` | Assets/Models/Enemies/Scripts/Enemies.cs:126 | with a multiplier of at least one, the size of each wave is at least the configured size and at most the size of the next wave |
| `Waves.DefaultWaveSizes` | Assets/Models/Enemies/Scripts/Enemies.cs:9-16 | with the default settings the first three waves have 3, 4 and 5 enemies |
| `Waves.KillAll` | Assets/Models/Enemies/Scripts/Enemies.cs:79 | when every registered enemy has been killed the alive count is zero, and kills have grown by exactly the enemies that were alive |
| `Waves.PlayEncounter` | Assets/Models/Enemies/Scripts/Enemies.cs:70-86 | against a player who clears every wave, the controller loop is an actual run that exits after starting exactly max(1, maxWaves) waves |
| `PauseMenu.Awake` | Assets/Game/Scripts/PauseMenu.cs:26-56 | start-up clears the paused flag and leaves the time scale as it was |
| `PauseMenu.Pause` | Assets/Game/Scripts/PauseMenu.cs:73-87 | from any state: paused, with time stopped |
| `PauseMenu.Resume` | Assets/Game/Scripts/PauseMenu.cs:89-103 | from any state: unpaused, with time at normal speed |
| `PauseMenu.RestartLevel` | Assets/Game/Scripts/PauseMenu.cs:105-111 | from any state: unpaused, with time at normal speed |
| `PauseMenu.LoadMainMenu` | Assets/Game/Scripts/PauseMenu.cs:113-119 | from any state: unpaused, with time at normal speed |
| `PauseMenu.OnDestroy` | Assets/Game/Scripts/PauseMenu.cs:129-133 | from any state: unpaused, with time at normal speed |
| `PauseMenu.Update` | Assets/Game/Scripts/PauseMenu.cs:58-71 | without Escape nothing changes; with Escape the flag flips and the clock matches it |
| `PauseMenu.EscapeTwiceRestores` | Assets/Game/Scripts/PauseMenu.cs:58-103 | two Escape presses restore the flag, and the whole state when flag and clock agreed |
| `PauseMenu.ApplyKeepsSettled` | Assets/Game/Scripts/PauseMenu.cs:58-133 | every input keeps "paused and stopped, or unpaused and running" |
| `PauseMenu.SessionKeepsSettled` | Assets/Game/Scripts/PauseMenu.cs:55-133 | starting from start-up with the clock running, after any input sequence the state is paused iff the time scale is zero, and otherwise it is 1 |
| `PauseMenu.AwakeKeepsStaleClock` | Assets/Game/Scripts/PauseMenu.cs:26-56 | the running-clock precondition is needed: start-up on a stopped clock gives unpaused-but-frozen, and Escape then pauses |

## Left out

- Presentation coroutines (`ShowWarning` fade and scale, `FlashScreen`, `AnimateWaveText`, `AnimateKillsText`, `StopAudioAfterDuration`) are float interpolations over frame time plus rendering and audio calls. Only the label texts they set are modelled. Each warning is the `Announcing` phase ended by the wave start.
- Wait durations (the one-second settle, `timeBetweenWaves`, `warningDuration`) become the abstract `Elapse` event. No time is modelled.
- Spawn placement (random offset in a sphere, fixed height) is random and float based. Only the outcome of each attempt is an input.
- Death effects (effect instantiation, clip playback, delayed destruction) are engine I/O. A destroyed enemy stays in the model's list as a dead enemy, and damage to it is a no-op, as it is in the source.
- The engine side effects of the pause menu (menu visibility, cursor lock, sounds, scene loading, button listener wiring) are left out. Only the flag and the time scale are modelled. The shared static flag is modelled for a single menu.
- The loading screen, weapon handler, audio manager, main menu, button hover sound, projectile and enemy follower are not part of this model. They are input, camera, physics, steering and audio glue. The projectile only forwards its damage value to `TakeDamage`, which is the `Damage` event.
- Subscriptions to the death notification are never removed on teardown, and the model does not model teardown at all. Only the spawner subscribes, so the model raises each notification into the spawner alone.
- `EnemyHealth.Spawned`: models health after the enemy's start-up has run. Damage that lands between instantiation and start-up would act on health zero and is not modelled.
- `Spawner.Escalate`: the multiplier is an exact ratio, so this contract is weaker than the source's float computation. The value 1.2 has no exact binary form, so the single-precision product is rounded. When the exact product is an integer, `Mathf.CeilToInt` can then differ from the exact ceiling: 5 × 1.2 gives 6 or 7 depending on the precision used. The 32-bit overflow of very large sizes is not modelled either.
- `Spawner.StartWave`: the counters are unbounded integers. The source's 32-bit wrap-around after about two billion kills or enemies is not modelled.
- `Waves.PlayEncounter`: the player is assumed to clear every wave. A player who never clears a wave leaves the source's loop waiting forever, and the model's run then simply has no further controller step.
