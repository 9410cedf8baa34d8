# maskfight match engine, modelled in Dafny

This project models the match engine of *maskfight*, a two-player Unity arena game. Players pick up
masks of six kinds. The kinds form a dominance cycle: Red beats Orange, Orange beats Yellow, and so
on round to Purple, which beats Red. An attack hurts the opponent only when the attacker's mask
beats the opponent's mask. A match ends when a player's health reaches zero, and the other player
wins. It also ends as a draw when the match timer runs out.

The model covers these components:

- `GameTypes` (`game_types.dfy`): the phases StartScreen, Countdown, Playing and Ended; the six mask
  kinds; the dominance table and its cycle structure.
- `Timer` (`match_timer.dfy`): the `MatchTimer` class. Its tick coroutine becomes one `Frame(deltaTime)`
  per resumption. Everything the timer shows is captured as a `TimerView` value, and every method is
  proved against a pure function over that value.
- `Masks` (`mask.dfy`): the `Mask` component, which holds optional data and defaults its kind to Red.
- `Player` (`player.dfy`): `PlayerStats`, which holds health and counts deaths, and `PlayerAttack`.
  `PlayerAttack` has a cooldown, the equipped mask, and the ordered chain of checks that `TryAttack`
  runs. A pure `Attempt` value records what one attack attempt sees, and `FirstBlock` reports the
  first check that stops it.
- `Pickup` (`mask_pickup.dfy`): `MaskPickup.TryPickup`. It selects the first mask among the overlap
  hits and equips it.
- `Spawner` (`mask_spawner.dfy`): `MaskSpawner`. It keeps a bounded list of live masks and schedules
  spawns by time. It places each spawn with at most ten candidate draws, and it reacts to phase
  changes.
- `Match` (`game_manager.dfy`): `GameManager`, the four-phase controller. It owns the dominance table,
  the countdown, the start and end of a match, the winner decision, and the return to the start
  screen.
- `Scene` (`scene.dfy`): the engine's wiring, modelled as one frame of each component. Each frame
  delivers its callback in the same step:
  - a fatal hit reaches `NotifyPlayerDead`;
  - the timer's `OnTimeUp` reaches `HandleTimeUp`;
  - a consumed mask's destruction reaches `NotifyMaskDestroyed`;
  - the spawner's `Update` reads the manager's phase.

Inputs from the engine become parameters of the model:

- the current time and the frame's `deltaTime` are `real`;
- every `Random.Range` result is a caller-supplied `draw` or an index pick, reduced modulo the list
  length;
- each candidate spawn point is given as its distance to each present player plus a flag saying
  whether `OverlapPoint` found a blocking collider;
- the attack distance is an input;
- the pickup overlap query becomes a sequence of hits.

Notifications are recorded as sequences: the `OnStateChanged` arguments, the `OnMatchEnd` winners,
the countdown values shown, the timer ticks, and the masks destroyed.

`GameManager.Valid` states the controller's invariant. Outside Playing, the timer is stopped, the
spawner is disabled and no spawned mask is alive. Every registered attack aims at a registered
player or at nobody, and the dominance table is the fixed six-cycle. Every public operation keeps
this invariant.

Behaviour of the code that the model keeps as written:

- `StartMatch` resets health only and keeps the equipped masks
  (`Assets/Scripts/Core/GameManager.cs:150-151`, `Assets/Scripts/Player/PlayerStats.cs:28-31`).
- A defender without a mask is its own outcome, `OpponentNoMask`. It is reached only after the
  reference and range checks (`Assets/Scripts/Player/PlayerAttack.cs:71-82`).
- Health after a reset is `max(1, maxHealth)` (`Assets/Scripts/Player/PlayerStats.cs:30`).

## Model

| member | source | states |
|---|---|---|
| GameTypes.Ordinal | Assets/Scripts/Core/GameManager.cs:51 | the six kinds number 0 to 5 in declaration order |
| GameTypes.FromOrdinal | Assets/Scripts/Core/GameManager.cs:51 | inverse of Ordinal on 0..5 |
| GameTypes.Successor | Assets/Scripts/Core/GameManager.cs:89-96 | the next kind round the cycle: ordinal plus one, modulo 6 |
| GameTypes.MaskRulesAreSuccessor | Assets/Scripts/Core/GameManager.cs:87-105 | the table holds every kind, and a beats d exactly when d is a's successor (both directions) |
| GameTypes.ExactlyOneCountered | Assets/Scripts/Core/GameManager.cs:89-96 | each kind beats exactly one kind, and never itself |
| GameTypes.CounteredByExactlyOne | Assets/Scripts/Core/GameManager.cs:89-96 | no two kinds beat the same kind |
| GameTypes.FollowOrdinal | Assets/Scripts/Core/GameManager.cs:89-96 | n steps through the table add n to the ordinal, modulo 6 |
| GameTypes.CycleClosure | Assets/Scripts/Core/GameManager.cs:89 | six steps through the table return to the start, and no fewer do |
| Match.GameManager.constructor | Assets/Scripts/Core/GameManager.cs:62-85 | Awake fills the table; Start sets the timer to the match duration, stopped; the phase is StartScreen and the invariant holds; the controller's objects are itself, its timer, its spawner if any and the inspector-assigned players with their attacks |
| Match.GameManager.InitMaskRules | Assets/Scripts/Core/GameManager.cs:87-97 | the table becomes exactly the six-cycle Red, Orange, Yellow, Green, Blue, Purple, Red |
| Match.GameManager.IsCounter | Assets/Scripts/Core/GameManager.cs:102-105 | with the filled table, the result is true exactly when the defender's kind is the attacker's successor |
| Match.GameManager.SetState | Assets/Scripts/Core/GameManager.cs:192-196 | the phase becomes the new value and exactly that value is appended to the notifications; the spawner reacts as its HandleStateChanged promises |
| Match.GameManager.StartFromStartScreen | Assets/Scripts/Core/GameManager.cs:109-114 | outside StartScreen nothing changes; from StartScreen the countdown runs and the match starts, with everything DoCountdownAndStart promises about the players and the spawner |
| Match.CountdownFrom | Assets/Scripts/Core/GameManager.cs:124-130 | the countdown shows nothing exactly when the count is 0 or less, and otherwise starts with the count itself |
| Match.CountdownShape | Assets/Scripts/Core/GameManager.cs:124-130 | the countdown shows max(0, n) values: n, n-1, and so on down to 1; a non-positive count shows nothing |
| Match.GameManager.DoCountdownAndStart | Assets/Scripts/Core/GameManager.cs:116-135 | the phase goes to Countdown, the shown values are CountdownFrom(countdownSeconds), and StartMatch runs once those seconds have passed; the notification sequence is Countdown, then Ended if the duration is not positive, then Playing; spawning is on, no mask is live, the destroyed record is kept and the next spawn is due one interval after the start. Relative to the players before the countdown (RoundReady): with a prefab both players exist; players already assigned keep their death count, equipped mask and last attack time; with both assigned, or with no prefab, the players and their attacks' targets are kept; otherwise each created player is a fresh prefab instance at full health and each attack aims at the other player |
| Match.GameManager.RunCountdown | Assets/Scripts/Core/GameManager.cs:124-130 | the loop shows exactly CountdownFrom(countdownSeconds) and waits max(0, countdownSeconds) seconds |
| Match.GameManager.StartMatch | Assets/Scripts/Core/GameManager.cs:137-159 | assigned players are kept and missing ones are created when a prefab is set; both players' health is reset; players already assigned keep their death count, equipped mask and last attack time; with both assigned, or with no prefab, the players and their attacks' targets are kept, otherwise each created player is a fresh prefab instance and each attack aims at the other player; the timer restarts with the match duration; the phase ends as Playing. A non-positive duration makes the timer fire before Playing is set, so Ended is announced first and a draw is recorded |
| Match.GameManager.BeginRound | Assets/Scripts/Core/GameManager.cs:142-157 | the part of StartMatch after the players exist: spawner start, health reset, timer restart, phase Playing; the players' views (everything but health) are unchanged |
| Match.GameManager.RestartTimer | Assets/Scripts/Core/GameManager.cs:152-153 | the timer view becomes AfterStart(AfterSetDuration(...)); only a stopped timer with a non-positive duration fires, and then the match ends as a draw exactly as EndMatch(null) would end it |
| Match.GameManager.EnsurePlayersExist | Assets/Scripts/Core/GameManager.cs:216-285 | with both players assigned, or with no prefab, nothing changes; otherwise each missing player is a fresh instance built from the prefab (FromPrefab), and each player's attack aims at the other; players already assigned keep their death count, equipped mask and last attack time; the timer and the spawner are untouched |
| Match.GameManager.CreateMissingPlayers | Assets/Scripts/Core/GameManager.cs:227-262 | each missing player is a fresh prefab instance, an assigned one is kept, and the two attacks end up distinct |
| Match.GameManager.WirePlayers | Assets/Scripts/Core/GameManager.cs:264-281 | each player's attack aims at the other player and has its opponent transform |
| Match.InstantiatePlayer | Assets/Scripts/Core/GameManager.cs:228-237 | a new player with full health, no mask, the initial attack time, and an attack that aims at nobody yet |
| Match.GameManager.EndMatch | Assets/Scripts/Core/GameManager.cs:161-182 | a no-op when the phase is already Ended; otherwise spawning stops, the phase becomes Ended (which clears the live masks), the timer stops, and the winner is announced once |
| Match.MatchEndsOnce | Assets/Scripts/Core/GameManager.cs:161-182 | however many end requests arrive, a running match ends exactly once, with the first request's winner; an ended match ignores all of them |
| Match.AfterEndMatch | Assets/Scripts/Core/GameManager.cs:161-182 | after one end request the phase is Ended; earlier announcements are kept; exactly one new announcement, carrying the winner, is made exactly when the match had not ended |
| Match.GameManager.HandleTimeUp | Assets/Scripts/Core/GameManager.cs:184-190 | a time-up ends the match as a draw (no winner) |
| Match.WinnerOf | Assets/Scripts/Core/GameManager.cs:207 | with two distinct players the winner is the one who did not die; an object that is neither player hands the win to player1 |
| Match.GameManager.NotifyPlayerDead | Assets/Scripts/Core/GameManager.cs:205-209 | a death ends the match with WinnerOf(dead, player1, player2) as the winner |
| Match.GameManager.ReturnToStartScreen | Assets/Scripts/Core/GameManager.cs:288-306 | from any phase: the timer stops, the phase is StartScreen, spawning is disabled, and every live spawned mask is destroyed |
| Timer.MatchTimer.constructor | Assets/Scripts/Core/MatchTimer.cs:15-19 | a 180-second duration, stopped, with nothing emitted |
| Timer.MatchTimer.SetDuration | Assets/Scripts/Core/MatchTimer.cs:22-26 | the new view is AfterSetDuration of the old one |
| Timer.SetDurationKeepsRunning | Assets/Scripts/Core/MatchTimer.cs:22-26 | the duration and the remaining time both become s, and running is unchanged |
| Timer.MatchTimer.StartTimer | Assets/Scripts/Core/MatchTimer.cs:28-33 | the new view is AfterStart of the old one; the returned flag reports that time-up fired during the call |
| Timer.StartPositive | Assets/Scripts/Core/MatchTimer.cs:28-33 | a no-op while running; from stopped with a positive duration the timer runs from the full duration and emits one tick with that duration |
| Timer.StartNonPositiveCompletes | Assets/Scripts/Core/MatchTimer.cs:49-62 | a duration of zero or less completes at once: remaining is clamped to 0, one tick of 0 is emitted, the timer stops, and time-up fires once |
| Timer.MatchTimer.StopTimer | Assets/Scripts/Core/MatchTimer.cs:35-40 | the new view is AfterStop of the old one |
| Timer.MatchTimer.ResetTimer | Assets/Scripts/Core/MatchTimer.cs:42-47 | the new view is AfterReset of the old one |
| Timer.StopAndReset | Assets/Scripts/Core/MatchTimer.cs:35-47 | stop clears running and keeps remaining and all notifications; reset leaves the timer stopped with the full duration, and emits exactly one tick carrying it |
| Timer.MatchTimer.BeginTick | Assets/Scripts/Core/MatchTimer.cs:49-56 | the coroutine up to its first yield, or to its end when nothing remains |
| Timer.MatchTimer.EndTick | Assets/Scripts/Core/MatchTimer.cs:59-62 | the coroutine's epilogue: remaining 0, a final tick of 0, stopped, time-up fired once |
| Timer.MatchTimer.Frame | Assets/Scripts/Core/MatchTimer.cs:53-62 | one resumption: the new view is AfterFrame of the old one; the flag reports time-up |
| Timer.IdleWhenStopped | Assets/Scripts/Core/MatchTimer.cs:49-63 | a stopped timer ignores any number of frames |
| Timer.AtMostOneTimeUp | Assets/Scripts/Core/MatchTimer.cs:49-62 | from any timer state (including a running timer whose remaining time SetDuration made 0 or less) and over any frames, time-up fires at most once per run. When it fires, the timer was running, is now stopped with remaining 0, and the last tick is 0. Earlier ticks are kept, and every new tick before the last is positive |
| Timer.FiresWhenElapsed | Assets/Scripts/Core/MatchTimer.cs:53-62 | with non-negative frame times, a running timer fires exactly when the elapsed total reaches the remaining time; until then it is still running with remaining minus elapsed |
| Masks.Mask.constructor | Assets/Scripts/Mask/Mask.cs:10-13 | a mask carries the data set on its prefab |
| Masks.Mask.Initialize | Assets/Scripts/Mask/Mask.cs:18-22 | the data becomes the given value, and the kind follows it |
| Masks.Mask.GetMaskType | Assets/Scripts/Mask/Mask.cs:35-38 | the data's kind when data is present, otherwise Red |
| Player.HealthCap | Assets/Scripts/Player/PlayerStats.cs:28-31 | health after a reset is at least 1 and at least maxHealth, and equals one of them |
| Player.HealthAfterHit | Assets/Scripts/Player/PlayerStats.cs:36-39 | a hit of 0 or less leaves health as it is; a positive hit lowers it by the amount or to 0, never below 0; it never raises a non-negative health |
| Player.DiesFrom | Assets/Scripts/Player/PlayerStats.cs:38-45 | Die runs exactly when the hit is positive and covers the remaining health |
| Player.HitBounds | Assets/Scripts/Player/PlayerStats.cs:36-46 | a hit never makes health negative and never raises it; a hit of 0 or less changes nothing and reports no death; a positive hit is fatal exactly when it covers the remaining health, including every further hit on a player already at 0 |
| Player.HitsAccumulate | Assets/Scripts/Player/PlayerStats.cs:36-39 | a series of positive hits removes their total, with a floor of 0 |
| Player.FirstBlock | Assets/Scripts/Player/PlayerAttack.cs:64-95 | the cooldown blocks exactly when now - lastAttackTime < attackCooldown; an attempt that is not blocked has its own mask, an assigned opponent within range, and an opponent mask; out of range means strictly farther than attackRange |
| Player.LastAttackAfter | Assets/Scripts/Player/PlayerAttack.cs:64-65 | lastAttackTime after an attempt is either kept or now, and it is now whenever the cooldown is over |
| Player.PlayerStats.constructor | Assets/Scripts/Player/PlayerStats.cs:20-23 | Awake runs ResetStats: full health, no deaths |
| Player.PlayerStats.ResetStats | Assets/Scripts/Player/PlayerStats.cs:28-31 | health becomes HealthCap(maxHealth) |
| Player.PlayerStats.TakeDamage | Assets/Scripts/Player/PlayerStats.cs:36-46 | health becomes HealthAfterHit; the returned flag is DiesFrom, and Die runs (one more death) exactly then |
| Player.PlayerStats.Die | Assets/Scripts/Player/PlayerStats.cs:48-57 | the death is counted once; the flag TakeDamage returns carries the notification to the controller |
| Player.HitIffAllChecksPass | Assets/Scripts/Player/PlayerAttack.cs:62-95 | an attempt hits exactly when every check passes; with the controller's table, exactly when the cooldown is over, the opponent is assigned and within range (equal to the range counts), and the opponent wears the successor of the attacker's kind |
| Player.CooldownFirst | Assets/Scripts/Player/PlayerAttack.cs:64-65 | inside the cooldown nothing else is looked at and lastAttackTime is kept; past it, lastAttackTime becomes now whatever the outcome |
| Player.SecondAttemptWithinCooldown | Assets/Scripts/Player/PlayerAttack.cs:64-65 | a second attempt less than the cooldown after one that passed the cooldown check is blocked by the cooldown |
| Player.RedBeatsOrangeNotReverse | Assets/Scripts/Player/PlayerAttack.cs:84-94 | Red hits Orange, and Orange is refused against Red |
| Player.FirstAttemptCooldown | Assets/Scripts/Player/PlayerAttack.cs:42 | with the initial -999, the first attempt passes the cooldown exactly when now >= attackCooldown - 999 |
| Player.PlayerAttack.constructor | Assets/Scripts/Player/PlayerAttack.cs:20-42 | the inspector numbers, no opponent, no mask, lastAttackTime -999 |
| Player.PlayerAttack.SetMask | Assets/Scripts/Player/PlayerAttack.cs:101-104 | the equipped mask becomes the given value, including none |
| Player.PlayerAttack.OpponentMask | Assets/Scripts/Player/PlayerAttack.cs:79-80 | no opponent gives no mask; a mask found is the one equipped on the PlayerAttack beside the opponent's PlayerStats |
| Player.PlayerAttack.TryAttack | Assets/Scripts/Player/PlayerAttack.cs:62-96 | the outcome is the first failing check in source order, or a hit. lastAttackTime follows LastAttackAfter. A hit deals exactly attackDamage to the opponent only, and reports whether it was fatal. A blocked attempt leaves the opponent unchanged |
| Pickup.FirstMaskIndex | Assets/Scripts/Mask/MaskPickup.cs:54-63 | the index of the first hit that carries a mask: all hits before it carry none |
| Pickup.FirstMask | Assets/Scripts/Mask/MaskPickup.cs:54-64 | no mask is chosen exactly when no hit carries one; otherwise the chosen mask is among the hits |
| Pickup.MaskPickup.constructor | Assets/Scripts/Mask/MaskPickup.cs:28-31 | the pickup acts on the PlayerAttack of its own player object |
| Pickup.MaskPickup.TryPickup | Assets/Scripts/Mask/MaskPickup.cs:48-76 | the chosen mask is FirstMask(hits); when one is chosen the equipped mask becomes its kind, whatever was equipped before; otherwise nothing changes |
| Spawner.FirstAccepted | Assets/Scripts/Mask/MaskSpawner.cs:131-141 | the first candidate that is far enough from every present player and not blocked; every earlier one is rejected |
| Spawner.IsPointFarFromPlayers | Assets/Scripts/Mask/MaskSpawner.cs:181-194 | with no player present every point is far enough; a present player strictly closer than minDistanceFromPlayers rejects the point (a distance equal to it is accepted) |
| Spawner.PlanSpawn | Assets/Scripts/Mask/MaskSpawner.cs:123-171 | a spawn happens only with a spawn area and below capacity, at the first accepted of at most ten draws. Nothing spawns exactly when there is no area, the list is at capacity, all ten draws are rejected, or the picked prefab slot is empty |
| Spawner.UpdatePlan | Assets/Scripts/Mask/MaskSpawner.cs:80-102 | Update does anything only when spawning is enabled and the phase is Playing; it attempts a spawn only below capacity and once the scheduled time is reached |
| Spawner.UpdateGating | Assets/Scripts/Mask/MaskSpawner.cs:80-102 | Update is idle unless spawning is enabled and the phase is Playing; at capacity it only reschedules; it tries one spawn exactly when enabled, Playing, below capacity and due |
| Spawner.CapacityKept | Assets/Scripts/Mask/MaskSpawner.cs:89-101 | one Update grows the live list by at most one and never past the capacity |
| Spawner.RemoveFirst | Assets/Scripts/Mask/MaskSpawner.cs:211-214 | an absent element leaves the list as it is; a present one shortens it by one |
| Spawner.RemoveFirstDropsOnlyIt | Assets/Scripts/Mask/MaskSpawner.cs:211-214 | on a list without duplicates, removal drops exactly that element, keeps all others, and adds no duplicate |
| Spawner.ReversedSameElements | Assets/Scripts/Mask/MaskSpawner.cs:199-206 | the reverse-order destruction destroys every live mask exactly once |
| Spawner.MaskSpawner.constructor | Assets/Scripts/Mask/MaskSpawner.cs:42-46 | no live masks, spawning disabled, next time 0 |
| Spawner.MaskSpawner.HandleStateChanged | Assets/Scripts/Mask/MaskSpawner.cs:65-78 | Playing enables spawning and keeps the schedule if already enabled; any other phase disables spawning and destroys and forgets every live mask |
| Spawner.MaskSpawner.Update | Assets/Scripts/Mask/MaskSpawner.cs:80-102 | follows UpdatePlan: idle, reschedule only, or one PlanSpawn attempt then reschedule; a new mask is fresh, carries the planned data and is appended |
| Spawner.MaskSpawner.StartSpawning | Assets/Scripts/Mask/MaskSpawner.cs:107-113 | spawning is enabled; when it was already enabled the scheduled time is not drawn again |
| Spawner.MaskSpawner.StopSpawning | Assets/Scripts/Mask/MaskSpawner.cs:118-121 | spawning is disabled; the list is untouched |
| Spawner.MaskSpawner.TrySpawnOne | Assets/Scripts/Mask/MaskSpawner.cs:123-171 | the live list grows by one fresh mask exactly when PlanSpawn gives a placement, with the planned data; the capacity and no-duplicate invariant is kept |
| Spawner.MaskSpawner.ClearAllMasks | Assets/Scripts/Mask/MaskSpawner.cs:199-206 | every live mask is destroyed, last first, and the list is empty |
| Spawner.MaskSpawner.NotifyMaskDestroyed | Assets/Scripts/Mask/MaskSpawner.cs:211-214 | the reported mask is no longer listed, and every other listed mask stays |
| Scene.AttackFrame | Assets/Scripts/Player/PlayerAttack.cs:62-96 | an attack with the controller's table follows FirstBlock; a hit sets the opponent's health to HealthAfterHit and counts a death exactly when DiesFrom holds, a block leaves its health and deaths alone, and no other player changes; a fatal hit on a running match ends it with the survivor as winner; without a fatal hit, or after the end, the phase, records, timer and spawner are unchanged |
| Scene.TimerFrame | Assets/Scripts/Core/MatchTimer.cs:53-62 | one timer frame; when it expires the match ends as a draw, with Ended announced and the spawner stopped and emptied; otherwise the phase, records and spawner are unchanged; the players are not touched |
| Scene.SpawnerFrame | Assets/Scripts/Mask/MaskSpawner.cs:80-102 | each candidate carries a distance to exactly the assigned players; outside Playing nothing spawns and the spawner is untouched; otherwise the next spawn time follows UpdatePlan, a spawn attempt adds exactly the mask PlanSpawn picks, the enabled flag and destroyed record are kept, and the live count follows CountAfterUpdate |
| Scene.PickupFrame | Assets/Scripts/Mask/MaskPickup.cs:64-73 | the first mask hit is equipped and returned for destruction, and the spawner forgets it; only the equipped mask and the spawner's list change |

## Left out

- Input, movement and physics (`InputManager`, `PlayerController`, `Player1`) are not modelled. The
  button presses are the calls to the frame methods, and distances and overlap hits are inputs.
- `MaskPickup` calls `ApplyPickupSpeedBuff`. This is a float-time movement coroutine and is not
  modelled.
- The UI (`UIManager`, `ShowCountdown`, `ShowEndScreen` and the others) is not modelled. The model
  records the values these calls would receive: `countdownShown` and `matchEnds`.
- `Assets/Scripts/GameManager.cs`, a legacy duplicate `GameManager`, is not part of this model.
- Positions, transforms, spawn points and the `isPlayerOne` flags are not modelled, because they only
  feed input handling and placement.
- Float time becomes `real`, and float rounding is not modelled.
- The countdown's one-second waits are not interleaved with other frames. The countdown runs as one
  loop and starts the match `countdownSeconds` seconds after it began. So the Countdown phase is never
  visible between calls, and one reachable behaviour of the code cannot be expressed: a fatal hit
  during the countdown. Health is reset only in `StartMatch`, so a player left at 0 by the previous
  match dies again from any positive hit, and `EndMatch`, whose only guard is `Ended`, then ends a
  match that has not started. `StartMatch` still sets Playing afterwards.
- Match.GameManager.StartMatch: one `draw` is used for every interval drawn during the call. The
  source draws again when a non-positive duration stops and then restarts spawning inside the same
  call.
- `FindObjectOfType<MaskSpawner>` becomes a fixed reference. The model assumes the same spawner is
  subscribed to `OnStateChanged`.
- The scene-wide `FindObjectsOfType<Mask>` destruction in `ReturnToStartScreen` is covered only for
  the spawner's own masks, which the StartScreen phase change already clears. Masks placed by hand
  in the scene are not modelled.
- `Destroy` is treated as immediate. The watcher's report of a mask consumed by a pickup is
  delivered in the same step. The reports of masks destroyed by `ClearAllMasks` arrive after the
  list is already empty, so they change nothing and are not modelled.
- Every prefab is assumed to carry the components the code looks up: a player prefab has
  `PlayerStats` and `PlayerAttack`, and a mask prefab has `Mask`. The error logs for a missing
  component are not modelled.
- `GameManager.Instance` is assumed to exist. Its singleton set-up, `DontDestroyOnLoad` and the
  `OnDeath` event (which has no subscriber in the core) are not modelled.
- The controller is assumed to be set up as the scene documents it: every `opponentStats` assigned in
  the inspector is player1, player2 or nobody. The code does not enforce this. Under this assumption,
  `WinnerOf`'s case of a dead player who is neither player arises only from a direct
  `NotifyPlayerDead` call.
- Timer.MatchTimer.GetRemainingSeconds and Timer.MatchTimer.IsRunning are plain getters with no
  contract of their own. What they return is stated through `View()`.
- Rendering (`ApplyVisuals`), Gizmos and `Debug.Log` are not modelled.
