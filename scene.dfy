/** The engine's side of the wiring: one frame of each component, with the callback it
    raises delivered to its subscriber in the same frame (PlayerStats.Die to
    GameManager.NotifyPlayerDead, MatchTimer.OnTimeUp to GameManager.HandleTimeUp, the
    mask watcher's OnDestroy to MaskSpawner.NotifyMaskDestroyed, and the spawner reading
    GameManager.Instance.State). */
module Scene {
  import opened Wrappers
  import opened GameTypes
  import opened Timer
  import opened Masks
  import opened Player
  import opened Pickup
  import opened Spawner
  import opened Match

  /** A registered player's attack presses the button: the attempt uses the manager's
      dominance table, a hit damages the opponent, and a killing hit ends the match in the
      attacker's favour. Nothing else in the scene changes. */
  method AttackFrame(gm: GameManager, attacker: PlayerAttack, now: real, distance: real) returns (outcome: AttackOutcome)
    requires gm.Valid()
    requires attacker in gm.AttackObjects()
    modifies attacker`lastAttackTime, gm.Players(), gm`state, gm`stateChanges, gm`matchEnds, gm.timer, gm.spawner
    ensures gm.Valid()
    ensures var a := old(attacker.AttemptAt(now, distance, Some(MaskRules)));
      && attacker.lastAttackTime == LastAttackAfter(a)
      && (FirstBlock(a).Some? ==> outcome == Blocked(FirstBlock(a).value))
      && (FirstBlock(a).None? ==> outcome.Hit?)
    ensures var o := attacker.opponentStats; o != null ==>
      if outcome.Hit? then
        && o.currentHealth == HealthAfterHit(old(o.currentHealth), attacker.attackDamage)
        && outcome.died == DiesFrom(old(o.currentHealth), attacker.attackDamage)
        && o.deaths == old(o.deaths) + (if outcome.died then 1 else 0)
      else o.currentHealth == old(o.currentHealth) && o.deaths == old(o.deaths)
    ensures forall p | p in gm.Players() && p != attacker.opponentStats :: unchanged(p)
    ensures outcome == Hit(true) ==> gm.EndMatchEffect(WinnerOf(attacker.opponentStats, gm.player1, gm.player2))
    ensures outcome == Hit(true) && old(gm.state) != Ended ==>
      && gm.state == Ended
      && gm.matchEnds == old(gm.matchEnds) + [WinnerOf(attacker.opponentStats, gm.player1, gm.player2)]
    ensures outcome == Hit(true) && attacker.opponentStats != null && gm.player1 != gm.player2 ==>
      WinnerOf(attacker.opponentStats, gm.player1, gm.player2) != attacker.opponentStats
    ensures outcome != Hit(true) || old(gm.state) == Ended ==>
      && gm.state == old(gm.state) && gm.matchEnds == old(gm.matchEnds) && gm.stateChanges == old(gm.stateChanges)
      && unchanged(gm.timer) && (gm.spawner != null ==> unchanged(gm.spawner))
  {
    outcome := attacker.TryAttack(now, distance, Some(gm.maskCounter));
    if outcome == Hit(true) {
      gm.NotifyPlayerDead(attacker.opponentStats);
    }
  }

  /** One tick of the timer coroutine; when it runs out, the match ends as a draw. The
      players are not touched. */
  method TimerFrame(gm: GameManager, deltaTime: real) returns (timeUp: bool)
    requires gm.Valid()
    modifies gm`state, gm`stateChanges, gm`matchEnds, gm.timer, gm.spawner
    ensures gm.Valid()
    ensures gm.timer.View() == AfterFrame(old(gm.timer.View()), deltaTime)
    ensures timeUp <==> old(gm.timer.running) && old(gm.timer.remaining) - deltaTime <= 0.0
    ensures timeUp ==>
      && gm.state == Ended && gm.matchEnds == old(gm.matchEnds) + [null]
      && gm.stateChanges == old(gm.stateChanges) + [Ended]
      && (gm.spawner != null ==>
            && !gm.spawner.spawningEnabled && gm.spawner.spawned == []
            && gm.spawner.nextSpawnTime == old(gm.spawner.nextSpawnTime)
            && gm.spawner.destroyed == old(gm.spawner.destroyed) + Reversed(old(gm.spawner.spawned)))
    ensures !timeUp ==>
      && gm.state == old(gm.state) && gm.matchEnds == old(gm.matchEnds) && gm.stateChanges == old(gm.stateChanges)
      && (gm.spawner != null ==> unchanged(gm.spawner))
  {
    timeUp := gm.timer.Frame(deltaTime);
    if timeUp {
      gm.HandleTimeUp();
    }
  }

  /** One Update of the scene's spawner, gated on the manager's phase. Each candidate carries
      a distance to exactly the players the manager has assigned. */
  method SpawnerFrame(gm: GameManager, now: real, draw: real, candidates: seq<Candidate>,
                      dataPick: nat, prefabPick: nat) returns (made: Mask?)
    requires gm.Valid() && |candidates| >= MaxAttempts
    requires forall i :: 0 <= i < |candidates| ==>
      (candidates[i].toPlayer1.Some? <==> gm.player1 != null) && (candidates[i].toPlayer2.Some? <==> gm.player2 != null)
    modifies gm.spawner
    ensures gm.Valid()
    ensures gm.spawner == null || gm.state != Playing ==> made == null
    ensures gm.spawner != null && gm.state != Playing ==>
      && gm.spawner.spawned == old(gm.spawner.spawned) && gm.spawner.nextSpawnTime == old(gm.spawner.nextSpawnTime)
      && gm.spawner.spawningEnabled == old(gm.spawner.spawningEnabled) && gm.spawner.destroyed == old(gm.spawner.destroyed)
    ensures gm.spawner != null ==>
      && gm.spawner.spawningEnabled == old(gm.spawner.spawningEnabled)
      && gm.spawner.destroyed == old(gm.spawner.destroyed)
    ensures gm.spawner != null ==>
      var plan := UpdatePlan(old(gm.spawner.spawningEnabled), Some(gm.state), |old(gm.spawner.spawned)|,
                             gm.spawner.settings.maxMasks, now, old(gm.spawner.nextSpawnTime));
      && gm.spawner.nextSpawnTime == (if plan == Idle then old(gm.spawner.nextSpawnTime) else now + draw)
      && (plan == AttemptAndReschedule ==>
            var p := PlanSpawn(gm.spawner.settings, |old(gm.spawner.spawned)|, candidates, dataPick, prefabPick);
            && (p.None? ==> made == null && gm.spawner.spawned == old(gm.spawner.spawned))
            && (p.Some? ==> made != null && fresh(made) && made.data == p.value.data
                            && gm.spawner.spawned == old(gm.spawner.spawned) + [made]))
      && (plan != AttemptAndReschedule ==> made == null && gm.spawner.spawned == old(gm.spawner.spawned))
    ensures gm.spawner != null ==>
      |gm.spawner.spawned| == CountAfterUpdate(gm.spawner.settings, old(gm.spawner.spawningEnabled), Some(gm.state),
                                               |old(gm.spawner.spawned)|, now, old(gm.spawner.nextSpawnTime),
                                               candidates, dataPick, prefabPick)
  {
    made := null;
    if gm.spawner != null {
      made := gm.spawner.Update(now, draw, Some(gm.state), candidates, dataPick, prefabPick);
    }
  }

  /** A player's pickup press: the first mask among the overlaps is worn and returned for
      destruction, and the destruction reaches the spawner, which forgets it. Only the
      spawner's list changes. */
  method PickupFrame(gm: GameManager, pickup: MaskPickup, hits: seq<Mask?>) returns (chosen: Mask?)
    requires gm.Valid()
    requires pickup.attackComp in gm.Repr
    modifies pickup.attackComp`currentMask, gm.SpawnerObjects()`spawned
    ensures gm.Valid()
    ensures chosen == FirstMask(hits)
    ensures chosen != null ==> pickup.attackComp.currentMask == Some(chosen.GetMaskType())
    ensures chosen == null ==> pickup.attackComp.currentMask == old(pickup.attackComp.currentMask)
    ensures gm.spawner != null && chosen != null ==> gm.spawner.spawned == RemoveFirst<Mask>(old(gm.spawner.spawned), chosen)
    ensures gm.spawner != null && chosen == null ==> gm.spawner.spawned == old(gm.spawner.spawned)
  {
    chosen := pickup.TryPickup(hits);
    if chosen != null && gm.spawner != null {
      gm.spawner.NotifyMaskDestroyed(chosen);
    }
  }
}
