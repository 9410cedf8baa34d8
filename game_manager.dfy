/** GameManager: the four-phase match controller (StartScreen -> Countdown -> Playing ->
    Ended -> StartScreen). It owns the dominance table, the match timer, the two player
    references and drives the spawner through its state-change notification. */
module Match {
  import opened Wrappers
  import opened GameTypes
  import opened Timer
  import opened Player
  import opened Masks
  import opened Spawner

  /** The playerPrefab's inspector values, used when a missing player is instantiated. */
  datatype PlayerPrefab = PlayerPrefab(maxHealth: int, attackDamage: int, attackRange: real, attackCooldown: real)

  /** The counts the countdown announces, one per second: n, n - 1, ..., 1. */
  function CountdownFrom(n: int): (shown: seq<int>)
    ensures shown == [] <==> n <= 0
    ensures shown != [] ==> shown[0] == n
    decreases if n < 0 then 0 else n
  {
    if n <= 0 then [] else [n] + CountdownFrom(n - 1)
  }

  /** Seconds the countdown waits before StartMatch. */
  function Waited(n: int): nat
  {
    if n < 0 then 0 else n
  }

  /** The countdown announces max(0, n) values, starting at n and going down by one each
      second to 1; a non-positive count announces nothing and starts the match at once. */
  lemma {:induction false} CountdownShape(n: int)
    ensures |CountdownFrom(n)| == Waited(n)
    ensures forall k :: 0 <= k < |CountdownFrom(n)| ==> CountdownFrom(n)[k] == n - k
    ensures forall k :: 0 <= k < |CountdownFrom(n)| ==> 1 <= CountdownFrom(n)[k] <= n
    decreases Waited(n)
  {
    if n > 0 {
      CountdownShape(n - 1);
      assert CountdownFrom(n) == [n] + CountdownFrom(n - 1);
      forall k | 1 <= k < |CountdownFrom(n)|
        ensures CountdownFrom(n)[k] == n - k
      {
        assert CountdownFrom(n)[k] == CountdownFrom(n - 1)[k - 1];
      }
    }
  }

  /** NotifyPlayerDead's choice of winner: with two distinct players, the one who did not
      die; a dead object that is neither player hands the win to player1. */
  function WinnerOf(dead: PlayerStats?, player1: PlayerStats?, player2: PlayerStats?): (w: PlayerStats?)
    ensures player1 != player2 && (dead == player1 || dead == player2) ==>
      w != dead && (w == player1 || w == player2)
    ensures dead != player1 && dead != player2 ==> w == player1
  {
    if dead == player1 then player2 else player1
  }

  /** What EndMatch keeps track of: the phase and every OnMatchEnd winner sent (null: a draw). */
  datatype EndRecord = EndRecord(state: GameState, ends: seq<PlayerStats?>)

  function AfterEndMatch(r: EndRecord, winner: PlayerStats?): (e: EndRecord)
    ensures e.state == Ended
    ensures |r.ends| <= |e.ends| <= |r.ends| + 1 && e.ends[..|r.ends|] == r.ends
    ensures |e.ends| == |r.ends| + 1 <==> r.state != Ended
    ensures |e.ends| == |r.ends| + 1 ==> e.ends[|r.ends|] == winner
  {
    if r.state == Ended then r else EndRecord(Ended, r.ends + [winner])
  }

  function AfterEndMatches(r: EndRecord, winners: seq<PlayerStats?>): EndRecord
    decreases |winners|
  {
    if winners == [] then r else AfterEndMatches(AfterEndMatch(r, winners[0]), winners[1..])
  }

  /** However many end requests arrive (a death, a repeated death, a time-up), a match that
      is not yet Ended ends exactly once, with the first request's winner. */
  lemma {:induction false} MatchEndsOnce(r: EndRecord, winners: seq<PlayerStats?>)
    ensures r.state == Ended ==> AfterEndMatches(r, winners) == r
    ensures r.state != Ended && winners != [] ==>
      AfterEndMatches(r, winners) == EndRecord(Ended, r.ends + [winners[0]])
    decreases |winners|
  {
    if winners != [] {
      MatchEndsOnce(AfterEndMatch(r, winners[0]), winners[1..]);
    }
  }

  /** The objects a player reference brings: its PlayerStats and the PlayerAttack beside it. */
  ghost function PlayerObjects(p: PlayerStats?): set<object>
  {
    if p == null then {} else if p.attack == null then {p} else {p as object, p.attack as object}
  }

  /** What a player reference shows apart from its health: the object, its numbers and death
      count, and its PlayerAttack's numbers, target, transform flag, equipped mask and last
      attack time. armed is false when there is no PlayerAttack, and the attack entries are
      then unused. */
  datatype PlayerView = PlayerView(
    who: PlayerStats?, maxHealth: int, deaths: nat, armed: bool,
    damage: int, range: real, cooldown: real,
    target: PlayerStats?, tracking: bool, mask: Option<MaskType>, lastAttack: real)

  ghost function ViewOf(p: PlayerStats?): (v: PlayerView)
    reads PlayerObjects(p)
    ensures v.who == p
    ensures p != null ==> v.deaths == p.deaths && (v.armed <==> p.attack != null)
    ensures p != null && p.attack != null ==>
      && v.target == p.attack.opponentStats && v.tracking == p.attack.hasOpponentTransform
      && v.mask == p.attack.currentMask && v.lastAttack == p.attack.lastAttackTime
  {
    if p == null then PlayerView(null, 0, 0, false, 0, 0.0, 0.0, null, false, None, 0.0)
    else if p.attack == null then PlayerView(p, p.maxHealth, p.deaths, false, 0, 0.0, 0.0, null, false, None, 0.0)
    else
      var a := p.attack;
      PlayerView(p, p.maxHealth, p.deaths, true, a.attackDamage, a.attackRange, a.attackCooldown,
                 a.opponentStats, a.hasOpponentTransform, a.currentMask, a.lastAttackTime)
  }

  /** The same player, with its death count, equipped mask and last attack time kept. */
  predicate Carried(o: PlayerView, n: PlayerView)
  {
    n.who == o.who && n.deaths == o.deaths && n.armed == o.armed
    && (o.armed ==> n.mask == o.mask && n.lastAttack == o.lastAttack)
  }

  /** The attack still aims where it did, with the same transform flag. */
  predicate AimKept(o: PlayerView, n: PlayerView)
  {
    o.armed ==> n.target == o.target && n.tracking == o.tracking
  }

  /** A prefab instance, apart from its health: the prefab's numbers, no deaths, and an
      attack with the prefab's numbers, no mask and the initial attack time. */
  predicate BuiltFrom(n: PlayerView, prefab: PlayerPrefab)
  {
    && n.maxHealth == prefab.maxHealth && n.deaths == 0 && n.armed
    && n.damage == prefab.attackDamage && n.range == prefab.attackRange && n.cooldown == prefab.attackCooldown
    && n.mask == None && n.lastAttack == InitialLastAttackTime
  }

  /** The attack, if any, aims at target with its transform found. */
  predicate Aims(n: PlayerView, target: PlayerStats?)
  {
    n.armed ==> n.target == target && n.tracking
  }

  /** How StartMatch leaves the players apart from their health, given their views before
      (o1, o2) and after (n1, n2). A player already assigned is kept with its death count,
      mask and last attack time. With a prefab both players exist. When both were assigned,
      or no prefab is set, nothing is created and the attacks keep their targets; otherwise
      each created player is a prefab instance and each attack aims at the other player. */
  predicate RoundReady(o1: PlayerView, o2: PlayerView, n1: PlayerView, n2: PlayerView, prefab: Option<PlayerPrefab>)
  {
    && (o1.who != null ==> Carried(o1, n1))
    && (o2.who != null ==> Carried(o2, n2))
    && (prefab.Some? ==> n1.who != null && n2.who != null)
    && ((o1.who != null && o2.who != null) || prefab.None? ==>
          n1.who == o1.who && n2.who == o2.who && AimKept(o1, n1) && AimKept(o2, n2))
    && ((o1.who == null || o2.who == null) && prefab.Some? ==>
          && (o1.who == null ==> BuiltFrom(n1, prefab.value))
          && (o2.who == null ==> BuiltFrom(n2, prefab.value))
          && Aims(n1, n2.who) && Aims(n2, n1.who))
  }

  class GameManager {
    const countdownSeconds: int
    const matchDurationSeconds: int
    const playerPrefab: Option<PlayerPrefab>
    const timer: MatchTimer
    /** The scene's MaskSpawner, if any; it is subscribed to OnStateChanged. */
    const spawner: MaskSpawner?
    var player1: PlayerStats?
    var player2: PlayerStats?
    var state: GameState
    var maskCounter: map<MaskType, MaskType>
    /** Every OnStateChanged argument, oldest first. */
    var stateChanges: seq<GameState>
    /** Every OnMatchEnd winner, oldest first (null: a draw). */
    var matchEnds: seq<PlayerStats?>
    /** Every count the countdown announced, oldest first. */
    var countdownShown: seq<int>
    ghost var Repr: set<object>

    ghost predicate WiredWithin(a: PlayerAttack)
      reads this, a
    {
      a.opponentStats == null || a.opponentStats == player1 || a.opponentStats == player2
    }

    /** The references and the components they reach are in Repr, each player's health is in
        bounds, and every registered attack aims at a registered player or at nobody. */
    ghost predicate Wellformed()
      reads this, Repr
    {
      && this in Repr && timer in Repr
      && (spawner != null ==> spawner in Repr && spawner.Valid())
      && maskCounter == MaskRules
      && (player1 != null ==>
            && player1 in Repr && player1.Valid()
            && (player1.attack != null ==> player1.attack in Repr && WiredWithin(player1.attack)))
      && (player2 != null ==>
            && player2 in Repr && player2.Valid()
            && (player2.attack != null ==> player2.attack in Repr && WiredWithin(player2.attack)))
    }

    /** Outside Playing the match timer is stopped and the spawner is off with no live masks. */
    ghost predicate PhaseInvariant()
      reads this, timer, spawner
    {
      state != Playing ==>
        && !timer.running
        && (spawner != null ==> !spawner.spawningEnabled && spawner.spawned == [])
    }

    ghost predicate Valid()
      reads this, Repr
    {
      Wellformed() && PhaseInvariant()
    }

    /** Awake (InitMaskRules) and Start (timer set to the match duration) of a controller
        given its inspector references. */
    constructor (countdownSeconds: int, matchDurationSeconds: int, player1: PlayerStats?, player2: PlayerStats?,
                 playerPrefab: Option<PlayerPrefab>, spawner: MaskSpawner?)
      requires player1 != null ==> player1.Valid()
      requires player2 != null ==> player2.Valid()
      requires player1 != null && player1.attack != null ==>
        var o := player1.attack.opponentStats; o == null || o == player1 || o == player2
      requires player2 != null && player2.attack != null ==>
        var o := player2.attack.opponentStats; o == null || o == player1 || o == player2
      requires spawner != null ==> spawner.Valid() && !spawner.spawningEnabled && spawner.spawned == []
      ensures Valid() && fresh(timer)
      ensures Repr == {this, timer} + (if spawner != null then {spawner as object} else {})
                      + PlayerObjects(player1) + PlayerObjects(player2)
      ensures this.countdownSeconds == countdownSeconds && this.matchDurationSeconds == matchDurationSeconds
      ensures this.player1 == player1 && this.player2 == player2
      ensures this.playerPrefab == playerPrefab && this.spawner == spawner
      ensures state == StartScreen && maskCounter == MaskRules
      ensures stateChanges == [] && matchEnds == [] && countdownShown == []
      ensures timer.View() == TimerView(matchDurationSeconds as real, matchDurationSeconds as real, false, [], 0)
    {
      this.countdownSeconds := countdownSeconds;
      this.matchDurationSeconds := matchDurationSeconds;
      this.player1 := player1;
      this.player2 := player2;
      this.playerPrefab := playerPrefab;
      this.spawner := spawner;
      timer := new MatchTimer();
      state := StartScreen;
      maskCounter := map[];
      stateChanges, matchEnds, countdownShown := [], [], [];
      Repr := {this, timer} + (if spawner != null then {spawner as object} else {}) + PlayerObjects(player1) + PlayerObjects(player2);
      new;
      InitMaskRules();
      timer.SetDuration(matchDurationSeconds);
    }

    method InitMaskRules()
      modifies this`maskCounter
      ensures maskCounter == MaskRules
    {
      maskCounter := map[];
      maskCounter := maskCounter[Red := Orange];
      maskCounter := maskCounter[Orange := Yellow];
      maskCounter := maskCounter[Yellow := Green];
      maskCounter := maskCounter[Green := Blue];
      maskCounter := maskCounter[Blue := Purple];
      maskCounter := maskCounter[Purple := Red];
    }

    /** Whether a wearer of attackerMask defeats a wearer of defenderMask. */
    function IsCounter(attackerMask: MaskType, defenderMask: MaskType): (r: bool)
      reads this
      ensures maskCounter == MaskRules ==> (r <==> defenderMask == Successor(attackerMask))
    {
      MaskRulesAreSuccessor(attackerMask, defenderMask);
      CounterIn(maskCounter, attackerMask, defenderMask)
    }

    /** Assigns the new phase, then notifies the subscribers (the spawner) with that phase.
        now and draw feed the spawner's StartSpawning when the new phase is Playing. */
    method SetState(newState: GameState, now: real, draw: real)
      requires Wellformed()
      modifies this`state, this`stateChanges, spawner
      ensures Wellformed()
      ensures state == newState && stateChanges == old(stateChanges) + [newState]
      ensures spawner != null && newState == Playing ==>
        && spawner.spawningEnabled && spawner.spawned == old(spawner.spawned)
        && spawner.destroyed == old(spawner.destroyed)
        && spawner.nextSpawnTime == (if old(spawner.spawningEnabled) then old(spawner.nextSpawnTime) else now + draw)
      ensures spawner != null && newState != Playing ==>
        && !spawner.spawningEnabled && spawner.spawned == [] && spawner.nextSpawnTime == old(spawner.nextSpawnTime)
        && spawner.destroyed == old(spawner.destroyed) + Reversed(old(spawner.spawned))
    {
      state := newState;
      stateChanges := stateChanges + [newState];
      if spawner != null {
        spawner.HandleStateChanged(newState, now, draw);
      }
    }

    /** The begin signal: only from StartScreen, and then the countdown runs and the match starts. */
    method StartFromStartScreen(now: real, draw: real)
      requires Valid()
      modifies Repr
      ensures Valid() && fresh(Repr - old(Repr))
      ensures old(state) != StartScreen ==> Repr == old(Repr) && unchanged(Repr)
      ensures old(state) == StartScreen ==> CountdownRan(now, draw)
    {
      if state != StartScreen {
        return;
      }
      DoCountdownAndStart(now, draw);
    }

    /** The effect of DoCountdownAndStart from a valid controller (see that method). */
    twostate predicate CountdownRan(now: real, draw: real)
      reads this, Repr
    {
      && state == Playing
      && countdownShown == old(countdownShown) + CountdownFrom(countdownSeconds)
      && stateChanges == old(stateChanges) + [Countdown] + (if matchDurationSeconds <= 0 then [Ended] else []) + [Playing]
      && matchEnds == old(matchEnds) + (if matchDurationSeconds <= 0 then [null] else [])
      && timer in Repr
      && timer.View() == AfterStart(AfterSetDuration(old(timer.View()), matchDurationSeconds))
      && (old(player1) != null ==> player1 == old(player1))
      && (old(player2) != null ==> player2 == old(player2))
      && (player1 != null ==> player1 in Repr && player1.currentHealth == HealthCap(player1.maxHealth))
      && (player2 != null ==> player2 in Repr && player2.currentHealth == HealthCap(player2.maxHealth))
      && PlayerObjects(player1) <= Repr && PlayerObjects(player2) <= Repr && PlayersReady()
      && (spawner != null ==>
            && spawner in Repr && spawner.spawningEnabled && spawner.spawned == []
            && spawner.destroyed == old(spawner.destroyed)
            && spawner.nextSpawnTime == now + Waited(countdownSeconds) as real + draw)
    }

    /** The countdown coroutine: phase Countdown, one announced count per second from
        countdownSeconds down to 1, then StartMatch once the seconds have passed. */
    method DoCountdownAndStart(now: real, draw: real)
      requires Valid() && state == StartScreen
      modifies Repr
      ensures Valid() && fresh(Repr - old(Repr))
      ensures CountdownRan(now, draw)
    {
      SetState(Countdown, now, draw);
      var waited := RunCountdown();
      StartMatch(now + waited as real, draw);
    }

    /** The countdown loop: shows t and waits one second, for t from countdownSeconds down
        to 1. Returns the number of seconds waited. */
    method RunCountdown() returns (waited: nat)
      modifies this`countdownShown
      ensures countdownShown == old(countdownShown) + CountdownFrom(countdownSeconds)
      ensures waited == Waited(countdownSeconds)
    {
      var t := countdownSeconds;
      waited := 0;
      while t > 0
        invariant old(countdownShown) + CountdownFrom(countdownSeconds) == countdownShown + CountdownFrom(t)
        invariant waited as int + (if t < 0 then 0 else t) == Waited(countdownSeconds)
      {
        countdownShown := countdownShown + [t];
        waited := waited + 1;
        t := t - 1;
      }
    }

    /** How StartMatch leaves the players apart from their health (see RoundReady); a created
        player is a new object. */
    twostate predicate PlayersReady()
      reads this, PlayerObjects(player1), PlayerObjects(player2)
    {
      && RoundReady(old(ViewOf(player1)), old(ViewOf(player2)), ViewOf(player1), ViewOf(player2), playerPrefab)
      && (old(player1) == null && player1 != null ==> fresh(player1))
      && (old(player2) == null && player2 != null ==> fresh(player2))
    }

    /** The effect of StartMatch (see that method). The timer fires at once exactly when it
        was stopped and the duration is not positive; the match then ends as a draw before the
        phase is set to Playing, unless it had already ended. */
    twostate predicate MatchStarted(now: real, draw: real)
      reads this, Repr
    {
      var fired := !old(timer.running) && matchDurationSeconds <= 0;
      var ended := fired && old(state) != Ended;
      && state == Playing
      && countdownShown == old(countdownShown)
      && stateChanges == old(stateChanges) + (if ended then [Ended] else []) + [Playing]
      && matchEnds == old(matchEnds) + (if ended then [null] else [])
      && timer in Repr
      && timer.View() == AfterStart(AfterSetDuration(old(timer.View()), matchDurationSeconds))
      && (old(player1) != null ==> player1 == old(player1))
      && (old(player2) != null ==> player2 == old(player2))
      && (player1 != null ==> player1 in Repr && player1.currentHealth == HealthCap(player1.maxHealth))
      && (player2 != null ==> player2 in Repr && player2.currentHealth == HealthCap(player2.maxHealth))
      && (spawner != null ==>
            && spawner in Repr && spawner.spawningEnabled
            && spawner.nextSpawnTime ==
                 (if old(spawner.spawningEnabled) && !ended then old(spawner.nextSpawnTime) else now + draw)
            && spawner.spawned == (if ended then [] else old(spawner.spawned))
            && spawner.destroyed == old(spawner.destroyed) + (if ended then Reversed(old(spawner.spawned)) else []))
    }

    /** Makes sure both players exist, resets their health (not their masks), restarts the
        timer with the match duration and enters Playing. There is no phase guard. */
    method StartMatch(now: real, draw: real)
      requires Valid()
      modifies Repr
      ensures Valid() && fresh(Repr - old(Repr))
      ensures MatchStarted(now, draw) && PlayersReady()
    {
      EnsurePlayersExist();
      BeginRound(now, draw);
    }

    /** StartMatch after EnsurePlayersExist: spawner, health, timer, phase. */
    method BeginRound(now: real, draw: real)
      requires Valid()
      modifies this`state, this`stateChanges, this`matchEnds, timer, spawner
      modifies Players()`currentHealth
      ensures Valid() && Repr == old(Repr)
      ensures player1 == old(player1) && player2 == old(player2)
      ensures MatchStarted(now, draw)
      ensures ViewOf(player1) == old(ViewOf(player1)) && ViewOf(player2) == old(ViewOf(player2))
    {
      if spawner != null {
        spawner.StartSpawning(now, draw);
      }
      if player1 != null {
        player1.ResetStats();
      }
      if player2 != null {
        player2.ResetStats();
      }
      RestartTimer();
      SetState(Playing, now, draw);
    }

    /** SetDuration(matchDurationSeconds) then StartTimer. A stopped timer with a non-positive
        duration raises OnTimeUp at once, and HandleTimeUp ends the match as a draw. */
    method RestartTimer()
      requires Wellformed()
      modifies this`state, this`stateChanges, this`matchEnds, timer, spawner
      ensures Wellformed()
      ensures timer.View() == AfterStart(AfterSetDuration(old(timer.View()), matchDurationSeconds))
      ensures var fired := !old(timer.running) && matchDurationSeconds <= 0;
        && EndRecord(state, matchEnds) ==
             (if fired then AfterEndMatch(old(EndRecord(state, matchEnds)), null) else old(EndRecord(state, matchEnds)))
        && stateChanges == old(stateChanges) + (if fired && old(state) != Ended then [Ended] else [])
        && (spawner != null ==>
              if fired && old(state) != Ended then
                && !spawner.spawningEnabled && spawner.spawned == []
                && spawner.nextSpawnTime == old(spawner.nextSpawnTime)
                && spawner.destroyed == old(spawner.destroyed) + Reversed(old(spawner.spawned))
              else unchanged(spawner))
    {
      timer.SetDuration(matchDurationSeconds);
      var timeUp := timer.StartTimer();
      if timeUp {
        HandleTimeUp();
      }
    }

    /** The spawner, when there is one. */
    ghost function SpawnerObjects(): set<MaskSpawner>
    {
      if spawner != null then {spawner} else {}
    }

    /** The registered players. */
    ghost function Players(): set<PlayerStats>
      reads this
    {
      (if player1 != null then {player1} else {}) + (if player2 != null then {player2} else {})
    }

    /** The registered players' PlayerAttack components. */
    ghost function AttackObjects(): set<PlayerAttack>
      reads this
    {
      (if player1 != null && player1.attack != null then {player1.attack} else {})
      + (if player2 != null && player2.attack != null then {player2.attack} else {})
    }

    /** With a player missing and a prefab set, instantiates each missing player and then aims
        each player's attack at the other; otherwise changes nothing. */
    method EnsurePlayersExist()
      requires Wellformed()
      modifies this`player1, this`player2, this`Repr
      modifies AttackObjects()`opponentStats, AttackObjects()`hasOpponentTransform
      ensures Wellformed() && old(Repr) <= Repr && fresh(Repr - old(Repr))
      ensures PlayersReady()
      ensures unchanged(timer) && (spawner != null ==> unchanged(spawner))
      ensures (old(player1) != null && old(player2) != null) || playerPrefab.None? ==>
        && player1 == old(player1) && player2 == old(player2) && Repr == old(Repr)
        && unchanged(old(AttackObjects()))
      ensures (old(player1) == null || old(player2) == null) && playerPrefab.Some? ==>
        && player1 != null && player2 != null
        && (old(player1) != null ==> player1 == old(player1))
        && (old(player1) == null ==> fresh(player1) && fresh(player1.attack) && FromPrefab(player1, playerPrefab.value))
        && (old(player2) != null ==> player2 == old(player2))
        && (old(player2) == null ==> fresh(player2) && fresh(player2.attack) && FromPrefab(player2, playerPrefab.value))
        && (player1.attack != null ==> player1.attack.opponentStats == player2 && player1.attack.hasOpponentTransform)
        && (player2.attack != null ==> player2.attack.opponentStats == player1 && player2.attack.hasOpponentTransform)
    {
      if player1 != null && player2 != null {
        return;
      }
      if playerPrefab.None? {
        return;
      }
      CreateMissingPlayers(playerPrefab.value);
      WirePlayers();
    }

    /** Instantiates each missing player from the prefab and registers it with its attack. */
    method CreateMissingPlayers(prefab: PlayerPrefab)
      requires Wellformed() && (player1 == null || player2 == null)
      modifies this`player1, this`player2, this`Repr
      ensures Wellformed() && old(Repr) <= Repr && fresh(Repr - old(Repr))
      ensures player1 != null && player2 != null
      ensures player1.attack == null || player1.attack != player2.attack
      ensures old(player1) != null ==> player1 == old(player1)
      ensures old(player1) == null ==>
        && fresh(player1) && fresh(player1.attack) && FromPrefab(player1, prefab)
      ensures old(player2) != null ==> player2 == old(player2)
      ensures old(player2) == null ==>
        && fresh(player2) && fresh(player2.attack) && FromPrefab(player2, prefab)
    {
      if player1 == null {
        var p := InstantiatePlayer(prefab);
        player1 := p;
        Repr := Repr + {p, p.attack};
      }
      if player2 == null {
        var p := InstantiatePlayer(prefab);
        player2 := p;
        Repr := Repr + {p, p.attack};
      }
    }

    /** Aims each player's attack at the other player and marks its transform as found. The
        two attacks are distinct objects, as they are when one player was just instantiated. */
    method WirePlayers()
      requires Wellformed() && player1 != null && player2 != null
      requires player1.attack == null || player1.attack != player2.attack
      modifies AttackObjects()`opponentStats, AttackObjects()`hasOpponentTransform
      ensures Wellformed()
      ensures player1.attack != null ==> player1.attack.opponentStats == player2 && player1.attack.hasOpponentTransform
      ensures player2.attack != null ==> player2.attack.opponentStats == player1 && player2.attack.hasOpponentTransform
    {
      var att1 := player1.attack;
      var att2 := player2.attack;
      if att1 != null {
        att1.opponentStats := player2;
        att1.hasOpponentTransform := true;
      }
      if att2 != null {
        att2.opponentStats := player1;
        att2.hasOpponentTransform := true;
      }
    }

    /** The effect of EndMatch(winner): see that method. */
    twostate predicate EndMatchEffect(winner: PlayerStats?)
      reads this, timer, spawner
    {
      && EndRecord(state, matchEnds) == AfterEndMatch(old(EndRecord(state, matchEnds)), winner)
      && (old(state) == Ended ==>
            stateChanges == old(stateChanges) && unchanged(timer) && (spawner != null ==> unchanged(spawner)))
      && (old(state) != Ended ==>
            && stateChanges == old(stateChanges) + [Ended]
            && timer.View() == AfterStop(old(timer.View()))
            && PhaseInvariant()
            && (spawner != null ==>
                  && !spawner.spawningEnabled && spawner.spawned == []
                  && spawner.nextSpawnTime == old(spawner.nextSpawnTime)
                  && spawner.destroyed == old(spawner.destroyed) + Reversed(old(spawner.spawned))))
    }

    /** Ends a match that has not ended yet: spawning stops, the phase becomes Ended (which
        clears the live masks), the timer stops and OnMatchEnd announces the winner. */
    method EndMatch(winner: PlayerStats?)
      requires Wellformed()
      modifies this`state, this`stateChanges, this`matchEnds, timer, spawner
      ensures Wellformed() && EndMatchEffect(winner)
    {
      if state == Ended {
        return;
      }
      if spawner != null {
        spawner.StopSpawning();
      }
      SetState(Ended, 0.0, 0.0);  // now and draw matter only when the new phase is Playing
      timer.StopTimer();
      matchEnds := matchEnds + [winner];
    }

    /** The timer's OnTimeUp subscriber: the match ends as a draw. */
    method HandleTimeUp()
      requires Wellformed()
      modifies this`state, this`stateChanges, this`matchEnds, timer, spawner
      ensures Wellformed() && EndMatchEffect(null)
    {
      EndMatch(null);
    }

    /** A player's death ends the match in favour of the other player. */
    method NotifyPlayerDead(deadPlayer: PlayerStats?)
      requires Wellformed()
      modifies this`state, this`stateChanges, this`matchEnds, timer, spawner
      ensures Wellformed() && EndMatchEffect(WinnerOf(deadPlayer, player1, player2))
    {
      var winner := if deadPlayer == player1 then player2 else player1;
      EndMatch(winner);
    }

    /** Back to the start screen from any phase: the timer stops, the phase becomes
        StartScreen (which stops spawning and clears the live masks). */
    method ReturnToStartScreen()
      requires Valid()
      modifies this`state, this`stateChanges, timer, spawner
      ensures Valid()
      ensures state == StartScreen && stateChanges == old(stateChanges) + [StartScreen]
      ensures timer.View() == AfterStop(old(timer.View()))
      ensures spawner != null ==>
        && !spawner.spawningEnabled && spawner.spawned == []
        && spawner.nextSpawnTime == old(spawner.nextSpawnTime)
        && spawner.destroyed == old(spawner.destroyed) + Reversed(old(spawner.spawned))
    {
      timer.StopTimer();
      SetState(StartScreen, 0.0, 0.0);  // now and draw matter only when the new phase is Playing
      if spawner != null {
        spawner.StopSpawning();
      }
    }
  }

  /** A player built from the prefab: full health, no deaths, a PlayerAttack with the
      prefab's numbers, no mask and the initial attack time. */
  ghost predicate FromPrefab(p: PlayerStats, prefab: PlayerPrefab)
    reads p, p.attack
  {
    && p.maxHealth == prefab.maxHealth && p.Valid()
    && p.currentHealth == HealthCap(prefab.maxHealth) && p.deaths == 0
    && p.attack != null
    && p.attack.attackDamage == prefab.attackDamage && p.attack.attackRange == prefab.attackRange
    && p.attack.attackCooldown == prefab.attackCooldown
    && p.attack.currentMask == None && p.attack.lastAttackTime == InitialLastAttackTime
  }

  /** Instantiate(playerPrefab): a new player whose attack aims at nobody yet. */
  method InstantiatePlayer(prefab: PlayerPrefab) returns (p: PlayerStats)
    ensures fresh(p) && p.attack != null && fresh(p.attack) && FromPrefab(p, prefab)
    ensures p.attack.opponentStats == null && !p.attack.hasOpponentTransform
  {
    var attack := new PlayerAttack(prefab.attackDamage, prefab.attackRange, prefab.attackCooldown);
    p := new PlayerStats(prefab.maxHealth, attack);
  }
}
