/** The two player components the combat rules touch: PlayerStats (health and death) and
    PlayerAttack (cooldown, equipped mask, the ordered chain of attack checks). They share a
    module because an attack reads the PlayerAttack that sits beside the opponent's PlayerStats. */
module Player {
  import opened Wrappers
  import opened GameTypes

  /** Health right after ResetStats: maxHealth, but never below 1. */
  function HealthCap(maxHealth: int): (cap: int)
    ensures cap >= 1 && cap >= maxHealth
    ensures cap == maxHealth || cap == 1
  {
    if maxHealth < 1 then 1 else maxHealth
  }

  /** Health after TakeDamage(amount): unchanged for amount <= 0, else reduced and floored at 0. */
  function HealthAfterHit(health: int, amount: int): (h: int)
    ensures h >= 0 || (amount <= 0 && h == health)
    ensures health >= 0 ==> h <= health
    ensures amount > 0 ==> h == health - amount || h == 0
  {
    if amount <= 0 then health
    else if health - amount < 0 then 0 else health - amount
  }

  /** Death is signalled by a hit exactly when it is a positive hit that leaves no health. */
  predicate DiesFrom(health: int, amount: int)
    ensures DiesFrom(health, amount) ==> amount > 0 && health <= amount
    ensures amount > 0 && health <= amount ==> DiesFrom(health, amount)
  {
    amount > 0 && HealthAfterHit(health, amount) == 0
  }

  /** A hit never makes health negative and never raises it; a positive hit on a living
      player lowers it by the amount or to 0, and is fatal exactly when the amount covers
      what is left. A player already at 0 is reported dead again by every positive hit. */
  lemma HitBounds(health: int, amount: int)
    requires health >= 0
    ensures 0 <= HealthAfterHit(health, amount) <= health
    ensures amount <= 0 ==> HealthAfterHit(health, amount) == health && !DiesFrom(health, amount)
    ensures amount > 0 ==> (DiesFrom(health, amount) <==> health <= amount)
    ensures amount > 0 && health == 0 ==> DiesFrom(health, amount)
  {
  }

  function AfterHits(health: int, amounts: seq<int>): int
    decreases |amounts|
  {
    if amounts == [] then health else AfterHits(HealthAfterHit(health, amounts[0]), amounts[1..])
  }

  function Total(amounts: seq<int>): int
    decreases |amounts|
  {
    if amounts == [] then 0 else amounts[0] + Total(amounts[1..])
  }

  /** A series of positive hits removes their total from the health, floored at 0. */
  lemma {:induction false} HitsAccumulate(health: int, amounts: seq<int>)
    requires health >= 0
    requires forall i :: 0 <= i < |amounts| ==> amounts[i] > 0
    ensures AfterHits(health, amounts) == if health - Total(amounts) < 0 then 0 else health - Total(amounts)
    decreases |amounts|
  {
    if amounts != [] {
      HitsAccumulate(HealthAfterHit(health, amounts[0]), amounts[1..]);
      TotalPositive(amounts[1..]);
    }
  }

  lemma {:induction false} TotalPositive(amounts: seq<int>)
    requires forall i :: 0 <= i < |amounts| ==> amounts[i] > 0
    ensures Total(amounts) >= 0
    decreases |amounts|
  {
    if amounts != [] {
      TotalPositive(amounts[1..]);
    }
  }

  /** The first check of TryAttack that stops an attempt. */
  datatype Block =
    | Cooldown          // now - lastAttackTime < attackCooldown
    | NoMask            // the attacker wears no mask
    | NoOpponent        // the opponent's PlayerStats or Transform is not assigned
    | OutOfRange        // the opponent is farther than attackRange
    | OpponentNoMask    // the opponent wears no mask (or has no PlayerAttack)
    | NotCountered      // no controller, or the attacker's kind does not defeat the opponent's

  /** The result of an attempt; Hit carries whether the hit made the opponent die. */
  datatype AttackOutcome = Blocked(why: Block) | Hit(died: bool)

  /** What one attempt sees: the time, the attacker's state and settings, and what it
      finds of its opponent (distance is an input: the engine measures it). */
  datatype Attempt = Attempt(
    now: real,
    lastAttackTime: real,
    attackCooldown: real,
    ownMask: Option<MaskType>,
    opponentAssigned: bool,
    distance: real,
    attackRange: real,
    opponentMask: Option<MaskType>,
    rules: Option<map<MaskType, MaskType>>)   // the controller's table, None without a controller

  /** The checks of TryAttack in source order; the first that fails decides, None if all pass. */
  function FirstBlock(a: Attempt): (b: Option<Block>)
    ensures b == Some(Cooldown) <==> a.now - a.lastAttackTime < a.attackCooldown
    ensures b.None? ==> a.ownMask.Some? && a.opponentAssigned && a.distance <= a.attackRange && a.opponentMask.Some?
    ensures b == Some(OutOfRange) ==> a.distance > a.attackRange
  {
    if a.now - a.lastAttackTime < a.attackCooldown then Some(Cooldown)
    else if a.ownMask.None? then Some(NoMask)
    else if !a.opponentAssigned then Some(NoOpponent)
    else if a.distance > a.attackRange then Some(OutOfRange)
    else if a.opponentMask.None? then Some(OpponentNoMask)
    else if !(a.rules.Some? && CounterIn(a.rules.value, a.ownMask.value, a.opponentMask.value)) then Some(NotCountered)
    else None
  }

  /** lastAttackTime after the attempt: every attempt past the cooldown check records now. */
  function LastAttackAfter(a: Attempt): (t: real)
    ensures t == a.lastAttackTime || t == a.now
    ensures a.now - a.lastAttackTime >= a.attackCooldown ==> t == a.now
  {
    if FirstBlock(a) == Some(Cooldown) then a.lastAttackTime else a.now
  }

  /** An attempt hits exactly when every check passes; with the controller's table that means
      the opponent wears the successor of the attacker's kind. A distance equal to the range
      is in range. */
  lemma HitIffAllChecksPass(a: Attempt)
    ensures FirstBlock(a).None? <==>
      && a.now - a.lastAttackTime >= a.attackCooldown
      && a.ownMask.Some? && a.opponentAssigned && a.distance <= a.attackRange
      && a.opponentMask.Some? && a.rules.Some?
      && CounterIn(a.rules.value, a.ownMask.value, a.opponentMask.value)
    ensures a.rules == Some(MaskRules) && a.ownMask.Some? && a.opponentMask.Some? ==>
      (FirstBlock(a).None? <==>
        a.now - a.lastAttackTime >= a.attackCooldown && a.opponentAssigned && a.distance <= a.attackRange
        && a.opponentMask.value == Successor(a.ownMask.value))
  {
    if a.rules == Some(MaskRules) && a.ownMask.Some? && a.opponentMask.Some? {
      MaskRulesAreSuccessor(a.ownMask.value, a.opponentMask.value);
    }
  }

  /** Inside the cooldown window nothing else is looked at: the attempt is blocked by the
      cooldown and lastAttackTime is kept. Past it, lastAttackTime becomes now whatever follows. */
  lemma CooldownFirst(a: Attempt)
    ensures a.now - a.lastAttackTime < a.attackCooldown ==>
      FirstBlock(a) == Some(Cooldown) && LastAttackAfter(a) == a.lastAttackTime
    ensures a.now - a.lastAttackTime >= a.attackCooldown ==>
      FirstBlock(a) != Some(Cooldown) && LastAttackAfter(a) == a.now
  {
  }

  /** A second attempt less than the cooldown after one that passed the cooldown check is
      blocked by the cooldown, whatever else has changed. */
  lemma SecondAttemptWithinCooldown(first: Attempt, second: Attempt)
    requires FirstBlock(first) != Some(Cooldown)
    requires second.lastAttackTime == LastAttackAfter(first)
    requires second.now - first.now < second.attackCooldown
    ensures FirstBlock(second) == Some(Cooldown)
  {
  }

  /** Red against Orange (within range, cooldown over) hits; Orange against Red does not. */
  lemma RedBeatsOrangeNotReverse(a: Attempt)
    requires a.rules == Some(MaskRules)
    requires a.now - a.lastAttackTime >= a.attackCooldown
    requires a.opponentAssigned && a.distance <= a.attackRange
    ensures a.ownMask == Some(Red) && a.opponentMask == Some(Orange) ==> FirstBlock(a) == None
    ensures a.ownMask == Some(Orange) && a.opponentMask == Some(Red) ==> FirstBlock(a) == Some(NotCountered)
  {
  }

  /** The first attempt after creation (lastAttackTime = -999) passes the cooldown check
      exactly when now >= attackCooldown - 999. */
  lemma FirstAttemptCooldown(a: Attempt)
    requires a.lastAttackTime == InitialLastAttackTime
    ensures FirstBlock(a) != Some(Cooldown) <==> a.now >= a.attackCooldown - 999.0
  {
  }

  const InitialLastAttackTime: real := -999.0

  class PlayerStats {
    const maxHealth: int
    /** The PlayerAttack component on the same player object, if any. */
    const attack: PlayerAttack?
    var currentHealth: int
    /** How many times OnDeath has been raised. */
    var deaths: nat

    ghost predicate Valid()
      reads this
    {
      0 <= currentHealth <= HealthCap(maxHealth)
    }

    /** Awake runs ResetStats. */
    constructor (maxHealth: int, attack: PlayerAttack?)
      ensures this.maxHealth == maxHealth && this.attack == attack
      ensures Valid() && currentHealth == HealthCap(maxHealth) && deaths == 0
    {
      this.maxHealth := maxHealth;
      this.attack := attack;
      currentHealth := HealthCap(maxHealth);
      deaths := 0;
    }

    method ResetStats()
      modifies this`currentHealth
      ensures Valid() && currentHealth == HealthCap(maxHealth)
    {
      currentHealth := if 1 < maxHealth then maxHealth else 1;
    }

    /** Applies a hit; died reports that Die ran, so the caller delivers NotifyPlayerDead. */
    method TakeDamage(amount: int) returns (died: bool)
      requires Valid()
      modifies this`currentHealth, this`deaths
      ensures Valid()
      ensures currentHealth == HealthAfterHit(old(currentHealth), amount)
      ensures died == DiesFrom(old(currentHealth), amount)
      ensures deaths == old(deaths) + (if died then 1 else 0)
    {
      if amount <= 0 {
        return false;
      }
      currentHealth := if currentHealth - amount < 0 then 0 else currentHealth - amount;
      died := currentHealth == 0;
      if died {
        Die();
      }
    }

    /** Raises OnDeath; the controller's NotifyPlayerDead is delivered by the caller. */
    method Die()
      modifies this`deaths
      ensures deaths == old(deaths) + 1
    {
      deaths := deaths + 1;
    }
  }

  class PlayerAttack {
    const attackDamage: int
    const attackRange: real
    const attackCooldown: real
    var opponentStats: PlayerStats?
    /** Whether opponentTransform is assigned (positions themselves are not modelled). */
    var hasOpponentTransform: bool
    var currentMask: Option<MaskType>
    var lastAttackTime: real

    constructor (attackDamage: int, attackRange: real, attackCooldown: real)
      ensures this.attackDamage == attackDamage && this.attackRange == attackRange
      ensures this.attackCooldown == attackCooldown
      ensures opponentStats == null && !hasOpponentTransform
      ensures currentMask == None && lastAttackTime == InitialLastAttackTime
    {
      this.attackDamage := attackDamage;
      this.attackRange := attackRange;
      this.attackCooldown := attackCooldown;
      opponentStats := null;
      hasOpponentTransform := false;
      currentMask := None;
      lastAttackTime := InitialLastAttackTime;
    }

    /** The opponent's equipped mask, read through the PlayerAttack beside its PlayerStats. */
    function OpponentMask(): (m: Option<MaskType>)
      reads this, opponentStats, if opponentStats != null then {opponentStats.attack} else {}
      ensures opponentStats == null ==> m == None
      ensures m.Some? ==> opponentStats != null && opponentStats.attack != null && m == opponentStats.attack.currentMask
    {
      if opponentStats == null || opponentStats.attack == null then None
      else opponentStats.attack.currentMask
    }

    function AttemptAt(now: real, distance: real, rules: Option<map<MaskType, MaskType>>): Attempt
      reads this, opponentStats, if opponentStats != null then {opponentStats.attack} else {}
    {
      Attempt(now, lastAttackTime, attackCooldown, currentMask,
              opponentStats != null && hasOpponentTransform, distance, attackRange, OpponentMask(), rules)
    }

    method SetMask(mask: Option<MaskType>)
      modifies this`currentMask
      ensures currentMask == mask
    {
      currentMask := mask;
    }

    /** One attack attempt at time now against an opponent at the given distance. */
    method TryAttack(now: real, distance: real, rules: Option<map<MaskType, MaskType>>) returns (outcome: AttackOutcome)
      requires opponentStats != null ==> opponentStats.Valid()
      modifies this`lastAttackTime, opponentStats
      ensures opponentStats != null ==> opponentStats.Valid()
      ensures var a := old(AttemptAt(now, distance, rules));
        && lastAttackTime == LastAttackAfter(a)
        && (FirstBlock(a).Some? ==> outcome == Blocked(FirstBlock(a).value))
        && (FirstBlock(a).None? ==> outcome.Hit?)
      ensures opponentStats != null ==>
        if outcome.Hit? then
          && opponentStats.currentHealth == HealthAfterHit(old(opponentStats.currentHealth), attackDamage)
          && outcome.died == DiesFrom(old(opponentStats.currentHealth), attackDamage)
          && opponentStats.deaths == old(opponentStats.deaths) + (if outcome.died then 1 else 0)
        else
          && opponentStats.currentHealth == old(opponentStats.currentHealth)
          && opponentStats.deaths == old(opponentStats.deaths)
    {
      if now - lastAttackTime < attackCooldown {
        return Blocked(Cooldown);
      }
      lastAttackTime := now;
      if currentMask.None? {
        return Blocked(NoMask);
      }
      if !hasOpponentTransform || opponentStats == null {
        return Blocked(NoOpponent);
      }
      if distance > attackRange {
        return Blocked(OutOfRange);
      }
      var opponentAttack := opponentStats.attack;
      var opponentMask := if opponentAttack != null then opponentAttack.currentMask else None;
      if opponentMask.None? {
        return Blocked(OpponentNoMask);
      }
      if rules.Some? && CounterIn(rules.value, currentMask.value, opponentMask.value) {
        var died := opponentStats.TakeDamage(attackDamage);
        return Hit(died);
      }
      return Blocked(NotCountered);
    }
  }
}
