/** MaskSpawner: keeps a bounded list of live mask pickups, schedules spawns by time while the
    match is Playing, places each spawn with at most ten candidate draws, and forgets a mask
    when its watcher reports it destroyed. Random draws and physics queries are inputs. */
module Spawner {
  import opened Wrappers
  import opened GameTypes
  import opened Masks

  /** A mask prefab: the MaskData already serialized on its Mask component. */
  datatype MaskPrefab = MaskPrefab(data: Option<MaskData>)

  /** The inspector settings. A None entry is an empty (null) slot of a list. */
  datatype SpawnSettings = SpawnSettings(
    maskPrefabs: seq<Option<MaskPrefab>>,
    maskDatas: seq<Option<MaskData>>,
    spawnIntervalMin: real,
    spawnIntervalMax: real,
    maxMasks: int,
    hasSpawnArea: bool,          // spawnAreaCollider is assigned
    minDistanceFromPlayers: real)

  /** One candidate point: its distance to each player that is present, and whether
      OverlapPoint found a blocking collider there. */
  datatype Candidate = Candidate(toPlayer1: Option<real>, toPlayer2: Option<real>, blocked: bool)

  /** The do-while placement loop stops after this many draws. */
  const MaxAttempts: nat := 10

  /** No present player is closer than minDistance (a distance equal to it is far enough). */
  predicate IsPointFarFromPlayers(c: Candidate, minDistance: real)
    ensures c.toPlayer1.None? && c.toPlayer2.None? ==> IsPointFarFromPlayers(c, minDistance)
    ensures c.toPlayer1.Some? && c.toPlayer1.value < minDistance ==> !IsPointFarFromPlayers(c, minDistance)
    ensures c.toPlayer2.Some? && c.toPlayer2.value < minDistance ==> !IsPointFarFromPlayers(c, minDistance)
  {
    && (c.toPlayer1.Some? ==> c.toPlayer1.value >= minDistance)
    && (c.toPlayer2.Some? ==> c.toPlayer2.value >= minDistance)
  }

  predicate Accepted(c: Candidate, minDistance: real)
  {
    IsPointFarFromPlayers(c, minDistance) && !c.blocked
  }

  /** Index of the first accepted candidate, or |cands| when none is. */
  function FirstAccepted(cands: seq<Candidate>, minDistance: real): (k: nat)
    ensures k <= |cands|
    ensures forall j :: 0 <= j < k ==> !Accepted(cands[j], minDistance)
    ensures k < |cands| ==> Accepted(cands[k], minDistance)
    decreases |cands|
  {
    if cands == [] then 0
    else if Accepted(cands[0], minDistance) then 0
    else 1 + FirstAccepted(cands[1..], minDistance)
  }

  /** The live-list bound: maxMasks, or 0 when maxMasks is negative. */
  function Capacity(maxMasks: int): nat
  {
    if maxMasks < 0 then 0 else maxMasks
  }

  /** A successful spawn: the draw that was accepted and the data the new mask ends up with. */
  datatype Placement = Placement(attempt: nat, data: Option<MaskData>)

  /** What TrySpawnOne does with count live masks, the candidate draws and the two index draws. */
  function PlanSpawn(s: SpawnSettings, count: nat, cands: seq<Candidate>, dataPick: nat, prefabPick: nat): (p: Option<Placement>)
    requires |cands| >= MaxAttempts
    ensures p.Some? ==>
      && s.hasSpawnArea && count < s.maxMasks
      && p.value.attempt < MaxAttempts
      && Accepted(cands[p.value.attempt], s.minDistanceFromPlayers)
      && (forall j :: 0 <= j < p.value.attempt ==> !Accepted(cands[j], s.minDistanceFromPlayers))
    ensures p.None? <==>
      || !s.hasSpawnArea || count >= s.maxMasks
      || (forall j :: 0 <= j < MaxAttempts ==> !Accepted(cands[j], s.minDistanceFromPlayers))
      || |s.maskPrefabs| == 0 || s.maskPrefabs[prefabPick % |s.maskPrefabs|].None?
  {
    if !s.hasSpawnArea || count >= s.maxMasks then None
    else
      var k := FirstAccepted(cands[..MaxAttempts], s.minDistanceFromPlayers);
      if k == MaxAttempts then None
      else
        var prefab := if |s.maskPrefabs| > 0 then s.maskPrefabs[prefabPick % |s.maskPrefabs|] else None;
        if prefab.None? then None
        else
          var data := if |s.maskDatas| > 0 then s.maskDatas[dataPick % |s.maskDatas|] else prefab.value.data;
          Some(Placement(k, data))
  }

  /** What one Update does besides a possible spawn. */
  datatype StepPlan = Idle | Reschedule | AttemptAndReschedule

  function UpdatePlan(enabled: bool, managerState: Option<GameState>, count: nat, maxMasks: int, now: real, nextSpawnTime: real): (plan: StepPlan)
    ensures plan != Idle ==> enabled && managerState == Some(Playing)
    ensures plan == AttemptAndReschedule ==> count < maxMasks && now >= nextSpawnTime
  {
    if !enabled || managerState != Some(Playing) then Idle
    else if count >= maxMasks then Reschedule
    else if now >= nextSpawnTime then AttemptAndReschedule
    else Idle
  }

  /** Live-list size after one Update. */
  function CountAfterUpdate(s: SpawnSettings, enabled: bool, managerState: Option<GameState>, count: nat, now: real,
                            nextSpawnTime: real, cands: seq<Candidate>, dataPick: nat, prefabPick: nat): nat
    requires |cands| >= MaxAttempts
  {
    if UpdatePlan(enabled, managerState, count, s.maxMasks, now, nextSpawnTime) == AttemptAndReschedule
       && PlanSpawn(s, count, cands, dataPick, prefabPick).Some?
    then count + 1 else count
  }

  /** Update is idle unless spawning is enabled and the match is Playing; at capacity it only
      reschedules; otherwise it tries exactly one spawn once the scheduled time is reached. */
  lemma UpdateGating(enabled: bool, managerState: Option<GameState>, count: nat, maxMasks: int, now: real, next: real)
    ensures !enabled || managerState != Some(Playing) ==> UpdatePlan(enabled, managerState, count, maxMasks, now, next) == Idle
    ensures enabled && managerState == Some(Playing) && count >= maxMasks ==>
      UpdatePlan(enabled, managerState, count, maxMasks, now, next) == Reschedule
    ensures UpdatePlan(enabled, managerState, count, maxMasks, now, next) == AttemptAndReschedule <==>
      enabled && managerState == Some(Playing) && count < maxMasks && now >= next
  {
  }

  /** Whatever the draws and the configuration, one Update never takes the live list past
      the capacity, nor grows it by more than one. */
  lemma CapacityKept(s: SpawnSettings, enabled: bool, managerState: Option<GameState>, count: nat, now: real,
                     next: real, cands: seq<Candidate>, dataPick: nat, prefabPick: nat)
    requires |cands| >= MaxAttempts && count <= Capacity(s.maxMasks)
    ensures count <= CountAfterUpdate(s, enabled, managerState, count, now, next, cands, dataPick, prefabPick) <= count + 1
    ensures CountAfterUpdate(s, enabled, managerState, count, now, next, cands, dataPick, prefabPick) <= Capacity(s.maxMasks)
  {
  }

  /** Removes the first occurrence of x (List.Remove). */
  function RemoveFirst<T(==)>(s: seq<T>, x: T): (r: seq<T>)
    ensures x !in s ==> r == s
    ensures x in s ==> |r| == |s| - 1
    decreases |s|
  {
    if s == [] then []
    else if s[0] == x then s[1..]
    else [s[0]] + RemoveFirst(s[1..], x)
  }

  ghost predicate NoDuplicates<T>(s: seq<T>)
  {
    forall i, j :: 0 <= i < j < |s| ==> s[i] != s[j]
  }

  /** Removing a member of a list without duplicates drops exactly that member and keeps
      every other one, with no duplicates introduced. */
  lemma {:induction false} RemoveFirstDropsOnlyIt<T>(s: seq<T>, x: T)
    requires NoDuplicates(s)
    ensures NoDuplicates(RemoveFirst(s, x))
    ensures x !in RemoveFirst(s, x)
    ensures forall y :: y != x ==> (y in RemoveFirst(s, x) <==> y in s)
    decreases |s|
  {
    if s != [] && s[0] != x {
      RemoveFirstDropsOnlyIt(s[1..], x);
      var r := RemoveFirst(s[1..], x);
      assert RemoveFirst(s, x) == [s[0]] + r;
      assert s[0] !in s[1..] by {
        forall j | 0 <= j < |s[1..]| ensures s[1..][j] != s[0] {
          assert s[1..][j] == s[j + 1];
        }
      }
      forall i, j | 0 <= i < j < |[s[0]] + r|
        ensures ([s[0]] + r)[i] != ([s[0]] + r)[j]
      {
        if i == 0 {
          assert ([s[0]] + r)[j] == r[j - 1];
          assert r[j - 1] in r;
        }
      }
    } else if s != [] {
      forall i, j | 0 <= i < j < |s[1..]|
        ensures s[1..][i] != s[1..][j]
      {
        assert s[1..][i] == s[i + 1] && s[1..][j] == s[j + 1];
      }
      forall j | 0 <= j < |s[1..]| ensures s[1..][j] != x {
        assert s[1..][j] == s[j + 1];
      }
    }
  }

  /** The list read from its last element to its first. */
  function Reversed<T>(s: seq<T>): seq<T>
    decreases |s|
  {
    if s == [] then [] else Reversed(s[1..]) + [s[0]]
  }

  /** Reversing keeps every element with its multiplicity. */
  lemma {:induction false} ReversedSameElements<T>(s: seq<T>)
    ensures |Reversed(s)| == |s|
    ensures multiset(Reversed(s)) == multiset(s)
    decreases |s|
  {
    if s != [] {
      ReversedSameElements(s[1..]);
      assert s == [s[0]] + s[1..];
    }
  }

  class MaskSpawner {
    const settings: SpawnSettings
    var spawned: seq<Mask>
    var spawningEnabled: bool
    var nextSpawnTime: real
    /** Every mask this spawner has passed to Destroy, in call order. */
    var destroyed: seq<Mask>

    ghost predicate Valid()
      reads this
    {
      |spawned| <= Capacity(settings.maxMasks) && NoDuplicates(spawned)
    }

    constructor (settings: SpawnSettings)
      ensures this.settings == settings && Valid()
      ensures spawned == [] && !spawningEnabled && nextSpawnTime == 0.0 && destroyed == []
    {
      this.settings := settings;
      spawned := [];
      spawningEnabled := false;
      nextSpawnTime := 0.0;
      destroyed := [];
    }

    /** The OnStateChanged subscriber: Playing starts spawning, any other state stops it and
        clears the live masks. */
    method HandleStateChanged(state: GameState, now: real, draw: real)
      requires Valid()
      modifies this
      ensures Valid()
      ensures state == Playing ==>
        && spawningEnabled && spawned == old(spawned) && destroyed == old(destroyed)
        && nextSpawnTime == (if old(spawningEnabled) then old(nextSpawnTime) else now + draw)
      ensures state != Playing ==>
        && !spawningEnabled && spawned == [] && nextSpawnTime == old(nextSpawnTime)
        && destroyed == old(destroyed) + Reversed(old(spawned))
    {
      if state == Playing {
        StartSpawning(now, draw);
      } else {
        StopSpawning();
        ClearAllMasks();
      }
    }

    /** One frame. draw stands for Random.Range(spawnIntervalMin, spawnIntervalMax),
        candidates for the placement draws, dataPick and prefabPick for the two index draws
        (reduced modulo the list lengths). made is the new mask, or null. */
    method Update(now: real, draw: real, managerState: Option<GameState>, candidates: seq<Candidate>,
                  dataPick: nat, prefabPick: nat) returns (made: Mask?)
      requires Valid() && |candidates| >= MaxAttempts
      modifies this
      ensures Valid()
      ensures spawningEnabled == old(spawningEnabled) && destroyed == old(destroyed)
      ensures var plan := UpdatePlan(old(spawningEnabled), managerState, |old(spawned)|, settings.maxMasks, now, old(nextSpawnTime));
        && nextSpawnTime == (if plan == Idle then old(nextSpawnTime) else now + draw)
        && (plan == AttemptAndReschedule ==>
              var p := PlanSpawn(settings, |old(spawned)|, candidates, dataPick, prefabPick);
              && (p.None? ==> made == null && spawned == old(spawned))
              && (p.Some? ==> made != null && fresh(made) && made.data == p.value.data && spawned == old(spawned) + [made]))
        && (plan != AttemptAndReschedule ==> made == null && spawned == old(spawned))
      ensures |spawned| == CountAfterUpdate(settings, old(spawningEnabled), managerState, |old(spawned)|, now,
                                            old(nextSpawnTime), candidates, dataPick, prefabPick)
    {
      made := null;
      if !spawningEnabled || managerState != Some(Playing) {
        return;
      }
      if |spawned| >= settings.maxMasks {
        nextSpawnTime := now + draw;
        return;
      }
      if now >= nextSpawnTime {
        made := TrySpawnOne(candidates, dataPick, prefabPick);
        nextSpawnTime := now + draw;
      }
    }

    method StartSpawning(now: real, draw: real)
      modifies this`spawningEnabled, this`nextSpawnTime
      ensures spawningEnabled
      ensures nextSpawnTime == if old(spawningEnabled) then old(nextSpawnTime) else now + draw
    {
      if spawningEnabled {
        return;
      }
      spawningEnabled := true;
      nextSpawnTime := now + draw;
    }

    method StopSpawning()
      modifies this`spawningEnabled
      ensures !spawningEnabled
    {
      spawningEnabled := false;
    }

    /** One spawn attempt: capacity re-check, up to MaxAttempts placement draws, then a new
        mask from the drawn prefab, initialized with the drawn data, appended to the list. */
    method TrySpawnOne(candidates: seq<Candidate>, dataPick: nat, prefabPick: nat) returns (made: Mask?)
      requires Valid() && |candidates| >= MaxAttempts
      modifies this`spawned
      ensures Valid()
      ensures var p := PlanSpawn(settings, |old(spawned)|, candidates, dataPick, prefabPick);
        && (p.None? ==> made == null && spawned == old(spawned))
        && (p.Some? ==> made != null && fresh(made) && made.data == p.value.data && spawned == old(spawned) + [made])
    {
      made := null;
      if !settings.hasSpawnArea {
        return;
      }
      if |spawned| >= settings.maxMasks {
        return;
      }
      var attempts := 0;
      var found := false;
      while true
        invariant 0 <= attempts < MaxAttempts
        invariant forall j :: 0 <= j < attempts ==> !Accepted(candidates[j], settings.minDistanceFromPlayers)
        invariant !found
        decreases MaxAttempts - attempts
      {
        var point := candidates[attempts];
        attempts := attempts + 1;
        if Accepted(point, settings.minDistanceFromPlayers) {
          found := true;
          break;
        }
        if attempts >= MaxAttempts {
          break;
        }
      }
      if !found {
        return;
      }
      var dataIndex := 0;
      if |settings.maskDatas| > 0 {
        dataIndex := dataPick % |settings.maskDatas|;
      }
      var prefab: Option<MaskPrefab> := None;
      if |settings.maskPrefabs| > 0 {
        prefab := settings.maskPrefabs[prefabPick % |settings.maskPrefabs|];
      }
      if prefab.None? {
        return;
      }
      var go := new Mask(prefab.value.data);
      if |settings.maskDatas| > 0 {
        go.Initialize(settings.maskDatas[dataIndex]);
      }
      spawned := spawned + [go];
      made := go;
    }

    /** Destroys every live mask, last first, and empties the list. */
    method ClearAllMasks()
      modifies this`spawned, this`destroyed
      ensures spawned == [] && destroyed == old(destroyed) + Reversed(old(spawned))
    {
      var i := |spawned| - 1;
      while i >= 0
        invariant -1 <= i < |spawned|
        invariant spawned == old(spawned)
        invariant destroyed == old(destroyed) + Reversed(spawned[i + 1..])
      {
        assert spawned[i..][1..] == spawned[i + 1..];
        destroyed := destroyed + [spawned[i]];
        i := i - 1;
      }
      assert spawned[0..] == spawned;
      spawned := [];
    }

    /** The watcher's report that a mask object was destroyed: forget it if it is listed. */
    method NotifyMaskDestroyed(maskObject: Mask)
      requires Valid()
      modifies this`spawned
      ensures Valid()
      ensures spawned == RemoveFirst(old(spawned), maskObject)
      ensures maskObject !in spawned
      ensures forall m :: m != maskObject ==> (m in spawned <==> m in old(spawned))
    {
      RemoveFirstDropsOnlyIt(spawned, maskObject);
      if maskObject in spawned {
        spawned := RemoveFirst(spawned, maskObject);
      }
    }
  }
}
