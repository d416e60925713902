/**
 * The player spawn manager: it spawns the local player through Photon at a
 * spawn point not yet taken, remembers which spawn points it has handed
 * out, and destroys the local player on leaving the room. The scene's spawn
 * points (in the order the engine lists them), the local actor number and
 * whether Photon accepts an instantiation are inputs.
 */
module PlayerSpawning {
  import opened Wrappers
  import opened NetworkSettingsAsset
  import opened NetworkModes

  datatype Vector3 = Vector3(x: real, y: real, z: real)
  datatype Quaternion = Quaternion(x: real, y: real, z: real, w: real)

  /** A spawn point's world position and rotation. */
  datatype Pose = Pose(position: Vector3, rotation: Quaternion)

  /** The origin with the identity rotation, used when the scene has no spawn points. */
  const Origin := Pose(Vector3(0.0, 0.0, 0.0), Quaternion(0.0, 0.0, 0.0, 1.0))

  const DefaultPrefabName := "NetworkPlayer"

  /** A networked player object; `serial` is the position of the Photon call that created it. */
  datatype PlayerInstance = PlayerInstance(serial: nat, prefabName: string, pose: Pose)

  /** The Photon calls the manager makes. */
  datatype SpawnCall = Instantiate(prefabName: string, pose: Pose) | Destroy(player: PlayerInstance)

  /** The remainder of integer division truncated toward zero, as C#'s `%`: it takes the sign of the dividend. */
  function TruncatedRemainder(a: int, n: int): (r: int)
    requires n > 0
    ensures a >= 0 ==> r == a % n
    ensures a < 0 ==> -n < r <= 0 && (a - r) % n == 0
  {
    if a >= 0 then a % n
    else
      MagnitudeRemainder(a, n);
      -((-a) % n)
  }

  lemma MagnitudeRemainder(a: int, n: int)
    requires a < 0 < n
    ensures (a + (-a) % n) % n == 0
  {
    var q := (-a) / n;
    assert -a == q * n + (-a) % n;
    assert a + (-a) % n == (-q) * n;
    MultipleHasNoRemainder(-q, n);
  }

  lemma MultipleHasNoRemainder(q: int, n: int)
    requires n > 0
    ensures (q * n) % n == 0
  {
    var m := q * n;
    var d := q - m / n;
    assert m % n == d * n;
  }

  /** Every index from 0 up to n is taken. */
  predicate AllTaken(occupied: set<int>, n: int)
  {
    forall i :: 0 <= i < n ==> i in occupied
  }

  /** The lowest index in [from, n) not yet taken, or -1 when there is none. */
  function FirstFree(occupied: set<int>, n: int, from: nat): (i: int)
    ensures i == -1 <==> forall j :: from <= j < n ==> j in occupied
    ensures i != -1 ==> from <= i < n && i !in occupied && forall j :: from <= j < i ==> j in occupied
    decreases n - from
  {
    if from >= n then -1
    else if from !in occupied then from
    else FirstFree(occupied, n, from + 1)
  }

  /**
   * The spawn point index chosen among n points: the lowest one not taken;
   * when all are taken, the local actor number minus one, modulo n.
   */
  function SpawnIndex(occupied: set<int>, n: int, actorNumber: int): (i: int)
    requires n > 0
    ensures -n < i < n
    ensures !AllTaken(occupied, n) ==> 0 <= i && i !in occupied && forall j :: 0 <= j < i ==> j in occupied
    ensures AllTaken(occupied, n) ==> i == TruncatedRemainder(actorNumber - 1, n)
  {
    var free := FirstFree(occupied, n, 0);
    if free == -1 then TruncatedRemainder(actorNumber - 1, n) else free
  }

  /** Photon's actor numbers start at 1, and for those the chosen index is always a valid spawn point. */
  lemma SpawnIndexInRange(occupied: set<int>, n: int, actorNumber: int)
    requires n > 0 && actorNumber >= 1
    ensures 0 <= SpawnIndex(occupied, n, actorNumber) < n
  {
  }

  /** An actor number of 0 or less, with every point taken, selects a negative index unless it is a multiple of n. */
  lemma NonPositiveActorSelectsNegativeIndex(occupied: set<int>, n: int, actorNumber: int)
    requires n > 0 && actorNumber <= 0 && AllTaken(occupied, n)
    requires (actorNumber - 1) % n != 0
    ensures SpawnIndex(occupied, n, actorNumber) < 0
  {
  }

  /** The spawn points taken after k spawns into an empty record, each chosen afresh. */
  function TakenAfter(n: int, actors: seq<int>): set<int>
    requires n > 0
  {
    if |actors| == 0 then {}
    else
      var before := TakenAfter(n, actors[..|actors| - 1]);
      before + {SpawnIndex(before, n, actors[|actors| - 1])}
  }

  /** Successive spawns without a clear take the points in order, 0, 1, 2, ..., whatever the actor numbers. */
  lemma {:induction false} SpawnsTakePointsInOrder(n: int, actors: seq<int>)
    requires 0 < n && |actors| <= n
    ensures forall i :: i in TakenAfter(n, actors) <==> 0 <= i < |actors|
    ensures |actors| > 0 ==> SpawnIndex(TakenAfter(n, actors[..|actors| - 1]), n, actors[|actors| - 1]) == |actors| - 1
    decreases |actors|
  {
    if |actors| > 0 {
      var k := |actors| - 1;
      var prefix := actors[..k];
      SpawnsTakePointsInOrder(n, prefix);
      var before := TakenAfter(n, prefix);
      assert k !in before && k < n;
      var chosen := SpawnIndex(before, n, actors[k]);
      assert 0 <= chosen && chosen !in before;
      assert chosen == k;
      assert TakenAfter(n, actors) == before + {k};
    }
  }

  class PlayerSpawnManager {
    var settings: NetworkSettings?
    var localPlayer: Option<PlayerInstance>
    var occupied: set<int>
    /** The Photon calls made so far, oldest first. */
    var photonCalls: seq<SpawnCall>

    constructor(settings: NetworkSettings?)
      ensures this.settings == settings && localPlayer.None? && occupied == {} && photonCalls == []
    {
      this.settings := settings;
      localPlayer := None;
      occupied := {};
      photonCalls := [];
    }

    /** The prefab to spawn: the settings' name, or "NetworkPlayer" without settings. */
    function PrefabName(): (name: string)
      reads this, settings
      ensures settings == null ==> name == DefaultPrefabName
      ensures settings != null ==> name == settings.playerPrefabName
    {
      if settings != null then settings.playerPrefabName else DefaultPrefabName
    }

    /** Start-up: without settings of its own, the manager takes the mode manager's, if there is one. */
    method Start(modeManager: NetworkModeManager?)
      modifies this
      ensures settings == if old(settings) == null && modeManager != null then modeManager.settings else old(settings)
      ensures localPlayer == old(localPlayer) && occupied == old(occupied) && photonCalls == old(photonCalls)
    {
      if settings == null && modeManager != null {
        settings := modeManager.settings;
      }
    }

    /**
     * Picks a spawn pose and records its index as taken. With no spawn
     * points the pose is the origin and nothing is recorded. A negative
     * index is recorded too, and then reading the spawn point fails (None).
     */
    method GetSpawnTransform(spawnPoints: seq<Pose>, actorNumber: int) returns (pose: Option<Pose>)
      modifies this
      ensures |spawnPoints| == 0 ==> pose == Some(Origin) && occupied == old(occupied)
      ensures |spawnPoints| > 0 ==>
                var i := SpawnIndex(old(occupied), |spawnPoints|, actorNumber);
                && occupied == old(occupied) + {i}
                && pose == if 0 <= i then Some(spawnPoints[i]) else None
      ensures settings == old(settings) && localPlayer == old(localPlayer) && photonCalls == old(photonCalls)
    {
      if |spawnPoints| == 0 {
        return Some(Origin);
      }
      var selectedIndex := -1;
      var i := 0;
      while i < |spawnPoints|
        invariant 0 <= i <= |spawnPoints|
        invariant forall j :: 0 <= j < i ==> j in occupied
      {
        if i !in occupied {
          selectedIndex := i;
          break;
        }
        i := i + 1;
      }
      if selectedIndex == -1 {
        selectedIndex := TruncatedRemainder(actorNumber - 1, |spawnPoints|);
      }
      occupied := occupied + {selectedIndex};
      if selectedIndex < 0 {
        return None;
      }
      pose := Some(spawnPoints[selectedIndex]);
    }

    /**
     * Spawns the local player unless one exists, which is returned as it is.
     * `instantiates` says whether Photon accepts the instantiation (it
     * returns null outside a room). `failed` reports that reading the spawn
     * point failed: nothing is instantiated then.
     */
    method SpawnLocalPlayer(spawnPoints: seq<Pose>, actorNumber: int, instantiates: bool)
      returns (player: Option<PlayerInstance>, failed: bool)
      modifies this
      ensures settings == old(settings)
      ensures old(localPlayer).Some? ==>
                && player == old(localPlayer) && !failed
                && localPlayer == old(localPlayer) && occupied == old(occupied) && photonCalls == old(photonCalls)
      ensures old(localPlayer).None? && |spawnPoints| == 0 ==>
                && !failed && occupied == old(occupied)
                && photonCalls == old(photonCalls) + [Instantiate(PrefabName(), Origin)]
                && localPlayer == (if instantiates then Some(PlayerInstance(|old(photonCalls)|, PrefabName(), Origin)) else None)
                && player == localPlayer
      ensures old(localPlayer).None? && |spawnPoints| > 0 ==>
                var i := SpawnIndex(old(occupied), |spawnPoints|, actorNumber);
                && occupied == old(occupied) + {i}
                && (i < 0 ==> failed && player.None? && localPlayer.None? && photonCalls == old(photonCalls))
                && (0 <= i ==>
                      && !failed
                      && photonCalls == old(photonCalls) + [Instantiate(PrefabName(), spawnPoints[i])]
                      && localPlayer == (if instantiates then Some(PlayerInstance(|old(photonCalls)|, PrefabName(), spawnPoints[i])) else None)
                      && player == localPlayer)
    {
      if localPlayer.Some? {
        return localPlayer, false;
      }
      var prefabName := if settings != null then settings.playerPrefabName else DefaultPrefabName;
      var pose := GetSpawnTransform(spawnPoints, actorNumber);
      if pose.None? {
        return None, true;
      }
      var created := PlayerInstance(|photonCalls|, prefabName, pose.value);
      photonCalls := photonCalls + [Instantiate(prefabName, pose.value)];
      localPlayer := if instantiates then Some(created) else None;
      return localPlayer, false;
    }

    /** Destroys the local player and frees every spawn point, if there is a local player; otherwise does nothing. */
    method CleanupLocalPlayer()
      modifies this
      ensures settings == old(settings)
      ensures old(localPlayer).None? ==>
                localPlayer.None? && occupied == old(occupied) && photonCalls == old(photonCalls)
      ensures old(localPlayer).Some? ==>
                localPlayer.None? && occupied == {} && photonCalls == old(photonCalls) + [Destroy(old(localPlayer).value)]
    {
      if localPlayer.Some? {
        photonCalls := photonCalls + [Destroy(localPlayer.value)];
        localPlayer := None;
        occupied := {};
      }
    }

    /** Another player left: every spawn point is freed; the local player stays. */
    method OnPlayerLeftRoom()
      modifies this
      ensures occupied == {}
      ensures settings == old(settings) && localPlayer == old(localPlayer) && photonCalls == old(photonCalls)
    {
      occupied := {};
    }

    /** Joining a room spawns the local player when the settings ask for it. */
    method OnJoinedRoom(spawnPoints: seq<Pose>, actorNumber: int, instantiates: bool)
      modifies this
      ensures settings == old(settings)
      ensures settings == null || !settings.autoSpawnOnJoin ==>
                localPlayer == old(localPlayer) && occupied == old(occupied) && photonCalls == old(photonCalls)
      ensures settings != null && settings.autoSpawnOnJoin && old(localPlayer).Some? ==>
                localPlayer == old(localPlayer) && photonCalls == old(photonCalls)
    {
      if settings != null && settings.autoSpawnOnJoin {
        var _, _ := SpawnLocalPlayer(spawnPoints, actorNumber, instantiates);
      }
    }

    /** Leaving the room destroys the local player. */
    method OnLeftRoom()
      modifies this
      ensures settings == old(settings) && localPlayer.None?
      ensures old(localPlayer).Some? ==> occupied == {}
    {
      CleanupLocalPlayer();
    }

    /**
     * Respawning destroys the local player, then spawns a new one. With a
     * local player to start with, every spawn point is free again, so the
     * new one goes to the first spawn point.
     */
    method RespawnLocalPlayer(spawnPoints: seq<Pose>, actorNumber: int, instantiates: bool)
      returns (player: Option<PlayerInstance>, failed: bool)
      modifies this
      ensures settings == old(settings)
      ensures old(localPlayer).Some? && |spawnPoints| > 0 ==>
                && !failed && occupied == {0}
                && photonCalls == old(photonCalls) + [Destroy(old(localPlayer).value), Instantiate(PrefabName(), spawnPoints[0])]
                && player == localPlayer
    {
      CleanupLocalPlayer();
      player, failed := SpawnLocalPlayer(spawnPoints, actorNumber, instantiates);
    }
  }

  /** With every spawn point free, the spawn goes to the first one, whatever the actor number. */
  lemma FreshSpawnTakesFirstPoint(n: int, actorNumber: int)
    requires n > 0
    ensures SpawnIndex({}, n, actorNumber) == 0
  {
    var none: set<int> := {};
    assert 0 !in none;
    assert !AllTaken(none, n);
  }
}
