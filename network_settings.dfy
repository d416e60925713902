/**
 * The networking settings asset: room, player and connection options, and
 * an editor validation hook that clamps the room size and the two Photon
 * rates in place.
 */
module NetworkSettingsAsset {
  import opened Wrappers

  /** The two network modes; Photon's offline mode stands in for a local session. */
  datatype NetworkMode = Offline | Online

  /** The serialized fields of the settings asset. */
  datatype NetworkSettingsValue = NetworkSettingsValue(
    defaultMode: NetworkMode,
    maxPlayersPerRoom: Byte,
    autoRoomPrefix: string,
    playerPrefabName: string,
    autoSpawnOnJoin: bool,
    autoJoinLobby: bool,
    photonSendRate: int,
    photonSerializationRate: int,
    enableDebugUI: bool,
    enableDebugLogging: bool)

  /** The values a new settings asset starts with. */
  const Defaults := NetworkSettingsValue(Offline, 8, "Room_", "NetworkPlayer", true, true, 20, 10, false, false)

  /** The three clamps of the validation hook; every other field is kept. */
  function Validated(s: NetworkSettingsValue): NetworkSettingsValue
  {
    s.(maxPlayersPerRoom := Clamp(s.maxPlayersPerRoom, 1, 20),
       photonSendRate := Clamp(s.photonSendRate, 5, 60),
       photonSerializationRate := Clamp(s.photonSerializationRate, 5, 30))
  }

  /** Every bound the validation hook establishes. */
  predicate InBounds(s: NetworkSettingsValue)
  {
    && 1 <= s.maxPlayersPerRoom <= 20
    && 5 <= s.photonSendRate <= 60
    && 5 <= s.photonSerializationRate <= 30
  }

  /**
   * After validation every bound holds; a field already within its bound is
   * kept, one below it becomes the lower bound, one above it the upper bound.
   */
  lemma ValidatedClamps(s: NetworkSettingsValue)
    ensures var t := Validated(s);
      && InBounds(t)
      && (1 <= s.maxPlayersPerRoom <= 20 ==> t.maxPlayersPerRoom == s.maxPlayersPerRoom)
      && (s.maxPlayersPerRoom < 1 ==> t.maxPlayersPerRoom == 1)
      && (s.maxPlayersPerRoom > 20 ==> t.maxPlayersPerRoom == 20)
      && (5 <= s.photonSendRate <= 60 ==> t.photonSendRate == s.photonSendRate)
      && (s.photonSendRate < 5 ==> t.photonSendRate == 5)
      && (s.photonSendRate > 60 ==> t.photonSendRate == 60)
      && (5 <= s.photonSerializationRate <= 30 ==> t.photonSerializationRate == s.photonSerializationRate)
      && (s.photonSerializationRate < 5 ==> t.photonSerializationRate == 5)
      && (s.photonSerializationRate > 30 ==> t.photonSerializationRate == 30)
  {
  }

  /** Validation leaves a value alone exactly when it already satisfies every bound. */
  lemma ValidatedFixesExactlyInBounds(s: NetworkSettingsValue)
    ensures Validated(s) == s <==> InBounds(s)
  {
    ValidatedClamps(s);
  }

  /** Validating twice is validating once. */
  lemma ValidatedIdempotent(s: NetworkSettingsValue)
    ensures Validated(Validated(s)) == Validated(s)
  {
    ValidatedClamps(s);
    ValidatedFixesExactlyInBounds(Validated(s));
  }

  /** The defaults already satisfy every bound. */
  lemma DefaultsInBounds()
    ensures InBounds(Defaults) && Validated(Defaults) == Defaults
  {
    ValidatedFixesExactlyInBounds(Defaults);
  }

  /** The settings asset; validation rewrites three of its fields in place. */
  class NetworkSettings {
    var defaultMode: NetworkMode
    var maxPlayersPerRoom: Byte
    var autoRoomPrefix: string
    var playerPrefabName: string
    var autoSpawnOnJoin: bool
    var autoJoinLobby: bool
    var photonSendRate: int
    var photonSerializationRate: int
    var enableDebugUI: bool
    var enableDebugLogging: bool

    function View(): NetworkSettingsValue
      reads this
    {
      NetworkSettingsValue(defaultMode, maxPlayersPerRoom, autoRoomPrefix, playerPrefabName, autoSpawnOnJoin,
                           autoJoinLobby, photonSendRate, photonSerializationRate, enableDebugUI, enableDebugLogging)
    }

    constructor()
      ensures View() == Defaults
    {
      defaultMode, maxPlayersPerRoom, autoRoomPrefix, playerPrefabName := Offline, 8, "Room_", "NetworkPlayer";
      autoSpawnOnJoin, autoJoinLobby, photonSendRate, photonSerializationRate := true, true, 20, 10;
      enableDebugUI, enableDebugLogging := false, false;
    }

    /** The editor validation hook. */
    method OnValidate()
      modifies this
      ensures View() == Validated(old(View()))
      ensures InBounds(View())
    {
      maxPlayersPerRoom := Clamp(maxPlayersPerRoom, 1, 20);
      photonSendRate := Clamp(photonSendRate, 5, 60);
      photonSerializationRate := Clamp(photonSerializationRate, 5, 30);
      ValidatedClamps(old(View()));
    }
  }
}
