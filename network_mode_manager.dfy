/**
 * The network mode manager: it holds the current mode (offline or online)
 * and whether a gameplay scene is active, refuses to change mode during
 * gameplay, and drives Photon's offline flag. Photon calls are modelled as
 * a log of the calls made; Photon's room and connection state are inputs.
 */
module NetworkModes {
  import opened Text
  import opened NetworkSettingsAsset

  /** The Photon calls the manager makes, and the mode-changed event it raises. */
  datatype PhotonCall =
    | SetSendRate(rate: int)
    | SetSerializationRate(rate: int)
    | LeaveRoom
    | Disconnect
    | SetOfflineMode(offline: bool)
    | RaiseModeChanged(mode: NetworkMode)

  /** Entering a mode: Photon's offline flag follows the mode, then listeners hear of the new mode. */
  function ApplyCalls(mode: NetworkMode): seq<PhotonCall>
  {
    [SetOfflineMode(mode == Offline), RaiseModeChanged(mode)]
  }

  /** Leaving online play: leave the room if in one, then disconnect if connected. */
  function DisconnectCalls(inRoom: bool, connected: bool): seq<PhotonCall>
  {
    (if inRoom then [LeaveRoom] else []) + (if connected then [Disconnect] else [])
  }

  /** The result of a switch request: whether it was granted, the mode after it, and the calls made. */
  datatype SwitchResult = SwitchResult(ok: bool, mode: NetworkMode, calls: seq<PhotonCall>)

  /**
   * A switch request from `current` to `newMode`. Asking for the current
   * mode is granted and does nothing; during gameplay any change is refused;
   * otherwise the mode changes, and going from online to offline first
   * leaves the room and disconnects.
   */
  function Switch(current: NetworkMode, inGameplay: bool, newMode: NetworkMode, inRoom: bool, connected: bool): (r: SwitchResult)
    ensures r.ok <==> current == newMode || !inGameplay
    ensures r.mode == if r.ok then newMode else current
    ensures current == newMode || !r.ok ==> r.calls == []
  {
    if current == newMode then SwitchResult(true, current, [])
    else if inGameplay then SwitchResult(false, current, [])
    else
      var leaving := if current == Online && newMode == Offline then DisconnectCalls(inRoom, connected) else [];
      SwitchResult(true, newMode, leaving + ApplyCalls(newMode))
  }

  /**
   * A granted change of mode ends by setting the offline flag and raising the
   * event; it leaves the room and disconnects only on the way from online to
   * offline, and only when in a room or connected.
   */
  lemma SwitchCalls(current: NetworkMode, inGameplay: bool, newMode: NetworkMode, inRoom: bool, connected: bool)
    ensures var r := Switch(current, inGameplay, newMode, inRoom, connected);
      current != newMode && r.ok ==>
        |r.calls| >= 2 && r.calls[|r.calls| - 2..] == [SetOfflineMode(newMode == Offline), RaiseModeChanged(newMode)]
    ensures LeaveRoom in Switch(current, inGameplay, newMode, inRoom, connected).calls <==>
              current == Online && newMode == Offline && !inGameplay && inRoom
    ensures Disconnect in Switch(current, inGameplay, newMode, inRoom, connected).calls <==>
              current == Online && newMode == Offline && !inGameplay && connected
  {
    var r := Switch(current, inGameplay, newMode, inRoom, connected);
    if current != newMode && !inGameplay {
      var leaving := if current == Online && newMode == Offline then DisconnectCalls(inRoom, connected) else [];
      assert r.calls == leaving + ApplyCalls(newMode);
      assert r.calls[|r.calls| - 2..] == ApplyCalls(newMode);
      assert LeaveRoom in r.calls <==> LeaveRoom in leaving;
      assert Disconnect in r.calls <==> Disconnect in leaving;
    }
  }

  /** A scene counts as gameplay when its name contains "Gameplay" or "Game". */
  predicate IsGameplayScene(name: string)
  {
    Contains(name, "Gameplay") || Contains(name, "Game")
  }

  /** The "Gameplay" test adds nothing: a scene is gameplay exactly when its name contains "Game". */
  lemma GameplaySceneIffContainsGame(name: string)
    ensures IsGameplayScene(name) <==> Contains(name, "Game")
  {
    if Contains(name, "Gameplay") {
      assert OccursAt("Gameplay", "Game", 0);
      ContainsTransitive(name, "Gameplay", "Game");
    }
  }

  /** Once a switch is granted, asking again for the same mode is granted and changes nothing. */
  lemma SwitchSettles(current: NetworkMode, inGameplay: bool, newMode: NetworkMode, inRoom: bool, connected: bool,
                      inGameplay': bool, inRoom': bool, connected': bool)
    requires Switch(current, inGameplay, newMode, inRoom, connected).ok
    ensures var again := Switch(Switch(current, inGameplay, newMode, inRoom, connected).mode, inGameplay', newMode, inRoom', connected');
      again == SwitchResult(true, newMode, [])
  {
  }

  /** Outside gameplay, switching away and back returns to the starting mode, and both requests are granted. */
  lemma SwitchRoundTrip(current: NetworkMode, newMode: NetworkMode, inRoom: bool, connected: bool)
    ensures var there := Switch(current, false, newMode, inRoom, connected);
      var back := Switch(there.mode, false, current, inRoom, connected);
      there.ok && back.ok && back.mode == current
  {
  }

  class NetworkModeManager {
    var settings: NetworkSettings?
    var currentMode: NetworkMode
    var isInGameplay: bool
    /** The Photon calls made so far, oldest first. */
    var photonCalls: seq<PhotonCall>

    /**
     * Start-up: with a settings asset, the Photon rates are set from it and
     * its default mode is entered; without one nothing is set up and the
     * mode is the enum's default, which is not modelled.
     */
    constructor(settings: NetworkSettings?)
      ensures this.settings == settings && !isInGameplay
      ensures settings == null ==> photonCalls == []
      ensures settings != null ==>
                && currentMode == settings.defaultMode
                && photonCalls == [SetSendRate(settings.photonSendRate), SetSerializationRate(settings.photonSerializationRate)]
                                  + ApplyCalls(settings.defaultMode)
    {
      this.settings := settings;
      isInGameplay := false;
      photonCalls := [];
      new;
      if settings != null {
        photonCalls := [SetSendRate(settings.photonSendRate), SetSerializationRate(settings.photonSerializationRate)];
        ApplyMode(settings.defaultMode);
      }
    }

    /** Records whether the loaded scene is a gameplay scene. */
    method OnSceneLoaded(sceneName: string)
      modifies this
      ensures isInGameplay == Contains(sceneName, "Game")
      ensures settings == old(settings) && currentMode == old(currentMode) && photonCalls == old(photonCalls)
    {
      isInGameplay := Contains(sceneName, "Gameplay") || Contains(sceneName, "Game");
      GameplaySceneIffContainsGame(sceneName);
    }

    method SetInGameplay(inGameplay: bool)
      modifies this
      ensures isInGameplay == inGameplay
      ensures settings == old(settings) && currentMode == old(currentMode) && photonCalls == old(photonCalls)
    {
      isInGameplay := inGameplay;
    }

    /** Requests a mode; `inRoom` and `connected` are Photon's state at the time of the call. */
    method SwitchMode(newMode: NetworkMode, inRoom: bool, connected: bool) returns (ok: bool)
      modifies this
      ensures var r := Switch(old(currentMode), old(isInGameplay), newMode, inRoom, connected);
        ok == r.ok && currentMode == r.mode && photonCalls == old(photonCalls) + r.calls
      ensures settings == old(settings) && isInGameplay == old(isInGameplay)
    {
      if currentMode == newMode {
        return true;
      }
      if isInGameplay {
        return false;
      }
      if currentMode == Online && newMode == Offline {
        if inRoom {
          photonCalls := photonCalls + [LeaveRoom];
        }
        if connected {
          photonCalls := photonCalls + [Disconnect];
        }
      }
      ApplyMode(newMode);
      return true;
    }

    /** Enters a mode unconditionally. */
    method ApplyMode(mode: NetworkMode)
      modifies this
      ensures currentMode == mode && photonCalls == old(photonCalls) + ApplyCalls(mode)
      ensures settings == old(settings) && isInGameplay == old(isInGameplay)
    {
      currentMode := mode;
      match mode {
        case Offline => photonCalls := photonCalls + [SetOfflineMode(true)];
        case Online => photonCalls := photonCalls + [SetOfflineMode(false)];
      }
      photonCalls := photonCalls + [RaiseModeChanged(currentMode)];
    }
  }
}
