/**
 * The streaming settings asset. Its editor validation hook clamps each
 * field in place, in a fixed statement order in which later bounds use
 * the already clamped values of earlier fields.
 */
module StreamerSettings {
  import opened Wrappers

  /** The serialized fields of the settings asset; floats are modelled as reals. */
  datatype SettingsValue = SettingsValue(
    chunkSize: real,
    loadRadius: int,
    unloadRadius: int,
    maxConcurrentLoads: int,
    maxRetries: int,
    retryBaseDelaySeconds: real,
    lodMediumRadius: int,
    lodLowRadius: int,
    memoryBudgetMB: real,
    minProtectedRadius: int,
    fadeInDuration: real,
    enableFadeIn: bool,
    enableDebugGizmos: bool,
    enableDebugLogging: bool)

  /** The values a new settings asset starts with. */
  const Defaults := SettingsValue(100.0, 3, 4, 3, 3, 0.5, 5, 8, 512.0, 1, 0.5, true, false, false)

  const BytesPerMB: real := 1048576.0

  /** The clamps of the validation hook on the streaming and retry fields, in statement order. */
  function ValidatedStreaming(s: SettingsValue): SettingsValue
  {
    var chunkSize := MaxReal(1.0, s.chunkSize);
    var loadRadius := Max(1, s.loadRadius);
    var unloadRadius := Max(loadRadius, s.unloadRadius);
    var maxConcurrentLoads := Max(1, s.maxConcurrentLoads);
    var maxRetries := Max(0, s.maxRetries);
    var retryBaseDelaySeconds := MaxReal(0.1, s.retryBaseDelaySeconds);
    s.(chunkSize := chunkSize, loadRadius := loadRadius, unloadRadius := unloadRadius,
       maxConcurrentLoads := maxConcurrentLoads, maxRetries := maxRetries,
       retryBaseDelaySeconds := retryBaseDelaySeconds)
  }

  /** The clamps that follow: the level-of-detail radii against the load radius, the budget and the fade. */
  function ValidatedDetail(s: SettingsValue): SettingsValue
  {
    var lodMediumRadius := Max(s.loadRadius, s.lodMediumRadius);
    var lodLowRadius := Max(lodMediumRadius, s.lodLowRadius);
    var memoryBudgetMB := MaxReal(100.0, s.memoryBudgetMB);
    var minProtectedRadius := Max(0, s.minProtectedRadius);
    var fadeInDuration := MaxReal(0.0, s.fadeInDuration);
    s.(lodMediumRadius := lodMediumRadius, lodLowRadius := lodLowRadius, memoryBudgetMB := memoryBudgetMB,
       minProtectedRadius := minProtectedRadius, fadeInDuration := fadeInDuration)
  }

  /** The clamps of the validation hook, applied one field after another. */
  function Validated(s: SettingsValue): SettingsValue
  {
    ValidatedDetail(ValidatedStreaming(s))
  }

  /** Every bound the validation hook establishes, including the ordering of the radii. */
  predicate InBounds(s: SettingsValue)
  {
    && s.chunkSize >= 1.0
    && 1 <= s.loadRadius <= s.unloadRadius
    && s.maxConcurrentLoads >= 1
    && s.maxRetries >= 0
    && s.retryBaseDelaySeconds >= 0.1
    && s.loadRadius <= s.lodMediumRadius <= s.lodLowRadius
    && s.memoryBudgetMB >= 100.0
    && s.minProtectedRadius >= 0
    && s.fadeInDuration >= 0.0
  }

  /** After validation every bound holds. */
  lemma ValidatedInBounds(s: SettingsValue)
    ensures InBounds(Validated(s))
  {
  }

  /** Validation leaves a value alone exactly when it already satisfies every bound. */
  lemma ValidatedFixesExactlyInBounds(s: SettingsValue)
    ensures Validated(s) == s <==> InBounds(s)
  {
    ValidatedInBounds(s);
  }

  /** Validating twice is validating once. */
  lemma ValidatedIdempotent(s: SettingsValue)
    ensures Validated(Validated(s)) == Validated(s)
  {
    ValidatedInBounds(s);
    ValidatedFixesExactlyInBounds(Validated(s));
  }

  /**
   * Field by field, a value that already meets its bound (against the
   * clamped values it is compared with) is kept, and the flags are never touched.
   */
  lemma ValidatedKeepsFieldsInRange(s: SettingsValue)
    ensures var t := Validated(s);
      && (s.chunkSize >= 1.0 ==> t.chunkSize == s.chunkSize)
      && (s.loadRadius >= 1 ==> t.loadRadius == s.loadRadius)
      && (s.unloadRadius >= t.loadRadius ==> t.unloadRadius == s.unloadRadius)
      && (s.maxConcurrentLoads >= 1 ==> t.maxConcurrentLoads == s.maxConcurrentLoads)
      && (s.maxRetries >= 0 ==> t.maxRetries == s.maxRetries)
      && (s.retryBaseDelaySeconds >= 0.1 ==> t.retryBaseDelaySeconds == s.retryBaseDelaySeconds)
      && (s.lodMediumRadius >= t.loadRadius ==> t.lodMediumRadius == s.lodMediumRadius)
      && (s.lodLowRadius >= t.lodMediumRadius ==> t.lodLowRadius == s.lodLowRadius)
      && (s.memoryBudgetMB >= 100.0 ==> t.memoryBudgetMB == s.memoryBudgetMB)
      && (s.minProtectedRadius >= 0 ==> t.minProtectedRadius == s.minProtectedRadius)
      && (s.fadeInDuration >= 0.0 ==> t.fadeInDuration == s.fadeInDuration)
      && t.enableFadeIn == s.enableFadeIn && t.enableDebugGizmos == s.enableDebugGizmos
      && t.enableDebugLogging == s.enableDebugLogging
  {
  }

  /** The defaults already satisfy every bound. */
  lemma DefaultsInBounds()
    ensures InBounds(Defaults) && Validated(Defaults) == Defaults
  {
    ValidatedFixesExactlyInBounds(Defaults);
  }

  /** The budget in bytes: the megabyte figure times 1024 * 1024. */
  function BudgetBytes(s: SettingsValue): (b: real)
    ensures b / BytesPerMB == s.memoryBudgetMB
    ensures s.memoryBudgetMB >= 100.0 ==> b >= 100.0 * BytesPerMB
  {
    s.memoryBudgetMB * 1024.0 * 1024.0
  }

  /** The settings asset; its fields are rewritten in place by validation. */
  class WorldStreamerSettings {
    var chunkSize: real
    var loadRadius: int
    var unloadRadius: int
    var maxConcurrentLoads: int
    var maxRetries: int
    var retryBaseDelaySeconds: real
    var lodMediumRadius: int
    var lodLowRadius: int
    var memoryBudgetMB: real
    var minProtectedRadius: int
    var fadeInDuration: real
    var enableFadeIn: bool
    var enableDebugGizmos: bool
    var enableDebugLogging: bool

    function View(): SettingsValue
      reads this
    {
      SettingsValue(chunkSize, loadRadius, unloadRadius, maxConcurrentLoads, maxRetries,
                    retryBaseDelaySeconds, lodMediumRadius, lodLowRadius, memoryBudgetMB,
                    minProtectedRadius, fadeInDuration, enableFadeIn, enableDebugGizmos, enableDebugLogging)
    }

    constructor()
      ensures View() == Defaults
    {
      chunkSize, loadRadius, unloadRadius, maxConcurrentLoads, maxRetries := 100.0, 3, 4, 3, 3;
      retryBaseDelaySeconds, lodMediumRadius, lodLowRadius, memoryBudgetMB := 0.5, 5, 8, 512.0;
      minProtectedRadius, fadeInDuration := 1, 0.5;
      enableFadeIn, enableDebugGizmos, enableDebugLogging := true, false, false;
    }

    /** The derived budget getter. */
    function MemoryBudgetBytes(): (b: real)
      reads this
      ensures b == BudgetBytes(View())
    {
      memoryBudgetMB * 1024.0 * 1024.0
    }

    /** The first six clamps of the validation hook. */
    method ClampStreaming()
      modifies this
      ensures View() == ValidatedStreaming(old(View()))
    {
      chunkSize := MaxReal(1.0, chunkSize);
      loadRadius := Max(1, loadRadius);
      unloadRadius := Max(loadRadius, unloadRadius);
      maxConcurrentLoads := Max(1, maxConcurrentLoads);
      maxRetries := Max(0, maxRetries);
      retryBaseDelaySeconds := MaxReal(0.1, retryBaseDelaySeconds);
    }

    /** The remaining clamps, which read the load radius already clamped. */
    method ClampDetail()
      modifies this
      ensures View() == ValidatedDetail(old(View()))
    {
      lodMediumRadius := Max(loadRadius, lodMediumRadius);
      lodLowRadius := Max(lodMediumRadius, lodLowRadius);
      memoryBudgetMB := MaxReal(100.0, memoryBudgetMB);
      minProtectedRadius := Max(0, minProtectedRadius);
      fadeInDuration := MaxReal(0.0, fadeInDuration);
    }

    /** The editor validation hook: each clamp reads the fields already clamped above it. */
    method OnValidate()
      modifies this
      ensures View() == Validated(old(View()))
    {
      ClampStreaming();
      ClampDetail();
    }
  }
}
