/**
 * The backend connection settings asset: project URL, public key, request
 * timeout, retry budget and upload size limit, with a validity test and the
 * message that explains a failed one.
 */
module SupabaseConfig {

  /** The serialized fields; a null string is modelled as the empty one, the float timeout as a real. */
  datatype SupabaseSettings = SupabaseSettings(
    supabaseUrl: string,
    anonKey: string,
    requestTimeout: real,
    maxRetryAttempts: int,
    maxUploadSizeMB: Int64)

  /** The values a new settings asset starts with. */
  const Defaults := SupabaseSettings("", "", 30.0, 3, 50)

  const TwoTo63: int := 0x8000_0000_0000_0000
  const TwoTo64: int := 0x1_0000_0000_0000_0000

  /** A signed 64-bit integer, as the megabyte field is declared. */
  newtype Int64 = x: int | -0x8000_0000_0000_0000 <= x < 0x8000_0000_0000_0000

  /** Two's-complement wrap-around of a 64-bit signed integer. */
  function WrapInt64(x: int): (r: int)
    ensures -TwoTo63 <= r < TwoTo63
    ensures -TwoTo63 <= x < TwoTo63 ==> r == x
    ensures (r - x) % TwoTo64 == 0
  {
    (x + TwoTo63) % TwoTo64 - TwoTo63
  }

  /** The upload limit in bytes: megabytes times 1024 * 1024 in 64-bit arithmetic. */
  function MaxUploadSizeBytes(s: SupabaseSettings): (b: int)
    ensures -TwoTo63 <= s.maxUploadSizeMB as int * 1048576 < TwoTo63 ==> b == s.maxUploadSizeMB as int * 1048576
    ensures -TwoTo63 <= b < TwoTo63 && (b - s.maxUploadSizeMB as int * 1048576) % TwoTo64 == 0
  {
    var once := WrapInt64(s.maxUploadSizeMB as int * 1024);
    WrappedScaleCongruent(s.maxUploadSizeMB as int * 1024, once, 1024);
    WrapInt64(once * 1024)
  }

  /** Scaling a wrapped value and the original by the same factor keeps them congruent modulo 2^64. */
  lemma WrappedScaleCongruent(x: int, w: int, k: int)
    requires (w - x) % TwoTo64 == 0
    ensures (WrapInt64(w * k) - x * k) % TwoTo64 == 0
  {
    var q := (w - x) / TwoTo64;
    assert w - x == q * TwoTo64;
    assert w * k - x * k == (q * k) * TwoTo64;
    var r := (WrapInt64(w * k) - w * k) / TwoTo64;
    assert WrapInt64(w * k) - w * k == r * TwoTo64;
    assert WrapInt64(w * k) - x * k == (r + q * k) * TwoTo64;
  }

  /** Both the URL and the key are set. */
  predicate IsValid(s: SupabaseSettings)
  {
    |s.supabaseUrl| > 0 && |s.anonKey| > 0
  }

  const MissingUrl: string := "SupabaseUrl が設定されていません"
  const MissingKey: string := "AnonKey が設定されていません"

  /** Names the first missing setting, URL before key; empty when the settings are valid. */
  function GetValidationError(s: SupabaseSettings): (message: string)
    ensures message == "" <==> IsValid(s)
    ensures |s.supabaseUrl| == 0 ==> message == MissingUrl
    ensures |s.supabaseUrl| > 0 && |s.anonKey| == 0 ==> message == MissingKey
  {
    if |s.supabaseUrl| == 0 then MissingUrl
    else if |s.anonKey| == 0 then MissingKey
    else ""
  }

  /** The default limit of 50 MB is 52428800 bytes, and the default settings are not yet valid. */
  lemma DefaultsUploadLimit()
    ensures MaxUploadSizeBytes(Defaults) == 52428800
    ensures !IsValid(Defaults) && GetValidationError(Defaults) == MissingUrl
  {
  }

  /** A limit of 2^43 MB or more no longer fits in 64 bits: 2^43 MB wraps round to the most negative value. */
  lemma UploadLimitWraps()
    ensures MaxUploadSizeBytes(Defaults.(maxUploadSizeMB := 0x800_0000_0000)) == -TwoTo63
  {
  }
}
