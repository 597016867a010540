/**
 * `AppConfig` of config/settings.py: the values the root application reads
 * at import time, and their validation.
 */
module Settings {
  import opened Wrappers

  /** The class attributes that matter to the pipeline; integers are already parsed from the environment. */
  datatype AppConfig = AppConfig(
    openaiApiKey: Option<string>,
    chunkSize: int,
    chunkOverlap: int,
    maxSearchResults: int,
    maxFileSizeMb: int)

  /** The values with no environment overrides; the API key attribute is always `None`. */
  const Defaults := AppConfig(None, 500, 50, 3, 10)

  /** Python truthiness of an optional string. */
  predicate Truthy(s: Option<string>) {
    s.Some? && s.value != ""
  }

  /** `validate_config`. */
  function ValidateConfig(c: AppConfig): (ok: bool)
    ensures !Truthy(c.openaiApiKey) ==> !ok
    ensures c.chunkSize <= 0 || c.chunkOverlap < 0 ==> !ok
    ensures c.chunkOverlap >= c.chunkSize ==> !ok
    ensures ok <==> Truthy(c.openaiApiKey) && 0 <= c.chunkOverlap < c.chunkSize
  {
    if !Truthy(c.openaiApiKey) then false
    else if c.chunkSize <= 0 || c.chunkOverlap < 0 then false
    else if c.chunkOverlap >= c.chunkSize then false
    else true
  }

  /** The default chunk settings satisfy every chunk constraint, though the missing key fails validation. */
  lemma DefaultsChunkConstraints()
    ensures Defaults.chunkSize > 0 && Defaults.chunkOverlap >= 0 && Defaults.chunkOverlap < Defaults.chunkSize
    ensures !ValidateConfig(Defaults)
    ensures ValidateConfig(Defaults.(openaiApiKey := Some("k")))
  {
  }
}
