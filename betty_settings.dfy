/**
 * `AppConfig` of Betty/config/settings.py: provider selection, the
 * retrieval flags read from the environment, and validation.
 */
module BettySettings {
  import opened Wrappers

  datatype AppConfig = AppConfig(
    openaiApiKey: Option<string>,
    anthropicApiKey: Option<string>,
    aiProvider: string,
    chunkSize: int,
    chunkOverlap: int,
    maxSearchResults: int,
    maxFileSizeMb: int,
    useReranking: bool,
    useSemanticChunking: bool)

  predicate Truthy(s: Option<string>) {
    s.Some? && s.value != ""
  }

  /**
   * `bool(os.getenv(name, "True"))`: the flag is the truthiness of the
   * variable's text, defaulting to "True" when it is unset.
   */
  function EnvFlag(value: Option<string>): (flag: bool)
    ensures !flag <==> value == Some("")
  {
    var text := match value case Some(v) => v case None => "True";
    text != ""
  }

  /** The configuration with the given environment flags and no other overrides. */
  function FromEnvironment(useReranking: Option<string>, useSemanticChunking: Option<string>): AppConfig {
    AppConfig(None, None, "claude", 800, 100, 5, 10, EnvFlag(useReranking), EnvFlag(useSemanticChunking))
  }

  /** `validate_config`. */
  function ValidateConfig(c: AppConfig): (ok: bool)
    ensures c.aiProvider == "claude" && !Truthy(c.anthropicApiKey) ==> !ok
    ensures c.aiProvider == "openai" && !Truthy(c.openaiApiKey) ==> !ok
    ensures c.aiProvider != "claude" && c.aiProvider != "openai" ==> !ok
    ensures c.chunkSize <= 0 || c.chunkOverlap < 0 ==> !ok
    ensures c.chunkOverlap >= c.chunkSize ==> !ok
    ensures ok <==>
      (if c.aiProvider == "claude" then Truthy(c.anthropicApiKey)
       else c.aiProvider == "openai" && Truthy(c.openaiApiKey))
      && 0 <= c.chunkOverlap < c.chunkSize
  {
    if c.aiProvider == "claude" && !Truthy(c.anthropicApiKey) then false
    else if c.aiProvider == "openai" && !Truthy(c.openaiApiKey) then false
    else if c.aiProvider != "claude" && c.aiProvider != "openai" then false
    else if c.chunkSize <= 0 || c.chunkOverlap < 0 then false
    else if c.chunkOverlap >= c.chunkSize then false
    else true
  }

  /**
   * Setting a flag to "False" (or any non-empty text) still enables it; only
   * the empty string turns it off.  The default chunk settings satisfy the
   * chunk constraints.
   */
  lemma FlagsAndDefaults(a: Option<string>, b: Option<string>)
    ensures FromEnvironment(Some("False"), Some("0")).useReranking
    ensures FromEnvironment(Some("False"), Some("0")).useSemanticChunking
    ensures FromEnvironment(None, None).useReranking && FromEnvironment(None, None).useSemanticChunking
    ensures !FromEnvironment(Some(""), b).useReranking && !FromEnvironment(a, Some("")).useSemanticChunking
    ensures var c := FromEnvironment(a, b); c.chunkSize > 0 && 0 <= c.chunkOverlap < c.chunkSize
    ensures var c := FromEnvironment(a, b); ValidateConfig(c.(anthropicApiKey := Some("k"))) && !ValidateConfig(c)
  {
  }
}
