/** Process configuration read from the environment (backend/src/config/config.go). */
module Config {
  import opened Optional

  /** The process environment: a variable is either absent from the map or bound to a string. */
  type Env = map<string, string>

  /** os.Getenv: an unset variable reads as "". */
  function Getenv(env: Env, key: string): (v: string)
    ensures key !in env ==> v == ""
  {
    if key in env then env[key] else ""
  }

  /** GetEnv: the variable's value when it is set to something non-empty, otherwise the default. */
  function GetEnv(env: Env, key: string, default: string): (r: string)
    ensures key in env && env[key] != "" ==> r == env[key]
    ensures key !in env ==> r == default
    ensures key in env && env[key] == "" ==> r == default
    ensures r == default || (key in env && r == env[key])
    ensures default != "" ==> r != ""
  {
    var value := Getenv(env, key);
    if value != "" then value else default
  }

  /** The package-level settings the core reads, each initialised once through GetEnv. */
  datatype Settings = Settings(
    kafkaBroker: string, topic: string, dlqTopic: string, dexIssuer: string,
    internalDexIssuer: string, fallbackEnabled: string, oidcMaxAttempts: string,
    clientId: string, audience: string)

  function Load(env: Env): (s: Settings)
    ensures s.topic != "" && s.dlqTopic != "" && s.kafkaBroker != "" && s.audience != ""
    ensures s.fallbackEnabled != "" && s.oidcMaxAttempts != "" && s.dexIssuer != ""
    ensures env == map[] ==>
              && s.topic == "chat-messages" && s.dlqTopic == "chat-messages-dlq"
              && s.oidcMaxAttempts == "8" && s.fallbackEnabled == "true" && s.audience == "backend"
  {
    Settings(
      GetEnv(env, "KAFKA_BROKER", "kafka:9092"),
      GetEnv(env, "KAFKA_TOPIC", "chat-messages"),
      GetEnv(env, "KAFKA_DLQ_TOPIC", "chat-messages-dlq"),
      GetEnv(env, "DEX_ISSUER_URL", "http://dex:5556/dex"),
      GetEnv(env, "DEX_INTERNAL_ISSUER_URL", "http://dex:5556/dex"),
      GetEnv(env, "DEX_OIDC_FALLBACK_ENABLED", "true"),
      GetEnv(env, "DEX_OIDC_MAX_ATTEMPTS", "8"),
      GetEnv(env, "DEX_CLIENT_ID", "backend"),
      GetEnv(env, "DEX_AUDIENCE", "backend"))
  }
}
