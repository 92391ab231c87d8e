/** The package configuration (`config('change-logs.*')`) and the shipped
    defaults of config/change-logs.php. */
module ChangeLogsConfig {
  import opened Values

  /** Each field is the value of the configuration key named beside it.
      `excludedTimestamps` is the key `excluded_timestamps`, which the model
      trait reads but the shipped file does not define (it defines
      `exclude_timestamps`); `None` means the key is absent. */
  datatype Config = Config(
    enabled: bool,                    // enabled
    userModel: string,                // user_model
    logModel: string,                 // log_model
    trackIp: bool,                    // track_ip
    trackUserAgent: bool,             // track_user_agent
    trackMethod: bool,                // track_method
    trackEndpoint: bool,              // track_endpoint
    logPerField: bool,                // log_per_field
    hiddenFields: seq<string>,        // hidden_fields
    excludeTimestamps: bool,          // exclude_timestamps
    excludedTimestamps: Option<bool>, // excluded_timestamps
    trackActions: map<string, bool>,  // track_actions
    queueEnabled: bool,               // queue.enabled
    queueConnection: Option<string>,  // queue.connection
    queueName: string,                // queue.queue
    cleanupEnabled: bool,             // cleanup.enabled
    cleanupDays: int,                 // cleanup.days
    limit: int                        // limit
  )

  const DefaultHiddenFields: seq<string> :=
    ["password", "password_confirmation", "remember_token", "api_token",
     "secret", "secret_key", "email_verified_at"]

  /** The timestamp bookkeeping columns that the timestamp flags exclude. */
  const TimestampFields: seq<string> := ["created_at", "updated_at", "deleted_at"]

  /** The configuration as shipped, with every environment variable unset. */
  const Shipped: Config := Config(
    enabled := true,
    userModel := "App\\Models\\User",
    logModel := "Imamsudarajat04\\ChangeLogs\\Models\\ChangeLog",
    trackIp := true,
    trackUserAgent := true,
    trackMethod := true,
    trackEndpoint := true,
    logPerField := false,
    hiddenFields := DefaultHiddenFields,
    excludeTimestamps := true,
    excludedTimestamps := None,
    trackActions := map["create" := true, "update" := true, "delete" := true, "restore" := true],
    queueEnabled := false,
    queueConnection := None,
    queueName := "default",
    cleanupEnabled := false,
    cleanupDays := 365,
    limit := 20
  )

  /** `config("change-logs.track_actions.{$key}", true)`: a missing key reads as true. */
  function TrackAction(cfg: Config, key: string): bool {
    if key in cfg.trackActions then cfg.trackActions[key] else true
  }

  /** `config('change-logs.excluded_timestamps', true)`: a missing key reads as true. */
  function ExcludedTimestampsFlag(cfg: Config): bool {
    cfg.excludedTimestamps.GetOr(true)
  }

  /** What the shipped file leaves a caller with: every action tracked (also
      any action it does not list), timestamps excluded through either key,
      one bulk row per update, no queue and no scheduled cleanup. */
  lemma ShippedDefaults(key: string)
    ensures TrackAction(Shipped, key)
    ensures ExcludedTimestampsFlag(Shipped) && Shipped.excludeTimestamps
    ensures Shipped.enabled && !Shipped.logPerField && !Shipped.queueEnabled
    ensures !Shipped.cleanupEnabled && Shipped.cleanupDays == 365 && Shipped.limit == 20
    ensures Shipped.hiddenFields == ["password", "password_confirmation", "remember_token", "api_token",
                                     "secret", "secret_key", "email_verified_at"]
    ensures Shipped.trackIp && Shipped.trackUserAgent && Shipped.trackMethod && Shipped.trackEndpoint
  {
  }
}
