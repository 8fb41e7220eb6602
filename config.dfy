/** The environment variables the worker tasks read, already parsed.
    `None` stands for an unset variable; each task applies its own default. */
module Config {
  import opened Wrappers

  datatype Env = Env(
    alertWindowMinutes: Option<int>,       // ALERT_WINDOW_MINUTES
    alertThresholdPct: Option<real>,       // ALERT_THRESHOLD_PCT
    retentionDays: Option<int>,            // RETENTION_DAYS
    mockSeedHours: Option<int>,            // MOCK_SEED_HOURS
    mockSeedIntervalSeconds: Option<int>)  // MOCK_SEED_INTERVAL_SECONDS

  /** A process started with none of these variables set. */
  const Unset: Env := Env(None, None, None, None, None)
}
