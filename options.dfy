/**
 * Configuration read from the process environment: required and optional
 * strings, booleans spelled "true"/"yes"/"false"/"no" in any case, optional
 * job-name filters, and the two durations of the sync loop.
 */
module EnvOptions {
  import opened Wrappers
  import opened Strings

  /** The process environment, variable name to value. */
  type Env = map<string, string>

  const CalendarIdEnv := "CALENDAR_ID"
  const CaldavHostEnv := "CALDAV_HOST"
  const CaldavUsernameEnv := "CALDAV_USERNAME"
  const CaldavPasswordEnv := "CALDAV_PASSWORD"
  const TruenasHostEnv := "TRUENAS_HOST"
  const TruenasHostVerifySslEnv := "TRUENAS_HOST_VERIFY_SSL"
  const TruenasApiKeyEnv := "TRUENAS_API_KEY"
  const IncludeSnapshotsEnv := "INCLUDE_SNAPSHOTS"
  const IncludeScrubsEnv := "INCLUDE_SCRUBS"
  const IncludeCloudsyncsEnv := "INCLUDE_CLOUDSYNCS"
  const IncludeCronjobsEnv := "INCLUDE_CRONJOBS"
  const SnapshotsRegexEnv := "SNAPSHOTS_FILTER"
  const ScrubsRegexEnv := "SCRUBS_FILTER"
  const CloudsyncsRegexEnv := "CLOUDSYNCS_FILTER"
  const CronjobsRegexEnv := "CRONJOBS_FILTER"
  const FailureBackoffTimeEnv := "FAILURE_BACKOFF_TIME"
  const SyncIntervalEnv := "SYNC_INTERVAL"

  const DefaultFailureBackoff := "15 minutes"
  const DefaultSyncInterval := "1 hour"

  /** The variables `from_env` refuses to start without. */
  const RequiredVars: seq<string> :=
    [CalendarIdEnv, CaldavHostEnv, CaldavUsernameEnv, CaldavPasswordEnv, TruenasHostEnv, TruenasApiKeyEnv]

  /** The optional boolean switches, each defaulting to true. */
  const BoolVars: seq<string> :=
    [TruenasHostVerifySslEnv, IncludeSnapshotsEnv, IncludeScrubsEnv, IncludeCloudsyncsEnv, IncludeCronjobsEnv]

  /** The two exceptions the validators raise. */
  datatype EnvError = Required(name: string) | UnrecognizedBool(value: string)

  /** `os.environ.get(name, "")`. */
  function Lookup(env: Env, name: string): string {
    if name in env then env[name] else ""
  }

  /**
   * `parse_string`: a non-empty value is returned as it is; an empty or absent
   * one is an error when the variable is required and the default otherwise.
   */
  function ParseString(env: Env, name: string, required: bool, default: string): (r: Result<string, EnvError>)
    ensures r.Failure? <==> required && Lookup(env, name) == ""
    ensures r.Failure? ==> r.error == Required(name)
    ensures Lookup(env, name) != "" ==> r == Success(env[name])
    ensures !required && Lookup(env, name) == "" ==> r == Success(default)
    ensures r.Success? && r.value != Lookup(env, name) ==> !required && Lookup(env, name) == "" && r.value == default
    ensures required && r.Success? ==> r.value != ""
  {
    var result := Lookup(env, name);
    if result == "" then
      if required then Failure(Required(name)) else Success(default)
    else
      Success(result)
  }

  predicate IsTrueWord(s: string) {
    Lower(s) == "true" || Lower(s) == "yes"
  }

  predicate IsFalseWord(s: string) {
    Lower(s) == "false" || Lower(s) == "no"
  }

  /**
   * `parse_bool`: "true"/"yes" and "false"/"no" in any case; an empty or absent
   * value is an error when required and the default otherwise; anything else
   * is an error naming the value.
   */
  function ParseBool(env: Env, name: string, required: bool, default: bool): (r: Result<bool, EnvError>)
    ensures IsTrueWord(Lookup(env, name)) ==> r == Success(true)
    ensures IsFalseWord(Lookup(env, name)) ==> r == Success(false)
    ensures Lookup(env, name) == "" ==> r == if required then Failure(Required(name)) else Success(default)
    ensures Lookup(env, name) != "" && !IsTrueWord(Lookup(env, name)) && !IsFalseWord(Lookup(env, name)) ==>
      r == Failure(UnrecognizedBool(Lookup(env, name)))
  {
    var result :- ParseString(env, name, required, "");
    if IsTrueWord(result) then Success(true)
    else if IsFalseWord(result) then Success(false)
    else if result == "" then Success(default)
    else Failure(UnrecognizedBool(result))
  }

  /** A value `parse_bool` accepts whether or not the variable is required. */
  predicate IsBoolText(s: string) {
    s == "" || IsTrueWord(s) || IsFalseWord(s)
  }

  /**
   * `parse_bool` looks at the value only through its lower-cased form: two
   * values that fold to the same text are accepted alike and read alike.
   */
  lemma {:induction false} ParseBoolIgnoresCase(env: Env, other: Env, name: string, required: bool, default: bool)
    requires Lower(Lookup(env, name)) == Lower(Lookup(other, name))
    ensures ParseBool(env, name, required, default).Success? <==> ParseBool(other, name, required, default).Success?
    ensures ParseBool(env, name, required, default).Success? ==>
      ParseBool(env, name, required, default).value == ParseBool(other, name, required, default).value
  {
    var v, w := Lookup(env, name), Lookup(other, name);
    assert |v| == |Lower(v)| == |Lower(w)| == |w|;
    assert v == "" <==> w == "";
  }

  /** With no requirement, `parse_bool` fails on exactly the values that are not boolean text. */
  lemma OptionalBoolFails(env: Env, name: string, default: bool)
    ensures ParseBool(env, name, false, default).Failure? <==> !IsBoolText(Lookup(env, name))
  {
  }

  /** `compile_regex` up to the compilation itself: no filter exactly when the variable is empty or absent. */
  function CompileRegex(env: Env, name: string): (r: Option<string>)
    ensures r.None? <==> Lookup(env, name) == ""
    ensures r.Some? ==> r.value == env[name]
  {
    var pattern := Lookup(env, name);
    if pattern == "" then None else Some(pattern)
  }

  /** The settings of one run; a filter is its pattern text and a duration its description. */
  datatype Options = Options(
    calendarId: string,
    caldavHost: string,
    caldavUsername: string,
    caldavPassword: string,
    truenasHost: string,
    truenasHostVerifySsl: bool,
    truenasApiKey: string,
    includeSnapshots: bool,
    includeScrubs: bool,
    includeCloudsyncs: bool,
    includeCronjobs: bool,
    snapshotsFilter: Option<string>,
    scrubsFilter: Option<string>,
    cloudsyncsFilter: Option<string>,
    cronjobsFilter: Option<string>,
    failureBackoffTime: string,
    syncInterval: string)

  /** `Options.from_env`: every variable read in turn; the first failure is raised. */
  function FromEnv(env: Env): (r: Result<Options, EnvError>)
    ensures r.Success? ==>
      && r.value.calendarId == Lookup(env, CalendarIdEnv)
      && r.value.caldavHost == Lookup(env, CaldavHostEnv)
      && r.value.caldavUsername == Lookup(env, CaldavUsernameEnv)
      && r.value.caldavPassword == Lookup(env, CaldavPasswordEnv)
      && r.value.truenasHost == Lookup(env, TruenasHostEnv)
      && r.value.truenasApiKey == Lookup(env, TruenasApiKeyEnv)
    ensures r.Success? ==>
      && ParseBool(env, TruenasHostVerifySslEnv, false, true) == Success(r.value.truenasHostVerifySsl)
      && ParseBool(env, IncludeSnapshotsEnv, false, true) == Success(r.value.includeSnapshots)
      && ParseBool(env, IncludeScrubsEnv, false, true) == Success(r.value.includeScrubs)
      && ParseBool(env, IncludeCloudsyncsEnv, false, true) == Success(r.value.includeCloudsyncs)
      && ParseBool(env, IncludeCronjobsEnv, false, true) == Success(r.value.includeCronjobs)
    ensures r.Success? ==>
      && r.value.snapshotsFilter == CompileRegex(env, SnapshotsRegexEnv)
      && r.value.scrubsFilter == CompileRegex(env, ScrubsRegexEnv)
      && r.value.cloudsyncsFilter == CompileRegex(env, CloudsyncsRegexEnv)
      && r.value.cronjobsFilter == CompileRegex(env, CronjobsRegexEnv)
    ensures r.Success? ==>
      && r.value.failureBackoffTime == ParseString(env, FailureBackoffTimeEnv, false, DefaultFailureBackoff).value
      && r.value.syncInterval == ParseString(env, SyncIntervalEnv, false, DefaultSyncInterval).value
  {
    var calendarId :- ParseString(env, CalendarIdEnv, true, "");
    var caldavHost :- ParseString(env, CaldavHostEnv, true, "");
    var caldavUsername :- ParseString(env, CaldavUsernameEnv, true, "");
    var caldavPassword :- ParseString(env, CaldavPasswordEnv, true, "");
    var truenasHost :- ParseString(env, TruenasHostEnv, true, "");
    var truenasHostVerifySsl :- ParseBool(env, TruenasHostVerifySslEnv, false, true);
    var truenasApiKey :- ParseString(env, TruenasApiKeyEnv, true, "");
    var includeSnapshots :- ParseBool(env, IncludeSnapshotsEnv, false, true);
    var includeScrubs :- ParseBool(env, IncludeScrubsEnv, false, true);
    var includeCloudsyncs :- ParseBool(env, IncludeCloudsyncsEnv, false, true);
    var includeCronjobs :- ParseBool(env, IncludeCronjobsEnv, false, true);
    // An optional string never fails.
    var failureBackoffTime := ParseString(env, FailureBackoffTimeEnv, false, DefaultFailureBackoff).value;
    var syncInterval := ParseString(env, SyncIntervalEnv, false, DefaultSyncInterval).value;
    Success(Options(
      calendarId, caldavHost, caldavUsername, caldavPassword,
      truenasHost, truenasHostVerifySsl, truenasApiKey,
      includeSnapshots, includeScrubs, includeCloudsyncs, includeCronjobs,
      CompileRegex(env, SnapshotsRegexEnv), CompileRegex(env, ScrubsRegexEnv),
      CompileRegex(env, CloudsyncsRegexEnv), CompileRegex(env, CronjobsRegexEnv),
      failureBackoffTime, syncInterval))
  }

  /** Every variable `from_env` cannot start without holds a non-empty value. */
  predicate RequiredSet(env: Env) {
    forall n :: n in RequiredVars ==> Lookup(env, n) != ""
  }

  /** Every boolean switch holds boolean text or nothing. */
  predicate SwitchesValid(env: Env) {
    forall n :: n in BoolVars ==> IsBoolText(Lookup(env, n))
  }

  lemma RequiredSetSpelled(env: Env)
    ensures RequiredSet(env) <==>
      && Lookup(env, CalendarIdEnv) != "" && Lookup(env, CaldavHostEnv) != ""
      && Lookup(env, CaldavUsernameEnv) != "" && Lookup(env, CaldavPasswordEnv) != ""
      && Lookup(env, TruenasHostEnv) != "" && Lookup(env, TruenasApiKeyEnv) != ""
  {
  }

  lemma SwitchesValidSpelled(env: Env)
    ensures SwitchesValid(env) <==>
      && IsBoolText(Lookup(env, TruenasHostVerifySslEnv)) && IsBoolText(Lookup(env, IncludeSnapshotsEnv))
      && IsBoolText(Lookup(env, IncludeScrubsEnv)) && IsBoolText(Lookup(env, IncludeCloudsyncsEnv))
      && IsBoolText(Lookup(env, IncludeCronjobsEnv))
  {
  }

  /** `from_env` gets through exactly when each of its fallible reads does. */
  lemma FromEnvSteps(env: Env)
    ensures FromEnv(env).Success? <==>
      && ParseString(env, CalendarIdEnv, true, "").Success?
      && ParseString(env, CaldavHostEnv, true, "").Success?
      && ParseString(env, CaldavUsernameEnv, true, "").Success?
      && ParseString(env, CaldavPasswordEnv, true, "").Success?
      && ParseString(env, TruenasHostEnv, true, "").Success?
      && ParseString(env, TruenasApiKeyEnv, true, "").Success?
      && ParseBool(env, TruenasHostVerifySslEnv, false, true).Success?
      && ParseBool(env, IncludeSnapshotsEnv, false, true).Success?
      && ParseBool(env, IncludeScrubsEnv, false, true).Success?
      && ParseBool(env, IncludeCloudsyncsEnv, false, true).Success?
      && ParseBool(env, IncludeCronjobsEnv, false, true).Success?
  {
  }

  /**
   * `from_env` succeeds exactly when every required variable is set and every
   * boolean switch holds boolean text (or nothing).
   */
  lemma FromEnvSucceeds(env: Env)
    ensures FromEnv(env).Success? <==> RequiredSet(env) && SwitchesValid(env)
  {
    FromEnvSteps(env);
    RequiredSetSpelled(env);
    SwitchesValidSpelled(env);
    OptionalBoolFails(env, TruenasHostVerifySslEnv, true);
    OptionalBoolFails(env, IncludeSnapshotsEnv, true);
    OptionalBoolFails(env, IncludeScrubsEnv, true);
    OptionalBoolFails(env, IncludeCloudsyncsEnv, true);
    OptionalBoolFails(env, IncludeCronjobsEnv, true);
  }

  /**
   * A failing `from_env` names a required variable that is empty, or quotes the
   * value of a boolean switch that is not boolean text.
   */
  lemma FromEnvFailure(env: Env)
    requires FromEnv(env).Failure?
    ensures FromEnv(env).error.Required? ==>
      FromEnv(env).error.name in RequiredVars && Lookup(env, FromEnv(env).error.name) == ""
    ensures FromEnv(env).error.UnrecognizedBool? ==>
      exists n :: n in BoolVars && Lookup(env, n) == FromEnv(env).error.value && !IsBoolText(FromEnv(env).error.value)
  {
    forall n | n in BoolVars
      ensures ParseBool(env, n, false, true).Failure? <==> !IsBoolText(Lookup(env, n))
    {
      OptionalBoolFails(env, n, true);
    }
  }

  /**
   * Each optional variable left empty or unset takes its own default, whatever
   * the others hold: SSL is verified, the job kind is included, nothing is
   * filtered, a failure backs off for "15 minutes" and the sync runs every
   * "1 hour"; a variable that is set gives its own reading.
   */
  lemma FromEnvDefaults(env: Env)
    requires FromEnv(env).Success?
    ensures Lookup(env, TruenasHostVerifySslEnv) == "" ==> FromEnv(env).value.truenasHostVerifySsl
    ensures Lookup(env, IncludeSnapshotsEnv) == "" ==> FromEnv(env).value.includeSnapshots
    ensures Lookup(env, IncludeScrubsEnv) == "" ==> FromEnv(env).value.includeScrubs
    ensures Lookup(env, IncludeCloudsyncsEnv) == "" ==> FromEnv(env).value.includeCloudsyncs
    ensures Lookup(env, IncludeCronjobsEnv) == "" ==> FromEnv(env).value.includeCronjobs
    ensures Lookup(env, SnapshotsRegexEnv) == "" <==> FromEnv(env).value.snapshotsFilter.None?
    ensures Lookup(env, SnapshotsRegexEnv) != "" ==> FromEnv(env).value.snapshotsFilter == Some(Lookup(env, SnapshotsRegexEnv))
    ensures Lookup(env, ScrubsRegexEnv) == "" <==> FromEnv(env).value.scrubsFilter.None?
    ensures Lookup(env, ScrubsRegexEnv) != "" ==> FromEnv(env).value.scrubsFilter == Some(Lookup(env, ScrubsRegexEnv))
    ensures Lookup(env, CloudsyncsRegexEnv) == "" <==> FromEnv(env).value.cloudsyncsFilter.None?
    ensures Lookup(env, CloudsyncsRegexEnv) != "" ==> FromEnv(env).value.cloudsyncsFilter == Some(Lookup(env, CloudsyncsRegexEnv))
    ensures Lookup(env, CronjobsRegexEnv) == "" <==> FromEnv(env).value.cronjobsFilter.None?
    ensures Lookup(env, CronjobsRegexEnv) != "" ==> FromEnv(env).value.cronjobsFilter == Some(Lookup(env, CronjobsRegexEnv))
    ensures Lookup(env, FailureBackoffTimeEnv) == "" ==> FromEnv(env).value.failureBackoffTime == "15 minutes"
    ensures Lookup(env, FailureBackoffTimeEnv) != "" ==>
      FromEnv(env).value.failureBackoffTime == Lookup(env, FailureBackoffTimeEnv)
    ensures Lookup(env, SyncIntervalEnv) == "" ==> FromEnv(env).value.syncInterval == "1 hour"
    ensures Lookup(env, SyncIntervalEnv) != "" ==> FromEnv(env).value.syncInterval == Lookup(env, SyncIntervalEnv)
  {
  }

  /** `INCLUDE_SCRUBS=no`, in any case, leaves scrubs out of the sync. */
  lemma ExcludedKind(env: Env)
    requires FromEnv(env).Success?
    requires Lower(Lookup(env, IncludeScrubsEnv)) == "no"
    ensures !FromEnv(env).value.includeScrubs
  {
  }
}
