/** `config/config.go`: the mandatory-field check and the process-wide cache of `Get`.
    Environment and flag parsing is abstract: a load is given by the struct it leaves
    populated and the error it returns. */
module Config {
  import opened Wrappers

  /** The service configuration; `brokerAddr` is the comma-separated broker list. */
  datatype Config = Config(
    bindAddr: string,
    brokerAddr: seq<string>,
    schemaRegistryUrl: string,
    officerDeltaTopic: string,
    openApiSpec: string,
    insolvencyDeltaTopic: string,
    chargesDeltaTopic: string,
    disqualifiedDeltaTopic: string,
    companyDeltaTopic: string,
    exemptionDeltaTopic: string,
    pscStatementDeltaTopic: string,
    pscDeltaTopic: string,
    filingHistoryDeltaTopic: string,
    documentStoreDeltaTopic: string,
    registersDeltaTopic: string,
    acspProfileDeltaTopic: string)

  const MissingConfigsMessage: string := "mandatory configs missing from environment"

  /** One `if` of `validateConfigs`: the environment variable it names and the test that
      its field is empty. */
  datatype Check = Check(name: string, unset: Config -> bool)

  /** The checks of `validateConfigs`, in source order. The company and exemption topics
      are not among them. */
  const CheckedVariables: seq<Check> := [
    Check("BIND_ADDR", (c: Config) => c.bindAddr == ""),
    Check("KAFKA_BROKER_ADDR", (c: Config) => |c.brokerAddr| == 0),
    Check("SCHEMA_REGISTRY_URL", (c: Config) => c.schemaRegistryUrl == ""),
    Check("OFFICER_DELTA_TOPIC", (c: Config) => c.officerDeltaTopic == ""),
    Check("INSOLVENCY_DELTA_TOPIC", (c: Config) => c.insolvencyDeltaTopic == ""),
    Check("CHARGES_DELTA_TOPIC", (c: Config) => c.chargesDeltaTopic == ""),
    Check("DISQUALIFIED_OFFICERS_DELTA_TOPIC", (c: Config) => c.disqualifiedDeltaTopic == ""),
    Check("PSC_STATEMENT_DELTA_TOPIC", (c: Config) => c.pscStatementDeltaTopic == ""),
    Check("PSC_DELTA_TOPIC", (c: Config) => c.pscDeltaTopic == ""),
    Check("FILING_HISTORY_DELTA_TOPIC", (c: Config) => c.filingHistoryDeltaTopic == ""),
    Check("DOCUMENT_STORE_DELTA_TOPIC", (c: Config) => c.documentStoreDeltaTopic == ""),
    Check("REGISTERS_DELTA_TOPIC", (c: Config) => c.registersDeltaTopic == ""),
    Check("ACSP_PROFILE_DELTA_TOPIC", (c: Config) => c.acspProfileDeltaTopic == ""),
    Check("OPEN_API_SPEC", (c: Config) => c.openApiSpec == "")
  ]

  /** The environment variable `name` is one of the checked ones and its field is empty. */
  ghost predicate IsUnset(cfg: Config, name: string) {
    exists i :: 0 <= i < |CheckedVariables| && CheckedVariables[i].name == name && CheckedVariables[i].unset(cfg)
  }

  /** A mandatory element is missing: one of the checked fields is empty. */
  ghost predicate MissingMandatory(cfg: Config) {
    exists i :: 0 <= i < |CheckedVariables| && CheckedVariables[i].unset(cfg)
  }

  /** Emits `name` when `unset` holds: the log line of one `if` of `validateConfigs`. */
  function Report(unset: bool, name: string): (r: seq<string>)
    ensures forall n :: n in r <==> unset && n == name
  {
    if unset then [name] else []
  }

  /** Runs the given checks in order and collects the names they report. Every check
      runs: an earlier missing field does not stop the later ones from being reported. */
  function Reports(checks: seq<Check>, cfg: Config): (r: seq<string>)
    ensures |r| <= |checks|
    ensures forall n :: n in r <==>
      exists i :: 0 <= i < |checks| && checks[i].name == n && checks[i].unset(cfg)
    ensures |r| > 0 <==> exists i :: 0 <= i < |checks| && checks[i].unset(cfg)
  {
    if |checks| == 0 then []
    else
      var rest := Reports(checks[1..], cfg);
      assert forall i :: 0 <= i < |checks| - 1 ==> checks[1..][i] == checks[i + 1];
      assert checks[0].unset(cfg) ==> checks[0].name in Report(true, checks[0].name);
      Report(checks[0].unset(cfg), checks[0].name) + rest
  }

  /** The variables `validateConfigs` reports as unset, in check order. */
  function UnsetVariables(cfg: Config): (r: seq<string>)
    ensures forall name :: name in r <==> IsUnset(cfg, name)
    ensures |r| > 0 <==> MissingMandatory(cfg)
  {
    Reports(CheckedVariables, cfg)
  }

  /** `validateConfigs`: an error exactly when some checked field is empty. */
  function ValidateConfigs(cfg: Config): (r: Option<string>)
    ensures r.Some? <==> MissingMandatory(cfg)
    ensures r.Some? ==> r.value == MissingConfigsMessage
  {
    var mandatoryElementMissing := |UnsetVariables(cfg)| > 0;
    if mandatoryElementMissing then Some(MissingConfigsMessage) else None
  }

  /** No single check reads the company or exemption topic. */
  lemma CheckIgnoresUncheckedTopics(cfg: Config, company: string, exemption: string, i: int)
    requires 0 <= i < |CheckedVariables|
    ensures CheckedVariables[i].unset(cfg.(companyDeltaTopic := company, exemptionDeltaTopic := exemption))
         == CheckedVariables[i].unset(cfg)
  {
  }

  /** The company and exemption topics are never checked. */
  lemma UncheckedTopicsIgnored(cfg: Config, company: string, exemption: string)
    ensures ValidateConfigs(cfg.(companyDeltaTopic := company, exemptionDeltaTopic := exemption))
         == ValidateConfigs(cfg)
  {
    forall i | 0 <= i < |CheckedVariables|
      ensures CheckedVariables[i].unset(cfg.(companyDeltaTopic := company, exemptionDeltaTopic := exemption))
           == CheckedVariables[i].unset(cfg)
    {
      CheckIgnoresUncheckedTopics(cfg, company, exemption, i);
    }
  }

  /** What loading from the environment produced: the struct as populated (possibly
      partially) and the loader's error. */
  datatype Loaded = Loaded(populated: Config, err: Option<string>)

  /** `Get`'s result pair `(*Config, error)`. */
  datatype GetResult = GetResult(cfg: Option<Config>, err: Option<string>)

  /** One call of `Get`: its result and the package-level cache afterwards. */
  datatype GetStep = GetStep(result: GetResult, cache: Option<Config>)

  /** `Get`, run sequentially. A cached config is returned with no error and nothing runs.
      Otherwise the struct is cached before loading, then loaded and validated; a failure
      returns `(nil, err)` but leaves the cache populated. */
  function Get(cache: Option<Config>, load: Loaded): (r: GetStep)
    ensures r.cache.Some?
    ensures cache.Some? ==> r == GetStep(GetResult(cache, None), cache)
    ensures cache.None? ==> r.cache == Some(load.populated)
    ensures r.result.err.Some? <==>
      cache.None? && (load.err.Some? || MissingMandatory(load.populated))
    ensures cache.None? && load.err.Some? ==> r.result.err == load.err
    ensures cache.None? && load.err.None? && MissingMandatory(load.populated) ==>
      r.result.err == Some(MissingConfigsMessage)
    ensures r.result.err.Some? ==> r.result.cfg.None?
    ensures r.result.err.None? ==> r.result.cfg == r.cache
  {
    if cache.Some? then GetStep(GetResult(cache, None), cache)
    else
      var cached := Some(load.populated);
      if load.err.Some? then GetStep(GetResult(None, load.err), cached)
      else match ValidateConfigs(load.populated)
        case Some(e) => GetStep(GetResult(None, Some(e)), cached)
        case None => GetStep(GetResult(cached, None), cached)
  }

  /** The cache is never cleared on failure: after a failed first `Get`, the next `Get`
      returns the very config that failed, unvalidated, with no error, whatever the
      environment now holds. */
  lemma FailedGetPoisonsCache(first: Loaded, second: Loaded)
    requires Get(None, first).result.err.Some?
    ensures Get(Get(None, first).cache, second).result == GetResult(Some(first.populated), None)
  {
  }

  /** A config that `Get` loads freshly and returns has every mandatory field set. */
  lemma FreshConfigIsValid(load: Loaded)
    requires Get(None, load).result.err.None?
    ensures Get(None, load).result.cfg == Some(load.populated)
    ensures !MissingMandatory(load.populated)
  {
  }

  /** A config returned without error is not necessarily valid: the poisoned cache hands
      out a config with every field empty. */
  lemma PoisonedConfigCanBeEmpty()
    ensures var empty := Config("", [], "", "", "", "", "", "", "", "", "", "", "", "", "", "");
      var first := Get(None, Loaded(empty, None));
      && first.result.err.Some?
      && Get(first.cache, Loaded(empty, None)).result == GetResult(Some(empty), None)
      && MissingMandatory(empty)
  {
    var empty := Config("", [], "", "", "", "", "", "", "", "", "", "", "", "", "", "");
    assert CheckedVariables[0].unset(empty);
  }
}
