/**
  * The crash-report preference (`reportCrashConfig` and the prompt tokens of
  * `reportCrash` / `saveReportConfiguration` in github/crash_report.go).
  * The process environment and hub's global git configuration are modelled as
  * string maps; a missing entry reads as the empty string, as `os.Getenv` and
  * the discarded error of `git.GlobalConfig` make it in the source.
  */
module Preference {

  /** Global git configuration key holding the preference (hubReportCrashConfig). */
  const ReportCrashKey := "hub.reportCrash"
  /** Environment variable that overrides the stored preference. */
  const ReportCrashEnv := "HUB_REPORT_CRASH"
  const Always := "always"
  const Never := "never"

  /** A lookup that reads a missing entry as "". */
  function Lookup(m: map<string, string>, key: string): string
  {
    if key in m then m[key] else ""
  }

  /**
    * `reportCrashConfig`: a non-empty HUB_REPORT_CRASH wins verbatim and the
    * configuration is not consulted; otherwise the global `hub.reportCrash`
    * value, "" when unset.
    */
  function ReportCrashConfig(env: map<string, string>, config: map<string, string>): (opt: string)
    ensures Lookup(env, ReportCrashEnv) != "" ==> opt == env[ReportCrashEnv]
    ensures Lookup(env, ReportCrashEnv) == "" && ReportCrashKey in config ==> opt == config[ReportCrashKey]
    ensures Lookup(env, ReportCrashEnv) == "" && ReportCrashKey !in config ==> opt == ""
  {
    var fromEnv := Lookup(env, ReportCrashEnv);
    if fromEnv != "" then fromEnv else Lookup(config, ReportCrashKey)
  }

  /** The three arms of the switch in `reportCrash`. */
  datatype Mode = AutoReport | AutoSuppress | Ask

  /** Only the exact strings "always" and "never" are modes; anything else asks. */
  function ModeOf(opt: string): (m: Mode)
    ensures m == AutoReport <==> opt == Always
    ensures m == AutoSuppress <==> opt == Never
    ensures m == Ask <==> opt != Always && opt != Never
  {
    if opt == Always then AutoReport
    else if opt == Never then AutoSuppress
    else Ask
  }

  /** An override is in force exactly when HUB_REPORT_CRASH is set to a non-empty value. */
  predicate Overridden(env: map<string, string>)
  {
    Lookup(env, ReportCrashEnv) != ""
  }

  /** With an override, the stored configuration has no influence on the mode. */
  lemma OverrideIgnoresConfig(env: map<string, string>, config1: map<string, string>, config2: map<string, string>)
    requires Overridden(env)
    ensures ModeOf(ReportCrashConfig(env, config1)) == ModeOf(ReportCrashConfig(env, config2))
  {
  }

  /**
    * `utils.IsOption(confirm, short, long)`: the answer is one of the two
    * tokens.  utils is not part of this model; only exact token equality is
    * assumed here.
    */
  predicate IsOption(confirm: string, short: string, long: string)
  {
    confirm == short || confirm == long
  }

  /** What a typed answer to the prompt means. */
  datatype Answer = ReportAlways | ReportOnce | NeverReport | Decline

  /** The accepted tokens and what they mean; every other input declines. */
  const AnswerTable: map<string, Answer> := map[
    "a" := ReportAlways, "always" := ReportAlways,
    "y" := ReportOnce, "yes" := ReportOnce,
    "e" := NeverReport, "never" := NeverReport]

  function ParseAnswer(confirm: string): Answer
  {
    if confirm in AnswerTable then AnswerTable[confirm] else Decline
  }

  /** The three IsOption tests of the source agree with the token table. */
  lemma IsOptionMatchesTable(confirm: string)
    ensures IsOption(confirm, "a", "always") <==> ParseAnswer(confirm) == ReportAlways
    ensures IsOption(confirm, "y", "yes") <==> ParseAnswer(confirm) == ReportOnce
    ensures IsOption(confirm, "e", "never") <==> ParseAnswer(confirm) == NeverReport
  {
  }

  /**
    * The three option tests exclude each other, so the order in which the
    * answer is tested does not matter and no answer both stores "always" and
    * "never".
    */
  lemma OptionsExclusive(confirm: string)
    ensures !(IsOption(confirm, "a", "always") && IsOption(confirm, "y", "yes"))
    ensures !(IsOption(confirm, "a", "always") && IsOption(confirm, "e", "never"))
    ensures !(IsOption(confirm, "y", "yes") && IsOption(confirm, "e", "never"))
  {
  }
}
