# hub crash reporting, modelled in Dafny

hub, the GitHub command-line wrapper around git, installs a deferred crash
handler (github/crash_report.go). When a command panics, the handler:

1. recovers the panic value. Only an `error` or a `string` value goes on to
   steps 2 to 5 (a string becomes `errors.New` of it). Any other value is
   swallowed: nothing is captured or printed, and the process does not exit;
2. captures the goroutine stack and renders it (`formatStack`);
3. resolves the user's reporting preference, read from the `HUB_REPORT_CRASH`
   environment variable or else from the global git key `hub.reportCrash`
   (`reportCrashConfig`);
4. follows that preference:
   - `always` files a crash-report issue on github/hub without printing the
     error to the terminal;
   - `never` prints the error and the stack;
   - anything else prints the error and the stack, then asks
     `([Y]es/[N]o/[A]lways/N[e]ver)`. A "yes" or "always" answer reports.
     Then `saveReportConfiguration` stores "always" or "never" into the
     global configuration when that was the answer. A failed report ends the
     process before this step, so nothing is stored then;
5. exits with status 1 in every case that reaches this point.

A report (`report`, `reportTitleAndBody`) works as follows:
- it opens an editor on a filled-in template;
- it always deletes the editor file once the editor has opened;
- it files the edited title and body as an issue labelled "Crash Report";
- it prints the issue URL;
- a failure of the editor or of the issue tracker ends the process.

The model has five modules:

- `StackFormat`, pure. It renders the capture as `formatStack` does. The
  capture is modelled as a sequence of bytes:
  - `bytes.Trim` of NUL padding;
  - `strings.Split` and `strings.Join` on line feeds;
  - dropping lines 1 to 4 after the header line.

  The lemmas show that:
  - the trim is the unique cut to non-NUL ends;
  - split and join are inverse;
  - the rendered stack keeps the header and shifts the remaining frames up
    by four lines.
- `Preference`, pure. It covers:
  - the environment override and the configuration fallback;
  - the three arms of the `switch`;
  - the prompt tokens.
- `Trace`. It defines:
  - the observable effects: printing, prompting, the editor, issue
    creation, fatal errors and configuration writes;
  - `ConfigAfter`, which replays a trace's configuration writes.
- `CrashReport`. It holds `CaptureCrash`, `reportCrash`, `report`,
  `reportTitleAndBody` and `saveReportConfiguration` as methods. Each
  method performs the source's steps in order and returns the trace of
  effects and, where it can end the process, the exit status. Their
  contracts are of two kinds:
  - `Report` is proved equal to the reference trace function `ReportRun`,
    and `ReportCrash` and `CaptureCrash` to `CrashRun`;
  - `ReportTitleAndBody` and `SaveReportConfiguration` state their effects
    case by case. `SaveReportConfiguration` also agrees with the table's
    stored choice when its flag is the a/always test, as it is at the one
    call site.

  `CrashRun` is driven by the consent table `Decide`. The properties of the
  flow are lemmas about these functions:
  - what is shown and in which order;
  - one report attempt exactly on consent;
  - the preference stored only as chosen, and read back by the next crash;
  - nothing else printed, asked, opened or filed.
- `Wrappers`, with `Option` and `Result`.

The world the flow reads is an input record, `World`:
- the capture buffer;
- GOOS and GOARCH;
- the environment;
- the global configuration;
- the typed answer;
- what the editor does;
- what the issue tracker returns.

Two behaviours of the code that a reader might not expect:
- A capture of fewer than five lines cannot be rendered: `stack[5:]` panics.
  So `FormatStack` requires at least five lines. It does not return an
  empty stack for a short capture.
- Under `always` the error is never printed to the terminal. The user sees
  it only in the editor's template, which is filled with the error's text
  and type. Only the `never` and prompting arms print it.

## Model

| member | source | states |
|---|---|---|
| `StackFormat.TrimNul` | github/crash_report.go:105 | the trimmed capture is no longer than the buffer, starts and ends with a non-NUL byte unless empty, and is the buffer itself when it holds no NUL |
| `StackFormat.TrimNulIsTrim` | github/crash_report.go:105 | the trimmed capture is a slice of the buffer with only NUL bytes removed at both ends and non-NUL bytes (or nothing) at its edges |
| `StackFormat.TrimNulCharacterized` | github/crash_report.go:105 | any such cut gives exactly the trimmed capture: the trim is unique |
| `StackFormat.LeadingNulsSpan` | github/crash_report.go:105 | the leading run the trim removes is all NUL and stops at the first non-NUL byte |
| `StackFormat.TrailingNulsSpan` | github/crash_report.go:105 | the trailing run the trim removes is all NUL and stops at the last non-NUL byte |
| `StackFormat.AllNulTrimsToEmpty` | github/crash_report.go:105 | a buffer of padding only trims to nothing |
| `StackFormat.Split` | github/crash_report.go:107 | splitting on "\n" yields one more line than there are separators (so "" is one empty line) |
| `StackFormat.SplitHasNoSeparator` | github/crash_report.go:107 | no line produced by the split contains a separator |
| `StackFormat.Join` | github/crash_report.go:110 | a join of lines begins with its first line |
| `StackFormat.JoinSplit` | github/crash_report.go:107-110 | joining the lines of a split gives back the text |
| `StackFormat.SplitJoin` | github/crash_report.go:107-110 | splitting a join of separator-free lines gives back the lines |
| `StackFormat.FormatStack` | github/crash_report.go:104-111 | the lines of the rendered stack are the header line followed by lines 5 onwards of the trimmed capture, four lines fewer in all |
| `StackFormat.FormatStackKeepsHeader` | github/crash_report.go:108 | the rendered stack starts with the capture's header line |
| `StackFormat.FormatStackShiftsFrames` | github/crash_report.go:108 | line k >= 1 of the rendered stack is line k + 4 of the capture |
| `StackFormat.AllNulIsNotFormattable` | github/crash_report.go:105-108 | an all-padding capture is a single empty line, too short for `stack[5:]` |
| `Preference.ReportCrashConfig` | github/crash_report.go:126-133 | a non-empty HUB_REPORT_CRASH is the preference verbatim; otherwise the global hub.reportCrash value, "" when unset |
| `Preference.ModeOf` | github/crash_report.go:41-47 | exactly "always" reports silently, exactly "never" suppresses, every other value asks |
| `Preference.OverrideIgnoresConfig` | github/crash_report.go:126-133 | with the override set, the stored configuration has no influence on the mode |
| `Preference.IsOptionMatchesTable` | github/crash_report.go:52-53 | the three token tests agree with the answer table: a/always, y/yes, e/never |
| `Trace.NoWriteKeepsConfig` | github/crash_report.go:118-124 | a trace without configuration writes leaves the global configuration unchanged |
| `Trace.OneWriteSetsConfig` | github/crash_report.go:118-124 | a trace whose writes all store one value under one key sets exactly that entry |
| `Preference.OptionsExclusive` | github/crash_report.go:52-57 | no answer passes two of the a/always, y/yes and e/never tests, so the order of the tests does not matter |
| `CrashReport.Decide` | github/crash_report.go:41-57 | the consent table: the error is printed unless the preference is "always"; only the default arm asks; a report is made under "always" or on an a/always or y/yes answer; only an a/always or e/never answer is stored, as "always" or "never" |
| `CrashReport.DecisionFor` | github/crash_report.go:41-57 | the switch arms and the answer tests lead to the table's decisions: always reports silently, never prints, otherwise print, ask, report on a/always/y/yes and store always or never |
| `CrashReport.DecideConsistent` | github/crash_report.go:41-57 | only a printing decision asks, only an asking one stores; "always" is stored only with a report, "never" only without one |
| `CrashReport.SavesFor` | github/crash_report.go:118-124 | a decision that stores nothing writes nothing; otherwise it makes exactly one write, of the chosen value under hub.reportCrash |
| `CrashReport.ReportRun` | github/crash_report.go:62-98 | a report starts with the editor request and ends the process (status 1) unless both the editor and the tracker succeed |
| `CrashReport.ReportRunOpensOnce` | github/crash_report.go:90-95 | the editor is requested exactly once; its file is deleted exactly when it opened, whatever the edit returned |
| `CrashReport.ReportRunFilesOnce` | github/crash_report.go:63-70 | an edited document is edited, the file deleted, then filed exactly once |
| `CrashReport.ReportRunConfined` | github/crash_report.go:62-74 | a report prints no error, asks nothing, stores nothing, and opens or files only its own request and issue |
| `CrashReport.ReportRunEnds` | github/crash_report.go:64-73 | a report ends with the issue URL on success and with a fatal error otherwise |
| `CrashReport.Preamble` | github/crash_report.go:37-48 | the capture always comes first |
| `CrashReport.CrashRun` | github/crash_report.go:32-60 | handling a non-nil error always exits with status 1 |
| `CrashReport.CrashRunShowsThenAsks` | github/crash_report.go:37-50 | the capture first; the error and stack shown once, right after it, exactly when the decision prints; the question shown once, right after them, exactly when it asks |
| `CrashReport.CrashRunReportsOnConsent` | github/crash_report.go:42-55 | exactly one report attempt and one issue for an edited document when the decision consents, none otherwise |
| `CrashReport.CrashRunStoresChoice` | github/crash_report.go:52-57 | the preference is written only as the decision says and only when no failed report ended the run; it is then written exactly once, as the last effect, and leaves hub.reportCrash set to it and nothing else changed |
| `CrashReport.CrashRunConfined` | github/crash_report.go:32-60 | nothing but the error, the question, the one editor request and the one issue is printed, asked, opened or filed; a run ended by a failed report finishes with the fatal error |
| `CrashReport.NextCrashFollowsAnswer` | github/crash_report.go:118-133 | without the override, answering always (with a successful report) makes the next crash report silently, answering never makes it suppress, any other answer leaves the configuration unchanged |
| `CrashReport.StringPanicKeepsMessage` | github/crash_report.go:26-27 | a recovered string becomes an error (`errors.New`) carrying that string: it is the text printed, and the text and `*errors.errorString` type the report is filled with |
| `CrashReport.ReportTitleAndBody` | github/crash_report.go:76-98 | the editor failing to open returns its error with no edit and no cleanup; otherwise edit, then delete the file, returning what the edit returned |
| `CrashReport.Report` | github/crash_report.go:62-74 | report performs exactly the trace `ReportRun` describes |
| `CrashReport.SaveReportConfiguration` | github/crash_report.go:118-124 | stores "always" when always was chosen, else "never" on e/never, else nothing; when the flag is the a/always test, as at its one call site, this is the table's stored choice |
| `CrashReport.ReportCrash` | github/crash_report.go:32-60 | a nil error does nothing and does not exit; otherwise the run is exactly `CrashRun` of the rendered capture under the world's decision |
| `CrashReport.CaptureCrash` | github/crash_report.go:22-30 | a recovered error is handled as it is and a recovered string as `errors.New` of it; no panic, or a panic with any other value, has no effect and does not exit |

## Left out

- The capture itself: `runtime.Stack` into a 10000-byte buffer is an input (`World.stackBuffer`), so truncation at 10000 bytes and the goroutine dump format are not modelled.
- The message template's wording (github/crash_report.go:77-85): a report carries the values the template is filled with (`Draft`), not the text. `reflect.TypeOf(...).String()` is the error's `typeName` field.
- `runtimeInfo`: GOOS and GOARCH are inputs.
- Terminal I/O: printing is recorded as effects, not as bytes written. `printError` becomes one `PrintError` effect. `fmt.Scan` becomes the `answer` input, so a read error or EOF is an empty answer, which declines.
- `NewProject`, `GitHubHost` and `NewClient`: the issue tracker is an input `Result` (the issue URL, or an error). Host resolution and authentication are not modelled.
- The editor (`NewEditor`, `EditTitleAndBody`, `DeleteFile`) is an input script. The error `DeleteFile` returns is ignored, as in the source.
- utils is not part of this model:
  - `utils.IsOption` is taken to be exact equality with either token, with no case folding;
  - `utils.Check` is taken to print the error and exit with status 1.
- `git.SetGlobalConfig` is taken to succeed; its result is discarded in the source. An error from `git.GlobalConfig` reads as an unset key, since the source discards it too.
- `os.Exit` is the `exit` field of the outcome. A process ended inside `report` is an early return, so nothing after it runs.
- `recover()` is modelled as a tagged union of the cases `CaptureCrash` distinguishes.
- Panics raised inside the handler are not followed.
- FormatStack: requires a capture of at least five lines, where Go's `stack[5:]` would panic instead.
- ReportCrash: requires a renderable capture for a non-nil error, for the same reason.
- CaptureCrash: requires a renderable capture for a recovered error or string, for the same reason.
