/**
  * The fatal-error path of hub (github/crash_report.go): `CaptureCrash`,
  * `reportCrash`, `report`, `reportTitleAndBody` and
  * `saveReportConfiguration`.  Each is a method that performs the source's
  * steps in the source's order and returns the trace of side effects; the
  * environment, the global configuration, the capture buffer, the typed
  * answer and what the editor and the issue tracker do are inputs, gathered
  * in a World.  Process termination is the Outcome's exit code.
  */
module CrashReport {
  import opened Wrappers
  import opened StackFormat
  import opened Preference
  import opened Trace

  const HubProjectOwner := "github"
  const HubProjectName := "hub"
  const CrashReportLabel := "Crash Report"
  /** File name hint and topic given to the editor. */
  const EditorFile := "CRASH_REPORT"
  const EditorTopic := "crash report"
  const PromptText := "Would you like to open an issue? ([Y]es/[N]o/[A]lways/N[e]ver): "
  /** The status of `os.Exit(1)`; utils.Check is taken to exit with it too. */
  const ExitFailure := 1

  /** What `recover()` hands to CaptureCrash. */
  datatype Recovered = NotPanicking | PanicError(err: Error) | PanicString(msg: string) | PanicOther

  /** What the editor collaborator does: NewEditor fails, or it opens and the edit yields a result. */
  datatype EditorScript = CannotOpen(error: string) | Opened(edit: Result<Document>)

  /** Everything the flow reads from outside. */
  datatype World = World(
    stackBuffer: seq<byte>,           // the capture buffer after runtime.Stack
    goos: string,
    goarch: string,
    env: map<string, string>,         // the process environment
    config: map<string, string>,      // hub's global git configuration
    answer: string,                   // the token fmt.Scan reads at the prompt
    editor: EditorScript,
    tracker: Result<string>)          // CreateIssue: the new issue's HTML URL, or an error

  /** The effects of a run and, when the process terminated, its exit status. */
  datatype Outcome = Outcome(effects: seq<Effect>, exit: Option<int>)

  /** The message template's values for a report. */
  function DraftOf(err: Error, stack: seq<byte>, w: World): Draft
  {
    Draft(err.text, err.typeName, stack, w.goos, w.goarch)
  }

  /** The editor yields a title and body. */
  predicate Composes(editor: EditorScript)
  {
    editor.Opened? && editor.edit.Ok?
  }

  /** The report goes through: composed, then accepted by the tracker. */
  predicate Submits(w: World)
  {
    Composes(w.editor) && w.tracker.Ok?
  }

  // ----- The consent table -----

  /** What a crash leads to, before any collaborator can fail. */
  datatype Decision = Decision(printsError: bool, prompts: bool, reports: bool, saves: Option<string>)

  /**
    * The consent state machine as a table: "always" reports silently,
    * "never" prints and suppresses, anything else prints, asks, reports on
    * always/yes and stores always/never.
    */
  function Decide(mode: Mode, answer: Answer): (d: Decision)
    ensures d.printsError <==> mode != AutoReport
    ensures d.prompts <==> mode == Ask
    ensures d.reports <==> mode == AutoReport || (mode == Ask && (answer == ReportAlways || answer == ReportOnce))
    ensures d.saves.Some? <==> mode == Ask && (answer == ReportAlways || answer == NeverReport)
    ensures d.saves.Some? ==> d.saves.value == (if answer == ReportAlways then Always else Never)
  {
    match mode
    case AutoReport => Decision(false, false, true, None)
    case AutoSuppress => Decision(true, false, false, None)
    case Ask =>
      Decision(true, true, answer == ReportAlways || answer == ReportOnce,
        match answer
        case ReportAlways => Some(Always)
        case NeverReport => Some(Never)
        case _ => None)
  }

  /**
    * The decision a world leads to, arm by arm: "always" reports silently,
    * "never" prints, and any other preference prints, asks, reports on
    * a/always or y/yes and stores "always" on a/always, else "never" on
    * e/never.
    */
  function DecisionFor(w: World): (d: Decision)
    ensures var opt := ReportCrashConfig(w.env, w.config);
      && (opt == Always ==> d == Decision(false, false, true, None))
      && (opt == Never ==> d == Decision(true, false, false, None))
      && (opt != Always && opt != Never ==>
            && d.printsError && d.prompts
            && (d.reports <==> IsOption(w.answer, "a", "always") || IsOption(w.answer, "y", "yes"))
            && (IsOption(w.answer, "a", "always") ==> d.saves == Some(Always))
            && (!IsOption(w.answer, "a", "always") && IsOption(w.answer, "e", "never") ==> d.saves == Some(Never))
            && (!IsOption(w.answer, "a", "always") && !IsOption(w.answer, "e", "never") ==> d.saves == None))
  {
    IsOptionMatchesTable(w.answer);
    Decide(ModeOf(ReportCrashConfig(w.env, w.config)), ParseAnswer(w.answer))
  }

  /** The issue `report` files for an edited document. */
  function IssueFor(doc: Document): Effect
  {
    CreateIssue(HubProjectOwner, HubProjectName, doc.title, doc.body, [CrashReportLabel])
  }

  /** The editor request `report` makes for an error and a rendered stack. */
  function EditorRequest(err: Error, stack: seq<byte>, w: World): Effect
  {
    OpenEditor(EditorFile, EditorTopic, DraftOf(err, stack, w))
  }

  /** The configuration writes a decision asks for. */
  function SavesFor(d: Decision): (es: seq<Effect>)
    ensures |es| == if d.saves.Some? then 1 else 0
    ensures forall e :: e in es ==> e == SetGlobalConfig(ReportCrashKey, d.saves.value)
  {
    if d.saves.Some? then [SetGlobalConfig(ReportCrashKey, d.saves.value)] else []
  }

  /** The effect occurs exactly once in the trace when `once` holds, and not at all otherwise. */
  ghost predicate OccursIff(es: seq<Effect>, e: Effect, once: bool)
  {
    multiset(es)[e] == if once then 1 else 0
  }

  // ----- Reference traces -----

  /**
    * What `report` does, as a trace: one editor request; when the editor
    * opens, the edit and then the deletion of its file whatever the edit
    * returned; a composed document is filed once; the run ends with the issue
    * URL when both collaborators succeed, and with a fatal error (status 1)
    * otherwise.  Nothing is printed, asked or stored.
    */
  function ReportRun(err: Error, stack: seq<byte>, w: World): (o: Outcome)
    ensures |o.effects| >= 2 && o.effects[0] == EditorRequest(err, stack, w)
    ensures o.exit == (if Submits(w) then None else Some(ExitFailure))
  {
    var open := EditorRequest(err, stack, w);
    match w.editor
    case CannotOpen(e) => Outcome([open, Fatal(e)], Some(ExitFailure))
    case Opened(Err(e)) => Outcome([open, EditTitleAndBody, DeleteEditorFile, Fatal(e)], Some(ExitFailure))
    case Opened(Ok(doc)) =>
      var filed := [open, EditTitleAndBody, DeleteEditorFile, IssueFor(doc)];
      match w.tracker
      case Err(e) => Outcome(filed + [Fatal(e)], Some(ExitFailure))
      case Ok(url) => Outcome(filed + [PrintIssueUrl(url)], None)
  }

  /** One editor request, first; the editor file is deleted exactly when the editor opened. */
  lemma ReportRunOpensOnce(err: Error, stack: seq<byte>, w: World)
    ensures var o := ReportRun(err, stack, w);
      && multiset(o.effects)[EditorRequest(err, stack, w)] == 1
      && (DeleteEditorFile in o.effects <==> w.editor.Opened?)
  {
  }

  /** A composed document is edited, the file deleted, and then the issue filed exactly once. */
  lemma ReportRunFilesOnce(err: Error, stack: seq<byte>, w: World)
    requires Composes(w.editor)
    ensures var o := ReportRun(err, stack, w);
      && |o.effects| >= 5
      && o.effects[1] == EditTitleAndBody && o.effects[2] == DeleteEditorFile
      && o.effects[3] == IssueFor(w.editor.edit.value)
      && multiset(o.effects)[IssueFor(w.editor.edit.value)] == 1
  {
    var issue := IssueFor(w.editor.edit.value);
    var filed := [EditorRequest(err, stack, w), EditTitleAndBody, DeleteEditorFile, issue];
    var last := if w.tracker.Ok? then PrintIssueUrl(w.tracker.value) else Fatal(w.tracker.error);
    assert ReportRun(err, stack, w).effects == filed + [last];
    assert multiset(filed + [last])[issue] == multiset(filed)[issue] + multiset([last])[issue];
  }

  /**
    * `report` prints nothing but the URL, asks nothing and stores nothing;
    * the only editor request and issue are its own.
    */
  lemma ReportRunConfined(err: Error, stack: seq<byte>, w: World)
    ensures forall e :: e in ReportRun(err, stack, w).effects ==>
      && !e.PrintError? && !e.ShowPrompt? && !IsConfigWrite(e)
      && (e.OpenEditor? ==> e == EditorRequest(err, stack, w))
      && (e.CreateIssue? ==> Composes(w.editor) && e == IssueFor(w.editor.edit.value))
  {
  }

  /** The run ends with the issue URL on success and with a fatal error otherwise. */
  lemma ReportRunEnds(err: Error, stack: seq<byte>, w: World)
    ensures var o := ReportRun(err, stack, w);
      && (Submits(w) ==> o.effects[|o.effects| - 1] == PrintIssueUrl(w.tracker.value))
      && (!Submits(w) ==> o.effects[|o.effects| - 1].Fatal?)
  {
  }

  /** The capture, then the error when the decision prints it, then the question when it asks. */
  function Preamble(err: Error, stack: seq<byte>, d: Decision): (es: seq<Effect>)
    ensures 1 <= |es| <= 3 && es[0] == CaptureStack
  {
    [CaptureStack]
      + (if d.printsError then [PrintError(err.text, stack)] else [])
      + (if d.prompts then [ShowPrompt(PromptText)] else [])
  }

  /** The report failed and utils.Check ended the run. */
  predicate Aborted(d: Decision, w: World)
  {
    d.reports && !Submits(w)
  }

  /**
    * What handling a non-nil error under decision `d` does, as a trace: the
    * preamble, the report when `d` consents, then the preference `d` stores,
    * unless the report ended the run first.  Every run exits with status 1.
    */
  function CrashRun(err: Error, stack: seq<byte>, d: Decision, w: World): (o: Outcome)
    ensures o.exit == Some(ExitFailure)
  {
    var pre := Preamble(err, stack, d);
    if !d.reports then Outcome(pre + SavesFor(d), Some(ExitFailure))
    else
      var r := ReportRun(err, stack, w);
      if r.exit.Some? then Outcome(pre + r.effects, r.exit)
      else Outcome(pre + r.effects + SavesFor(d), Some(ExitFailure))
  }

  /** The trace a crash in world `w` leads to. */
  function CrashRunIn(err: Error, w: World): Outcome
    requires Formattable(w.stackBuffer)
  {
    CrashRun(err, FormatStack(w.stackBuffer), DecisionFor(w), w)
  }

  /** CrashRun, arm by arm (helpers for the method proofs). */
  lemma CrashRunDeclined(err: Error, stack: seq<byte>, d: Decision, w: World)
    requires !d.reports
    ensures CrashRun(err, stack, d, w) == Outcome(Preamble(err, stack, d) + SavesFor(d), Some(ExitFailure))
  {
  }

  lemma CrashRunAborted(err: Error, stack: seq<byte>, d: Decision, w: World)
    requires d.reports && !Submits(w)
    ensures CrashRun(err, stack, d, w) == Outcome(Preamble(err, stack, d) + ReportRun(err, stack, w).effects, Some(ExitFailure))
  {
  }

  lemma CrashRunSubmitted(err: Error, stack: seq<byte>, d: Decision, w: World)
    requires d.reports && Submits(w)
    ensures CrashRun(err, stack, d, w)
      == Outcome(Preamble(err, stack, d) + ReportRun(err, stack, w).effects + SavesFor(d), Some(ExitFailure))
  {
  }

  // ----- What the trace of a crash promises -----

  /** The table is consistent: only a printing decision asks, only an asking one stores. */
  lemma DecideConsistent(mode: Mode, answer: Answer)
    ensures var d := Decide(mode, answer);
      && (d.prompts ==> d.printsError)
      && (d.saves.Some? ==> d.prompts)
      && (d.saves.Some? ==> d.saves.value == Always || d.saves.value == Never)
      && (d.saves == Some(Always) ==> d.reports)
      && (d.saves == Some(Never) ==> !d.reports)
  {
  }

  /** A crash trace is its preamble followed by effects that neither print an error nor ask. */
  lemma CrashRunAfterPreamble(err: Error, stack: seq<byte>, d: Decision, w: World)
    ensures var es := CrashRun(err, stack, d, w).effects;
      var pre := Preamble(err, stack, d);
      && |pre| <= |es| && es == pre + es[|pre|..]
      && (forall e :: e in es[|pre|..] ==> !e.PrintError? && !e.ShowPrompt?)
  {
    var es := CrashRun(err, stack, d, w).effects;
    var pre := Preamble(err, stack, d);
    ReportRunConfined(err, stack, w);
    if d.reports {
      var r := ReportRun(err, stack, w);
      if r.exit.Some? {
        assert es[|pre|..] == r.effects;
      } else {
        assert es[|pre|..] == r.effects + SavesFor(d);
      }
    } else {
      assert es[|pre|..] == SavesFor(d);
    }
  }

  /**
    * The capture comes first; the error and stack are shown once, right
    * after it, exactly when the decision prints them; the question is shown
    * once, right after the error, exactly when the decision asks.
    */
  lemma CrashRunShowsThenAsks(err: Error, stack: seq<byte>, mode: Mode, answer: Answer, w: World)
    ensures var d := Decide(mode, answer);
      var es := CrashRun(err, stack, d, w).effects;
      var shown := PrintError(err.text, stack);
      && |es| >= 1 && es[0] == CaptureStack
      && OccursIff(es, shown, d.printsError)
      && (d.printsError ==> |es| >= 2 && es[1] == shown)
      && OccursIff(es, ShowPrompt(PromptText), d.prompts)
      && (d.prompts ==> |es| >= 3 && es[2] == ShowPrompt(PromptText))
  {
    var d := Decide(mode, answer);
    var pre := Preamble(err, stack, d);
    var es := CrashRun(err, stack, d, w).effects;
    CrashRunAfterPreamble(err, stack, d, w);
    var rest := es[|pre|..];
    var shown := PrintError(err.text, stack);
    var prompt := ShowPrompt(PromptText);
    assert shown !in rest && prompt !in rest;
    PreambleCounts(err, stack, d, rest);
  }

  /** Counting the preamble's effects in a trace that continues without them. */
  lemma PreambleCounts(err: Error, stack: seq<byte>, d: Decision, rest: seq<Effect>)
    requires d.prompts ==> d.printsError
    requires PrintError(err.text, stack) !in rest && ShowPrompt(PromptText) !in rest
    ensures var es := Preamble(err, stack, d) + rest;
      && es[0] == CaptureStack
      && OccursIff(es, PrintError(err.text, stack), d.printsError)
      && (d.printsError ==> es[1] == PrintError(err.text, stack))
      && OccursIff(es, ShowPrompt(PromptText), d.prompts)
      && (d.prompts ==> es[2] == ShowPrompt(PromptText))
  {
    var shown := PrintError(err.text, stack);
    var prompt := ShowPrompt(PromptText);
    var pre := Preamble(err, stack, d);
    assert multiset(pre + rest) == multiset(pre) + multiset(rest);
    if d.prompts {
      assert pre == [CaptureStack, shown, prompt];
    } else if d.printsError {
      assert pre == [CaptureStack, shown];
    } else {
      assert pre == [CaptureStack];
    }
  }

  /** Counting an effect in a concatenation. */
  lemma CountIn(x: Effect, a: seq<Effect>, b: seq<Effect>)
    ensures multiset(a + b)[x] == multiset(a)[x] + multiset(b)[x]
  {
    assert multiset(a + b) == multiset(a) + multiset(b);
  }

  /**
    * One report attempt (one editor request) exactly when the decision
    * consents, and one issue filed for an edited document exactly then.
    */
  lemma CrashRunReportsOnConsent(err: Error, stack: seq<byte>, d: Decision, w: World)
    ensures var es := CrashRun(err, stack, d, w).effects;
      && OccursIff(es, EditorRequest(err, stack, w), d.reports)
      && (Composes(w.editor) ==> OccursIff(es, IssueFor(w.editor.edit.value), d.reports))
  {
    var pre := Preamble(err, stack, d);
    var es := CrashRun(err, stack, d, w).effects;
    var tail := if Aborted(d, w) then [] else SavesFor(d);
    var middle := if d.reports then ReportRun(err, stack, w).effects else [];
    assert es == (pre + middle) + tail;
    OccursAcross(err, stack, d, w, EditorRequest(err, stack, w), pre, middle, tail);
    if d.reports {
      ReportRunOpensOnce(err, stack, w);
    }
    if Composes(w.editor) {
      OccursAcross(err, stack, d, w, IssueFor(w.editor.edit.value), pre, middle, tail);
      if d.reports {
        ReportRunFilesOnce(err, stack, w);
      }
    }
  }

  /** An editor request or an issue is neither in the preamble nor among the writes. */
  lemma OccursAcross(err: Error, stack: seq<byte>, d: Decision, w: World, x: Effect,
                     pre: seq<Effect>, middle: seq<Effect>, tail: seq<Effect>)
    requires x.OpenEditor? || x.CreateIssue?
    requires pre == Preamble(err, stack, d)
    requires tail == [] || tail == SavesFor(d)
    ensures multiset((pre + middle) + tail)[x] == multiset(middle)[x]
  {
    CountIn(x, pre + middle, tail);
    CountIn(x, pre, middle);
    assert x !in pre && x !in tail;
  }

  /**
    * The preference is stored only as the decision says and only when the run
    * was not ended by a failed report; then it is the last effect, and the
    * configuration afterwards holds it under hub.reportCrash and is otherwise
    * unchanged.
    */
  lemma {:induction false} CrashRunStoresChoice(err: Error, stack: seq<byte>, d: Decision, w: World, config: map<string, string>)
    ensures var es := CrashRun(err, stack, d, w).effects;
      var stores := d.saves.Some? && !Aborted(d, w);
      && (forall e :: e in es && IsConfigWrite(e) ==> stores && e == SetGlobalConfig(ReportCrashKey, d.saves.value))
      && (stores ==> es[|es| - 1] == SetGlobalConfig(ReportCrashKey, d.saves.value))
      && (d.saves.Some? ==> multiset(es)[SetGlobalConfig(ReportCrashKey, d.saves.value)] == if stores then 1 else 0)
      && ConfigAfter(config, es) == if stores then config[ReportCrashKey := d.saves.value] else config
  {
    var body := CrashRunWriteFree(err, stack, d, w);
    CrashRunConfigAfter(err, stack, d, w, config);
    if d.saves.Some? {
      var write := SetGlobalConfig(ReportCrashKey, d.saves.value);
      if Aborted(d, w) {
        assert body + [] == body;
        WritesAfter(body, write, []);
      } else {
        WritesAfter(body, write, [write]);
      }
    }
  }

  /** The configuration a crash leaves behind: the stored choice, if any, under hub.reportCrash. */
  lemma CrashRunConfigAfter(err: Error, stack: seq<byte>, d: Decision, w: World, config: map<string, string>)
    ensures ConfigAfter(config, CrashRun(err, stack, d, w).effects) ==
      if d.saves.Some? && !Aborted(d, w) then config[ReportCrashKey := d.saves.value] else config
  {
    var body := CrashRunWriteFree(err, stack, d, w);
    if d.saves.Some? && !Aborted(d, w) {
      OneWriteSetsConfig(config, body + [SetGlobalConfig(ReportCrashKey, d.saves.value)], ReportCrashKey, d.saves.value);
    } else {
      assert body + [] == body;
      NoWriteKeepsConfig(config, body);
    }
  }

  /** A crash trace is a write-free part followed by the stored write, if the run stores one. */
  lemma CrashRunWriteFree(err: Error, stack: seq<byte>, d: Decision, w: World) returns (body: seq<Effect>)
    ensures forall e :: e in body ==> !IsConfigWrite(e)
    ensures CrashRun(err, stack, d, w).effects ==
      body + if d.saves.Some? && !Aborted(d, w) then [SetGlobalConfig(ReportCrashKey, d.saves.value)] else []
  {
    var pre := Preamble(err, stack, d);
    body := if d.reports then pre + ReportRun(err, stack, w).effects else pre;
    ReportRunConfined(err, stack, w);
  }

  /** A write appended to a trace without writes occurs once, and not at all when it is not appended. */
  lemma WritesAfter(body: seq<Effect>, x: Effect, tail: seq<Effect>)
    requires forall e :: e in body ==> !IsConfigWrite(e)
    requires IsConfigWrite(x) && (tail == [] || tail == [x])
    ensures multiset(body + tail)[x] == |tail|
  {
    assert x !in body;
    CountIn(x, body, tail);
  }

  /**
    * Nothing else is printed, asked, opened or filed, and a run that a failed
    * report ended finishes with the fatal error.
    */
  lemma {:induction false} CrashRunConfined(err: Error, stack: seq<byte>, d: Decision, w: World)
    ensures var es := CrashRun(err, stack, d, w).effects;
      && (forall e :: e in es ==>
            && (e.PrintError? ==> e == PrintError(err.text, stack))
            && (e.ShowPrompt? ==> e == ShowPrompt(PromptText))
            && (e.OpenEditor? ==> e == EditorRequest(err, stack, w))
            && (e.CreateIssue? ==> Composes(w.editor) && e == IssueFor(w.editor.edit.value)))
      && (Aborted(d, w) ==> es[|es| - 1].Fatal?)
  {
    ReportRunConfined(err, stack, w);
    if Aborted(d, w) {
      ReportRunEnds(err, stack, w);
    }
  }

  /**
    * Without an HUB_REPORT_CRASH override, the answer given at the prompt
    * decides the next crash: "always" (once the report went through) makes
    * it report silently, "never" makes it suppress, and any other answer
    * leaves the configuration as it was, so the next crash asks again.
    */
  lemma NextCrashFollowsAnswer(err: Error, w: World)
    requires Formattable(w.stackBuffer)
    requires !Overridden(w.env) && ModeOf(ReportCrashConfig(w.env, w.config)) == Ask
    ensures var after := ConfigAfter(w.config, CrashRunIn(err, w).effects);
      && (IsOption(w.answer, "a", "always") && Submits(w) ==> ModeOf(ReportCrashConfig(w.env, after)) == AutoReport)
      && (IsOption(w.answer, "e", "never") ==> ModeOf(ReportCrashConfig(w.env, after)) == AutoSuppress)
      && (!IsOption(w.answer, "a", "always") && !IsOption(w.answer, "e", "never") ==> after == w.config)
  {
    CrashRunConfigAfter(err, FormatStack(w.stackBuffer), DecisionFor(w), w, w.config);
  }

  /** The error's own text is what a printing run shows and what a reporting run's editor request carries. */
  lemma CrashRunShowsError(err: Error, stack: seq<byte>, d: Decision, w: World)
    ensures var es := CrashRun(err, stack, d, w).effects;
      && (d.printsError ==> PrintError(err.text, stack) in es)
      && (d.reports ==> EditorRequest(err, stack, w) in es)
  {
    var pre := Preamble(err, stack, d);
    var es := CrashRun(err, stack, d, w).effects;
    CrashRunAfterPreamble(err, stack, d, w);
    if d.printsError {
      assert es[1] == pre[1];
    }
    if d.reports {
      assert es[|pre|..][0] == ReportRun(err, stack, w).effects[0];
      assert es[|pre|] in es;
    }
  }

  /**
    * A recovered string is handled under its own text: `errors.New` keeps the
    * message, which is what is printed and what the report is filled with.
    */
  lemma StringPanicKeepsMessage(msg: string, w: World)
    requires Formattable(w.stackBuffer)
    ensures var es := CrashRunIn(NewError(msg), w).effects;
      && (DecisionFor(w).printsError ==> PrintError(msg, FormatStack(w.stackBuffer)) in es)
      && (DecisionFor(w).reports ==>
            exists e :: e in es && e.OpenEditor? && e.draft.errorText == msg && e.draft.errorType == ErrorsNewType)
  {
    var stack := FormatStack(w.stackBuffer);
    CrashRunShowsError(NewError(msg), stack, DecisionFor(w), w);
    var open := EditorRequest(NewError(msg), stack, w);
    assert open.draft.errorText == msg;
  }

  // ----- The operations -----

  /**
    * `reportTitleAndBody`: open the editor on the filled-in template; if that
    * fails, return its error without editing or cleaning up; otherwise edit,
    * then delete the editor file whatever the edit returned.
    */
  method ReportTitleAndBody(err: Error, stack: seq<byte>, w: World) returns (effects: seq<Effect>, doc: Result<Document>)
    ensures doc.Ok? <==> Composes(w.editor)
    ensures w.editor.Opened? ==> doc == w.editor.edit
    ensures w.editor.CannotOpen? ==> doc == Err(w.editor.error) && effects == [EditorRequest(err, stack, w)]
    ensures w.editor.Opened? ==> effects == [EditorRequest(err, stack, w), EditTitleAndBody, DeleteEditorFile]
  {
    effects := [EditorRequest(err, stack, w)];
    match w.editor {
      case CannotOpen(e) =>
        doc := Err(e);
      case Opened(edit) =>
        effects := effects + [EditTitleAndBody];
        doc := edit;
        effects := effects + [DeleteEditorFile];
    }
  }

  /**
    * `report`: compose the report, then create the issue on github/hub with
    * the single label "Crash Report" and print its URL.  A failure of either
    * collaborator terminates the process through utils.Check.
    */
  method Report(err: Error, stack: seq<byte>, w: World) returns (o: Outcome)
    ensures o == ReportRun(err, stack, w)
  {
    var effects, doc := ReportTitleAndBody(err, stack, w);
    if doc.Err? {
      effects := effects + [Fatal(doc.error)];
      return Outcome(effects, Some(ExitFailure));
    }
    effects := effects + [IssueFor(doc.value)];
    match w.tracker {
      case Err(e) =>
        o := Outcome(effects + [Fatal(e)], Some(ExitFailure));
      case Ok(url) =>
        o := Outcome(effects + [PrintIssueUrl(url)], None);
    }
  }

  /**
    * `saveReportConfiguration`: store "always" when the answer chose always,
    * otherwise "never" when it chose never, otherwise nothing.
    */
  method SaveReportConfiguration(confirm: string, always: bool) returns (effects: seq<Effect>)
    ensures always ==> effects == [SetGlobalConfig(ReportCrashKey, Always)]
    ensures !always && IsOption(confirm, "e", "never") ==> effects == [SetGlobalConfig(ReportCrashKey, Never)]
    ensures !always && !IsOption(confirm, "e", "never") ==> effects == []
    ensures always == IsOption(confirm, "a", "always") ==>
      effects == SavesFor(Decide(Ask, ParseAnswer(confirm)))
  {
    IsOptionMatchesTable(confirm);
    effects := [];
    if always {
      effects := [SetGlobalConfig(ReportCrashKey, Always)];
    } else if IsOption(confirm, "e", "never") {
      effects := [SetGlobalConfig(ReportCrashKey, Never)];
    }
  }

  /**
    * `reportCrash`: a nil error returns at once; otherwise capture and render
    * the stack, resolve the preference and follow it, then exit with status 1.
    */
  method ReportCrash(err: Option<Error>, w: World) returns (o: Outcome)
    requires err.Some? ==> Formattable(w.stackBuffer)
    ensures err.None? ==> o == Outcome([], None)
    ensures err.Some? ==> o == CrashRunIn(err.value, w)
  {
    if err.None? {
      return Outcome([], None);
    }
    var e := err.value;
    var effects := [CaptureStack];
    var stack := FormatStack(w.stackBuffer);

    var opt := ReportCrashConfig(w.env, w.config);
    ghost var d := DecisionFor(w);
    if opt == Always {
      assert Preamble(e, stack, d) == effects;
      var r := Report(e, stack, w);
      effects := effects + r.effects;
      if r.exit.Some? {
        CrashRunAborted(e, stack, d, w);
        return Outcome(effects, r.exit);
      }
      CrashRunSubmitted(e, stack, d, w);
      assert effects + SavesFor(d) == effects;
    } else if opt == Never {
      effects := effects + [PrintError(e.text, stack)];
      assert Preamble(e, stack, d) == effects;
      CrashRunDeclined(e, stack, d, w);
      assert effects + SavesFor(d) == effects;
    } else {
      effects := effects + [PrintError(e.text, stack)];
      effects := effects + [ShowPrompt(PromptText)];
      var confirm := w.answer;
      assert Preamble(e, stack, d) == effects;

      var always := IsOption(confirm, "a", "always");
      if always || IsOption(confirm, "y", "yes") {
        var r := Report(e, stack, w);
        effects := effects + r.effects;
        if r.exit.Some? {
          CrashRunAborted(e, stack, d, w);
          return Outcome(effects, r.exit);
        }
        CrashRunSubmitted(e, stack, d, w);
      } else {
        CrashRunDeclined(e, stack, d, w);
      }

      var saved := SaveReportConfiguration(confirm, always);
      effects := effects + saved;
    }
    o := Outcome(effects, Some(ExitFailure));
  }

  /**
    * `CaptureCrash`: a recovered error is reported as it is, a recovered
    * string as `errors.New` of it; nothing else (no panic, or any other
    * value) has any effect and does not exit.
    */
  method CaptureCrash(rec: Recovered, w: World) returns (o: Outcome)
    requires rec.PanicError? || rec.PanicString? ==> Formattable(w.stackBuffer)
    ensures rec.NotPanicking? || rec.PanicOther? ==> o == Outcome([], None)
    ensures rec.PanicError? ==> o == CrashRunIn(rec.err, w)
    ensures rec.PanicString? ==> o == CrashRunIn(NewError(rec.msg), w)
  {
    match rec {
      case PanicError(e) =>
        o := ReportCrash(Some(e), w);
      case PanicString(s) =>
        o := ReportCrash(Some(NewError(s)), w);
      case _ =>
        o := Outcome([], None);
    }
  }
}
