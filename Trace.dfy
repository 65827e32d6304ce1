/**
  * The observable side effects of the crash-report flow in
  * github/crash_report.go, recorded in the order they happen, and the values
  * they carry.  The global git configuration is the only state a run leaves
  * behind; ConfigAfter replays a trace's configuration writes on it.
  */
module Trace {
  import opened StackFormat

  /** A non-nil Go `error`: its `%v` text and its dynamic type name. */
  datatype Error = Error(text: string, typeName: string)

  /** The dynamic type of the values `errors.New` returns. */
  const ErrorsNewType := "*errors.errorString"

  /** `errors.New(s)`. */
  function NewError(s: string): Error
  {
    Error(s, ErrorsNewType)
  }

  /**
    * The values the crash-report message template is filled with: the error
    * text (title and body), its type name, the rendered stack and the GOOS and
    * GOARCH of the runtime section.  The template's wording is not modelled.
    */
  datatype Draft = Draft(errorText: string, errorType: string, stack: seq<byte>, goos: string, goarch: string)

  /** A title and body as the editor hands them back. */
  datatype Document = Document(title: string, body: string)

  datatype Effect =
    | CaptureStack                                      // runtime.Stack into the capture buffer
    | PrintError(message: string, stack: seq<byte>)     // printError
    | ShowPrompt(text: string)                          // the question, followed by reading one token
    | OpenEditor(file: string, topic: string, draft: Draft)  // NewEditor, attempted
    | EditTitleAndBody                                  // editor.EditTitleAndBody
    | DeleteEditorFile                                  // the deferred editor.DeleteFile
    | CreateIssue(owner: string, repo: string, title: string, body: string, labels: seq<string>)
    | PrintIssueUrl(url: string)                        // fmt.Println(issue.HTMLURL)
    | Fatal(message: string)                            // utils.Check on a non-nil error
    | SetGlobalConfig(key: string, value: string)       // git.SetGlobalConfig

  /** `e` is a write to the global git configuration. */
  predicate IsConfigWrite(e: Effect)
  {
    e.SetGlobalConfig?
  }

  /** The configuration after one effect. */
  function Apply(config: map<string, string>, e: Effect): map<string, string>
  {
    if e.SetGlobalConfig? then config[e.key := e.value] else config
  }

  /** The configuration after a whole trace. */
  function ConfigAfter(config: map<string, string>, es: seq<Effect>): map<string, string>
    decreases es
  {
    if es == [] then config else ConfigAfter(Apply(config, es[0]), es[1..])
  }

  /** A trace without configuration writes leaves the configuration as it was. */
  lemma {:induction false} NoWriteKeepsConfig(config: map<string, string>, es: seq<Effect>)
    requires forall e :: e in es ==> !IsConfigWrite(e)
    ensures ConfigAfter(config, es) == config
    decreases es
  {
    if es != [] {
      assert es[0] in es;
      NoWriteKeepsConfig(config, es[1..]);
    }
  }

  /**
    * A trace whose configuration writes all store `value` under `key`, and
    * which has at least one, leaves exactly that entry changed.
    */
  lemma {:induction false} OneWriteSetsConfig(config: map<string, string>, es: seq<Effect>, key: string, value: string)
    requires SetGlobalConfig(key, value) in es
    requires forall e :: e in es && IsConfigWrite(e) ==> e == SetGlobalConfig(key, value)
    ensures ConfigAfter(config, es) == config[key := value]
    decreases es
  {
    assert es[0] in es;
    var rest := es[1..];
    if es[0] == SetGlobalConfig(key, value) {
      if SetGlobalConfig(key, value) in rest {
        OneWriteSetsConfig(config[key := value], rest, key, value);
        assert config[key := value][key := value] == config[key := value];
      } else {
        NoWriteKeepsConfig(config[key := value], rest);
      }
    } else {
      OneWriteSetsConfig(config, rest, key, value);
    }
  }
}
