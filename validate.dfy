/**
 * The diagnostic side of `ValidateReader` and `convertCueErrors`
 * (pkg/validate/validator.go). The YAML parser, the schema loader and the
 * CUE engine are foreign code: their outcomes enter as parameters.
 */
module Validate {
  import opened Wrappers
  import opened Text

  /** Go's `type Severity string`: any string, with two named constants. */
  datatype Severity = Severity(name: string)

  const SeverityError := Severity("error")
  const SeverityWarning := Severity("warning")

  /** A line of 0 (and a column of 0) means "position unknown". */
  datatype Diagnostic = Diagnostic(path: string, line: int, column: int, message: string, severity: Severity)

  /** A source position reported by CUE (`token.Pos`). */
  datatype Position = Position(line: int, column: int)

  /** One CUE error, seen through `err.Error()` and `errors.Positions(err)`. */
  datatype CueError = CueError(message: string, positions: seq<Position>)

  /** What `yaml.Unmarshal` did with the bytes; the decoded tree itself is not needed. */
  datatype YamlParse = Parsed | ParseFailed(reason: string)

  /** What `loadSchema` returned. */
  datatype SchemaLoad = SchemaLoaded | SchemaFailed(reason: string)

  /** What `unified.Validate()` returned, as the list `errors.Errors` makes of it. */
  datatype Unification = Unified | Violations(errors: seq<CueError>)

  const ParseErrorPrefix := "YAML parse error: "
  const ConfigPrefix := "#Config:"
  const SchemaErrorPrefix := "failed to load schema: "

  /** The single diagnostic reported when the document is not valid YAML. */
  function ParseErrorDiagnostic(sourceName: string, reason: string): (d: Diagnostic)
    ensures d.severity == SeverityError && d.path == sourceName
    ensures d.line == 0 && d.column == 0
    ensures HasPrefix(d.message, ParseErrorPrefix) && d.message[|ParseErrorPrefix|..] == reason
  {
    Diagnostic(sourceName, 0, 0, ParseErrorPrefix + reason, SeverityError)
  }

  /** The clean-up applied to a CUE message: one `#Config:` off the front, then surrounding white space. */
  function CleanMessage(raw: string): string
  {
    TrimSpace(TrimPrefix(raw, ConfigPrefix))
  }

  /** The cleaned message is the raw one less one leading `#Config:` (if any) and the white space around it. */
  lemma CleanMessageSpec(raw: string)
    ensures HasPrefix(raw, ConfigPrefix) ==> IsTrimmedOf(raw[|ConfigPrefix|..], CleanMessage(raw))
    ensures !HasPrefix(raw, ConfigPrefix) ==> IsTrimmedOf(raw, CleanMessage(raw))
    ensures var msg := CleanMessage(raw); msg != [] ==> !IsSpace(msg[0]) && !IsSpace(msg[|msg| - 1])
  {
    TrimSpaceTrims(TrimPrefix(raw, ConfigPrefix));
  }

  /** The diagnostic made from one CUE error: located at its first position, if it has one. */
  function CueErrorDiagnostic(e: CueError, sourceName: string): (d: Diagnostic)
    ensures d.severity == SeverityError && d.path == sourceName
    ensures e.positions != [] ==> d.line == e.positions[0].line && d.column == e.positions[0].column
    ensures e.positions == [] ==> d.line == 0 && d.column == 0
    ensures d.message == CleanMessage(e.message)
  {
    var line := if e.positions != [] then e.positions[0].line else 0;
    var column := if e.positions != [] then e.positions[0].column else 0;
    Diagnostic(sourceName, line, column, CleanMessage(e.message), SeverityError)
  }

  /** The list `convertCueErrors` builds: one diagnostic per CUE error, in the same order. */
  function CueDiagnostics(errs: seq<CueError>, sourceName: string): (ds: seq<Diagnostic>)
    ensures |ds| == |errs|
    ensures forall k :: 0 <= k < |errs| ==> ds[k] == CueErrorDiagnostic(errs[k], sourceName)
  {
    seq(|errs|, k requires 0 <= k < |errs| => CueErrorDiagnostic(errs[k], sourceName))
  }

  /** `convertCueErrors`: the loop that appends one diagnostic per CUE error. */
  method ConvertCueErrors(errs: seq<CueError>, sourceName: string) returns (diagnostics: seq<Diagnostic>)
    ensures diagnostics == CueDiagnostics(errs, sourceName)
  {
    diagnostics := [];
    var i := 0;
    while i < |errs|
      invariant 0 <= i <= |errs|
      invariant |diagnostics| == i
      invariant forall k :: 0 <= k < i ==> diagnostics[k] == CueErrorDiagnostic(errs[k], sourceName)
    {
      var e := errs[i];
      var line := 0;
      var column := 0;
      if |e.positions| > 0 {
        line := e.positions[0].line;
        column := e.positions[0].column;
      }
      var msg := e.message;
      msg := TrimPrefix(msg, ConfigPrefix);
      msg := TrimSpace(msg);
      diagnostics := diagnostics + [Diagnostic(sourceName, line, column, msg, SeverityError)];
      i := i + 1;
    }
  }

  /**
   * `ValidateReader` once the bytes are in memory: a parse failure is reported
   * before the schema is even loaded; a schema that fails to load is a call
   * failure, not a diagnostic.
   */
  function ValidateReader(sourceName: string, yaml: YamlParse, schema: SchemaLoad, unification: Unification): (r: Result<seq<Diagnostic>>)
    ensures yaml.ParseFailed? ==> r == Ok([ParseErrorDiagnostic(sourceName, yaml.reason)])
    ensures yaml.Parsed? && schema.SchemaFailed? ==> r == Err(SchemaErrorPrefix + schema.reason)
    ensures yaml.Parsed? && schema.SchemaLoaded? && unification.Unified? ==> r == Ok([])
    ensures yaml.Parsed? && schema.SchemaLoaded? && unification.Violations? ==>
              r == Ok(CueDiagnostics(unification.errors, sourceName))
    ensures r.Ok? ==> forall d :: d in r.value ==> d.severity == SeverityError && d.path == sourceName
  {
    match yaml
    case ParseFailed(reason) => Ok([ParseErrorDiagnostic(sourceName, reason)])
    case Parsed =>
      match schema
      case SchemaFailed(reason) => Err(SchemaErrorPrefix + reason)
      case SchemaLoaded =>
        match unification
        case Unified => Ok([])
        case Violations(errs) =>
          Ok(CueDiagnostics(errs, sourceName))
  }

  /** Only one `#Config:` is removed: a repeated prefix survives once. */
  lemma CleanMessageRemovesOnePrefix()
    ensures CleanMessage("#Config: #Config: x") == "#Config: x"
  {
    var rest := "#Config: #Config: x"[|ConfigPrefix|..];
    assert rest == " #Config: x";
    CleanMessageSpec("#Config: #Config: x");
    TrimmedUnique(rest, CleanMessage("#Config: #Config: x"), "#Config: x") by {
      assert IsTrimmedAt(rest, "#Config: x", 1) by {
        assert rest[1..11] == "#Config: x";
      }
    }
  }

  /** The prefix is looked for before white space is trimmed. */
  lemma CleanMessagePrefixBeforeTrim()
    ensures CleanMessage(" #Config: x") == "#Config: x"
  {
    var raw := " #Config: x";
    assert !HasPrefix(raw, ConfigPrefix) by {
      assert raw[0] != ConfigPrefix[0];
    }
    CleanMessageSpec(raw);
    TrimmedUnique(raw, CleanMessage(raw), "#Config: x") by {
      assert IsTrimmedAt(raw, "#Config: x", 1) by {
        assert raw[1..11] == "#Config: x";
      }
    }
  }
}
