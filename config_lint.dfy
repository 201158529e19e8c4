/**
 * The `cmd/runs-on-config-lint` binary (cmd/runs-on-config-lint/main.go):
 * any diagnostic, warnings included, fails a run, and the text report is one
 * line per diagnostic.
 */
module ConfigLint {
  import opened Wrappers
  import opened Validate
  import opened Reports
  import opened Outcomes
  import Text

  /** Exit code 1 exactly when there is any diagnostic at all. */
  function ExitCode(ds: seq<Diagnostic>): (code: int)
    ensures code == 0 || code == 1
    ensures code == 1 <==> ds != []
  {
    if |ds| > 0 then 1 else 0
  }

  // ---- Text report (`outputText`) ----

  /** `loc: severity: message`. */
  function Line(d: Diagnostic): string
  {
    FormatLocation(d) + ": " + d.severity.name + ": " + d.message
  }

  /** "OK" alone for an empty list, otherwise one line per diagnostic in input order. */
  function TextLines(ds: seq<Diagnostic>): seq<string>
  {
    if ds == [] then ["OK"] else seq(|ds|, k requires 0 <= k < |ds| => Line(ds[k]))
  }

  method OutputText(diags: seq<Diagnostic>) returns (lines: seq<string>)
    ensures lines == TextLines(diags)
  {
    if |diags| == 0 {
      return ["OK"];
    }
    lines := [];
    var i := 0;
    while i < |diags|
      invariant 0 <= i <= |diags|
      invariant |lines| == i
      invariant forall k :: 0 <= k < i ==> lines[k] == Line(diags[k])
    {
      var d := diags[i];
      var loc := d.path;
      if d.line > 0 {
        loc := d.path + ":" + Text.IntToDecimal(d.line) + ":" + Text.IntToDecimal(d.column);
      }
      lines := lines + [loc + ": " + d.severity.name + ": " + d.message];
      i := i + 1;
    }
  }

  /** Helper for `TextLinesShape`: the pieces of a line by position (location, ": severity: ", message). */
  lemma LineShape(d: Diagnostic)
    ensures var line, loc, tag := Line(d), FormatLocation(d), ": " + d.severity.name + ": ";
      && |loc| + |tag| + |d.message| == |line|
      && line[..|loc|] == loc
      && line[|loc|..|loc| + |tag|] == tag
      && line[|loc| + |tag|..] == d.message
  {
    var loc, tag := FormatLocation(d), ": " + d.severity.name + ": ";
    assert Line(d) == loc + tag + d.message;
  }

  /**
   * A reader can tell the two shapes apart: the report is "OK" alone exactly
   * for the empty list, and otherwise line k is the line of diagnostic k.
   */
  lemma TextLinesShape(ds: seq<Diagnostic>)
    ensures TextLines(ds) == ["OK"] <==> ds == []
    ensures ds != [] ==> |TextLines(ds)| == |ds| && forall k :: 0 <= k < |ds| ==> TextLines(ds)[k] == Line(ds[k])
  {
    if |ds| == 1 {
      LineShape(ds[0]);
      assert |TextLines(ds)[0]| >= 4;
    }
  }

  // ---- JSON and SARIF (`outputJSON`, `outputSARIF`) ----

  method OutputJSON(diags: seq<Diagnostic>) returns (out: JsonOutput)
    ensures out == JsonReport(diags)
  {
    var records := new JsonDiagnostic[|diags|];
    for i := 0 to |diags|
      invariant forall k :: 0 <= k < i ==> records[k] == ToJson(diags[k])
    {
      var d := diags[i];
      records[i] := JsonDiagnostic(d.path, d.line, d.column, d.message, d.severity.name);
    }
    out := JsonOutput(|diags| == 0, records[..]);
  }

  method OutputSARIF(diags: seq<Diagnostic>) returns (log: SarifLog)
    ensures log == SarifReport(diags)
  {
    var results := new SarifResult[|diags|];
    for i := 0 to |diags|
      invariant forall k :: 0 <= k < i ==> results[k] == ToSarif(diags[k])
    {
      var d := diags[i];
      var level := "error";
      if d.severity == SeverityWarning {
        level := "warning";
      }
      var region := Region(0, 0);
      if d.line > 0 {
        region := Region(d.line, d.column);
      }
      results[i] := SarifResult(RuleId, level, d.message, [PhysicalLocation(d.path, region)]);
    }
    assert results[..] == SarifReport(diags).runs[0].results;
    log := SarifLog(SarifVersion, [SarifRun(DriverName, DriverVersion, results[..])]);
  }

  // ---- `main` after validation ----

  datatype Report = Lines(lines: seq<string>) | Json(json: JsonOutput) | Sarif(sarif: SarifLog)

  /** As in the other binary, except that the exit code counts warnings too. */
  method Run(validation: Result<seq<Diagnostic>>, format: string) returns (o: Outcome<Report>)
    ensures validation.Err? ==> o == Outcome(None, Some(ValidationFailed(validation.error)), 1)
    ensures validation.Ok? && !KnownFormat(format) ==> o == Outcome(None, Some(InvalidFormat(format)), 1)
    ensures validation.Ok? && format == "text" ==> o == Outcome(Some(Lines(TextLines(validation.value))), None, ExitCode(validation.value))
    ensures validation.Ok? && format == "json" ==> o == Outcome(Some(Json(JsonReport(validation.value))), None, ExitCode(validation.value))
    ensures validation.Ok? && format == "sarif" ==> o == Outcome(Some(Sarif(SarifReport(validation.value))), None, ExitCode(validation.value))
  {
    if validation.Err? {
      return Outcome(None, Some(ValidationFailed(validation.error)), 1);
    }
    var diags := validation.value;
    var exitCode := 0;
    if |diags| > 0 {
      exitCode := 1;
    }
    if format == "text" {
      var lines := OutputText(diags);
      o := Outcome(Some(Lines(lines)), None, exitCode);
    } else if format == "json" {
      var json := OutputJSON(diags);
      o := Outcome(Some(Json(json)), None, exitCode);
    } else if format == "sarif" {
      var sarif := OutputSARIF(diags);
      o := Outcome(Some(Sarif(sarif)), None, exitCode);
    } else {
      o := Outcome(None, Some(InvalidFormat(format)), 1);
    }
  }
}
