/**
 * The `cmd/lint` binary (cmd/lint/main.go): warnings do not
 * fail a run, and the text report lists errors before warnings.
 */
module Lint {
  import opened Wrappers
  import opened Validate
  import opened Reports
  import opened Outcomes

  // ---- Splitting by severity ----

  /** The diagnostics of error severity, in their original order. */
  function ErrorsOf(ds: seq<Diagnostic>): seq<Diagnostic>
  {
    if ds == [] then []
    else (if ds[0].severity == SeverityError then [ds[0]] else []) + ErrorsOf(ds[1..])
  }

  /** Everything else (any severity other than error), in its original order. */
  function WarningsOf(ds: seq<Diagnostic>): seq<Diagnostic>
  {
    if ds == [] then []
    else (if ds[0].severity != SeverityError then [ds[0]] else []) + WarningsOf(ds[1..])
  }

  /** Appending one diagnostic extends exactly one of the two lists. */
  lemma {:induction false} SplitSnoc(ds: seq<Diagnostic>, d: Diagnostic)
    ensures ErrorsOf(ds + [d]) == ErrorsOf(ds) + (if d.severity == SeverityError then [d] else [])
    ensures WarningsOf(ds + [d]) == WarningsOf(ds) + (if d.severity != SeverityError then [d] else [])
  {
    var all := ds + [d];
    if ds == [] {
      assert all[1..] == [];
    } else {
      assert all[0] == ds[0];
      assert all[1..] == ds[1..] + [d];
      SplitSnoc(ds[1..], d);
    }
  }

  /** `ds` interleaves `a` and `b`: each element of `ds` is taken, in order, from the front of one of them. */
  ghost predicate Interleaves(ds: seq<Diagnostic>, a: seq<Diagnostic>, b: seq<Diagnostic>)
    decreases |ds|
  {
    if ds == [] then a == [] && b == []
    else
      || (a != [] && a[0] == ds[0] && Interleaves(ds[1..], a[1..], b))
      || (b != [] && b[0] == ds[0] && Interleaves(ds[1..], a, b[1..]))
  }

  /**
   * The split is an order-preserving partition: the input interleaves the two
   * lists, so together they hold every diagnostic once and each keeps the
   * input's relative order.
   */
  lemma {:induction false} SplitInterleaves(ds: seq<Diagnostic>)
    ensures Interleaves(ds, ErrorsOf(ds), WarningsOf(ds))
  {
    if ds != [] {
      var rest := ds[1..];
      SplitInterleaves(rest);
      if ds[0].severity == SeverityError {
        assert ErrorsOf(ds) == [ds[0]] + ErrorsOf(rest) && WarningsOf(ds) == WarningsOf(rest);
        assert ErrorsOf(ds)[1..] == ErrorsOf(rest);
      } else {
        assert WarningsOf(ds) == [ds[0]] + WarningsOf(rest) && ErrorsOf(ds) == ErrorsOf(rest);
        assert WarningsOf(ds)[1..] == WarningsOf(rest);
      }
    }
  }

  /** Membership, both ways: errors go to the first list, every other severity to the second. */
  lemma {:induction false} SplitMembers(ds: seq<Diagnostic>)
    ensures forall d :: d in ErrorsOf(ds) <==> d in ds && d.severity == SeverityError
    ensures forall d :: d in WarningsOf(ds) <==> d in ds && d.severity != SeverityError
    ensures multiset(ErrorsOf(ds)) + multiset(WarningsOf(ds)) == multiset(ds)
  {
    if ds != [] {
      SplitMembers(ds[1..]);
      assert ds == [ds[0]] + ds[1..];
    }
  }

  /** There are no errors exactly when no diagnostic has error severity. */
  lemma {:induction false} ErrorsOfEmpty(ds: seq<Diagnostic>)
    ensures ErrorsOf(ds) == [] <==> forall k :: 0 <= k < |ds| ==> ds[k].severity != SeverityError
  {
    if ds != [] {
      ErrorsOfEmpty(ds[1..]);
      assert forall k :: 1 <= k < |ds| ==> ds[k] == ds[1..][k - 1];
    }
  }

  // ---- Exit code ----

  /** Exit code 0 exactly when no diagnostic is an error: a list of warnings passes. */
  function ExitCode(ds: seq<Diagnostic>): (code: int)
    ensures code == 0 || code == 1
    ensures code == 0 <==> forall k :: 0 <= k < |ds| ==> ds[k].severity != SeverityError
  {
    ErrorsOfEmpty(ds);
    if |ErrorsOf(ds)| > 0 then 1 else 0
  }

  /** The counting loop of `main` and the exit code derived from it. */
  method ExitStatus(diags: seq<Diagnostic>) returns (errorCount: nat, exitCode: int)
    ensures errorCount == |ErrorsOf(diags)|
    ensures exitCode == ExitCode(diags)
  {
    errorCount := 0;
    var i := 0;
    while i < |diags|
      invariant 0 <= i <= |diags|
      invariant errorCount == |ErrorsOf(diags[..i])|
    {
      SplitSnoc(diags[..i], diags[i]);
      assert diags[..i + 1] == diags[..i] + [diags[i]];
      if diags[i].severity == SeverityError {
        errorCount := errorCount + 1;
      }
      i := i + 1;
    }
    assert diags[..i] == diags;
    exitCode := 0;
    if errorCount > 0 {
      exitCode := 1;
    }
  }

  // ---- Text report (`outputText`) ----

  /** One numbered item: `  N. location` followed by the message. */
  datatype Entry = Entry(number: nat, location: string, message: string)

  /** The closing line; a failure mentions the warnings only when their count is not 0. */
  datatype Summary = Failed(errorCount: nat, warningCount: nat) | Passed(warningCount: nat)

  datatype TextReport = NoIssues | Findings(errors: seq<Entry>, warnings: seq<Entry>, summary: Summary)

  /** Item k of a section shows diagnostic k of that section, numbered from 1. */
  function Numbered(ds: seq<Diagnostic>): (es: seq<Entry>)
    ensures |es| == |ds|
    ensures forall k :: 0 <= k < |ds| ==>
      es[k].number == k + 1 && es[k].location == FormatLocation(ds[k]) && es[k].message == ds[k].message
  {
    seq(|ds|, k requires 0 <= k < |ds| => Entry(k + 1, FormatLocation(ds[k]), ds[k].message))
  }

  /**
   * The report: nothing but "No issues found" for an empty list; otherwise the
   * error section, the warning section and a summary that fails exactly when
   * there is an error and counts what the sections list.
   */
  function TextOf(ds: seq<Diagnostic>): (out: TextReport)
    ensures out.NoIssues? <==> ds == []
    ensures out.Findings? ==>
      && (out.summary.Failed? <==> exists k :: 0 <= k < |ds| && ds[k].severity == SeverityError)
      && |out.errors| + |out.warnings| == |ds|
      && (out.summary.Failed? ==> out.summary.errorCount == |out.errors|)
      && out.summary.warningCount == |out.warnings|
      && out.errors == Numbered(ErrorsOf(ds))
      && out.warnings == Numbered(WarningsOf(ds))
  {
    if ds == [] then NoIssues
    else
      var errors := ErrorsOf(ds);
      var warnings := WarningsOf(ds);
      ErrorsOfEmpty(ds);
      SplitMembers(ds);
      assert |multiset(errors)| + |multiset(warnings)| == |multiset(ds)|;
      var summary := if |errors| > 0 then Failed(|errors|, |warnings|) else Passed(|warnings|);
      Findings(Numbered(errors), Numbered(warnings), summary)
  }

  /** The items of one section, numbered from 1. */
  method NumberSection(ds: seq<Diagnostic>) returns (entries: seq<Entry>)
    ensures entries == Numbered(ds)
  {
    entries := [];
    var i := 0;
    while i < |ds|
      invariant 0 <= i <= |ds|
      invariant entries == Numbered(ds[..i])
    {
      assert Numbered(ds[..i + 1]) == Numbered(ds[..i]) + [Entry(i + 1, FormatLocation(ds[i]), ds[i].message)];
      entries := entries + [Entry(i + 1, FormatLocation(ds[i]), ds[i].message)];
      i := i + 1;
    }
    assert ds[..i] == ds;
  }

  method OutputText(diags: seq<Diagnostic>) returns (out: TextReport)
    ensures out == TextOf(diags)
  {
    if |diags| == 0 {
      return NoIssues;
    }
    var errors: seq<Diagnostic> := [];
    var warnings: seq<Diagnostic> := [];
    var i := 0;
    while i < |diags|
      invariant 0 <= i <= |diags|
      invariant errors == ErrorsOf(diags[..i])
      invariant warnings == WarningsOf(diags[..i])
    {
      SplitSnoc(diags[..i], diags[i]);
      assert diags[..i + 1] == diags[..i] + [diags[i]];
      if diags[i].severity == SeverityError {
        errors := errors + [diags[i]];
      } else {
        warnings := warnings + [diags[i]];
      }
      i := i + 1;
    }
    assert diags[..i] == diags;
    var errorEntries := NumberSection(errors);
    var warningEntries := NumberSection(warnings);
    var summary;
    if |errors| > 0 {
      summary := Failed(|errors|, |warnings|);
    } else {
      summary := Passed(|warnings|);
    }
    out := Findings(errorEntries, warningEntries, summary);
  }

  // ---- JSON and SARIF (`outputJSON`, `outputSARIF`) ----

  method OutputJSON(diags: seq<Diagnostic>) returns (out: JsonOutput)
    ensures out == JsonReport(diags)
  {
    var records := new JsonDiagnostic[|diags|];
    for i := 0 to |diags|
      invariant forall k :: 0 <= k < i ==> records[k] == ToJson(diags[k])
    {
      var d := diags[i];
      records[i] := JsonDiagnostic(d.path, d.line, d.column, d.message, d.severity.name);
    }
    out := JsonOutput(|diags| == 0, records[..]);
  }

  method OutputSARIF(diags: seq<Diagnostic>) returns (log: SarifLog)
    ensures log == SarifReport(diags)
  {
    var results := new SarifResult[|diags|];
    for i := 0 to |diags|
      invariant forall k :: 0 <= k < i ==> results[k] == ToSarif(diags[k])
    {
      var d := diags[i];
      var level := "error";
      if d.severity == SeverityWarning {
        level := "warning";
      }
      var region := Region(0, 0);
      if d.line > 0 {
        region := Region(d.line, d.column);
      }
      results[i] := SarifResult(RuleId, level, d.message, [PhysicalLocation(d.path, region)]);
    }
    assert results[..] == SarifReport(diags).runs[0].results;
    log := SarifLog(SarifVersion, [SarifRun(DriverName, DriverVersion, results[..])]);
  }

  // ---- `main` after validation ----

  datatype Report = Plain(text: TextReport) | Json(json: JsonOutput) | Sarif(sarif: SarifLog)

  /**
   * A validation failure stops the run before the format is looked at; an
   * unknown format prints nothing and exits 1; otherwise the chosen report is
   * printed and the exit code follows the errors alone.
   */
  method Run(validation: Result<seq<Diagnostic>>, format: string) returns (o: Outcome<Report>)
    ensures validation.Err? ==> o == Outcome(None, Some(ValidationFailed(validation.error)), 1)
    ensures validation.Ok? && !KnownFormat(format) ==> o == Outcome(None, Some(InvalidFormat(format)), 1)
    ensures validation.Ok? && format == "text" ==> o == Outcome(Some(Plain(TextOf(validation.value))), None, ExitCode(validation.value))
    ensures validation.Ok? && format == "json" ==> o == Outcome(Some(Json(JsonReport(validation.value))), None, ExitCode(validation.value))
    ensures validation.Ok? && format == "sarif" ==> o == Outcome(Some(Sarif(SarifReport(validation.value))), None, ExitCode(validation.value))
  {
    if validation.Err? {
      return Outcome(None, Some(ValidationFailed(validation.error)), 1);
    }
    var diags := validation.value;
    var _, exitCode := ExitStatus(diags);
    if format == "text" {
      var text := OutputText(diags);
      o := Outcome(Some(Plain(text)), None, exitCode);
    } else if format == "json" {
      var json := OutputJSON(diags);
      o := Outcome(Some(Json(json)), None, exitCode);
    } else if format == "sarif" {
      var sarif := OutputSARIF(diags);
      o := Outcome(Some(Sarif(sarif)), None, exitCode);
    } else {
      o := Outcome(None, Some(InvalidFormat(format)), 1);
    }
  }
}
