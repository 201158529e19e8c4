/**
 * Properties of the whole path from a validation outcome to what each of the
 * two binaries reports.
 */
module Pipeline {
  import opened Wrappers
  import opened Validate
  import opened Reports
  import Lint
  import ConfigLint

  /** The two binaries disagree on a list of warnings only: one passes it, the other fails it. */
  lemma WarningsOnlyVerdicts(ds: seq<Diagnostic>)
    requires ds != []
    requires forall k :: 0 <= k < |ds| ==> ds[k].severity == SeverityWarning
    ensures Lint.ExitCode(ds) == 0
    ensures ConfigLint.ExitCode(ds) == 1
    ensures !JsonReport(ds).valid
  {
  }

  /** With only errors, the error list is the whole input and the warning list is empty. */
  lemma {:induction false} AllErrorsSplit(ds: seq<Diagnostic>)
    requires forall d :: d in ds ==> d.severity == SeverityError
    ensures Lint.ErrorsOf(ds) == ds && Lint.WarningsOf(ds) == []
  {
    if ds != [] {
      assert ds[0] in ds;
      assert forall d :: d in ds[1..] ==> d in ds;
      AllErrorsSplit(ds[1..]);
      assert ds == [ds[0]] + ds[1..];
    }
  }

  /**
   * Since the validator never emits a warning, the disagreement above cannot
   * arise from its output: both binaries give the same exit code, and the
   * text report of cmd/lint never has a warning section.
   */
  lemma ValidatorOutputAgrees(sourceName: string, yaml: YamlParse, schema: SchemaLoad, unification: Unification)
    requires ValidateReader(sourceName, yaml, schema, unification).Ok?
    ensures var ds := ValidateReader(sourceName, yaml, schema, unification).value;
      && Lint.ExitCode(ds) == ConfigLint.ExitCode(ds)
      && Lint.ErrorsOf(ds) == ds
      && Lint.WarningsOf(ds) == []
  {
    var ds := ValidateReader(sourceName, yaml, schema, unification).value;
    AllErrorsSplit(ds);
    if ds != [] {
      assert ds[0] in ds;
    }
  }

  /**
   * A document that is not YAML fails both binaries, and every report shows
   * one error located at the bare source name (its line is unknown).
   */
  lemma ParseFailureReports(sourceName: string, reason: string, schema: SchemaLoad, unification: Unification)
    ensures var r := ValidateReader(sourceName, ParseFailed(reason), schema, unification);
      && r.Ok? && Lint.ExitCode(r.value) == 1 && ConfigLint.ExitCode(r.value) == 1
      && ConfigLint.TextLines(r.value) == [sourceName + ": error: " + ParseErrorDiagnostic(sourceName, reason).message]
      && Lint.TextOf(r.value).summary == Lint.Failed(1, 0)
      && !JsonReport(r.value).valid
      && SarifReport(r.value).runs[0].results[0].level == "error"
      && SarifReport(r.value).runs[0].results[0].locations[0].region == Region(0, 0)
  {
    var d := ParseErrorDiagnostic(sourceName, reason);
    AllErrorsSplit([d]);
    assert FormatLocation(d) == sourceName;
    assert ConfigLint.Line(d) == sourceName + ": error: " + d.message by {
      assert d.severity.name == "error";
      assert ": " + "error" + ": " == ": error: ";
    }
    assert ConfigLint.TextLines([d])[0] == ConfigLint.Line(d);
  }

  /**
   * `Severity` is a string type, so a value other than the two constants can
   * be built. cmd/lint files such a diagnostic under warnings and lets it pass,
   * while SARIF, which tests for "warning" rather than "error", calls it an error.
   */
  lemma OtherSeverity(d: Diagnostic)
    requires d.severity != SeverityError && d.severity != SeverityWarning
    ensures Lint.WarningsOf([d]) == [d] && Lint.ErrorsOf([d]) == []
    ensures Lint.ExitCode([d]) == 0 && ConfigLint.ExitCode([d]) == 1
    ensures ToSarif(d).level == "error"
  {
    assert [d][1..] == [];
  }
}
