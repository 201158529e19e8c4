/**
 * The records both linters render: the location string, the JSON report and
 * the SARIF log. cmd/lint/main.go and cmd/runs-on-config-lint/main.go declare
 * identical record types; they are defined once here, and each binary's
 * rendering loops live in its own module.
 */
module Reports {
  import opened Wrappers
  import opened Text
  import opened Validate

  /** `formatLocation`: `path:line:col` when the line is known, the bare path otherwise. */
  function FormatLocation(d: Diagnostic): (loc: string)
    ensures d.line <= 0 ==> loc == d.path
    ensures d.line > 0 ==> ParseLocation(loc) == Some(Location(d.path, d.line, d.column))
  {
    if d.line > 0 then
      var loc := d.path + ":" + IntToDecimal(d.line) + ":" + IntToDecimal(d.column);
      ParseLocationOfFormatted(d.path, d.line, d.column);
      loc
    else
      d.path
  }

  datatype Location = Location(path: string, line: int, column: int)

  /** The last index of `c` in `s`, if `c` occurs at all. */
  function LastIndexOf(s: string, c: char): (r: Option<nat>)
    ensures r.Some? ==> r.value < |s| && s[r.value] == c
  {
    if s == [] then None
    else if s[|s| - 1] == c then Some(|s| - 1)
    else LastIndexOf(s[..|s| - 1], c)
  }

  /** Reads `path:line:col` back, splitting at the last two colons (a path may hold colons itself). */
  function ParseLocation(s: string): Option<Location>
  {
    match LastIndexOf(s, ':')
    case None => None
    case Some(j) =>
      match LastIndexOf(s[..j], ':')
      case None => None
      case Some(i) =>
        match (ParseInt(s[i + 1..j]), ParseInt(s[j + 1..]))
        case (Some(line), Some(column)) => Some(Location(s[..i], line, column))
        case _ => None
  }

  lemma ParseLocationOfFormatted(path: string, line: int, column: int)
    ensures ParseLocation(path + ":" + IntToDecimal(line) + ":" + IntToDecimal(column)) == Some(Location(path, line, column))
  {
    var a, b := IntToDecimal(line), IntToDecimal(column);
    var front := path + ":" + a;
    var s := front + ":" + b;
    var j := |front|;
    LastColonAt(front, b);
    assert s[..j] == front;
    LastColonAt(path, a);
    var i := |path|;
    assert front[..i] == path;
    assert s[i + 1..j] == a;
    assert s[j + 1..] == b;
    assert s[..i] == path;
  }

  /** A string that reads back as a location is exactly how that location is formatted. */
  lemma ParseLocationUnique(s: string, loc: Location)
    requires ParseLocation(s) == Some(loc)
    ensures s == loc.path + ":" + IntToDecimal(loc.line) + ":" + IntToDecimal(loc.column)
  {
    var j := LastIndexOf(s, ':').value;
    var i := LastIndexOf(s[..j], ':').value;
    var a, b := s[i + 1..j], s[j + 1..];
    assert loc.path == s[..i] && ParseInt(a) == Some(loc.line) && ParseInt(b) == Some(loc.column);
    assert s[..j][i] == ':';
    SplitAtTwo(s, i, j);
    DecimalUnique(a, loc.line);
    DecimalUnique(b, loc.column);
  }

  /** Cutting out the characters at `i` and `j`, both colons, and putting them back. */
  lemma SplitAtTwo(s: string, i: nat, j: nat)
    requires i < j < |s| && s[i] == ':' && s[j] == ':'
    ensures s == s[..i] + ":" + s[i + 1..j] + ":" + s[j + 1..]
  {
    assert s == s[..i] + [s[i]] + s[i + 1..j] + [s[j]] + s[j + 1..];
  }

  /** In `p + ":" + t`, where `t` has no colon, the last colon is the one just after `p`. */
  lemma {:induction false} LastColonAt(p: string, t: string)
    requires forall k :: 0 <= k < |t| ==> t[k] != ':'
    ensures LastIndexOf(p + ":" + t, ':') == Some(|p|)
    decreases |t|
  {
    var s := p + ":" + t;
    if t == [] {
      assert s == p + ":";
    } else {
      var front := t[..|t| - 1];
      assert s[|s| - 1] == t[|t| - 1];
      assert s[..|s| - 1] == p + ":" + front;
      LastColonAt(p, front);
    }
  }

  // ---- JSON (`outputJSON`) ----

  datatype JsonDiagnostic = JsonDiagnostic(path: string, line: int, column: int, message: string, severity: string)

  datatype JsonOutput = JsonOutput(valid: bool, diagnostics: seq<JsonDiagnostic>)

  /** One JSON record per diagnostic, every field copied, the severity as its string. */
  function ToJson(d: Diagnostic): (j: JsonDiagnostic)
    ensures FromJson(j) == d
  {
    JsonDiagnostic(d.path, d.line, d.column, d.message, d.severity.name)
  }

  /** What a consumer of the JSON report reads back. */
  function FromJson(j: JsonDiagnostic): Diagnostic
  {
    Diagnostic(j.path, j.line, j.column, j.message, Severity(j.severity))
  }

  /** The JSON report lists the diagnostics unchanged, and `valid` says whether there are none. */
  function JsonReport(ds: seq<Diagnostic>): (out: JsonOutput)
    ensures out.valid <==> ds == []
    ensures |out.diagnostics| == |ds|
    ensures forall k :: 0 <= k < |ds| ==> FromJson(out.diagnostics[k]) == ds[k]
  {
    JsonOutput(|ds| == 0, seq(|ds|, k requires 0 <= k < |ds| => ToJson(ds[k])))
  }

  // ---- SARIF (`outputSARIF`) ----

  const SarifVersion := "2.1.0"
  const RuleId := "config-validation"
  const DriverName := "runs-on-config-lint"
  const DriverVersion := "0.1.0"

  /** Go's zero `Region` (both fields 0) is what a diagnostic without a line gets. */
  datatype Region = Region(startLine: int, startColumn: int)

  datatype PhysicalLocation = PhysicalLocation(uri: string, region: Region)

  datatype SarifResult = SarifResult(ruleId: string, level: string, text: string, locations: seq<PhysicalLocation>)

  datatype SarifRun = SarifRun(driverName: string, driverVersion: string, results: seq<SarifResult>)

  datatype SarifLog = SarifLog(version: string, runs: seq<SarifRun>)

  function Level(s: Severity): (level: string)
    ensures level == "warning" <==> s == SeverityWarning
    ensures level == "error" <==> s != SeverityWarning
  {
    if s == SeverityWarning then "warning" else "error"
  }

  function ToSarif(d: Diagnostic): (r: SarifResult)
    ensures r.ruleId == RuleId && r.level == Level(d.severity) && r.text == d.message
    ensures |r.locations| == 1 && r.locations[0].uri == d.path
    ensures d.line > 0 ==> r.locations[0].region == Region(d.line, d.column)
    ensures d.line <= 0 ==> r.locations[0].region == Region(0, 0)
  {
    var region := if d.line > 0 then Region(d.line, d.column) else Region(0, 0);
    SarifResult(RuleId, Level(d.severity), d.message, [PhysicalLocation(d.path, region)])
  }

  /** One run, by this tool, with one result per diagnostic in order. */
  function SarifReport(ds: seq<Diagnostic>): (log: SarifLog)
    ensures log.version == SarifVersion && |log.runs| == 1
    ensures log.runs[0].driverName == DriverName && log.runs[0].driverVersion == DriverVersion
    ensures |log.runs[0].results| == |ds|
    ensures forall k :: 0 <= k < |ds| ==> log.runs[0].results[k] == ToSarif(ds[k])
  {
    SarifLog(SarifVersion, [SarifRun(DriverName, DriverVersion, seq(|ds|, k requires 0 <= k < |ds| => ToSarif(ds[k])))])
  }
}
