# runs-on/config: the diagnostic pipeline

This project models the part of the runs-on configuration linter that the
repository itself owns: how validation outcomes become diagnostics, and how
the two command-line linters turn a list of diagnostics into a verdict and a
report.

- **Diagnostics** (`pkg/validate/validator.go`). A `Diagnostic` has a path, a
  line and a column (0 means unknown), a message and a `Severity`. `Severity`
  is a Go string type with two named values, `"error"` and `"warning"`.
  `ValidateReader` handles three outcomes. A YAML parse failure yields one
  error diagnostic whose message starts with `YAML parse error: `. A schema
  that fails to load is a call failure, not a diagnostic. Otherwise each CUE
  error becomes one error diagnostic. That diagnostic is placed at the error's
  first position (or 0:0 when it has none). Its message loses one leading
  `#Config:` and the white space around it.
- **`cmd/lint`**. A failed validation call or an unknown output format exits
  1. After a successful validation with a known format, the exit code is 1
  exactly when some diagnostic is an error.
  The text report lists errors, then warnings (every other severity), each
  numbered from 1, and ends with a pass/fail summary. The JSON report copies
  each diagnostic and sets `valid` when the list is empty. The SARIF log holds
  one result per diagnostic.
- **`cmd/runs-on-config-lint`**. A failed validation call or an unknown output
  format exits 1. Otherwise the exit code is 1 when there is any diagnostic,
  warnings included. The text report is `OK` for an empty list,
  otherwise one line `loc: severity: message` per diagnostic. The JSON and
  SARIF records are the same as in `cmd/lint`.

The YAML parser, the schema loader and the CUE engine are inputs to the model
(`YamlParse`, `SchemaLoad`, `Unification`). A CUE error is abstracted as its
message and its list of positions. Reports are datatypes, not bytes.

Modules:
- `Wrappers`: `Option` and `Result`.
- `Text`: the Go library functions the code relies on. These are
  `strings.TrimPrefix`, `strings.TrimSpace` with `unicode.IsSpace`, and `%d`
  with an inverse parser.
- `Validate`: the validator package.
- `Reports`: the location string, JSON and SARIF records shared by both binaries.
- `Outcomes`: what a run does once validation has run: the accepted formats, the two early failures, and what is printed and the exit code.
- `Lint` and `ConfigLint`: one module per binary.
- `Pipeline`: properties that span the validator and both binaries.

Validation is delegated entirely to CUE. There is no normaliser, no
hand-written structural validator, no deprecation scan and no de-duplication
of messages, and no path through `ValidateReader` emits a warning
(`Validate.ValidateReader`, `Pipeline.ValidatorOutputAgrees`). `cmd/lint`
fails only on errors, while `cmd/runs-on-config-lint` fails on warnings too
(`Pipeline.WarningsOnlyVerdicts`).

## Model

| member | source | states |
|---|---|---|
| `Validate.ParseErrorDiagnostic` | pkg/validate/validator.go:58-67 | the parse-error diagnostic is an error at the source name, line 0, column 0, and its message is `YAML parse error: ` followed by the parser's text |
| `Validate.CleanMessage` | pkg/validate/validator.go:141-144 | defined as `TrimPrefix` of `#Config:` followed by `TrimSpace`; what the result is, is stated by `CleanMessageSpec` |
| `Validate.CleanMessageSpec` | pkg/validate/validator.go:141-144 | the cleaned message is the raw one with one leading `#Config:` removed (if present) and then exactly the surrounding white space removed; it neither starts nor ends with white space |
| `Validate.CleanMessageRemovesOnePrefix` | pkg/validate/validator.go:143 | only one `#Config:` is removed: `#Config: #Config: x` cleans to `#Config: x` |
| `Validate.CleanMessagePrefixBeforeTrim` | pkg/validate/validator.go:143-144 | the prefix is tested before trimming, so ` #Config: x` keeps its `#Config:` |
| `Validate.CueErrorDiagnostic` | pkg/validate/validator.go:133-152 | a CUE error becomes an error diagnostic at the source name, located at its first position when it has one and at 0:0 otherwise, with the cleaned message |
| `Validate.CueDiagnostics` | pkg/validate/validator.go:131-153 | exactly one diagnostic per CUE error, the k-th made from the k-th error |
| `Validate.ConvertCueErrors` | pkg/validate/validator.go:127-156 | the appending loop returns exactly that list |
| `Validate.ValidateReader` | pkg/validate/validator.go:56-86 | a parse failure gives the single parse-error diagnostic before the schema is loaded; a schema failure is a call error `failed to load schema: …`; a unified document gives the empty list; CUE violations give their diagnostics; every diagnostic returned is an error at the source name (never a warning) |
| `Text.TrimPrefix` | pkg/validate/validator.go:143 | with the prefix present the result is what follows it; otherwise the input is unchanged |
| `Text.IsSpace` | pkg/validate/validator.go:144 | `unicode.IsSpace`: the code points with the Unicode White_Space property (U+0009–000D, U+0020, U+0085, U+00A0, U+1680, U+2000–200A, U+2028, U+2029, U+202F, U+205F, U+3000); "white space" in every trimming statement means this set |
| `Text.TrimLeftSpace` | pkg/validate/validator.go:144 | the `TrimLeftFunc` half of `strings.TrimSpace`; specified by `TrimLeftSpaceSpec` |
| `Text.TrimRightSpace` | pkg/validate/validator.go:144 | the `TrimRightFunc` half of `strings.TrimSpace`; specified by `TrimRightSpaceSpec` |
| `Text.TrimSpace` | pkg/validate/validator.go:144 | `strings.TrimSpace`, defined as trimming the front and then the back; specified by `TrimSpaceTrims` and `TrimmedUnique` |
| `Text.TrimLeftSpaceSpec` | pkg/validate/validator.go:144 | trimming the front leaves a suffix, drops only white space and stops at the first other code point |
| `Text.TrimRightSpaceSpec` | pkg/validate/validator.go:144 | trimming the back leaves a prefix, drops only white space and stops at the last other code point |
| `Text.TrimSpaceTrims` | pkg/validate/validator.go:144 | `TrimSpace` returns the input with all leading and trailing white space removed, and the result has none at either end |
| `Text.TrimmedUnique` | pkg/validate/validator.go:144 | two results that both strip the same string's ends are equal, so the trimming specification determines the result |
| `Text.TrimSpaceIdempotent` | pkg/validate/validator.go:144 | trimming an already trimmed message changes nothing |
| `Text.IntToDecimal` | cmd/lint/main.go:142 | the `%d` rendering of a line or column is non-empty, holds no colon, starts with `-` iff the number is negative, and reads back to the same integer under a reader that accepts only the canonical form |
| `Text.DecimalUnique` | cmd/lint/main.go:142 | any string that reads back as `n` is exactly the rendering of `n`, so the contract above determines the text: no leading zero and no `-0` |
| `Text.NatUnique` | cmd/lint/main.go:142 | a digit string with no leading zero is the rendering of the number it denotes |
| `Text.NatRoundTrip` | cmd/lint/main.go:142 | the decimal digits of a natural number read back to that number |
| `Reports.FormatLocation` | cmd/lint/main.go:140-145 | with line ≤ 0 the location is exactly the path; with line > 0 it is `path:line:col`, which reads back to the same path, line and column even when the path has colons |
| `Reports.ParseLocationOfFormatted` | cmd/lint/main.go:142 | splitting `path:line:col` at its last two colons recovers path, line and column |
| `Reports.ParseLocationUnique` | cmd/lint/main.go:142 | a string that reads back as a location is exactly `path:line:col` in canonical decimals, so `FormatLocation`'s contract determines its result |
| `Reports.ToJson` | cmd/lint/main.go:167-173 | the JSON record copies every field and gives the severity as its string, so reading it back gives the diagnostic unchanged |
| `Reports.JsonReport` | cmd/lint/main.go:161-174 | `valid` holds iff the list is empty; there is one record per diagnostic, and reading record k back gives diagnostic k unchanged |
| `Reports.Level` | cmd/lint/main.go:222-225 | the SARIF level is `warning` iff the severity is warning, and `error` for every other severity |
| `Reports.ToSarif` | cmd/lint/main.go:227-247 | one result with rule `config-validation`, the level, the message and one location at the path; the region holds line and column when line > 0 and is zero otherwise |
| `Reports.SarifReport` | cmd/lint/main.go:220-271 | a version 2.1.0 log with one run by `runs-on-config-lint` 0.1.0 holding one result per diagnostic, in order |
| `Lint.ErrorsOf` | cmd/lint/main.go:90-96 | the diagnostics of error severity, in input order; specified by `SplitInterleaves` and `SplitMembers` |
| `Lint.WarningsOf` | cmd/lint/main.go:90-96 | the diagnostics of every other severity, in input order; specified by `SplitInterleaves` and `SplitMembers` |
| `Lint.SplitSnoc` | cmd/lint/main.go:90-96 | appending a diagnostic extends the error list if it is an error and the warning list otherwise |
| `Lint.SplitInterleaves` | cmd/lint/main.go:86-96 | the input interleaves the error and warning lists: a partition that keeps each list in input order |
| `Lint.SplitMembers` | cmd/lint/main.go:90-96 | a diagnostic is in the error list iff it is in the input with error severity, and in the warning list iff it is in the input with any other severity; the two multisets add up to the input's |
| `Lint.ErrorsOfEmpty` | cmd/lint/main.go:53-58 | the error list is empty iff no diagnostic has error severity |
| `Lint.ExitCode` | cmd/lint/main.go:60-63 | the exit code is 0 or 1, and 0 iff no diagnostic is an error, so a list of warnings passes |
| `Lint.ExitStatus` | cmd/lint/main.go:52-63 | the counting loop counts exactly the error diagnostics, since warnings never add to it, and yields that exit code |
| `Lint.Numbered` | cmd/lint/main.go:101-104 | item k of a section is numbered k+1 and shows the location and message of diagnostic k |
| `Lint.TextOf` | cmd/lint/main.go:80-138 | an empty list gives only "No issues found"; otherwise the sections list the errors and then the warnings, and the summary fails iff some diagnostic is an error, with counts equal to the section lengths |
| `Lint.NumberSection` | cmd/lint/main.go:101-108 | the numbering loop returns that section |
| `Lint.OutputText` | cmd/lint/main.go:80-138 | the splitting loop and the section and summary choice return that report |
| `Lint.OutputJSON` | cmd/lint/main.go:147-174 | the filling loop returns the JSON report |
| `Lint.OutputSARIF` | cmd/lint/main.go:184-248 | the filling loop returns the SARIF log |
| `Lint.Run` | cmd/lint/main.go:47-77 | a validation failure exits 1 with the error and no report; an unknown format exits 1 with no report; otherwise the chosen report is printed and the exit code counts errors only |
| `ConfigLint.ExitCode` | cmd/runs-on-config-lint/main.go:52-55 | the exit code is 0 or 1, and 1 iff the list is non-empty, warnings included |
| `ConfigLint.Line` | cmd/runs-on-config-lint/main.go:78-83 | the text line of one diagnostic: the `%s: %s: %s` layout of location, severity and message |
| `ConfigLint.LineShape` | cmd/runs-on-config-lint/main.go:78-83 | helper for `TextLinesShape`: the location, the `: severity: ` tag and the message by position in the line |
| `ConfigLint.TextLines` | cmd/runs-on-config-lint/main.go:72-85 | the whole text report; its two shapes are stated by `TextLinesShape` |
| `ConfigLint.TextLinesShape` | cmd/runs-on-config-lint/main.go:72-85 | the report is `OK` alone iff the list is empty; otherwise it has one line per diagnostic, line k being that of diagnostic k |
| `ConfigLint.OutputText` | cmd/runs-on-config-lint/main.go:72-85 | the loop, which builds the location inline, returns those lines; its location rule is the one `formatLocation` uses in the other binary |
| `ConfigLint.OutputJSON` | cmd/runs-on-config-lint/main.go:87-114 | the filling loop returns the same JSON report as the other binary |
| `ConfigLint.OutputSARIF` | cmd/runs-on-config-lint/main.go:124-188 | the filling loop returns the same SARIF log as the other binary |
| `ConfigLint.Run` | cmd/runs-on-config-lint/main.go:47-70 | as in the other binary, except that the exit code is 1 for any diagnostic |
| `Pipeline.WarningsOnlyVerdicts` | cmd/runs-on-config-lint/main.go:52-55 | for a non-empty list of warnings, `cmd/lint` exits 0 and `cmd/runs-on-config-lint` exits 1, and the JSON report says not valid |
| `Pipeline.AllErrorsSplit` | cmd/lint/main.go:90-96 | a list of errors only splits into itself and an empty warning list |
| `Pipeline.ValidatorOutputAgrees` | pkg/validate/validator.go:59-86 | on anything the validator returns, both binaries give the same exit code and `cmd/lint` has no warning section |
| `Pipeline.ParseFailureReports` | pkg/validate/validator.go:58-67 | a parse failure makes both binaries exit 1; the one-line text report is located at the bare source name; the summary is one error and no warnings; JSON is not valid; SARIF shows an error with a zero region |
| `Pipeline.OtherSeverity` | pkg/validate/validator.go:30-35 | a severity outside the two constants is listed and passed as a warning by `cmd/lint` but has SARIF level `error` |

## Left out

- YAML parsing and anchor expansion (`yaml.Unmarshal`): foreign library; only success or the error text enters the model.
- CUE encoding, unification and validation, and the schema they use: a foreign constraint engine, and the schema file is not part of this model. The outcome enters as `Unified` or a list of errors.
- `loadSchema`'s embedded-file read, fallback path search and compilation: I/O and start-up plumbing. Only its success or failure is modelled.
- `ValidateFile` and the `io.ReadAll` step of `ValidateReader`, with their errors: file and stream I/O.
- `pkg/schemajson/schema.go`: it only returns embedded bytes.
- `pkg/validate/validator_test.go`: its assertions depend on fixture files and the schema, which are not part of this model.
- Command-line plumbing: flag parsing, `-version`, reading from stdin as `<stdin>`, the missing-file message, `os.Exit`, and printing to standard output and error.
- Byte-level rendering: blank lines, the `✗`/`⚠`/`✓` headers, the JSON encoder's indentation and `omitempty` (which drops a zero `line`, `column`, `startLine` or `startColumn`; the `region` object itself is always written), and JSON or SARIF encoding errors. Reports are modelled as datatypes.
- Go strings are UTF-8 bytes, while the model uses Unicode code points; an invalid byte sequence in a message is not modelled.
- A non-nil CUE error for which `errors.Errors` yields an empty list gives an empty diagnostic list. In the model that is `Violations([])`, which gives `Ok([])`, the same as Go's nil slice.
