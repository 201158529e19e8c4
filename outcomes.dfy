/**
 * What `main` does once validation has run, in both binaries: the reasons a
 * run stops before printing a report, the output formats it accepts, and the
 * outcome of a run (what goes to standard output and standard error, and the
 * exit code).
 */
module Outcomes {
  import opened Wrappers

  /** Why a run stops with exit code 1 before printing a report. */
  datatype Failure = ValidationFailed(message: string) | InvalidFormat(format: string)

  /** What a run prints to standard output, to standard error, and the code it exits with. */
  datatype Outcome<R> = Outcome(stdout: Option<R>, stderr: Option<Failure>, exitCode: int)

  predicate KnownFormat(format: string)
  {
    format == "text" || format == "json" || format == "sarif"
  }
}
