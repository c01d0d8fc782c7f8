# Publisher runner: a verified model

A Dafny model of the core of a Jenkins publisher plugin that, after a build,
runs an external "wiki publisher" executable. The plugin's `perform` looks up
the configured publisher installation by name, checks that its executable
exists on the build node, builds a positional command line from the step's
fields and the run's environment (`BUILD_URL`, `host`), launches it and logs
its exit code. The configuration form validates each text field by length.

The model has five modules:

- `Options`: the absent-or-present value standing for Java's nullable references.
- `Validation`: `ValidationUtils.validateString` and the descriptor's four
  `doCheck*` callbacks, as functions from a string to a form-validation answer
  (error, warning, ok). Lengths are Java's `String.length()`, counted in
  UTF-16 code units (`Utf16Length`), so a character outside the Basic
  Multilingual Plane counts twice.
- `Installations`: an installation (name, home), the registry as an ordered
  sequence, and `getInstallation` as a first-match search. It is written twice:
  `FirstIndex`/`Lookup` is the recursive reference, and `GetInstallation`
  is the source's loop, proved equal to it.
- `Arguments`: the argument-list builder, which drops null values. It holds
  the five positional values the step adds, and the inverse reading of a
  command line.
- `Runner`: `perform` as a total function `Perform` to an `Outcome`. The
  host's effects are oracle parameters:
  - the registry and the environment map;
  - node translation (`forNode`), which yields a path or throws;
  - the remote existence probe, which answers present or absent, or throws
    an IOException or an InterruptedException;
  - launch and join, which yield a 32-bit exit code or throw.

  `ThrownBy` and `LogOf` give the exception the step leaves with and the
  log entries it writes.

Two behaviours of the source are modelled as written:

- The specialised installations returned by `forNode` and `forEnvironment`
  are discarded. The path probed and placed in `argv[0]` is the configured
  `home`, unexpanded. `SpecialisationDiscarded` states this.
- Pre-launch failures abort the step by throwing. Launch and join failures
  are caught and only logged. The exit code is logged and never mapped to a
  build result, and the step's monitor is `BuildStepMonitor.NONE`.

Assumptions about code that is not part of this model:

- `ArgumentListBuilder.add` skips null values, so a missing `host` leaves a
  four-element vector.
- `FilePath.exists` may throw `InterruptedException` as well as
  `IOException`. Only `IOException` is caught around the probe, so an
  interrupted probe propagates out of `perform` without a fatal log line.
- `forNode` (line 65) declares IOException and InterruptedException, and
  neither is caught, so a throwing node translation propagates out of
  `perform` unchanged, with no fatal log line.
- The `RuntimeException` thrown for a missing path (inside the `try`) is not
  an `IOException`, so it is not caught by the handler for a failed probe.
  Exactly one fatal line is logged.

The run's environment is a plain map with exact key matching.

## Model

| member | source | states |
|---|---|---|
| Installations.FirstIndex | src/main/java/org/jenkinsci/plugins/publisherrunner/ConfluencePublisherRunner.java:45-50 | the index returned names the first installation, in array order, whose name equals the key; none is returned exactly when no name matches |
| Installations.Lookup | src/main/java/org/jenkinsci/plugins/publisherrunner/ConfluencePublisherRunner.java:43-51 | a null name finds nothing; otherwise the result is the first installation with that name, and nothing only when no name matches |
| Installations.GetInstallation | src/main/java/org/jenkinsci/plugins/publisherrunner/ConfluencePublisherRunner.java:43-51 | the source's early-return loop returns nothing for a null name, otherwise the first match in array order, or nothing when no name matches; it agrees with Lookup on every input |
| Installations.FirstMatchUnique | src/main/java/org/jenkinsci/plugins/publisherrunner/ConfluencePublisherRunner.java:45-49 | the first match is unique, so the lookup's answer is determined |
| Installations.UniqueNameFindsItsInstallation | src/main/java/org/jenkinsci/plugins/publisherrunner/ConfluencePublisherRunner.java:45-50 | an installation whose name occurs once in the registry is exactly what that name finds |
| Installations.LaterDuplicateShadowed | src/main/java/org/jenkinsci/plugins/publisherrunner/ConfluencePublisherRunner.java:45-49 | when two installations share a name, the one found is at or before the earlier of them; later duplicates are never returned |
| Installations.AppendAfterMatch | src/main/java/org/jenkinsci/plugins/publisherrunner/ConfluencePublisherRunner.java:45-49 | installations added after a match do not change what the lookup returns |
| Installations.AppendAfterMiss | src/main/java/org/jenkinsci/plugins/publisherrunner/ConfluencePublisherRunner.java:45-50 | when the registry has no match, entries appended to it are searched next, at their shifted positions |
| Arguments.Compact | src/main/java/org/jenkinsci/plugins/publisherrunner/ConfluencePublisherRunner.java:84-86 | the builder keeps only present values, each one among those added; with no absent value it keeps all of them in order, and with none present it yields nothing |
| Arguments.CompactAppend | src/main/java/org/jenkinsci/plugins/publisherrunner/ConfluencePublisherRunner.java:84-86 | adding values in two batches gives the concatenation of the two batches' results |
| Arguments.CompactValues | src/main/java/org/jenkinsci/plugins/publisherrunner/ConfluencePublisherRunner.java:84-86 | the builder keeps the four always-present values in order, followed by the host only if it is present |
| Arguments.Render | src/main/java/org/jenkinsci/plugins/publisherrunner/ConfluencePublisherRunner.java:84-86 | the vector has the executable, config file, report URL and artifacts URL at positions 0 to 3, and the host at position 4 only when present (length 5, else 4) |
| Arguments.ParseRender | src/main/java/org/jenkinsci/plugins/publisherrunner/ConfluencePublisherRunner.java:84-86 | reading a rendered vector back by position gives the original command, so the positional order is unambiguous |
| Arguments.RenderParse | src/main/java/org/jenkinsci/plugins/publisherrunner/ConfluencePublisherRunner.java:84-86 | every four- or five-element vector is the rendering of what it reads as |
| Arguments.BuildArgv | src/main/java/org/jenkinsci/plugins/publisherrunner/ConfluencePublisherRunner.java:81-86 | argv is home, config file, BUILD_URL + report fragment, BUILD_URL + artifacts fragment, then host only when the environment has it; a missing BUILD_URL leaves the fragments unprefixed |
| Arguments.ArgvWithHost | src/main/java/org/jenkinsci/plugins/publisherrunner/ConfluencePublisherRunner.java:81-86 | with a host in the environment the vector is exactly the five values in order |
| Arguments.ArgvWithoutHost | src/main/java/org/jenkinsci/plugins/publisherrunner/ConfluencePublisherRunner.java:81-86 | without a host in the environment, the vector is exactly the four positional values in order |
| Arguments.FragmentsRecoverable | src/main/java/org/jenkinsci/plugins/publisherrunner/ConfluencePublisherRunner.java:82-86 | the URL arguments are the build URL immediately followed by the fragment, with no separator; removing the build URL prefix gives the fragment back |
| Arguments.FiveArgumentsWithHost | src/main/java/org/jenkinsci/plugins/publisherrunner/ConfluencePublisherRunner.java:81-86 | example: host wiki.local and BUILD_URL http://ci/42/ give the five-element vector |
| Arguments.FourArgumentsWithoutHost | src/main/java/org/jenkinsci/plugins/publisherrunner/ConfluencePublisherRunner.java:81-86 | example: with no host the vector has four elements |
| Runner.Perform | src/main/java/org/jenkinsci/plugins/publisherrunner/ConfluencePublisherRunner.java:54-101 | nothing found (including a null name) ends the step before translation, probe or launch; the probed path is the found installation's configured home; each probe answer other than present ends the step unlaunched; the step launches exactly when lookup, translation and probe all succeed, and then launches StepArgv with the run's environment |
| Runner.ThrownBy | src/main/java/org/jenkinsci/plugins/publisherrunner/ConfluencePublisherRunner.java:60-98 | the step throws exactly when it did not launch; launch-time failures never escape |
| Runner.LogOf | src/main/java/org/jenkinsci/plugins/publisherrunner/ConfluencePublisherRunner.java:60-98 | each execution adds at most one entry to the log, apart from the environment listing |
| Runner.FatalIffRuntimeError | src/main/java/org/jenkinsci/plugins/publisherrunner/ConfluencePublisherRunner.java:60-79 | a fatal error is logged exactly when the step aborts with a RuntimeException: a missing publisher, a missing path or a failed probe |
| Runner.LaunchFailuresSwallowed | src/main/java/org/jenkinsci/plugins/publisherrunner/ConfluencePublisherRunner.java:88-98 | an IOException or InterruptedException from launch or join is logged and not rethrown; a normal exit logs its code verbatim and throws nothing |
| Runner.NotFoundConsultsNothing | src/main/java/org/jenkinsci/plugins/publisherrunner/ConfluencePublisherRunner.java:60-64 | when lookup finds nothing, the outcome does not depend on the translation, probe or launch oracles, and the only log entry is the fatal "no publisher" |
| Runner.NoLaunchWithoutExecutable | src/main/java/org/jenkinsci/plugins/publisherrunner/ConfluencePublisherRunner.java:71-79 | when the probe does not answer present, the launcher is never consulted and the step throws. After a successful translation: an absent executable logs the fatal "no path" line and throws a RuntimeException; a probe IOException logs the fatal "check failed" line and throws a RuntimeException; an interrupted probe logs nothing and propagates the InterruptedException |
| Runner.TranslationFailurePropagates | src/main/java/org/jenkinsci/plugins/publisherrunner/ConfluencePublisherRunner.java:60-66 | when node translation of the found installation throws, the step ends with that checked exception unchanged, logs nothing, and consults neither the probe nor the launcher |
| Runner.SpecialisationDiscarded | src/main/java/org/jenkinsci/plugins/publisherrunner/ConfluencePublisherRunner.java:65-69 | any two successful node translations give the same outcome, because their results are discarded and the configured home is used |
| Runner.LaunchesConfiguredCommand | src/main/java/org/jenkinsci/plugins/publisherrunner/ConfluencePublisherRunner.java:81-90 | when the first match translates and its home is present, the step launches a 4- or 5-element vector carrying the config file and the BUILD_URL-prefixed fragments, passes it the run's environment, and throws nothing |
| Validation.Utf16Length | src/main/java/org/jenkinsci/plugins/publisherrunner/ValidationUtils.java:18-20 | the length `String.length()` reports is between the character count and twice it, and is zero exactly for the empty string |
| Validation.Utf16LengthAppend | src/main/java/org/jenkinsci/plugins/publisherrunner/ValidationUtils.java:18-20 | the UTF-16 length of a concatenation is the sum of the two lengths |
| Validation.SupplementaryCharacterCountsTwice | src/main/java/org/jenkinsci/plugins/publisherrunner/ValidationUtils.java:18-22 | three characters including U+1F600 are four UTF-16 units and are accepted, while "abc" draws a warning |
| Validation.CheckLength | src/main/java/org/jenkinsci/plugins/publisherrunner/ConfluencePublisherRunner.java:154-161 | the empty string gives an error with the empty-message; a UTF-16 length of 1 to 3 gives a warning with the short-message; a UTF-16 length of 4 or more gives ok; the three cases are exclusive and exhaustive |
| Validation.ValidateString | src/main/java/org/jenkinsci/plugins/publisherrunner/ValidationUtils.java:16-23 | error exactly for the empty string, warning exactly when the UTF-16 length is 1 to 3, ok exactly when it is at least 4; the messages are the bundle's ValueIsAbsent / ValueIsTooShort |
| Validation.DoCheckRunnableConfigFile | src/main/java/org/jenkinsci/plugins/publisherrunner/ConfluencePublisherRunner.java:154-161 | error exactly for the empty string, warning exactly when the UTF-16 length is 1 to 3, ok exactly when it is at least 4, with this field's messages |
| Validation.DoCheckRunnable | src/main/java/org/jenkinsci/plugins/publisherrunner/ConfluencePublisherRunner.java:163-170 | error exactly for the empty string, warning exactly when the UTF-16 length is 1 to 3, ok exactly when it is at least 4, with this field's messages |
| Validation.DoCheckAllureReportUrl | src/main/java/org/jenkinsci/plugins/publisherrunner/ConfluencePublisherRunner.java:172-179 | error exactly for the empty string, warning exactly when the UTF-16 length is 1 to 3, ok exactly when it is at least 4, with this field's messages |
| Validation.DoCheckArtifactsUrl | src/main/java/org/jenkinsci/plugins/publisherrunner/ConfluencePublisherRunner.java:181-188 | error exactly for the empty string, warning exactly when the UTF-16 length is 1 to 3, ok exactly when it is at least 4, with this field's messages |
| Validation.ExactlyOneKind | src/main/java/org/jenkinsci/plugins/publisherrunner/ValidationUtils.java:16-23 | each kind of answer corresponds to exactly one range of UTF-16 length |
| Validation.DependsOnlyOnLength | src/main/java/org/jenkinsci/plugins/publisherrunner/ValidationUtils.java:16-23 | two strings of equal UTF-16 length get identical answers from every validator |
| Validation.CallbacksAgreeWithUtility | src/main/java/org/jenkinsci/plugins/publisherrunner/ConfluencePublisherRunner.java:154-188 | each descriptor callback gives the same kind of answer as the shared utility on every string; only the messages differ |
| Validation.MonotoneInLength | src/main/java/org/jenkinsci/plugins/publisherrunner/ValidationUtils.java:16-23 | a string with a greater UTF-16 length never gets a more severe answer |
| Validation.ExtensionKeepsAcceptance | src/main/java/org/jenkinsci/plugins/publisherrunner/ValidationUtils.java:16-23 | a string that is accepted stays accepted whatever is appended to it |

## Left out

- Process launching, output streaming, `Proc.join` and the remote `FilePath.exists` probe are I/O. They are oracle parameters of `Perform`.
- The working directory and the stdout sink passed to the launcher are not modelled: they do not affect any decision.
- `forEnvironment` (`EnvVars.expand`) is not a parameter. It cannot throw and its result is discarded, so it has no effect on the step.
- `forNode` is reduced to an oracle that yields a path or throws. The semantics of `ToolInstallation.translateFor` are not part of this model.
- `run.getEnvironment(taskListener)` (line 55) may throw an IOException or an InterruptedException before the lookup. It is not modelled: `Perform` receives the environment as already computed.
- At line 65, `Computer.currentComputer()` is null when the step does not run on an executor thread, which throws a NullPointerException before the probe. That, and `getNode()` returning null, are not modelled: both are host wiring outside the step's own decisions.
- The listing of environment variables at the start of `perform` (lines 57-58) is host logging. It is left out of `LogOf`.
- Log and exception message texts are replaced by symbolic entries. `printStackTrace` on launch failures writes to the process's standard error and is not modelled.
- Java strings holding unpaired UTF-16 surrogates cannot be represented, because Dafny's `char` is a Unicode scalar value.
- `EnvVars` compares keys case-insensitively. The model's environment is a map with exact keys.
- Registry persistence (`load`/`save`) and the copy-on-write volatile array (lines 133-152) are host configuration storage and concurrency. The registry is an immutable sequence parameter.
- The `@QueryParameter` bindings of the validators are web-form wiring, and two of them name the other field (lines 154 and 163). The validators are modelled as functions of the value only.
- Display names, `isApplicable`, `getToolDescriptor`, `getRequiredMonitorService` and the `Messages` bundle's texts are UI and host wiring. The bundle's messages appear only as their keys.
- Null strings are not modelled. The step's config file and URL fragments, installation names and homes, and validated values are all non-null. A null validated value would throw a NullPointerException. A null fragment would be concatenated as the text "null". A null config file would be dropped by the builder.
- The integration test has no assertions and gives no behaviour to model.
