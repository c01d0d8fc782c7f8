/**
  The publisher step's `perform`: look the installation up, specialise it for
  the node, check that its executable exists, build the command line and launch
  it.

  Everything the step asks of the host is an oracle parameter: the registry of
  installations, the run's environment, the node translation of the
  installation (which may throw), the remote existence probe of the executable
  (which may answer or throw) and the launch with its join (which yields an
  exit code or throws). The step is then a total function to an `Outcome`.

  Two facts of the source shape the model. First, the specialised copies that
  node translation and environment expansion return are discarded: the path
  probed and launched is the `home` of the installation as configured. Second,
  pre-launch failures abort the step by throwing, while failures of the launch
  itself are caught and only logged.
 */
module Runner {
  import opened Options
  import opened Installations
  import opened Arguments

  /** The configured fields of one publisher step. */
  datatype Step = Step(
    runnable: Option<string>,
    runnableConfigFile: string,
    allureReportUrl: string,
    artifactsUrl: string)

  /** The two checked exception kinds the host's remote calls may raise. */
  datatype Failure = IOFailure | InterruptedFailure

  /** What node translation of an installation produced. */
  datatype Translation = Translated(home: string) | TranslationThrew(failure: Failure)

  /** What the remote existence probe of the executable answered. */
  datatype Probe = Present | Absent | ProbeThrew(failure: Failure)

  /** A Java `int`. */
  newtype int32 = x: int | -0x8000_0000 <= x < 0x8000_0000

  /** What launching the command and joining the process produced. */
  datatype LaunchResult = Exited(code: int32) | LaunchThrew(failure: Failure)

  /** How one execution of the step ends. */
  datatype Outcome =
    | PublisherNotFound                     // no installation with the configured name
    | NodeTranslationThrew(failure: Failure) // specialising for the node threw
    | ExecutableNotFound(path: string)       // the probe answered that the path does not exist
    | ExecutableCheckFailed(path: string)    // the probe threw an IOException
    | ExecutableCheckInterrupted(path: string) // the probe was interrupted
    | Ran(argv: seq<string>, result: LaunchResult) // the command was launched

  /** The exception with which the step leaves, if any. */
  datatype Thrown = RuntimeError | Checked(failure: Failure)

  /** Why a fatal error was reported. */
  datatype FatalReason =
    | NoPublisher
    | NoPathToPublisher(path: string)
    | PathCheckFailed(path: string)

  /** What the step writes to the job log (the environment listing aside). */
  datatype LogEntry =
    | Fatal(reason: FatalReason)
    | ExitCodeReported(code: int32)
    | LaunchFailureReported(failure: Failure)

  /** Oracle signatures. */
  type Translator = Installation -> Translation
  type Prober = string -> Probe
  type Launcher = (seq<string>, Environment) -> LaunchResult

  /** The command line the step launches for installation `inst`. */
  function StepArgv(step: Step, inst: Installation, env: Environment): seq<string> {
    BuildArgv(inst.home, step.runnableConfigFile, step.allureReportUrl, step.artifactsUrl, env)
  }

  /** The step itself, with every host effect supplied by an oracle. */
  function Perform(step: Step, registry: seq<Installation>, env: Environment,
                   translate: Translator, probe: Prober, launch: Launcher): (o: Outcome)
    ensures step.runnable.None? ==> o == PublisherNotFound
    ensures o == PublisherNotFound <==> Lookup(step.runnable, registry).None?
    ensures o.NodeTranslationThrew? ==>
      Lookup(step.runnable, registry).Some? &&
      translate(Lookup(step.runnable, registry).value) == TranslationThrew(o.failure)
    ensures o.ExecutableNotFound? || o.ExecutableCheckFailed? || o.ExecutableCheckInterrupted? ==>
      && Lookup(step.runnable, registry).Some?
      && o.path == Lookup(step.runnable, registry).value.home
      && translate(Lookup(step.runnable, registry).value).Translated?
    ensures o.ExecutableNotFound? ==> probe(o.path) == Absent
    ensures o.ExecutableCheckFailed? ==> probe(o.path) == ProbeThrew(IOFailure)
    ensures o.ExecutableCheckInterrupted? ==> probe(o.path) == ProbeThrew(InterruptedFailure)
    ensures o.Ran? <==>
      && Lookup(step.runnable, registry).Some?
      && translate(Lookup(step.runnable, registry).value).Translated?
      && probe(Lookup(step.runnable, registry).value.home) == Present
    ensures o.Ran? ==>
      && o.argv == StepArgv(step, Lookup(step.runnable, registry).value, env)
      && o.argv[0] == Lookup(step.runnable, registry).value.home
      && o.result == launch(o.argv, env)
  {
    match Lookup(step.runnable, registry)
    case None => PublisherNotFound
    case Some(inst) =>
      match translate(inst)
      case TranslationThrew(f) => NodeTranslationThrew(f)
      case Translated(_) =>
        // the specialised copy is dropped: the configured home is used
        var path := inst.home;
        match probe(path)
        case Absent => ExecutableNotFound(path)
        case ProbeThrew(IOFailure) => ExecutableCheckFailed(path)
        case ProbeThrew(InterruptedFailure) => ExecutableCheckInterrupted(path)
        case Present =>
          var argv := StepArgv(step, inst, env);
          Ran(argv, launch(argv, env))
  }

  /**
    The exception the step throws. The missing-publisher and missing-path
    conditions raise an unchecked error after reporting; a failed probe is
    turned into one too. A thrown node translation or an interrupted probe
    propagates unchanged. Nothing escapes once the launch has been attempted.
   */
  function ThrownBy(o: Outcome): (t: Option<Thrown>)
    ensures t.None? <==> o.Ran?
  {
    match o
    case PublisherNotFound => Some(RuntimeError)
    case NodeTranslationThrew(f) => Some(Checked(f))
    case ExecutableNotFound(_) => Some(RuntimeError)
    case ExecutableCheckFailed(_) => Some(RuntimeError)
    case ExecutableCheckInterrupted(_) => Some(Checked(InterruptedFailure))
    case Ran(_, _) => None
  }

  /** The entries the step adds to the job log. */
  function LogOf(o: Outcome): (log: seq<LogEntry>)
    ensures |log| <= 1
  {
    match o
    case PublisherNotFound => [Fatal(NoPublisher)]
    case NodeTranslationThrew(_) => []
    case ExecutableNotFound(path) => [Fatal(NoPathToPublisher(path))]
    case ExecutableCheckFailed(path) => [Fatal(PathCheckFailed(path))]
    case ExecutableCheckInterrupted(_) => []
    case Ran(_, Exited(code)) => [ExitCodeReported(code)]
    case Ran(_, LaunchThrew(f)) => [LaunchFailureReported(f)]
  }

  /** A fatal error is reported exactly when the step aborts with an unchecked error. */
  lemma FatalIffRuntimeError(o: Outcome)
    ensures (exists e :: e in LogOf(o) && e.Fatal?) <==> ThrownBy(o) == Some(RuntimeError)
  {
    match o
    case PublisherNotFound => assert LogOf(o)[0].Fatal?;
    case ExecutableNotFound(_) => assert LogOf(o)[0].Fatal?;
    case ExecutableCheckFailed(_) => assert LogOf(o)[0].Fatal?;
    case _ =>
  }

  /**
    Launch-time failures are swallowed: whatever the launch produced, the step
    returns normally and the only trace is one log entry; an exit code is
    reported as it is, with no effect on the step's result.
   */
  lemma LaunchFailuresSwallowed(argv: seq<string>, result: LaunchResult)
    ensures ThrownBy(Ran(argv, result)).None?
    ensures result.Exited? ==> LogOf(Ran(argv, result)) == [ExitCodeReported(result.code)]
    ensures result.LaunchThrew? ==> LogOf(Ran(argv, result)) == [LaunchFailureReported(result.failure)]
  {
  }

  /** A missing publisher aborts the step before any other oracle is consulted. */
  lemma NotFoundConsultsNothing(step: Step, registry: seq<Installation>, env: Environment,
                                t1: Translator, p1: Prober, l1: Launcher,
                                t2: Translator, p2: Prober, l2: Launcher)
    requires Lookup(step.runnable, registry).None?
    ensures Perform(step, registry, env, t1, p1, l1) == PublisherNotFound
    ensures Perform(step, registry, env, t1, p1, l1) == Perform(step, registry, env, t2, p2, l2)
    ensures LogOf(Perform(step, registry, env, t1, p1, l1)) == [Fatal(NoPublisher)]
  {
  }

  /**
    When the probe does not answer `Present`, the launcher is never consulted
    and the step throws. An absent executable or a failed probe is reported as
    fatal and raises an unchecked error; an interrupted probe propagates with
    nothing reported.
   */
  lemma NoLaunchWithoutExecutable(step: Step, registry: seq<Installation>, env: Environment,
                                  translate: Translator, probe: Prober, l1: Launcher, l2: Launcher)
    requires Lookup(step.runnable, registry).Some?
    requires probe(Lookup(step.runnable, registry).value.home) != Present
    ensures !Perform(step, registry, env, translate, probe, l1).Ran?
    ensures Perform(step, registry, env, translate, probe, l1) == Perform(step, registry, env, translate, probe, l2)
    ensures ThrownBy(Perform(step, registry, env, translate, probe, l1)).Some?
    ensures var home := Lookup(step.runnable, registry).value.home;
      var o := Perform(step, registry, env, translate, probe, l1);
      translate(Lookup(step.runnable, registry).value).Translated? ==>
        && (probe(home) == Absent ==>
              LogOf(o) == [Fatal(NoPathToPublisher(home))] && ThrownBy(o) == Some(RuntimeError))
        && (probe(home) == ProbeThrew(IOFailure) ==>
              LogOf(o) == [Fatal(PathCheckFailed(home))] && ThrownBy(o) == Some(RuntimeError))
        && (probe(home) == ProbeThrew(InterruptedFailure) ==>
              LogOf(o) == [] && ThrownBy(o) == Some(Checked(InterruptedFailure)))
  {
  }

  /**
    A node translation that throws ends the step before the probe: its checked
    exception leaves the step unchanged, nothing is reported, and neither the
    probe nor the launcher is consulted.
   */
  lemma TranslationFailurePropagates(step: Step, registry: seq<Installation>, env: Environment,
                                     translate: Translator, p1: Prober, l1: Launcher,
                                     p2: Prober, l2: Launcher, f: Failure)
    requires Lookup(step.runnable, registry).Some?
    requires translate(Lookup(step.runnable, registry).value) == TranslationThrew(f)
    ensures Perform(step, registry, env, translate, p1, l1) == NodeTranslationThrew(f)
    ensures Perform(step, registry, env, translate, p1, l1) == Perform(step, registry, env, translate, p2, l2)
    ensures ThrownBy(Perform(step, registry, env, translate, p1, l1)) == Some(Checked(f))
    ensures LogOf(Perform(step, registry, env, translate, p1, l1)) == []
  {
  }

  /**
    The path node translation produces is never used: any two translators
    that both succeed lead to the same outcome, and the path probed and
    launched is the configured home.
   */
  lemma SpecialisationDiscarded(step: Step, registry: seq<Installation>, env: Environment,
                                t1: Translator, t2: Translator, probe: Prober, launch: Launcher)
    requires Lookup(step.runnable, registry).Some?
    requires t1(Lookup(step.runnable, registry).value).Translated?
    requires t2(Lookup(step.runnable, registry).value).Translated?
    ensures Perform(step, registry, env, t1, probe, launch) == Perform(step, registry, env, t2, probe, launch)
  {
  }

  /** With the probe answering `Present`, the step launches the configured command and returns normally. */
  lemma LaunchesConfiguredCommand(step: Step, registry: seq<Installation>, env: Environment,
                                    translate: Translator, probe: Prober, launch: Launcher)
    requires step.runnable.Some?
    requires exists i :: IsFirstMatch(registry, step.runnable.value, i)
    requires forall i :: IsFirstMatch(registry, step.runnable.value, i) ==>
      translate(registry[i]).Translated? && probe(registry[i].home) == Present
    ensures var o := Perform(step, registry, env, translate, probe, launch);
      && o.Ran?
      && o.result == launch(o.argv, env)
      && |o.argv| == (if HostKey in env then 5 else 4)
      && o.argv[1] == step.runnableConfigFile
      && o.argv[2] == BuildUrl(env) + step.allureReportUrl
      && o.argv[3] == BuildUrl(env) + step.artifactsUrl
      && ThrownBy(o).None?
  {
  }
}
