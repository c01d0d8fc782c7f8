/**
  The command line handed to the external publisher.

  The step adds five values to the host's argument-list builder in a fixed
  positional order: the executable path, the configuration file, the report
  URL, the artifacts URL and the target host. The builder drops a null value
  instead of adding it, so the only value that can disappear is the host,
  read from an environment entry that may be absent.
 */
module Arguments {
  import opened Options

  type Environment = map<string, string>

  const BuildUrlKey := "BUILD_URL"
  const HostKey := "host"

  /** The build URL of the run, or the empty string when the environment has none. */
  function BuildUrl(env: Environment): string {
    if BuildUrlKey in env then env[BuildUrlKey] else ""
  }

  /** The target host, absent when the environment has none. */
  function Host(env: Environment): Option<string> {
    if HostKey in env then Some(env[HostKey]) else None
  }

  /** The values added to the builder, absent ones dropped, the rest kept in order. */
  function Compact(values: seq<Option<string>>): (argv: seq<string>)
    ensures |argv| <= |values|
    ensures forall i :: 0 <= i < |argv| ==> Some(argv[i]) in values
    ensures (forall i :: 0 <= i < |values| ==> values[i].Some?) ==>
      |argv| == |values| && forall i :: 0 <= i < |values| ==> argv[i] == values[i].value
    ensures (forall i :: 0 <= i < |values| ==> values[i].None?) ==> argv == []
  {
    if |values| == 0 then []
    else
      var rest := Compact(values[1..]);
      assert forall i :: 0 <= i < |rest| ==> Some(rest[i]) in values by {
        forall i | 0 <= i < |rest| ensures Some(rest[i]) in values {
          assert Some(rest[i]) in values[1..];
        }
      }
      match values[0]
      case None => rest
      case Some(v) => [v] + rest
  }

  /** Dropping absent values commutes with concatenation. */
  lemma {:induction false} CompactAppend(a: seq<Option<string>>, b: seq<Option<string>>)
    ensures Compact(a + b) == Compact(a) + Compact(b)
    decreases |a|
  {
    if |a| == 0 {
      assert a + b == b;
    } else {
      assert (a + b)[0] == a[0];
      assert (a + b)[1..] == a[1..] + b;
      CompactAppend(a[1..], b);
    }
  }

  /** The command line the external publisher receives, field by field. */
  datatype Command = Command(
    executable: string,
    configFile: string,
    reportUrl: string,
    artifactsUrl: string,
    host: Option<string>)

  /** The values the step adds to the builder, in order. */
  function Values(c: Command): seq<Option<string>> {
    [Some(c.executable), Some(c.configFile), Some(c.reportUrl), Some(c.artifactsUrl), c.host]
  }

  /** The builder keeps the four positional values of a command and then the host, if any. */
  lemma {:induction false} CompactValues(c: Command)
    ensures Compact(Values(c)) == [c.executable, c.configFile, c.reportUrl, c.artifactsUrl] + Compact([c.host])
  {
    var fixed := [Some(c.executable), Some(c.configFile), Some(c.reportUrl), Some(c.artifactsUrl)];
    assert Values(c) == fixed + [c.host];
    CompactAppend(fixed, [c.host]);
    assert Compact(fixed) == [c.executable, c.configFile, c.reportUrl, c.artifactsUrl] by {
      assert fixed[1..][1..][1..][1..] == [];
    }
  }

  /** The argument vector of a command: four positional values and the host when present. */
  function Render(c: Command): (argv: seq<string>)
    ensures argv == [c.executable, c.configFile, c.reportUrl, c.artifactsUrl] + Compact([c.host])
    ensures |argv| == if c.host.Some? then 5 else 4
    ensures c.host.Some? ==> argv[4] == c.host.value
  {
    CompactValues(c);
    Compact(Values(c))
  }

  /** A command line read back by position; the inverse of `Render`. */
  function Parse(argv: seq<string>): (c: Option<Command>)
    ensures c.Some? <==> |argv| == 4 || |argv| == 5
  {
    if |argv| == 4 then Some(Command(argv[0], argv[1], argv[2], argv[3], None))
    else if |argv| == 5 then Some(Command(argv[0], argv[1], argv[2], argv[3], Some(argv[4])))
    else None
  }

  /** Reading a rendered command line back yields the command. */
  lemma ParseRender(c: Command)
    ensures Parse(Render(c)) == Some(c)
  {
  }

  /** A command line that parses is the rendering of what it parses to. */
  lemma RenderParse(argv: seq<string>)
    requires Parse(argv).Some?
    ensures Render(Parse(argv).value) == argv
  {
  }

  /**
    The command the step builds: the executable path, the configured file, the
    build URL glued to each of the two URL fragments, and the host.
   */
  function CommandFor(executable: string, configFile: string, allureReportUrl: string,
                      artifactsUrl: string, env: Environment): Command
  {
    Command(executable, configFile, BuildUrl(env) + allureReportUrl, BuildUrl(env) + artifactsUrl, Host(env))
  }

  /** The argument vector the step launches. */
  function BuildArgv(executable: string, configFile: string, allureReportUrl: string,
                     artifactsUrl: string, env: Environment): (argv: seq<string>)
    ensures |argv| == if HostKey in env then 5 else 4
    ensures argv[0] == executable
    ensures argv[1] == configFile
    ensures argv[2] == BuildUrl(env) + allureReportUrl
    ensures argv[3] == BuildUrl(env) + artifactsUrl
    ensures HostKey in env ==> argv[4] == env[HostKey]
    ensures BuildUrlKey !in env ==> argv[2] == allureReportUrl && argv[3] == artifactsUrl
  {
    Render(CommandFor(executable, configFile, allureReportUrl, artifactsUrl, env))
  }

  /**
    The URL arguments are the build URL immediately followed by the fragment:
    no separator is inserted, and cutting the build URL off gives the fragment back.
   */
  lemma FragmentsRecoverable(executable: string, configFile: string, allureReportUrl: string,
                            artifactsUrl: string, env: Environment)
    ensures var argv := BuildArgv(executable, configFile, allureReportUrl, artifactsUrl, env);
      && |argv[2]| == |BuildUrl(env)| + |allureReportUrl|
      && argv[2][..|BuildUrl(env)|] == BuildUrl(env) && argv[2][|BuildUrl(env)|..] == allureReportUrl
      && argv[3][..|BuildUrl(env)|] == BuildUrl(env) && argv[3][|BuildUrl(env)|..] == artifactsUrl
  {
  }

  /** A run whose environment has a host gets all five arguments. */
  lemma ArgvWithHost(executable: string, configFile: string, allureReportUrl: string,
                            artifactsUrl: string, env: Environment)
    requires HostKey in env
    ensures BuildArgv(executable, configFile, allureReportUrl, artifactsUrl, env)
         == [executable, configFile, BuildUrl(env) + allureReportUrl, BuildUrl(env) + artifactsUrl, env[HostKey]]
  {
  }

  /** A run whose environment has no host gets the four positional arguments only. */
  lemma ArgvWithoutHost(executable: string, configFile: string, allureReportUrl: string,
                        artifactsUrl: string, env: Environment)
    requires HostKey !in env
    ensures BuildArgv(executable, configFile, allureReportUrl, artifactsUrl, env)
         == [executable, configFile, BuildUrl(env) + allureReportUrl, BuildUrl(env) + artifactsUrl]
  {
  }

  /** The five-argument example: host and build URL both present. */
  lemma FiveArgumentsWithHost()
    ensures BuildArgv("/opt/pub.sh", "/opt/pub.conf", "allure", "artifact/log",
                      map["host" := "wiki.local", "BUILD_URL" := "http://ci/42/"])
         == ["/opt/pub.sh", "/opt/pub.conf", "http://ci/42/" + "allure", "http://ci/42/" + "artifact/log", "wiki.local"]
  {
    var env := map["host" := "wiki.local", "BUILD_URL" := "http://ci/42/"];
    assert BuildUrl(env) == "http://ci/42/" by {
      assert BuildUrlKey in env && env[BuildUrlKey] == "http://ci/42/";
    }
    assert HostKey in env && env[HostKey] == "wiki.local";
    ArgvWithHost("/opt/pub.sh", "/opt/pub.conf", "allure", "artifact/log", env);
  }

  /** The four-argument example: no host in the environment. */
  lemma FourArgumentsWithoutHost()
    ensures BuildArgv("/opt/pub.sh", "/opt/pub.conf", "allure", "artifact/log",
                      map["BUILD_URL" := "http://ci/42/"])
         == ["/opt/pub.sh", "/opt/pub.conf", "http://ci/42/" + "allure", "http://ci/42/" + "artifact/log"]
  {
    var env := map["BUILD_URL" := "http://ci/42/"];
    assert BuildUrl(env) == "http://ci/42/" by {
      assert BuildUrlKey in env && env[BuildUrlKey] == "http://ci/42/";
    }
    assert HostKey !in env;
    ArgvWithoutHost("/opt/pub.sh", "/opt/pub.conf", "allure", "artifact/log", env);
  }
}
