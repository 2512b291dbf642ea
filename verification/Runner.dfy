/** The control flow of `run` (src/main.js:107-166): an optional setup command, then the
    timed graded command, then classification of any failure and one result record.
    `execSync` is abstracted: each of the two steps is given the outcome it would have,
    and the two clock readings (`new Date()`) are given as numbers of milliseconds. */
module Runner {
  import opened Wrappers
  import opened Report
  import opened Classifier
  import opened Environment

  /** What one `execSync` call does: return its output (`undefined` when the child's
      streams are inherited, hence the option) or throw an error with a message. */
  datatype ExecOutcome = Ok(stdout: Option<string>) | Err(message: string)

  /** The action's inputs, once read and converted. */
  datatype Config = Config(
    testName: string,
    setupCommand: string,
    command: string,
    timeoutMs: int,
    maxScore: int,
    workingDirectory: string)

  /** One call of `execSync` with its options. */
  datatype Invocation = Invocation(command: string, cwd: string, timeoutMs: int, env: map<string, string>)

  /** The `execSync` call the action makes for `command` (setup or graded): the configured
      directory and deadline, and the child environment `processEnv`. */
  function CallFor(cfg: Config, inherited: map<string, string>, command: string): (call: Invocation)
    ensures call.command == command
    ensures call.cwd == cfg.workingDirectory && call.timeoutMs == cfg.timeoutMs
    ensures call.env.Keys == inherited.Keys + FixedEntries.Keys
    ensures forall k :: k in FixedEntries ==> call.env[k] == FixedEntries[k]
    ensures forall k :: k in inherited && k !in FixedEntries ==> call.env[k] == inherited[k]
  {
    Invocation(command, cfg.workingDirectory, cfg.timeoutMs, ProcessEnv(inherited))
  }

  /** JavaScript's `endTime - startTime` on dates: the elapsed milliseconds, or NaN
      (`None`) when `startTime` was never assigned. */
  function Elapsed(startTime: Option<int>, endTime: int): (d: Option<int>)
    ensures d.Some? <==> startTime.Some?
    ensures startTime.Some? ==> startTime.value + d.value == endTime
  {
    match startTime
    case None => None
    case Some(start) => Some(endTime - start)
  }

  /** The setup step runs (its text is not empty) and throws. */
  predicate SetupFails(cfg: Config, setup: ExecOutcome)
  {
    cfg.setupCommand != "" && setup.Err?
  }

  method Run(cfg: Config, inherited: map<string, string>, setup: ExecOutcome, graded: ExecOutcome,
             startClock: int, endClock: int)
    returns (result: ResultRecord, ghost executed: seq<Invocation>)
    // exactly one well-formed record, naming the configured test and command
    ensures WellFormed(result)
    ensures result.maxScore == cfg.maxScore
    ensures result.tests[0].name == cfg.testName && result.tests[0].testCode == cfg.command
    // a pass, with full marks, exactly when every step that ran succeeded
    ensures result.status == Pass <==> !SetupFails(cfg, setup) && graded.Ok?
    ensures result.tests[0].score == (if !SetupFails(cfg, setup) && graded.Ok? then cfg.maxScore else 0)
    // setup runs only when configured; the graded command runs only if setup did not throw
    ensures executed ==
      (if cfg.setupCommand != "" then [CallFor(cfg, inherited, cfg.setupCommand)] else []) +
      (if SetupFails(cfg, setup) then [] else [CallFor(cfg, inherited, cfg.command)])
    // a failed setup is classified like a graded-command failure, and nothing was timed
    ensures SetupFails(cfg, setup) ==>
      var c := Classify(setup.message, cfg.command);
      result.status == c.status && result.tests[0].message == Some(c.errorMessage)
      && result.tests[0].duration == None
    // otherwise the graded command decides, and its run is timed
    ensures !SetupFails(cfg, setup) && graded.Ok? ==>
      result.tests[0].message == graded.stdout && result.tests[0].duration == Some(endClock - startClock)
    ensures !SetupFails(cfg, setup) && graded.Err? ==>
      var c := Classify(graded.message, cfg.command);
      result.status == c.status && result.tests[0].message == Some(c.errorMessage)
      && result.tests[0].duration == Some(endClock - startClock)
  {
    var output: Option<string> := Some("");
    var startTime: Option<int> := None;
    var endTime: int;
    var thrown: Option<string> := None;  // the message of the error caught by `catch`
    executed := [];

    // try
    if cfg.setupCommand != "" {
      executed := executed + [CallFor(cfg, inherited, cfg.setupCommand)];
      if setup.Err? {
        thrown := Some(setup.message);
      }
    }
    if thrown.None? {
      startTime := Some(startClock);
      executed := executed + [CallFor(cfg, inherited, cfg.command)];
      match graded
      case Ok(stdout) =>
        output := stdout;
        endTime := endClock;
        result := GenerateResult(Pass, cfg.testName, cfg.command, output,
                                 Elapsed(startTime, endTime), cfg.maxScore);
      case Err(message) =>
        thrown := Some(message);
    }

    // catch
    if thrown.Some? {
      endTime := endClock;
      var c := Classify(thrown.value, cfg.command);
      result := GenerateResult(c.status, cfg.testName, cfg.command, Some(c.errorMessage),
                               Elapsed(startTime, endTime), cfg.maxScore);
    }
  }
}
