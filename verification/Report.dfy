/** The result record the action emits for one run (`generateResult`, src/main.js:16-41). */
module Report {
  import opened Wrappers

  /** The verdict strings "pass", "fail" and "error". */
  datatype Status = Pass | Fail | Error

  /** The single entry of `tests`. `message` is `None` when the graded command's output
      was `undefined`; `duration` is `None` when it is not a number (NaN). */
  datatype TestEntry = TestEntry(
    name: string,
    status: Status,
    score: int,
    message: Option<string>,
    testCode: string,
    filename: string,
    lineNo: int,
    duration: Option<int>)

  datatype ResultRecord = ResultRecord(
    version: int,
    status: Status,
    maxScore: int,
    tests: seq<TestEntry>)

  /** The arguments of `generateResult`, in its parameter order. */
  datatype Arguments = Arguments(
    status: Status,
    testName: string,
    command: string,
    message: Option<string>,
    duration: Option<int>,
    maxScore: int)

  /** The shape every emitted record has: version 1, exactly one test whose status is
      the record's, full marks exactly on a pass, and the reserved fields left empty. */
  ghost predicate WellFormed(r: ResultRecord)
  {
    && r.version == 1
    && |r.tests| == 1
    && r.tests[0].status == r.status
    && r.tests[0].score == (if r.status == Pass then r.maxScore else 0)
    && r.tests[0].filename == ""
    && r.tests[0].lineNo == 0
  }

  /** `generateResult(status, testName, command, message, duration, maxScore)`. */
  function GenerateResult(status: Status, testName: string, command: string,
                          message: Option<string>, duration: Option<int>, maxScore: int): (r: ResultRecord)
    ensures WellFormed(r)
  {
    ResultRecord(1, status, maxScore,
      [TestEntry(testName, status, if status == Pass then maxScore else 0,
                 message, command, "", 0, duration)])
  }

  /** The arguments a record was built from, read back from its fields. */
  function ArgumentsOf(r: ResultRecord): (a: Arguments)
    requires |r.tests| == 1
  {
    var t := r.tests[0];
    Arguments(r.status, t.name, t.testCode, t.message, t.duration, r.maxScore)
  }

  /** Every argument is echoed into the record: the record gives back exactly the
      arguments it was built from. */
  lemma EchoesArguments(a: Arguments)
    ensures ArgumentsOf(GenerateResult(a.status, a.testName, a.command, a.message, a.duration, a.maxScore)) == a
  {
  }

  /** The records `generateResult` produces are exactly the well-formed ones. */
  lemma WellFormedIffGenerated(r: ResultRecord)
    ensures WellFormed(r) <==>
      && |r.tests| == 1
      && var a := ArgumentsOf(r);
         r == GenerateResult(a.status, a.testName, a.command, a.message, a.duration, a.maxScore)
  {
  }
}
