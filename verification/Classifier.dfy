/** The outcome classifier `getErrorMessageAndStatus` (src/main.js:91-105): an ordered,
    first-match-wins set of substring rules over the message of the error `execSync` threw. */
module Classifier {
  import opened Text
  import opened Report

  /** What `getErrorMessageAndStatus` returns: `{ status, errorMessage }`. */
  datatype Classification = Classification(status: Status, errorMessage: string)

  const TimedOutMessage := "Command timed out"
  const NotFoundPrefix := "Unable to locate executable file: "
  const ExitFailureMessage := "failed with exit code 1"

  /** `getErrorMessageAndStatus(error, command)`, where `message` is `error.message`. */
  function Classify(message: string, command: string): (c: Classification)
    ensures c.status == Fail || c.status == Error
    ensures Includes(message, "ETIMEDOUT") ==> c == Classification(Error, TimedOutMessage)
    ensures c.status == Fail <==>
      !Includes(message, "ETIMEDOUT") && !Includes(message, "command not found") && Includes(message, "Command failed")
  {
    if Includes(message, "ETIMEDOUT") then
      Classification(Error, TimedOutMessage)
    else if Includes(message, "command not found") then
      Classification(Error, NotFoundPrefix + command)
    else if Includes(message, "Command failed") then
      Classification(Fail, ExitFailureMessage)
    else
      Classification(Error, message)
  }

  // An independent statement of the rule set: a table of patterns in priority order and
  // the generic first-match-wins reading of such a table.

  /** The kinds of failure the rules tell apart. */
  datatype Kind = Timeout | ExecutableNotFound | NonZeroExit | Other

  datatype Rule = Rule(pattern: string, kind: Kind)

  const Rules: seq<Rule> := [
    Rule("ETIMEDOUT", Timeout),
    Rule("command not found", ExecutableNotFound),
    Rule("Command failed", NonZeroExit)
  ]

  /** The index of the first rule whose pattern the message includes, or `|rules|` when none does. */
  function FirstMatch(rules: seq<Rule>, message: string): (i: nat)
    ensures i <= |rules|
    ensures i < |rules| ==> Includes(message, rules[i].pattern)
    ensures forall j :: 0 <= j < i ==> !Includes(message, rules[j].pattern)
  {
    if rules == [] then 0
    else if Includes(message, rules[0].pattern) then 0
    else 1 + FirstMatch(rules[1..], message)
  }

  /** The kind of the first matching rule; `Other` when no rule matches. */
  function KindOf(message: string): (k: Kind)
    ensures k == Other <==> forall j :: 0 <= j < |Rules| ==> !Includes(message, Rules[j].pattern)
  {
    var i := FirstMatch(Rules, message);
    if i < |Rules| then Rules[i].kind else Other
  }

  /** The verdict and text reported for each kind. */
  function Describe(kind: Kind, message: string, command: string): Classification
  {
    match kind
    case Timeout => Classification(Error, TimedOutMessage)
    case ExecutableNotFound => Classification(Error, NotFoundPrefix + command)
    case NonZeroExit => Classification(Fail, ExitFailureMessage)
    case Other => Classification(Error, message)
  }

  /** The classifier is the first-match-wins reading of the rule table. */
  lemma ClassifyFollowsRules(message: string, command: string)
    ensures Classify(message, command) == Describe(KindOf(message), message, command)
  {
    KindOfPriority(message);
  }

  /** The rule table in words: a message is classified by the earliest rule it matches. */
  lemma KindOfPriority(message: string)
    ensures Includes(message, "ETIMEDOUT") ==> KindOf(message) == Timeout
    ensures !Includes(message, "ETIMEDOUT") && Includes(message, "command not found") ==>
      KindOf(message) == ExecutableNotFound
    ensures !Includes(message, "ETIMEDOUT") && !Includes(message, "command not found") && Includes(message, "Command failed") ==>
      KindOf(message) == NonZeroExit
  {
    var i := FirstMatch(Rules, message);
    assert Rules[0].pattern == "ETIMEDOUT" && Rules[1].pattern == "command not found"
      && Rules[2].pattern == "Command failed";
    if i == 0 {
      assert KindOf(message) == Timeout;
    } else if i == 1 {
      assert KindOf(message) == ExecutableNotFound;
    } else if i == 2 {
      assert KindOf(message) == NonZeroExit;
    }
  }

  /** A missing executable is reported with the command text verbatim in the message. */
  lemma NotFoundNamesCommand(message: string, command: string)
    requires !Includes(message, "ETIMEDOUT") && Includes(message, "command not found")
    ensures Classify(message, command).status == Error
    ensures Includes(Classify(message, command).errorMessage, command)
  {
    IncludesPiece(NotFoundPrefix, command, "");
    assert NotFoundPrefix + command + "" == NotFoundPrefix + command;
  }

  /** A timeout wins over every other rule, whatever else the message says. */
  lemma TimeoutWins(before: string, after: string, command: string)
    ensures Classify(before + "ETIMEDOUT" + after, command) == Classification(Error, TimedOutMessage)
  {
    IncludesPiece(before, "ETIMEDOUT", after);
  }

  /** A message matching no rule is surfaced unchanged, as an error. */
  lemma OtherIsVerbatim(message: string, command: string)
    requires !Includes(message, "ETIMEDOUT") && !Includes(message, "command not found") && !Includes(message, "Command failed")
    ensures Classify(message, command) == Classification(Error, message)
  {
  }
}
