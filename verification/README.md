# Autograding command runner: a verified model of its decision logic

This is a CI action (`src/main.js`) that runs an optional setup command and then a
graded shell command, turns what happened into a verdict (`pass`, `fail` or `error`), and
emits a fixed-shape result record carrying the score. This project models, in Dafny, the
parts of that file that decide something:

- `Report`: the result builder `generateResult` and the record shape it always produces
  (version 1, exactly one test, full marks exactly on a pass, reserved `filename` and
  `line_no` left empty).
- `Classifier`: `getErrorMessageAndStatus`, the ordered, first-match-wins substring rules
  over the message of a failed command (`ETIMEDOUT`, then `command not found`, then
  `Command failed`, else the raw message). Beside it stands an independent reading of the
  same rules as a table in priority order with a generic "first rule that matches" function,
  and a lemma that the two agree.
- `Environment`: the environment overlay handed to child processes, where the action's
  fixed values override the inherited ones and everything else is inherited unchanged.
- `Runner`: the control flow of `run` as an imperative method. `execSync` is replaced by
  one given outcome per step (`Ok(output)` or `Err(message)`), and the two clock readings by
  given numbers. A ghost trace records every `execSync` call with its options. The
  contract says: the setup runs only when configured; a setup failure skips the graded
  command and is classified like a graded-command failure (with the graded command's
  text); the verdict is a pass, with full marks, exactly when every step that ran
  succeeded; and exactly one well-formed record comes out.
- `Text`: `String.prototype.includes`, proved equal to "occurs at some index".

Behaviour of the code worth knowing:

- When the setup command fails, `startTime` has never been assigned, so the recorded
  duration is `endTime - undefined`, which is NaN in JavaScript (and `null` once
  serialised). The model records no duration (`None`) in that case.
- The message of a passing run is whatever `execSync` returned, passed through
  `?.toString()`; with the child's streams inherited that is `undefined`, so the message is
  an `Option` and a pass may carry none.
- A failing setup that is classified as a missing executable is reported with the GRADED
  command's text, since the classifier is always given `command`.
- The score is an unbounded integer, not only a non-negative one: `parseInt` of the
  `max-score` input may be negative.
- The code logs that it is skipping reporting when `courseId` or `sectionId` is empty
  (src/main.js:52-54), but it does not return and reports anyway. Reporting is not
  modelled (see below).

## Model

| member | source | states |
|---|---|---|
| `Text.Includes` | src/main.js:92-101 | `message.includes(pattern)` holds exactly when the pattern occurs at some index of the message |
| `Report.GenerateResult` | src/main.js:16-41 | every record built has version 1, exactly one test whose status is the record's, score `maxScore` on a pass and 0 otherwise, `filename` empty and `line_no` 0 |
| `Report.EchoesArguments` | src/main.js:24-38 | status, test name, command (as `test_code`), message, duration and `max_score` are echoed into the record and can be read back unchanged |
| `Report.WellFormedIffGenerated` | src/main.js:24-38 | a record has the fixed shape exactly when it is the builder's output for the arguments read back from it |
| `Classifier.Classify` | src/main.js:91-105 | the status is never `pass`; a message containing `ETIMEDOUT` gives `error` / "Command timed out" whatever else it contains; the status is `fail` exactly when the message contains `Command failed` and neither earlier pattern |
| `Classifier.FirstMatch` | src/main.js:91-104 | the generic first-match rule: the index returned is that of a rule whose pattern occurs, and no earlier rule's pattern occurs (or no rule matches) |
| `Classifier.KindOf` | src/main.js:91-104 | a message falls to the last, catch-all case exactly when it contains none of the three patterns |
| `Classifier.KindOfPriority` | src/main.js:92-103 | the earliest matching pattern decides: `ETIMEDOUT` over `command not found` over `Command failed` |
| `Classifier.ClassifyFollowsRules` | src/main.js:91-105 | the classifier equals the first-match reading of the rule table, with each kind's status and text |
| `Classifier.NotFoundNamesCommand` | src/main.js:95-100 | without `ETIMEDOUT` but with `command not found`, the status is `error` and the message contains the command text verbatim |
| `Classifier.TimeoutWins` | src/main.js:92-94 | any message built around `ETIMEDOUT` is classified as a timeout error |
| `Classifier.OtherIsVerbatim` | src/main.js:104 | a message matching no pattern is surfaced unchanged with status `error` |
| `Environment.ActionEnv` | src/main.js:4-10 | the fixed overlay holds `FORCE_COLOR`, `DOTNET_CLI_HOME`, `DOTNET_NOLOGO` with their constant values, and `PATH` and `HOME` as inherited |
| `Environment.Spread` | src/main.js:115-118 | object spread: overlay keys take the overlay's value, every other key keeps the base's value, and no key is lost or invented |
| `Environment.ProcessEnv` | src/main.js:115-118 | `processEnv` is the inherited environment overlaid with `env`: the child sees the three fixed values, and every other inherited variable (`PATH` and `HOME` included) unchanged |
| `Runner.CallFor` | src/main.js:127-141 | the options of each `execSync` call: the command given, the configured working directory and deadline, and `processEnv` as the environment, so both calls get the same `cwd`, `timeout` and `env` |
| `Runner.Elapsed` | src/main.js:149-160 | `endTime - startTime` is a measured number exactly when `startTime` was set, and NaN otherwise |
| `Runner.Run` | src/main.js:120-163 | setup runs only when non-empty; the graded command runs only if setup did not throw; both calls get the same directory, deadline and environment; pass with full marks exactly when every step that ran succeeded; failures go through the classifier; a setup failure carries no duration; exactly one well-formed record |

## Left out

- Reporting (`reportToSkillPies`, src/main.js:43-89): an HTTP request to a remote service,
  the GitHub context and console logging. Its outcome never affects the result record.
- Serialisation (`btoa`, `JSON.stringify`, `core.setOutput`, src/main.js:12-14 and 165):
  library code for base64 and JSON that is not part of this model.
- Reading and converting the inputs (src/main.js:108-113): `core.getInput`, `parseFloat` of
  the timeout in minutes times 60000, `parseInt` of the maximum score and the default
  directory. The model takes the converted values as a `Config`; floating-point timeouts
  and a NaN maximum score are not modelled.
- `execSync` itself: spawning the shell, enforcing the deadline, killing the child and
  inheriting its streams. Each call's outcome is an input, so the model classifies any
  message and does not say which messages Node.js actually produces.
- The clock: the two `new Date()` readings are inputs in milliseconds.
- Status strings: `"pass"`, `"fail"` and `"error"` are an enumeration.
- Environment values that are `undefined`: when the inherited environment has no `PATH`
  or `HOME`, the source writes `undefined` under that key; the model leaves the key out,
  as a child process is not given variables without a value.
