# create-roleauth-core-cli, modelled in Dafny

`create-roleauth-core-cli` is a one-file Node.js scaffolder (`bin/index.js`).
It copies a MERN authentication template into a new directory named on the
command line. It then asks ten configuration questions and writes the answers
into two `.env` files: `backend/.env` and `webclient/.env`. Finally it runs
`npm install` in the two sub-projects. Every step from the template copy on
runs inside one `try` block. Whatever throws there ends the run with exit
status 1.

The model has three modules:

- `EnvFile` (`env_file.dfy`) models the two `.env` texts.
  - The backend text is `Object.entries(answers)`, without the keys that start
    with `REACT_APP`. Each entry is rendered as `KEY=VALUE`, and the lines are
    joined with `'\n'`.
  - The client text is the single line `REACT_APP_API_BASE_URL=<answer>`.
  - A reader for the `KEY=VALUE` format is the inverse that the round-trip
    lemmas are stated against. It splits at line breaks and at the first `=`.
  - Answers are a sequence of `(key, value)` pairs in the order
    `Object.entries` yields them. The program never yields a key twice; the
    predicate `DistinctKeys` names that condition. The model's functions and
    `Scaffold.Run` accept any sequence, and the lemmas that need distinct keys
    require `DistinctKeys`. `PromptSchema.SchemaAnswersDistinct` proves that
    answers to the ten questions satisfy it.
- `PromptSchema` (`prompt_schema.dfy`) holds the ten questions as data: their
  keys, their kinds (text or password) and their `initial` values. Its lemmas
  say what the two files contain for answers to exactly those questions.
  Further lemmas cover a session that accepts the offered defaults and one cut
  short by Ctrl-C.
- `Scaffold` (`scaffold.dfy`) models the top-level async function as the
  method `Run`.
  - It takes the command-line argument, the answers, and which of the five
    failing steps (copy, two writes, two installs) throw.
  - It returns the steps attempted and the exit status.
  - It is proved against `Attempted`, a reference function: "run the plan up
    to and including its first throwing step".

Two behaviours of the code are worth stating outright:

- **Ctrl-C during the questions does not stop the run.** The code installs no
  `onCancel` handler, so `prompts` resolves with the answers given so far.
  `backend/.env` gets those answers and `webclient/.env` gets
  `REACT_APP_API_BASE_URL=undefined`. See `PromptSchema.AbortedSession`.
- **Answers under other `REACT_APP…` keys are written to neither file.** Only
  the one fixed key reaches the client file. See
  `EnvFile.OtherFrontendKeysDropped`.

## Model

| member | source | states |
|---|---|---|
| EnvFile.DistinctKeys | bin/index.js:92 | Defines the condition that no key occurs twice, as in an object's entries; required by `FrontendIgnoresOtherAnswers`, established by `PromptSchema.SchemaAnswersDistinct`. |
| EnvFile.StartsWith | bin/index.js:93 | Defines `startsWith`: the prefix is no longer than the string and equals its first characters. |
| EnvFile.IsFrontendKey | bin/index.js:93 | Defines a client key as one that starts with `REACT_APP`; its use is stated by `BackendEntries` and `BackendKeysNotFrontend`. |
| EnvFile.RenderLine | bin/index.js:94 | Defines the `KEY=VALUE` template with no quoting; `ParseRenderLine` proves it is read back. |
| EnvFile.Lines | bin/index.js:94 | Defines the `.map` step: one rendered line per entry, same length, same order; `ParseLinesOfEntries` proves the lines read back. |
| EnvFile.Join | bin/index.js:95 | Defines `join('\n')`: empty for no lines, a separator between lines, none after the last; `SplitJoin` and `JoinLineBreaks` carry its properties. |
| EnvFile.BackendEnvText | bin/index.js:92-95 | Defines the backend text as the filter, map and join in that order; `BackendRoundTrip` and `BackendLineBreaks` carry its properties. |
| EnvFile.ApiBaseUrlValue | bin/index.js:102 | Defines the interpolated value: the answer under `REACT_APP_API_BASE_URL`, or `undefined` when there is none. |
| EnvFile.FrontendEnvText | bin/index.js:102 | Defines the client text as one `REACT_APP_API_BASE_URL=<value>` line; `FrontendRoundTrip` and `FrontendIgnoresOtherAnswers` carry its properties. |
| EnvFile.BackendEntries | bin/index.js:92-93 | An answer is kept exactly when its key does not start with `REACT_APP`, and the kept entries are never more than the answers. |
| EnvFile.BackendEntriesAppend | bin/index.js:92-93 | The filter distributes over concatenation, so the kept answers stay in the order they were collected. |
| EnvFile.BackendEntriesCount | bin/index.js:92-93 | Each answer occurs among the kept entries exactly as often as among the answers if its key is a backend key, and never otherwise. |
| EnvFile.BackendEntriesOrder | bin/index.js:92-93 | Two kept answers appear in the backend entries in the order they were collected. |
| EnvFile.BackendEntriesKeepsAll | bin/index.js:92-93 | Answers with only backend keys pass the filter unchanged. |
| EnvFile.Lookup | bin/index.js:102 | Property access finds a value stored under the key, and finds none exactly when no answer has that key. |
| EnvFile.SplitJoin | bin/index.js:95 | For at least one line: splitting the `join('\n')` of lines without line breaks gives back exactly those lines. |
| EnvFile.JoinLineBreaks | bin/index.js:95 | `join('\n')` of n >= 1 lines without line breaks holds n - 1 line breaks: one between lines, none at the end. |
| EnvFile.ParseRenderLine | bin/index.js:94 | A `KEY=VALUE` line rendered from an entry whose key has no `=` reads back as that entry. |
| EnvFile.ParseLinesOfEntries | bin/index.js:94 | The rendered lines of entries whose keys have no `=` read back as those entries, in order. |
| EnvFile.RenderRoundTrip | bin/index.js:94-95 | For at least one entry: reading the rendered text gives back the entries and has one line per entry, provided no key holds `=` and nothing holds a line break. |
| EnvFile.BackendRoundTrip | bin/index.js:92-95 | For at least one kept answer, none holding a line break and no key holding `=`: the backend text reads back as exactly the kept answers, in collected order, one line each. |
| EnvFile.BackendLineBreaks | bin/index.js:92-95 | The backend text for n >= 1 kept answers without line breaks holds n - 1 line breaks, none trailing. |
| EnvFile.FrontendRoundTrip | bin/index.js:102 | The client text reads back as the single entry `REACT_APP_API_BASE_URL` with the answer, or `undefined` when the answer is missing. |
| EnvFile.FrontendIgnoresOtherAnswers | bin/index.js:102 | Two answer sets with distinct keys that agree on the API base URL give the same client text, whatever else they hold. |
| EnvFile.OtherFrontendKeysDropped | bin/index.js:92-102 | An answer under a `REACT_APP` key other than the API base URL is in neither file. |
| EnvFile.ValueLineBreakInjectsEntry | bin/index.js:94 | Values are not escaped: a value holding a line break and `K=W` reads back as an extra entry under `K`. |
| PromptSchema.SCHEMA | bin/index.js:31-89 | Defines the ten questions in order with their kinds and `initial` values; `SchemaNames`, `SchemaNamesDistinct` and `DefaultValues` state its content. |
| PromptSchema.Answers | bin/index.js:31-89 | The answers object of a completed session: entry i is question i's key with the value given for it. |
| PromptSchema.AllDefaultsScenario | bin/index.js:31-102 | Answering every question with an empty line writes nine backend lines, line i being backend key i, `=`, its offered value (empty where none is offered), starting with `PORT=5000` and a line break; `webclient/.env` is `REACT_APP_API_BASE_URL=http://localhost:5000`. |
| PromptSchema.SchemaAnswersDistinct | bin/index.js:31-89 | Answers to the ten questions never repeat a key. |
| PromptSchema.SchemaNames | bin/index.js:32-88 | Ten questions: the nine backend keys in order, then `REACT_APP_API_BASE_URL`. |
| PromptSchema.SchemaNamesDistinct | bin/index.js:32-88 | No two questions share a key. |
| PromptSchema.BackendKeysNotFrontend | bin/index.js:32-93 | Only the API base URL key carries the `REACT_APP` prefix. |
| PromptSchema.BackendKeysWellFormed | bin/index.js:32-82 | No backend key holds `=` or a line break. |
| PromptSchema.SchemaBackendEntries | bin/index.js:31-93 | For answers to the ten questions, the backend entries are exactly the first nine answers under the nine backend keys, in order, without the API base URL. |
| PromptSchema.SchemaBackendLines | bin/index.js:31-95 | For answers to the ten questions, the backend text has nine lines, line i being backend key i, `=`, answer i; it starts with `PORT=<port>` and a line break. |
| PromptSchema.SchemaBackendText | bin/index.js:31-95 | For answers without line breaks, `backend/.env` splits into exactly those nine lines and holds eight line breaks. |
| PromptSchema.SchemaFrontendText | bin/index.js:85-102 | For answers to the ten questions, `webclient/.env` is `REACT_APP_API_BASE_URL=` followed by the tenth answer. |
| PromptSchema.AbortedSession | bin/index.js:31-102 | A session cut short after k < 10 answers writes all k of them to `backend/.env` and `REACT_APP_API_BASE_URL=undefined` to `webclient/.env`. |
| PromptSchema.LookupFirst | bin/index.js:102 | Property access returns the value of the first answer under the key. |
| PromptSchema.DefaultValues | bin/index.js:32-88 | The default answers are `5000`, the local MongoDB URI, `your_jwt_secret`, `smtp.gmail.com`, `your_email@example.com`, three empty answers, the local Google callback URL and `http://localhost:5000`. |
| PromptSchema.DefaultPortLine | bin/index.js:34-95 | Accepting the offered port makes `PORT=5000` the first line of `backend/.env`, followed by a line break. |
| PromptSchema.DefaultApiBaseUrl | bin/index.js:85-102 | Accepting the offered API base URL makes `webclient/.env` exactly `REACT_APP_API_BASE_URL=http://localhost:5000`. |
| Scaffold.HasName | bin/index.js:9-11 | Defines `!projectName` being false: the argument is present and not empty; `Run` states the exit for the other case. |
| Scaffold.Throws | bin/index.js:23-119 | Defines which step throws under the given outcomes; asking the questions never does. |
| Scaffold.Plan | bin/index.js:23-119 | Defines the six steps of the `try` block in program order: copy, ask, write `backend/.env`, write `webclient/.env`, install backend, install client. |
| Scaffold.Attempted | bin/index.js:23-130 | Reference semantics of the `try` block: the plan up to and including its first throwing step; `AttemptedShape` and `AttemptedUnique` characterise it. |
| Scaffold.AttemptedShape | bin/index.js:23-130 | The steps attempted are a prefix of the plan, every one but the last succeeded, and the run stops short of the plan only at a step that throws. |
| Scaffold.AttemptedUnique | bin/index.js:23-130 | Those three properties determine the attempted steps uniquely. |
| Scaffold.FirstThrowEndsRun | bin/index.js:23-130 | If step k is the first to throw, exactly steps 0..k are attempted. |
| Scaffold.ThrowSkipsLaterSteps | bin/index.js:23-130 | No step after a throwing step is attempted. |
| Scaffold.AllSucceedRunsAll | bin/index.js:23-125 | If no step throws, the whole plan is attempted. |
| Scaffold.LastThrowsIffSomeThrows | bin/index.js:23-130 | The last attempted step throws exactly when some step of the plan throws. |
| Scaffold.PlanAttempted | bin/index.js:25-119 | In the order copy, ask, write backend, write client, install backend, install client, a run attempts up to its first failing step. The run fails exactly when one of the five steps throws. A failing backend install means the client install is never attempted. |
| Scaffold.Run | bin/index.js:8-131 | No name (missing or empty) gives exit 1 and no step. Otherwise the trace is the plan up to the first throwing step, with the two `.env` texts computed from the answers. The exit status is 1 exactly when some step throws, and 0 otherwise. A failing backend install skips the client install. |

## Left out

- Console output (lines 12-13, 21, 26, 29, 99, 105, 108, 115, 122-125, 128) is not modelled: it has no effect on the files or the exit status.
- Paths (`process.cwd()`, `path.join`, `__dirname`) are left out. The model names the two target files by sub-project (`Backend`, `Webclient`), not by path.
- `fs.copySync`, `fs.writeFileSync` and `execSync("npm install")` are abstract steps. Each either succeeds or throws, as the `Outcomes` parameter says. What they do to the file system and what the installer prints are not modelled.
- The `prompts` library is an input: the answers object is a parameter of `Run`. The question texts (`message`) are display only and are not part of `Field`.
- Lines 17-21 (`process.cwd()`, the two `path.join` calls and the message) run after the name check and outside the `try` block; they compute paths and print, and are not modelled.
- PromptSchema.AcceptDefaults: that an empty line yields `initial`, or the empty string without one, is how the `prompts` library behaves. That library is not part of this model.
- Scaffold.Run: the prompt step never throws in the model, because `prompts` rejects only on its own internal errors, which are not modelled. A Ctrl-C is modelled as a shorter answers object; see `PromptSchema.AbortedSession`.
- `Object.entries` lists integer-like keys first. No question key is integer-like, so the model takes the answers in the order they were collected.
- The `await` and the async wrapper are left out. The run is sequential, so the model is a straight-line method.
