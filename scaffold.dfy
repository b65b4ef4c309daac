/** The control flow of the scaffolder's top-level async function
    (bin/index.js, lines 8-131): the early exit when no project name is given,
    then the steps in program order inside one try/catch. The file system, the
    questions and `npm install` are abstract steps; each of those that can fail
    either succeeds or throws, as `Outcomes` says. */
module Scaffold {

  import opened EnvFile

  /** The two sub-projects of the template that get an `.env` and an install. */
  datatype SubProject = Backend | Webclient

  /** What the run can attempt, in the order it attempts it. */
  datatype Step =
    | CopyTemplate
    | AskQuestions
    | WriteEnv(project: SubProject, text: string)
    | NpmInstall(project: SubProject)

  /** Which of the failing steps throw on a given run: `fs.copySync`, the two
      `fs.writeFileSync` calls and the two `execSync("npm install")` calls. */
  datatype Outcomes = Outcomes(
    copyThrows: bool,
    backendWriteThrows: bool,
    webclientWriteThrows: bool,
    backendInstallThrows: bool,
    webclientInstallThrows: bool)

  /** Whether `step` throws under `o`. Asking the questions never throws: the
      answers, possibly partial, are an input of the run. */
  predicate Throws(o: Outcomes, step: Step) {
    match step
    case CopyTemplate => o.copyThrows
    case AskQuestions => false
    case WriteEnv(Backend, _) => o.backendWriteThrows
    case WriteEnv(Webclient, _) => o.webclientWriteThrows
    case NpmInstall(Backend) => o.backendInstallThrows
    case NpmInstall(Webclient) => o.webclientInstallThrows
  }

  /** The steps of the try block, in program order, given the two `.env`
      texts computed from the answers. */
  function Plan(backendText: string, frontendText: string): seq<Step> {
    [ CopyTemplate,
      AskQuestions,
      WriteEnv(Backend, backendText),
      WriteEnv(Webclient, frontendText),
      NpmInstall(Backend),
      NpmInstall(Webclient) ]
  }

  /** `!projectName` is false: the argument is present and not empty. */
  predicate HasName(arg: Option<string>) {
    arg.Some? && arg.value != ""
  }

  /** Reference semantics of one try block: the steps of `plan` are attempted
      in order until one throws; that one is attempted, no later one is. */
  function Attempted(plan: seq<Step>, o: Outcomes): seq<Step> {
    if plan == [] then []
    else if Throws(o, plan[0]) then [plan[0]]
    else [plan[0]] + Attempted(plan[1..], o)
  }

  /** What `Attempted` promises: a prefix of the plan, every step of it but
      the last one succeeded, and it stops short of the plan only at a step
      that throws. */
  lemma {:induction false} AttemptedShape(plan: seq<Step>, o: Outcomes)
    ensures Attempted(plan, o) <= plan
    ensures forall i :: 0 <= i < |Attempted(plan, o)| - 1 ==> !Throws(o, Attempted(plan, o)[i])
    ensures Attempted(plan, o) == plan
         || (Attempted(plan, o) != [] && Throws(o, Attempted(plan, o)[|Attempted(plan, o)| - 1]))
  {
    if plan != [] && !Throws(o, plan[0]) {
      AttemptedShape(plan[1..], o);
      var rest := Attempted(plan[1..], o);
      assert Attempted(plan, o) == [plan[0]] + rest;
      assert plan == [plan[0]] + plan[1..];
    }
  }

  /** The three properties in the contract of `Attempted` determine it: a
      prefix of the plan whose every step but the last succeeded, and which
      stops early only at a step that throws, is what `Attempted` gives. */
  lemma {:induction false} AttemptedUnique(plan: seq<Step>, o: Outcomes, run: seq<Step>)
    requires run <= plan
    requires forall i :: 0 <= i < |run| - 1 ==> !Throws(o, run[i])
    requires run == plan || (run != [] && Throws(o, run[|run| - 1]))
    ensures run == Attempted(plan, o)
  {
    if plan != [] && run != [] {
      assert run[0] == plan[0];
      if Throws(o, plan[0]) {
        assert |run| == 1;
      } else {
        assert run[1..] <= plan[1..];
        AttemptedUnique(plan[1..], o, run[1..]);
        assert run == [run[0]] + run[1..];
      }
    }
  }

  /** When the first step to throw is step k, exactly steps 0..k are attempted. */
  lemma {:induction false} FirstThrowEndsRun(plan: seq<Step>, o: Outcomes, k: nat)
    requires k < |plan| && Throws(o, plan[k])
    requires forall i :: 0 <= i < k ==> !Throws(o, plan[i])
    ensures Attempted(plan, o) == plan[..k + 1]
  {
    if k > 0 {
      FirstThrowEndsRun(plan[1..], o, k - 1);
      assert plan[..k + 1] == [plan[0]] + plan[1..][..k];
    }
  }

  /** A step that throws is the last one attempted: nothing after it runs. */
  lemma {:induction false} ThrowSkipsLaterSteps(plan: seq<Step>, o: Outcomes, k: nat)
    requires k < |plan| && Throws(o, plan[k])
    ensures |Attempted(plan, o)| <= k + 1
  {
    if k > 0 && !Throws(o, plan[0]) {
      ThrowSkipsLaterSteps(plan[1..], o, k - 1);
    }
  }

  /** If no step of the plan throws, the whole plan is attempted. */
  lemma {:induction false} AllSucceedRunsAll(plan: seq<Step>, o: Outcomes)
    requires forall i :: 0 <= i < |plan| ==> !Throws(o, plan[i])
    ensures Attempted(plan, o) == plan
  {
    if plan != [] {
      AllSucceedRunsAll(plan[1..], o);
      assert plan == [plan[0]] + plan[1..];
    }
  }

  /** The last attempted step throws exactly when some step of the plan
      throws: a run fails if and only if one of its steps would. */
  lemma {:induction false} LastThrowsIffSomeThrows(plan: seq<Step>, o: Outcomes)
    requires plan != []
    ensures Attempted(plan, o) != []
    ensures Throws(o, Attempted(plan, o)[|Attempted(plan, o)| - 1])
        <==> exists i :: 0 <= i < |plan| && Throws(o, plan[i])
  {
    if !Throws(o, plan[0]) {
      if |plan| == 1 {
        assert Attempted(plan[1..], o) == [];
      } else {
        LastThrowsIffSomeThrows(plan[1..], o);
        var rest := Attempted(plan[1..], o);
        assert Attempted(plan, o) == [plan[0]] + rest;
        if exists i :: 0 <= i < |plan| && Throws(o, plan[i]) {
          var i :| 0 <= i < |plan| && Throws(o, plan[i]);
          assert plan[1..][i - 1] == plan[i];
        }
        if exists i :: 0 <= i < |plan[1..]| && Throws(o, plan[1..][i]) {
          var i :| 0 <= i < |plan[1..]| && Throws(o, plan[1..][i]);
          assert plan[i + 1] == plan[1..][i];
        }
      }
    }
  }

  /** Some step that can fail does. */
  predicate AnyThrows(o: Outcomes) {
    o.copyThrows || o.backendWriteThrows || o.webclientWriteThrows
    || o.backendInstallThrows || o.webclientInstallThrows
  }

  /** How many steps of the plan a run with these outcomes attempts. */
  function StepsAttempted(o: Outcomes): nat {
    if o.copyThrows then 1
    else if o.backendWriteThrows then 3
    else if o.webclientWriteThrows then 4
    else if o.backendInstallThrows then 5
    else 6
  }

  /** The try block attempts the plan up to and including its first throwing step. */
  lemma PlanAttempted(backendText: string, frontendText: string, o: Outcomes)
    ensures Attempted(Plan(backendText, frontendText), o)
         == Plan(backendText, frontendText)[..StepsAttempted(o)]
    ensures var run := Attempted(Plan(backendText, frontendText), o);
      run != [] && (Throws(o, run[|run| - 1]) <==> AnyThrows(o))
    ensures o.backendInstallThrows ==> NpmInstall(Webclient) !in Attempted(Plan(backendText, frontendText), o)
  {
    var plan := Plan(backendText, frontendText);
    if o.copyThrows {
      FirstThrowEndsRun(plan, o, 0);
    } else if o.backendWriteThrows {
      FirstThrowEndsRun(plan, o, 2);
    } else if o.webclientWriteThrows {
      FirstThrowEndsRun(plan, o, 3);
    } else if o.backendInstallThrows {
      FirstThrowEndsRun(plan, o, 4);
    } else if o.webclientInstallThrows {
      FirstThrowEndsRun(plan, o, 5);
    } else {
      AllSucceedRunsAll(plan, o);
    }
  }

  /** One invocation of the scaffolder. `arg` is `process.argv[2]`; `answers`
      stands for what the questions return; `o` says which steps throw. The
      result is the sequence of steps attempted and the process exit status. */
  method Run(arg: Option<string>, answers: seq<Entry>, o: Outcomes) returns (trace: seq<Step>, exitCode: int)
    ensures !HasName(arg) ==> trace == [] && exitCode == 1
    ensures HasName(arg) ==> trace == Attempted(Plan(BackendEnvText(answers), FrontendEnvText(answers)), o)
    ensures exitCode == 0 || exitCode == 1
    ensures HasName(arg) ==> trace != [] && (exitCode == 1 <==> Throws(o, trace[|trace| - 1]))
    ensures HasName(arg) ==> (exitCode == 0 <==> !AnyThrows(o))
    ensures o.backendInstallThrows ==> NpmInstall(Webclient) !in trace && exitCode == 1
  {
    if !HasName(arg) {
      return [], 1;
    }
    var backendText := BackendEnvText(answers);
    var frontendText := FrontendEnvText(answers);
    ghost var plan := Plan(backendText, frontendText);
    PlanAttempted(backendText, frontendText, o);
    trace := [CopyTemplate];
    if o.copyThrows {
      assert trace == plan[..1];
      return trace, 1;
    }
    trace := trace + [AskQuestions];
    trace := trace + [WriteEnv(Backend, backendText)];
    if o.backendWriteThrows {
      assert trace == plan[..3];
      return trace, 1;
    }
    trace := trace + [WriteEnv(Webclient, frontendText)];
    if o.webclientWriteThrows {
      assert trace == plan[..4];
      return trace, 1;
    }
    trace := trace + [NpmInstall(Backend)];
    if o.backendInstallThrows {
      assert trace == plan[..5];
      return trace, 1;
    }
    trace := trace + [NpmInstall(Webclient)];
    if o.webclientInstallThrows {
      assert trace == plan[..6];
      exitCode := 1;
    } else {
      assert trace == plan;
      exitCode := 0;
    }
  }
}
