/** The command runner and environment helpers that both test-instance pipelines define
    (identically) at the top of their scripts: `run`, `get_env` and the timing wrapper
    `dimmed_timed_step`.

    An external process is seen only through its argument vector, its working directory and its
    exit code. Exit codes come from an oracle `exitOf(n, cmd)`: the exit status of `cmd` when it
    is the `n`-th command the machine has run. A sequence of commands is described by a plan
    (`seq<Step>`), and `Executed` says which of its commands actually run: all of them up to and
    including the first checked command that fails, whose `CalledProcessError` ends the run. */
module Shell {
  import opened Common
  import opened Text

  /** An external command: its argument vector and the directory it runs in (`None`: the
      script's own working directory). */
  datatype Cmd = Cmd(argv: seq<string>, cwd: Option<string>)

  /** One call of `run`: the command and its `check` flag. */
  datatype Step = Step(cmd: Cmd, checked: bool)

  type ExitOracle = (nat, Cmd) -> int

  /** The step raises `CalledProcessError` when it runs as the `t`-th command. */
  predicate Raises(step: Step, exitOf: ExitOracle, t: nat) {
    step.checked && exitOf(t, step.cmd) != 0
  }

  /** Running the plan from command index `t` ends in an exception. */
  predicate Aborts(plan: seq<Step>, exitOf: ExitOracle, t: nat)
    decreases |plan|
  {
    plan != [] && (Raises(plan[0], exitOf, t) || Aborts(plan[1..], exitOf, t + 1))
  }

  /** The argument vectors of a plan, in order. */
  function Commands(plan: seq<Step>): (r: seq<Cmd>)
    ensures |r| == |plan| && forall i :: 0 <= i < |plan| ==> r[i] == plan[i].cmd
  {
    seq(|plan|, i requires 0 <= i < |plan| => plan[i].cmd)
  }

  /** The commands that run when the plan is executed from command index `t`: each step in
      turn, stopping right after the first one that raises. */
  function Executed(plan: seq<Step>, exitOf: ExitOracle, t: nat): (r: seq<Cmd>)
    ensures |r| <= |plan|
    decreases |plan|
  {
    if plan == [] then []
    else if Raises(plan[0], exitOf, t) then [plan[0].cmd]
    else [plan[0].cmd] + Executed(plan[1..], exitOf, t + 1)
  }

  /** What runs is a prefix of the plan: all of it when nothing raises, and otherwise up to and
      including the one step that raises. */
  lemma {:induction false} ExecutedPrefix(plan: seq<Step>, exitOf: ExitOracle, t: nat)
    ensures var r := Executed(plan, exitOf, t);
      r == Commands(plan)[..|r|]
      && (!Aborts(plan, exitOf, t) ==> r == Commands(plan))
      && (Aborts(plan, exitOf, t) ==> r != [] && Raises(plan[|r| - 1], exitOf, t + |r| - 1))
    decreases |plan|
  {
    if plan != [] && !Raises(plan[0], exitOf, t) {
      ExecutedPrefix(plan[1..], exitOf, t + 1);
      assert Commands(plan)[1..] == Commands(plan[1..]);
    }
  }

  /** A plan that does not raise runs one command per step. */
  lemma {:induction false} ExecutedLength(plan: seq<Step>, exitOf: ExitOracle, t: nat)
    requires !Aborts(plan, exitOf, t)
    ensures |Executed(plan, exitOf, t)| == |plan|
  {
    if plan != [] {
      ExecutedLength(plan[1..], exitOf, t + 1);
    }
  }

  /** Running `a` then `b` raises exactly when `a` raises or, after it, `b` does. */
  lemma {:induction false} AbortsAppend(a: seq<Step>, b: seq<Step>, exitOf: ExitOracle, t: nat)
    ensures Aborts(a + b, exitOf, t) == (Aborts(a, exitOf, t) || Aborts(b, exitOf, t + |a|))
  {
    if a == [] {
      assert a + b == b;
    } else {
      assert (a + b)[0] == a[0];
      assert (a + b)[1..] == a[1..] + b;
      AbortsAppend(a[1..], b, exitOf, t + 1);
    }
  }

  /** Running `a` then `b` is running `a`, and then `b` unless `a` raised: a stage that fails
      keeps every later stage from running. */
  lemma {:induction false} ExecutedAppend(a: seq<Step>, b: seq<Step>, exitOf: ExitOracle, t: nat)
    ensures Aborts(a + b, exitOf, t) == (Aborts(a, exitOf, t) || Aborts(b, exitOf, t + |a|))
    ensures Executed(a + b, exitOf, t)
         == Executed(a, exitOf, t) + (if Aborts(a, exitOf, t) then [] else Executed(b, exitOf, t + |a|))
  {
    AbortsAppend(a, b, exitOf, t);
    if a == [] {
      assert a + b == b;
    } else {
      var ab := a + b;
      assert ab[0] == a[0];
      assert ab[1..] == a[1..] + b;
      ExecutedAppend(a[1..], b, exitOf, t + 1);
    }
  }

  /** Once a plan raises, nothing appended to it runs. */
  lemma StopsAfterAbort(a: seq<Step>, b: seq<Step>, exitOf: ExitOracle, t: nat)
    requires Aborts(a, exitOf, t)
    ensures Aborts(a + b, exitOf, t)
    ensures Executed(a + b, exitOf, t) == Executed(a, exitOf, t)
  {
    ExecutedAppend(a, b, exitOf, t);
  }

  /** Running a stage that returns normally, then the rest: the run of the whole is the
      stage's run followed by the rest's, and whether it raises is decided by the rest. */
  lemma Advance(tr: seq<Cmd>, stage: seq<Step>, rest: seq<Step>, exitOf: ExitOracle)
    requires !Aborts(stage, exitOf, |tr|)
    ensures tr + Executed(stage + rest, exitOf, |tr|)
         == (tr + Executed(stage, exitOf, |tr|)) + Executed(rest, exitOf, |tr + Executed(stage, exitOf, |tr|)|)
    ensures Aborts(stage + rest, exitOf, |tr|) == Aborts(rest, exitOf, |tr + Executed(stage, exitOf, |tr|)|)
  {
    ExecutedAppend(stage, rest, exitOf, |tr|);
    ExecutedLength(stage, exitOf, |tr|);
    var e := Executed(stage, exitOf, |tr|);
    var x := Executed(rest, exitOf, |tr| + |stage|);
    assert |tr + e| == |tr| + |stage|;
    assert tr + (e + x) == (tr + e) + x;
  }

  /** Running a stage that raises, then the rest: only the stage's commands run, and the whole
      raises. */
  lemma Halt(tr: seq<Cmd>, stage: seq<Step>, rest: seq<Step>, exitOf: ExitOracle)
    requires Aborts(stage, exitOf, |tr|)
    ensures tr + Executed(stage + rest, exitOf, |tr|) == tr + Executed(stage, exitOf, |tr|)
    ensures Aborts(stage + rest, exitOf, |tr|)
  {
    StopsAfterAbort(stage, rest, exitOf, |tr|);
  }

  /** Two stages run one after the other, the first returning normally: the trace and the
      outcome are those of running the two stages as one plan. */
  lemma Then(tr0: seq<Cmd>, tr1: seq<Cmd>, tr2: seq<Cmd>, stage: seq<Step>, rest: seq<Step>, exitOf: ExitOracle,
             ok: bool)
    requires tr1 == tr0 + Executed(stage, exitOf, |tr0|) && !Aborts(stage, exitOf, |tr0|)
    requires tr2 == tr1 + Executed(rest, exitOf, |tr1|) && ok == !Aborts(rest, exitOf, |tr1|)
    ensures tr2 == tr0 + Executed(stage + rest, exitOf, |tr0|) && ok == !Aborts(stage + rest, exitOf, |tr0|)
  {
    Advance(tr0, stage, rest, exitOf);
  }

  /** A plan whose steps are all unchecked (`check=False`) never raises. */
  lemma {:induction false} UncheckedNeverAborts(plan: seq<Step>, exitOf: ExitOracle, t: nat)
    requires forall i :: 0 <= i < |plan| ==> !plan[i].checked
    ensures !Aborts(plan, exitOf, t)
  {
    if plan != [] {
      UncheckedNeverAborts(plan[1..], exitOf, t + 1);
    }
  }

  /** Exit codes of unchecked steps do not matter: two oracles that agree on every checked
      step give the same run. */
  lemma {:induction false} OnlyCheckedCodesMatter(plan: seq<Step>, f: ExitOracle, g: ExitOracle, t: nat)
    requires forall i :: 0 <= i < |plan| && plan[i].checked ==> f(t + i, plan[i].cmd) == g(t + i, plan[i].cmd)
    ensures Aborts(plan, f, t) == Aborts(plan, g, t)
    ensures Executed(plan, f, t) == Executed(plan, g, t)
  {
    if plan != [] {
      assert plan[0].checked ==> f(t + 0, plan[0].cmd) == g(t + 0, plan[0].cmd);
      forall i | 0 <= i < |plan[1..]| && plan[1..][i].checked
        ensures f(t + 1 + i, plan[1..][i].cmd) == g(t + 1 + i, plan[1..][i].cmd)
      {
        assert plan[1..][i] == plan[i + 1];
      }
      OnlyCheckedCodesMatter(plan[1..], f, g, t + 1);
    }
  }

  /** What `git clone <url> <path>` brings: the paths inside the new clone. */
  type CloneOracle = (string, string) -> set<string>

  /** The local machine as the scripts see it: the commands run so far, the paths that exist,
      the contents of the files the scripts write themselves, and two oracles for the outside
      world (exit codes, and the contents of remote repositories). */
  class Machine {
    var trace: seq<Cmd>
    var present: set<string>
    var files: map<string, string>
    const exitOf: ExitOracle
    const cloneOf: CloneOracle

    constructor (exitOf: ExitOracle, cloneOf: CloneOracle, present: set<string>, files: map<string, string>)
      ensures this.exitOf == exitOf && this.cloneOf == cloneOf
      ensures this.present == present && this.files == files && trace == []
    {
      this.exitOf := exitOf;
      this.cloneOf := cloneOf;
      this.present := present;
      this.files := files;
      trace := [];
    }

    /** `run(cmd, cwd=..., check=...)`: runs the command, returns its exit code, and reports in
        `ok` whether it returned normally (it raises `CalledProcessError` exactly when `check`
        is set and the exit code is not zero). */
    method Run(cmd: Cmd, check: bool) returns (code: int, ok: bool)
      modifies this`trace
      ensures trace == old(trace) + [cmd]
      ensures code == exitOf(|old(trace)|, cmd)
      ensures ok == !Raises(Step(cmd, check), exitOf, |old(trace)|)
    {
      code := exitOf(|trace|, cmd);
      trace := trace + [cmd];
      ok := !(check && code != 0);
    }

    /** Consecutive `run` calls, one per step of the plan, the first exception ending them:
        exactly the commands `Executed` names run, and the calls end normally exactly when the
        plan does not abort. */
    method RunPlan(plan: seq<Step>) returns (ok: bool)
      modifies this`trace
      ensures trace == old(trace) + Executed(plan, exitOf, |old(trace)|)
      ensures ok == !Aborts(plan, exitOf, |old(trace)|)
    {
      ghost var t0 := |trace|;
      var i := 0;
      ok := true;
      while i < |plan|
        invariant 0 <= i <= |plan|
        invariant trace == old(trace) + Executed(plan[..i], exitOf, t0)
        invariant |trace| == t0 + i
        invariant !Aborts(plan[..i], exitOf, t0)
      {
        ExecutedAppend(plan[..i], [plan[i]], exitOf, t0);
        assert plan[..i + 1] == plan[..i] + [plan[i]];
        var _, stepOk := Run(plan[i].cmd, plan[i].checked);
        if !stepOk {
          ExecutedAppend(plan[..i + 1], plan[i + 1..], exitOf, t0);
          assert plan[..i + 1] + plan[i + 1..] == plan;
          return false;
        }
        i := i + 1;
      }
      assert plan[..i] == plan;
    }

    /** One `run` call seen as a one-step plan. */
    method RunStep(step: Step) returns (ok: bool)
      modifies this`trace
      ensures trace == old(trace) + Executed([step], exitOf, |old(trace)|)
      ensures ok == !Aborts([step], exitOf, |old(trace)|)
    {
      assert [step][1..] == [];
      var _, k := Run(step.cmd, step.checked);
      ok := k;
    }
  }

  /** `Path(a) / b` for a relative `b`. */
  function JoinPath(a: string, b: string): string {
    a + "/" + b
  }

  // ---------------------------------------------------------------------------------------
  // Environment
  // ---------------------------------------------------------------------------------------

  /** `os.environ.get(var, default)` (the scripts' `get_env` without `required`): a variable
      that is set wins, even when it is empty. */
  function GetEnv(env: map<string, string>, name: string, default: string): (r: string)
    ensures name in env ==> r == env[name]
    ensures name !in env ==> r == default
  {
    if name in env then env[name] else default
  }

  /** `os.environ.get(var) or default`: an empty value falls back to the default. */
  function EnvOr(env: map<string, string>, name: string, default: string): (r: string)
    ensures r == default || (name in env && r == env[name] && r != [])
    ensures name in env && env[name] != [] ==> r == env[name]
  {
    if name in env && env[name] != [] then env[name] else default
  }

  /** `bool(os.environ.get(var))`, and `get_env(var, required=True)` succeeding. */
  predicate EnvSet(env: map<string, string>, name: string) {
    name in env && env[name] != []
  }

  // ---------------------------------------------------------------------------------------
  // Step timing
  // ---------------------------------------------------------------------------------------

  /** The elapsed-time label of `dimmed_timed_step`: `"<m>m<ss>s"` with the seconds padded to
      two digits when at least a minute passed, `"<s>s"` otherwise. */
  function TimeLabel(elapsed: nat): (r: string)
    ensures r != [] && r[|r| - 1] == 's'
    ensures elapsed < 60 <==> !Contains(r, "m")
  {
    var m, s := elapsed / 60, elapsed % 60;
    if m != 0 then
      var d := NatToString(m);
      assert OccursAt(d + "m" + Pad2(s) + "s", "m", |d|);
      ContainsAt(d + "m" + Pad2(s) + "s", "m", |d|);
      d + "m" + Pad2(s) + "s"
    else
      NoLetterInDigits(NatToString(s) + "s");
      NatToString(s) + "s"
  }

  /** A string of digits followed by `s` holds no `m`. */
  lemma NoLetterInDigits(r: string)
    requires r != [] && AllDigits(r[..|r| - 1]) && r[|r| - 1] == 's'
    ensures !Contains(r, "m")
  {
    forall k | 0 <= k < |r| - 1 ensures r[k] != 'm' {
      assert r[..|r| - 1][k] == r[k];
    }
    AbsentChar(r, 'm');
  }

  /** Reads a time label back into seconds. */
  function LabelSeconds(tag: string): nat {
    if tag == [] || tag[|tag| - 1] != 's' then 0
    else
      var body := tag[..|tag| - 1];
      var i := Find(body, "m", 0);
      if i < 0 then (if AllDigits(body) then DigitsValue(body) else 0)
      else if AllDigits(body[..i]) && AllDigits(body[i + 1..]) then
        DigitsValue(body[..i]) * 60 + DigitsValue(body[i + 1..])
      else 0
  }

  /** The label determines the elapsed seconds: reading it back gives them again, so the
      minutes and the two-digit seconds are exactly `elapsed div 60` and `elapsed mod 60`. */
  lemma TimeLabelRoundTrip(elapsed: nat)
    ensures LabelSeconds(TimeLabel(elapsed)) == elapsed
  {
    var m, s := elapsed / 60, elapsed % 60;
    var tag := TimeLabel(elapsed);
    var body := tag[..|tag| - 1];
    if m != 0 {
      var d := NatToString(m);
      var p := Pad2(s);
      assert body == d + "m" + p;
      assert OccursAt(body, "m", |d|);
      FindFacts(body, "m", 0);
      forall k | 0 <= k < |d| ensures !OccursAt(body, "m", k) {
        assert body[k..k + 1] == [d[k]];
      }
      assert body[..|d|] == d;
      assert body[|d| + 1..] == p;
      DigitsValueOfNat(m);
    } else {
      assert body == NatToString(s);
      AbsentChar(body, 'm');
      DigitsValueOfNat(s);
    }
  }

  /** The closing line `dimmed_timed_step` prints after a step that returned: none in debug
      mode, where the wrapper only calls the step; otherwise `"[<label>] <message>"`. */
  function StepReport(debug: bool, elapsed: nat, message: string): (r: Option<string>)
    ensures r.None? <==> debug
    ensures r.Some? ==> StartsWith(r.value, "[" + TimeLabel(elapsed) + "] ")
  {
    if debug then None else Some("[" + TimeLabel(elapsed) + "] " + message)
  }
}
