/** What the create and the destroy pipeline share, defined identically in both scripts: the
    derived hostname and stack path, the workspace configuration read from the environment,
    the clone stage and the closing sounds. */
module Lifecycle {
  import opened Common
  import opened Text
  import opened Shell

  const Domain := ".aopstest.com"
  const StackAccountPath := "stacks/accounts/aops_dev.487718497406"
  const DefaultAnsibleCfgBranch := "simple"
  const DefaultTerramateCloudRepo := "git@github.com:aops-ba/terramate-cloud.git"
  const DefaultAnsibleConfigRepo := "git@github.com:aops-ba/ansible-cfg.git"

  // ---------------------------------------------------------------------------------------
  // Derived names
  // ---------------------------------------------------------------------------------------

  /** `f"{prefix}.aopstest.com"`. */
  function Hostname(prefix: string): (h: string)
    ensures |h| == |prefix| + |Domain|
  {
    prefix + Domain
  }

  /** The prefix a hostname was derived from, if it ends in the test domain. */
  function PrefixOf(h: string): (r: Option<string>)
    ensures r.Some? ==> |r.value| + |Domain| == |h|
  {
    if |h| >= |Domain| && h[|h| - |Domain|..] == Domain then Some(h[..|h| - |Domain|]) else None
  }

  /** The hostname gives its prefix back, so distinct prefixes name distinct hosts. */
  lemma HostnamePrefix(prefix: string)
    ensures PrefixOf(Hostname(prefix)) == Some(prefix)
  {
    var h := Hostname(prefix);
    assert h[|h| - |Domain|..] == Domain;
    assert h[..|h| - |Domain|] == prefix;
  }

  lemma HostnameInjective(p: string, q: string)
    requires Hostname(p) == Hostname(q)
    ensures p == q
  {
    HostnamePrefix(p);
    HostnamePrefix(q);
  }

  /** The `terramate create` argument, relative to the Terramate clone. */
  function StackArg(hostname: string): string {
    StackAccountPath + "/" + hostname
  }

  /** `terramate_cloud_path / DEFAULT_STACK_ACCOUNT_PATH / full_hostname`. */
  function StackPath(terramatePath: string, hostname: string): (r: string)
    ensures |r| == |terramatePath| + 1 + |StackAccountPath| + 1 + |hostname|
  {
    JoinPath(JoinPath(terramatePath, StackAccountPath), hostname)
  }

  /** The directory `terramate create` makes (its argument, resolved against the clone it runs
      in) is exactly the stack directory whose presence the scripts check, and each host has
      its own. */
  lemma StackArgResolves(terramatePath: string, hostname: string)
    ensures JoinPath(terramatePath, StackArg(hostname)) == StackPath(terramatePath, hostname)
  {
  }

  lemma StackPathInjective(root: string, h1: string, h2: string)
    requires StackPath(root, h1) == StackPath(root, h2)
    ensures h1 == h2
  {
    var base := JoinPath(JoinPath(root, StackAccountPath), "");
    assert StackPath(root, h1) == base + h1;
    assert StackPath(root, h2) == base + h2;
    assert h1 == StackPath(root, h1)[|base|..];
  }

  /** A path is `dir` itself or lies below it. */
  predicate Under(p: string, dir: string) {
    p == dir || StartsWith(p, dir + "/")
  }

  /** The command line: the prefix and the `--ci` and `--debug` flags (`--verbose` changes
      nothing either script does). */
  datatype Args = Args(prefix: string, ci: bool, debug: bool)

  /** The two files of the Ansible clone that both scripts edit. */
  function InventoryFile(root: string): string {
    JoinPath(root, "inventory.yml")
  }

  function EmailsFile(root: string): string {
    JoinPath(root, "group_vars/all/emails.yml")
  }

  // ---------------------------------------------------------------------------------------
  // Workspaces
  // ---------------------------------------------------------------------------------------

  /** The two clones and where they come from. */
  datatype Workspaces = Workspaces(
    branch: string,
    terramateRepo: string,
    ansibleRepo: string,
    terramatePath: string,
    ansibleRoot: string)

  /** The configuration both scripts read: repositories and branch through `get_env` (a set but
      empty variable wins), clone paths through `os.environ.get(...) or default` (an empty
      variable falls back to `/tmp/...-<prefix>-<runId>`, `runId` being the random suffix). */
  function ResolveWorkspaces(env: map<string, string>, prefix: string, runId: string): (w: Workspaces)
    ensures w.terramatePath != [] && w.ansibleRoot != []
  {
    Workspaces(
      GetEnv(env, "ANSIBLE_CFG_BRANCH", DefaultAnsibleCfgBranch),
      GetEnv(env, "TERRAMATE_CLOUD_REPO", DefaultTerramateCloudRepo),
      GetEnv(env, "ANSIBLE_CONFIG_REPO", DefaultAnsibleConfigRepo),
      EnvOr(env, "TERRAMATE_CLOUD_PATH", "/tmp/terramate-cloud-" + prefix + "-" + runId),
      EnvOr(env, "ANSIBLE_CONFIG_ROOT", "/tmp/ansible-cfg-" + prefix + "-" + runId))
  }

  /** Without path overrides the two clones never share a directory. */
  lemma DefaultClonesDistinct(env: map<string, string>, prefix: string, runId: string)
    requires !EnvSet(env, "TERRAMATE_CLOUD_PATH") && !EnvSet(env, "ANSIBLE_CONFIG_ROOT")
    ensures ResolveWorkspaces(env, prefix, runId).terramatePath != ResolveWorkspaces(env, prefix, runId).ansibleRoot
  {
    var w := ResolveWorkspaces(env, prefix, runId);
    assert w.terramatePath[5] == 't' && w.ansibleRoot[5] == 'a';
  }

  /** An empty variable is treated differently by the two lookups, whatever else the
      environment holds: an empty repository or branch is used as it is, an empty clone path
      falls back to the default. */
  lemma EmptyOverrides(env: map<string, string>, prefix: string, runId: string)
    ensures var w := ResolveWorkspaces(env, prefix, runId);
      ("ANSIBLE_CFG_BRANCH" in env && env["ANSIBLE_CFG_BRANCH"] == [] ==> w.branch == [])
      && ("ANSIBLE_CONFIG_REPO" in env && env["ANSIBLE_CONFIG_REPO"] == [] ==> w.ansibleRepo == [])
      && ("TERRAMATE_CLOUD_PATH" in env && env["TERRAMATE_CLOUD_PATH"] == [] ==>
            w.terramatePath == "/tmp/terramate-cloud-" + prefix + "-" + runId)
      && ("ANSIBLE_CONFIG_ROOT" in env && env["ANSIBLE_CONFIG_ROOT"] == [] ==>
            w.ansibleRoot == "/tmp/ansible-cfg-" + prefix + "-" + runId)
  {
  }

  // ---------------------------------------------------------------------------------------
  // Clone stage
  // ---------------------------------------------------------------------------------------

  function CloneCmd(repo: string, path: string): Cmd {
    Cmd(["git", "clone", repo, path], None)
  }

  function CheckoutCmd(branch: string, path: string): Cmd {
    Cmd(["git", "checkout", branch], Some(path))
  }

  /** The paths that exist after `git clone <repo> <path>`, which runs only when `path` is
      absent. */
  function AfterClone(present: set<string>, repo: string, path: string, cloneOf: CloneOracle): set<string> {
    if path in present then present else present + {path} + cloneOf(repo, path)
  }

  /** The clone stage's commands, given the paths that exist before it: each repository is
      cloned only when its path is absent (the Ansible one then checks out the branch). */
  function ClonePlan(w: Workspaces, present: set<string>, cloneOf: CloneOracle): seq<Step> {
    (if w.terramatePath in present then [] else [Step(CloneCmd(w.terramateRepo, w.terramatePath), true)])
    + (if w.ansibleRoot in AfterClone(present, w.terramateRepo, w.terramatePath, cloneOf) then []
       else [Step(CloneCmd(w.ansibleRepo, w.ansibleRoot), true), Step(CheckoutCmd(w.branch, w.ansibleRoot), true)])
  }

  /** The paths that exist after a clone stage that did not raise. */
  function AfterClones(w: Workspaces, present: set<string>, cloneOf: CloneOracle): set<string> {
    AfterClone(AfterClone(present, w.terramateRepo, w.terramatePath, cloneOf), w.ansibleRepo, w.ansibleRoot, cloneOf)
  }

  /** The paths that exist after the clone stage from command index `t`, whether or not it
      raised: a clone that fails adds nothing and ends the stage; a successful Ansible clone
      stays in place even when the checkout after it fails. */
  function ClonedPresent(w: Workspaces, present: set<string>, cloneOf: CloneOracle, exitOf: ExitOracle, t: nat): set<string> {
    if w.terramatePath !in present && exitOf(t, CloneCmd(w.terramateRepo, w.terramatePath)) != 0 then present
    else
      var p1 := AfterClone(present, w.terramateRepo, w.terramatePath, cloneOf);
      var t1 := if w.terramatePath in present then t else t + 1;
      if w.ansibleRoot !in p1 && exitOf(t1, CloneCmd(w.ansibleRepo, w.ansibleRoot)) != 0 then p1
      else AfterClone(p1, w.ansibleRepo, w.ansibleRoot, cloneOf)
  }

  /** A clone stage that did not raise leaves exactly the paths `AfterClones` names, and any
      clone stage only adds paths. */
  lemma ClonedPresentFacts(w: Workspaces, present: set<string>, cloneOf: CloneOracle, exitOf: ExitOracle, t: nat)
    ensures !Aborts(ClonePlan(w, present, cloneOf), exitOf, t) ==> ClonedPresent(w, present, cloneOf, exitOf, t) == AfterClones(w, present, cloneOf)
    ensures present <= ClonedPresent(w, present, cloneOf, exitOf, t) <= AfterClones(w, present, cloneOf)
  {
    var a := if w.terramatePath in present then [] else [Step(CloneCmd(w.terramateRepo, w.terramatePath), true)];
    var b := if w.ansibleRoot in AfterClone(present, w.terramateRepo, w.terramatePath, cloneOf) then []
      else [Step(CloneCmd(w.ansibleRepo, w.ansibleRoot), true), Step(CheckoutCmd(w.branch, w.ansibleRoot), true)];
    assert ClonePlan(w, present, cloneOf) == a + b;
    AbortsAppend(a, b, exitOf, t);
  }

  /** A stage that did not raise leaves both clone roots in place. */
  lemma ClonesPresent(w: Workspaces, present: set<string>, cloneOf: CloneOracle)
    ensures w.terramatePath in AfterClones(w, present, cloneOf)
    ensures w.ansibleRoot in AfterClones(w, present, cloneOf)
    ensures present <= AfterClones(w, present, cloneOf)
  {
  }

  /** With both clones already present the stage runs nothing and changes nothing: the
      cache-by-presence rule. */
  lemma CloneCached(w: Workspaces, present: set<string>, cloneOf: CloneOracle)
    requires w.terramatePath in present && w.ansibleRoot in present
    ensures ClonePlan(w, present, cloneOf) == []
    ensures AfterClones(w, present, cloneOf) == present
  {
  }

  /** `clone_terramate_repo`: one checked `git clone`. */
  method CloneTerramate(m: Machine, repo: string, path: string) returns (ok: bool)
    modifies m`trace, m`present
    ensures var plan := [Step(CloneCmd(repo, path), true)];
      m.trace == old(m.trace) + Executed(plan, m.exitOf, |old(m.trace)|)
      && ok == !Aborts(plan, m.exitOf, |old(m.trace)|)
    ensures m.present == if m.exitOf(|old(m.trace)|, CloneCmd(repo, path)) == 0
                         then old(m.present) + {path} + m.cloneOf(repo, path) else old(m.present)
  {
    ok := m.RunStep(Step(CloneCmd(repo, path), true));
    if ok {
      m.present := m.present + {path} + m.cloneOf(repo, path);
    }
  }

  /** `clone_ansible_repo`: a checked `git clone`, then a checked `git checkout <branch>`
      inside the new clone. */
  method CloneAnsible(m: Machine, repo: string, path: string, branch: string) returns (ok: bool)
    modifies m`trace, m`present
    ensures var plan := [Step(CloneCmd(repo, path), true), Step(CheckoutCmd(branch, path), true)];
      m.trace == old(m.trace) + Executed(plan, m.exitOf, |old(m.trace)|)
      && ok == !Aborts(plan, m.exitOf, |old(m.trace)|)
    ensures m.present == if m.exitOf(|old(m.trace)|, CloneCmd(repo, path)) == 0
                         then old(m.present) + {path} + m.cloneOf(repo, path) else old(m.present)
  {
    var a, b := Step(CloneCmd(repo, path), true), Step(CheckoutCmd(branch, path), true);
    assert [a, b] == [a] + [b];
    ExecutedAppend([a], [b], m.exitOf, |m.trace|);
    ok := m.RunStep(a);
    if ok {
      m.present := m.present + {path} + m.cloneOf(repo, path);
      ok := m.RunStep(b);
    }
  }

  /** The clone stage of `main`: each repository is cloned only when its path is absent. */
  method CloneRepos(m: Machine, w: Workspaces) returns (ok: bool)
    modifies m`trace, m`present
    ensures m.trace == old(m.trace) + Executed(ClonePlan(w, old(m.present), m.cloneOf), m.exitOf, |old(m.trace)|)
    ensures ok == !Aborts(ClonePlan(w, old(m.present), m.cloneOf), m.exitOf, |old(m.trace)|)
    ensures m.present == ClonedPresent(w, old(m.present), m.cloneOf, m.exitOf, |old(m.trace)|)
  {
    ghost var t0 := |m.trace|;
    ghost var p0 := m.present;
    ghost var a := if w.terramatePath in p0 then [] else [Step(CloneCmd(w.terramateRepo, w.terramatePath), true)];
    ghost var b := if w.ansibleRoot in AfterClone(p0, w.terramateRepo, w.terramatePath, m.cloneOf) then []
      else [Step(CloneCmd(w.ansibleRepo, w.ansibleRoot), true), Step(CheckoutCmd(w.branch, w.ansibleRoot), true)];
    assert ClonePlan(w, p0, m.cloneOf) == a + b;
    ExecutedAppend(a, b, m.exitOf, t0);
    ok := true;
    if w.terramatePath !in m.present {
      ok := CloneTerramate(m, w.terramateRepo, w.terramatePath);
    }
    if ok && w.ansibleRoot !in m.present {
      ok := CloneAnsible(m, w.ansibleRepo, w.ansibleRoot, w.branch);
    }
  }

  // ---------------------------------------------------------------------------------------
  // Closing sounds
  // ---------------------------------------------------------------------------------------

  function PlayCmd(freq: nat): Cmd {
    Cmd(["play", "-q", "-n", "synth", "0.1", "sin", NatToString(freq)], None)
  }

  /** One unchecked `play` per frequency, when `play` is on the path. */
  function SoundPlan(hasPlay: bool, freqs: seq<nat>): (r: seq<Step>)
    ensures forall i :: 0 <= i < |r| ==> !r[i].checked
  {
    if hasPlay then seq(|freqs|, i requires 0 <= i < |freqs| => Step(PlayCmd(freqs[i]), false)) else []
  }

  /** The sounds never end the run, so whether a pipeline raised is decided before them. */
  lemma SoundsNeverAbort(before: seq<Step>, hasPlay: bool, freqs: seq<nat>, exitOf: ExitOracle, t: nat)
    ensures Aborts(before + SoundPlan(hasPlay, freqs), exitOf, t) == Aborts(before, exitOf, t)
  {
    UncheckedNeverAborts(SoundPlan(hasPlay, freqs), exitOf, t + |before|);
    AbortsAppend(before, SoundPlan(hasPlay, freqs), exitOf, t);
  }

  /** The `for freq in ...: run(["play", ...], check=False)` loop. */
  method PlaySounds(m: Machine, hasPlay: bool, freqs: seq<nat>)
    modifies m`trace
    ensures m.trace == old(m.trace) + Commands(SoundPlan(hasPlay, freqs))
  {
    if hasPlay {
      var i := 0;
      while i < |freqs|
        invariant 0 <= i <= |freqs|
        invariant m.trace == old(m.trace) + Commands(SoundPlan(hasPlay, freqs)[..i])
      {
        var _, _ := m.Run(PlayCmd(freqs[i]), false);
        assert SoundPlan(hasPlay, freqs)[..i + 1] == SoundPlan(hasPlay, freqs)[..i] + [Step(PlayCmd(freqs[i]), false)];
        i := i + 1;
      }
      assert SoundPlan(hasPlay, freqs)[..i] == SoundPlan(hasPlay, freqs);
    }
  }

  /** Since no sound raises, every sound command runs. */
  lemma SoundsAllRun(hasPlay: bool, freqs: seq<nat>, exitOf: ExitOracle, t: nat)
    ensures Executed(SoundPlan(hasPlay, freqs), exitOf, t) == Commands(SoundPlan(hasPlay, freqs))
  {
    UncheckedNeverAborts(SoundPlan(hasPlay, freqs), exitOf, t);
    ExecutedPrefix(SoundPlan(hasPlay, freqs), exitOf, t);
  }
}
