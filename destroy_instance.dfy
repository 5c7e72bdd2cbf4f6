/** The destroy pipeline (`destroy-test-instance.py`): check the prefix and the Cloudflare
    token, clone the two repositories, destroy the host's Terraform stack and delete its
    directory, remove the host from the Ansible inventory and email map with `yq`, in that
    order, stopping at the first checked command that fails. */
module DestroyInstance {
  import opened Common
  import opened Text
  import opened Shell
  import opened Lifecycle

  const DestroySounds: seq<nat> := [1100, 990, 880]

  // ---------------------------------------------------------------------------------------
  // Prefix check
  // ---------------------------------------------------------------------------------------

  /** `prefix.replace('_', '').replace('-', '')`. */
  function Unseparated(prefix: string): string {
    ReplaceAll(ReplaceAll(prefix, "_", ""), "-", "")
  }

  /** The check at the top of `main`: without its underscores and dashes the prefix is a
      non-empty run of letters and digits. */
  predicate ValidPrefix(prefix: string) {
    IsAlnumString(Unseparated(prefix))
  }

  predicate PrefixChar(c: char) {
    IsAlnum(c) || c == '_' || c == '-'
  }

  /** A prefix passes exactly when it is made of letters, digits, underscores and dashes and
      holds at least one letter or digit (`"_-"` alone is refused). */
  lemma ValidPrefixIff(prefix: string)
    ensures ValidPrefix(prefix)
        <==> (forall c :: c in prefix ==> PrefixChar(c)) && (exists c :: c in prefix && IsAlnum(c))
  {
    var once := ReplaceAll(prefix, "_", "");
    RemoveCharMembers(prefix, '_');
    RemoveCharMembers(once, '-');
    assert "_" == ['_'] && "-" == ['-'];
    var u := Unseparated(prefix);
    assert forall x :: x in u <==> x in prefix && x != '_' && x != '-';
    if ValidPrefix(prefix) {
      assert u[0] in u;
    }
    if (exists c :: c in prefix && IsAlnum(c)) {
      var c :| c in prefix && IsAlnum(c);
      assert c in u;
    }
  }

  /** A prefix that passes cannot break out of the quoted key in the `yq` expressions nor out
      of the stack directory: its hostname holds no quote and no slash. */
  lemma ValidPrefixSafe(prefix: string)
    requires ValidPrefix(prefix)
    ensures '"' !in Hostname(prefix) && '/' !in Hostname(prefix)
  {
    ValidPrefixIff(prefix);
    assert '"' !in Domain && '/' !in Domain;
  }

  // ---------------------------------------------------------------------------------------
  // Stack stage
  // ---------------------------------------------------------------------------------------

  /** `terraform init` and `terraform destroy -auto-approve` in the stack directory. */
  function TeardownPlan(stack: string): seq<Step> {
    [ Step(Cmd(["terraform", "init"], Some(stack)), true),
      Step(Cmd(["terraform", "destroy", "-auto-approve"], Some(stack)), true) ]
  }

  /** Commit the stack's removal (a failing commit is tolerated) and push it. */
  function RemovalCommitPlan(terramatePath: string, hostname: string): seq<Step> {
    [ Step(Cmd(["git", "add", "."], Some(terramatePath)), true),
      Step(Cmd(["git", "commit", "-m", "Destroy test instance " + hostname + " (remove stack)"], Some(terramatePath)), false),
      Step(Cmd(["git", "push", "origin", "main"], Some(terramatePath)), true) ]
  }

  /** The stack stage's commands: none when the stack directory is absent. */
  function DestroyStackPlan(terramatePath: string, hostname: string, present: set<string>): seq<Step> {
    var stack := StackPath(terramatePath, hostname);
    if stack in present then TeardownPlan(stack) + RemovalCommitPlan(terramatePath, hostname) else []
  }

  /** The paths left after `shutil.rmtree(dir)`. */
  function RemoveTree(present: set<string>, dir: string): set<string> {
    set p | p in present && !Under(p, dir)
  }

  /** The tree removal takes the stack directory and everything below it and leaves the rest,
      the Terramate clone itself included. */
  lemma RemoveTreeKeepsClone(terramatePath: string, hostname: string, present: set<string>)
    ensures StackPath(terramatePath, hostname) !in RemoveTree(present, StackPath(terramatePath, hostname))
    ensures terramatePath in present ==> terramatePath in RemoveTree(present, StackPath(terramatePath, hostname))
    ensures RemoveTree(present, StackPath(terramatePath, hostname)) <= present
  {
    var stack := StackPath(terramatePath, hostname);
    assert !StartsWith(terramatePath, stack + "/");
  }

  /** The stack directory was there and `terraform init` and `destroy` succeeded from command
      index `t`: the directory is then deleted, whatever the commit and push after it do. */
  predicate TornDown(terramatePath: string, hostname: string, present: set<string>, exitOf: ExitOracle, t: nat) {
    var stack := StackPath(terramatePath, hostname);
    stack in present && !Aborts(TeardownPlan(stack), exitOf, t)
  }

  /** The paths after the stack stage from command index `t`. */
  function DestroyedPresent(terramatePath: string, hostname: string, present: set<string>, exitOf: ExitOracle, t: nat): set<string> {
    if TornDown(terramatePath, hostname, present, exitOf, t) then RemoveTree(present, StackPath(terramatePath, hostname))
    else present
  }

  /** The file contents after the stack stage from command index `t`. */
  function DestroyedFiles(terramatePath: string, hostname: string, present: set<string>, files: map<string, string>,
                          exitOf: ExitOracle, t: nat): map<string, string> {
    var stack := StackPath(terramatePath, hostname);
    if TornDown(terramatePath, hostname, present, exitOf, t) then map p | p in files && !Under(p, stack) :: files[p]
    else files
  }

  /** `destroy_terraform_stack`: with the stack directory absent it runs nothing and returns
      `False`; otherwise init and destroy, delete the directory, commit and push, and return
      `True`. `destroyed` is `False` on the exception path, where the function returns nothing. */
  method DestroyStack(m: Machine, terramatePath: string, hostname: string) returns (ok: bool, destroyed: bool)
    modifies m`trace, m`present, m`files
    ensures var plan := DestroyStackPlan(terramatePath, hostname, old(m.present));
      m.trace == old(m.trace) + Executed(plan, m.exitOf, |old(m.trace)|)
      && ok == !Aborts(plan, m.exitOf, |old(m.trace)|)
    ensures destroyed <==> ok && StackPath(terramatePath, hostname) in old(m.present)
    ensures m.present == DestroyedPresent(terramatePath, hostname, old(m.present), m.exitOf, |old(m.trace)|)
    ensures m.files == DestroyedFiles(terramatePath, hostname, old(m.present), old(m.files), m.exitOf, |old(m.trace)|)
  {
    var stack := StackPath(terramatePath, hostname);
    if stack !in m.present {
      return true, false;
    }
    ghost var tr0 := m.trace;
    var teardown := TeardownPlan(stack);
    var commit := RemovalCommitPlan(terramatePath, hostname);
    ok := m.RunPlan(teardown);
    if !ok {
      Halt(tr0, teardown, commit, m.exitOf);
      return false, false;
    }
    Advance(tr0, teardown, commit, m.exitOf);
    m.present := RemoveTree(m.present, stack);
    m.files := map p | p in m.files && !Under(p, stack) :: m.files[p];
    ok := m.RunPlan(commit);
    destroyed := ok;
  }

  // ---------------------------------------------------------------------------------------
  // Inventory and email removal
  // ---------------------------------------------------------------------------------------

  /** `yq eval '<key> | has("<hostname>")' <file>`, run directly with `check=False`. */
  function YqHasCmd(key: string, hostname: string, file: string): Cmd {
    Cmd(["yq", "eval", key + " | has(\"" + hostname + "\")", file], None)
  }

  /** `yq eval 'del(<key>."<hostname>")' -i <file>`, a checked `run`. */
  function YqDelCmd(key: string, hostname: string, file: string): Cmd {
    Cmd(["yq", "eval", "del(" + key + ".\"" + hostname + "\")", "-i", file], None)
  }

  /** The query printed `true`: it succeeded and the host is a key of the mapping. A failing
      query prints nothing, which reads as "not found". */
  predicate Found(keys: Option<set<string>>, key: string, hostname: string, file: string, exitOf: ExitOracle, t: nat) {
    keys.Some? && hostname in keys.value && exitOf(t, YqHasCmd(key, hostname, file)) == 0
  }

  /** The commands of one removal: nothing when the file is missing (`None`), else the query,
      and the deletion when the query found the host. */
  function RemovalPlan(key: string, file: string, keys: Option<set<string>>, hostname: string,
                       exitOf: ExitOracle, t: nat): seq<Step> {
    if keys.None? then []
    else [Step(YqHasCmd(key, hostname, file), false)]
         + (if Found(keys, key, hostname, file, exitOf, t) then [Step(YqDelCmd(key, hostname, file), true)] else [])
  }

  /** The file's keys after a removal that did not raise. */
  function AfterRemoval(keys: Option<set<string>>, key: string, file: string, hostname: string,
                        exitOf: ExitOracle, t: nat): Option<set<string>> {
    if Found(keys, key, hostname, file, exitOf, t) then Some(keys.value - {hostname}) else keys
  }

  /** A removal takes out the host and nothing else, and whenever the query itself succeeds
      the host is gone afterwards; a missing file stays missing. */
  lemma RemovalEffect(keys: Option<set<string>>, key: string, file: string, hostname: string,
                      exitOf: ExitOracle, t: nat)
    ensures AfterRemoval(keys, key, file, hostname, exitOf, t).Some? == keys.Some?
    ensures keys.Some? ==> keys.value - {hostname} <= AfterRemoval(keys, key, file, hostname, exitOf, t).value <= keys.value
    ensures keys.Some? && exitOf(t, YqHasCmd(key, hostname, file)) == 0
      ==> hostname !in AfterRemoval(keys, key, file, hostname, exitOf, t).value
  {
  }

  /** `remove_host_from_inventory` and `remove_email_for_host`, which differ only in the key
      and the file: reports whether the host was removed, and the file's keys afterwards. */
  method YqRemove(m: Machine, key: string, file: string, keys: Option<set<string>>, hostname: string)
    returns (ok: bool, removed: bool, after: Option<set<string>>)
    modifies m`trace
    ensures var plan := RemovalPlan(key, file, keys, hostname, m.exitOf, |old(m.trace)|);
      m.trace == old(m.trace) + Executed(plan, m.exitOf, |old(m.trace)|)
      && ok == !Aborts(plan, m.exitOf, |old(m.trace)|)
    ensures removed <==> ok && Found(keys, key, hostname, file, m.exitOf, |old(m.trace)|)
    ensures after == if ok then AfterRemoval(keys, key, file, hostname, m.exitOf, |old(m.trace)|) else keys
  {
    if keys.None? {
      return true, false, keys;
    }
    ghost var tr0 := m.trace;
    var query := Step(YqHasCmd(key, hostname, file), false);
    var del := Step(YqDelCmd(key, hostname, file), true);
    var code, _ := m.Run(query.cmd, false);
    if !(code == 0 && hostname in keys.value) {
      assert [query][1..] == [];
      assert [query] + [] == [query];
      return true, false, keys;
    }
    assert [query, del] == [query] + [del];
    Advance(tr0, [query], [del], m.exitOf);
    assert [query][1..] == [];
    ok := m.RunStep(del);
    removed := ok;
    after := if ok then Some(keys.value - {hostname}) else keys;
  }

  /** The commit and push after a removal. */
  function RemoveCommitPlan(root: string, hostname: string): seq<Step> {
    [ Step(Cmd(["git", "add", InventoryFile(root), EmailsFile(root)], Some(root)), true),
      Step(Cmd(["git", "commit", "-m", "Remove " + hostname + " from host_emails in emails.yml and inventory.yml"], Some(root)), false),
      Step(Cmd(["git", "push", "origin", "simple"], Some(root)), true) ]
  }

  const InventoryKey := ".all.hosts"
  const EmailsKey := ".host_emails"

  /** The commit stage of `remove_host`: it runs only when either removal found the host. */
  function CommitIf(root: string, hosts: Option<set<string>>, emails: Option<set<string>>, hostname: string,
                    exitOf: ExitOracle, t: nat, u: nat): seq<Step> {
    if Found(hosts, InventoryKey, hostname, InventoryFile(root), exitOf, t)
       || Found(emails, EmailsKey, hostname, EmailsFile(root), exitOf, u)
    then RemoveCommitPlan(root, hostname) else []
  }

  /** All of `remove_host`'s commands, from command index `t`: the inventory removal, the
      email removal, and the commit only when either removed something. */
  function RemoveHostPlan(root: string, hosts: Option<set<string>>, emails: Option<set<string>>, hostname: string,
                          exitOf: ExitOracle, t: nat): seq<Step> {
    var p1 := RemovalPlan(InventoryKey, InventoryFile(root), hosts, hostname, exitOf, t);
    var t1 := t + |p1|;
    p1 + (RemovalPlan(EmailsKey, EmailsFile(root), emails, hostname, exitOf, t1) + CommitIf(root, hosts, emails, hostname, exitOf, t, t1))
  }

  /** `remove_host`'s plan is the inventory removal, then the email removal starting where the
      first one's commands end, then the commit stage; the email file's keys afterwards are
      those of the email removal started there. */
  lemma RemoveHostSplit(root: string, hosts: Option<set<string>>, emails: Option<set<string>>, hostname: string,
                        exitOf: ExitOracle, t: nat, u: nat)
    requires u == t + |RemovalPlan(InventoryKey, InventoryFile(root), hosts, hostname, exitOf, t)|
    ensures RemoveHostPlan(root, hosts, emails, hostname, exitOf, t)
      == RemovalPlan(InventoryKey, InventoryFile(root), hosts, hostname, exitOf, t)
         + (RemovalPlan(EmailsKey, EmailsFile(root), emails, hostname, exitOf, u)
            + CommitIf(root, hosts, emails, hostname, exitOf, t, u))
    ensures EmailHostsAfter(root, hosts, emails, hostname, exitOf, t)
      == if Aborts(RemovalPlan(InventoryKey, InventoryFile(root), hosts, hostname, exitOf, t), exitOf, t)
            || Aborts(RemovalPlan(EmailsKey, EmailsFile(root), emails, hostname, exitOf, u), exitOf, u)
         then emails
         else AfterRemoval(emails, EmailsKey, EmailsFile(root), hostname, exitOf, u)
  {
  }

  /** Nothing is committed when the host was in neither file. */
  lemma NoChangeNoCommit(root: string, hosts: Option<set<string>>, emails: Option<set<string>>, hostname: string,
                         exitOf: ExitOracle, t: nat)
    requires hosts.Some? ==> hostname !in hosts.value
    requires emails.Some? ==> hostname !in emails.value
    ensures |RemoveHostPlan(root, hosts, emails, hostname, exitOf, t)|
         == (if hosts.Some? then 1 else 0) + (if emails.Some? then 1 else 0)
    ensures !Aborts(RemoveHostPlan(root, hosts, emails, hostname, exitOf, t), exitOf, t)
  {
    var plan := RemoveHostPlan(root, hosts, emails, hostname, exitOf, t);
    assert forall i :: 0 <= i < |plan| ==> !plan[i].checked;
    UncheckedNeverAborts(plan, exitOf, t);
  }

  /** The inventory's keys after `remove_host` from command index `t`: the inventory removal's
      result, or the keys as they were when that removal raised. */
  function HostsAfter(root: string, hosts: Option<set<string>>, hostname: string, exitOf: ExitOracle, t: nat): Option<set<string>> {
    if Aborts(RemovalPlan(InventoryKey, InventoryFile(root), hosts, hostname, exitOf, t), exitOf, t) then hosts
    else AfterRemoval(hosts, InventoryKey, InventoryFile(root), hostname, exitOf, t)
  }

  /** The email file's keys after `remove_host` from command index `t`: untouched when either
      removal raised, the email removal's result otherwise. */
  function EmailHostsAfter(root: string, hosts: Option<set<string>>, emails: Option<set<string>>, hostname: string,
                           exitOf: ExitOracle, t: nat): Option<set<string>> {
    var plan1 := RemovalPlan(InventoryKey, InventoryFile(root), hosts, hostname, exitOf, t);
    var u := t + |plan1|;
    if Aborts(plan1, exitOf, t) || Aborts(RemovalPlan(EmailsKey, EmailsFile(root), emails, hostname, exitOf, u), exitOf, u)
    then emails
    else AfterRemoval(emails, EmailsKey, EmailsFile(root), hostname, exitOf, u)
  }

  /** `remove_host` takes out the host and nothing else from either file, on every path, and
      a missing file stays missing. */
  lemma RemoveHostOnlyRemovesHost(root: string, hosts: Option<set<string>>, emails: Option<set<string>>, hostname: string,
                                  exitOf: ExitOracle, t: nat)
    ensures var h := HostsAfter(root, hosts, hostname, exitOf, t);
      h.Some? == hosts.Some? && (hosts.Some? ==> hosts.value - {hostname} <= h.value <= hosts.value)
    ensures var e := EmailHostsAfter(root, hosts, emails, hostname, exitOf, t);
      e.Some? == emails.Some? && (emails.Some? ==> emails.value - {hostname} <= e.value <= emails.value)
  {
    var u := t + |RemovalPlan(InventoryKey, InventoryFile(root), hosts, hostname, exitOf, t)|;
    RemovalEffect(hosts, InventoryKey, InventoryFile(root), hostname, exitOf, t);
    RemovalEffect(emails, EmailsKey, EmailsFile(root), hostname, exitOf, u);
  }

  /** The inventory and email files of an Ansible clone, each seen as the set of host keys
      under its mapping (`None`: the file does not exist). */
  class InventoryManager {
    const root: string
    var inventoryHosts: Option<set<string>>
    var emailHosts: Option<set<string>>

    constructor (root: string, inventoryHosts: Option<set<string>>, emailHosts: Option<set<string>>)
      ensures this.root == root && this.inventoryHosts == inventoryHosts && this.emailHosts == emailHosts
    {
      this.root := root;
      this.inventoryHosts := inventoryHosts;
      this.emailHosts := emailHosts;
    }

    /** `remove_host_from_inventory`. */
    method RemoveHostFromInventory(m: Machine, hostname: string) returns (ok: bool, removed: bool)
      modifies m`trace, this`inventoryHosts
      ensures var plan := RemovalPlan(InventoryKey, InventoryFile(root), old(inventoryHosts), hostname, m.exitOf, |old(m.trace)|);
        m.trace == old(m.trace) + Executed(plan, m.exitOf, |old(m.trace)|)
        && ok == !Aborts(plan, m.exitOf, |old(m.trace)|)
      ensures removed <==> ok && Found(old(inventoryHosts), InventoryKey, hostname, InventoryFile(root), m.exitOf, |old(m.trace)|)
      ensures inventoryHosts == if ok then AfterRemoval(old(inventoryHosts), InventoryKey, InventoryFile(root), hostname, m.exitOf, |old(m.trace)|)
                                else old(inventoryHosts)
    {
      ok, removed, inventoryHosts := YqRemove(m, InventoryKey, InventoryFile(root), inventoryHosts, hostname);
    }

    /** `remove_email_for_host`. */
    method RemoveEmailForHost(m: Machine, hostname: string) returns (ok: bool, removed: bool)
      modifies m`trace, this`emailHosts
      ensures var plan := RemovalPlan(EmailsKey, EmailsFile(root), old(emailHosts), hostname, m.exitOf, |old(m.trace)|);
        m.trace == old(m.trace) + Executed(plan, m.exitOf, |old(m.trace)|)
        && ok == !Aborts(plan, m.exitOf, |old(m.trace)|)
      ensures removed <==> ok && Found(old(emailHosts), EmailsKey, hostname, EmailsFile(root), m.exitOf, |old(m.trace)|)
      ensures emailHosts == if ok then AfterRemoval(old(emailHosts), EmailsKey, EmailsFile(root), hostname, m.exitOf, |old(m.trace)|)
                            else old(emailHosts)
    {
      ok, removed, emailHosts := YqRemove(m, EmailsKey, EmailsFile(root), emailHosts, hostname);
    }

    /** `remove_host`: both removals, then `git add`, commit (unchecked) and push only when
        either removed something. */
    method RemoveHost(m: Machine, hostname: string) returns (ok: bool)
      modifies m`trace, this`inventoryHosts, this`emailHosts
      ensures var plan := RemoveHostPlan(root, old(inventoryHosts), old(emailHosts), hostname, m.exitOf, |old(m.trace)|);
        m.trace == old(m.trace) + Executed(plan, m.exitOf, |old(m.trace)|)
        && ok == !Aborts(plan, m.exitOf, |old(m.trace)|)
      ensures ok ==> (inventoryHosts
        == AfterRemoval(old(inventoryHosts), InventoryKey, InventoryFile(root), hostname, m.exitOf, |old(m.trace)|))
      ensures ok ==> (emailHosts
        == AfterRemoval(old(emailHosts), EmailsKey, EmailsFile(root), hostname, m.exitOf,
                        |old(m.trace)| + |RemovalPlan(InventoryKey, InventoryFile(root), old(inventoryHosts), hostname, m.exitOf, |old(m.trace)|)|))
      ensures inventoryHosts == HostsAfter(root, old(inventoryHosts), hostname, m.exitOf, |old(m.trace)|)
      ensures emailHosts == EmailHostsAfter(root, old(inventoryHosts), old(emailHosts), hostname, m.exitOf, |old(m.trace)|)
    {
      ghost var tr0, hosts, emails := m.trace, inventoryHosts, emailHosts;
      ghost var plan1 := RemovalPlan(InventoryKey, InventoryFile(root), hosts, hostname, m.exitOf, |tr0|);
      var ok1, removed1 := RemoveHostFromInventory(m, hostname);
      if !ok1 {
        ghost var u := |tr0| + |plan1|;
        RemoveHostSplit(root, hosts, emails, hostname, m.exitOf, |tr0|, u);
        Halt(tr0, plan1, RemovalPlan(EmailsKey, EmailsFile(root), emails, hostname, m.exitOf, u)
                         + CommitIf(root, hosts, emails, hostname, m.exitOf, |tr0|, u), m.exitOf);
        return false;
      }
      ExecutedLength(plan1, m.exitOf, |tr0|);
      ghost var tr1 := m.trace;
      RemoveHostSplit(root, hosts, emails, hostname, m.exitOf, |tr0|, |tr1|);
      ghost var plan2 := RemovalPlan(EmailsKey, EmailsFile(root), emails, hostname, m.exitOf, |tr1|);
      ghost var commit := CommitIf(root, hosts, emails, hostname, m.exitOf, |tr0|, |tr1|);
      var ok2, removed2 := RemoveEmailForHost(m, hostname);
      if !ok2 {
        Halt(tr1, plan2, commit, m.exitOf);
        ok := false;
      } else {
        ghost var tr2 := m.trace;
        if removed1 || removed2 {
          ok := m.RunPlan(RemoveCommitPlan(root, hostname));
        } else {
          assert m.trace + [] == m.trace;
          ok := true;
        }
        Then(tr1, tr2, m.trace, plan2, commit, m.exitOf, ok);
      }
      Then(tr0, tr1, m.trace, plan1, plan2 + commit, m.exitOf, ok);
    }
  }

  // ---------------------------------------------------------------------------------------
  // main
  // ---------------------------------------------------------------------------------------

  /** The clone stage and the stack stage. */
  function InfraDownPlan(w: Workspaces, hostname: string, present: set<string>, cloneOf: CloneOracle): seq<Step> {
    ClonePlan(w, present, cloneOf) + DestroyStackPlan(w.terramatePath, hostname, AfterClones(w, present, cloneOf))
  }

  /** Every command `main` may run once both checks pass, from command index `t`, given the
      paths present and the two files' keys at the start. */
  function DecommissionPlan(w: Workspaces, hostname: string, present: set<string>, cloneOf: CloneOracle,
                            hosts: Option<set<string>>, emails: Option<set<string>>, hasPlay: bool,
                            exitOf: ExitOracle, t: nat): seq<Step> {
    var infra := InfraDownPlan(w, hostname, present, cloneOf);
    infra + CleanupPlan(w.ansibleRoot, hosts, emails, hostname, hasPlay, exitOf, t + |infra|)
  }

  /** The whole plan is the infrastructure stage followed by the clean-up, which starts at the
      command index where the infrastructure stage's commands end. */
  lemma DecommissionSplit(w: Workspaces, hostname: string, present: set<string>, cloneOf: CloneOracle,
                          hosts: Option<set<string>>, emails: Option<set<string>>, hasPlay: bool,
                          exitOf: ExitOracle, t: nat, u: nat)
    requires u == t + |InfraDownPlan(w, hostname, present, cloneOf)|
    ensures DecommissionPlan(w, hostname, present, cloneOf, hosts, emails, hasPlay, exitOf, t)
      == InfraDownPlan(w, hostname, present, cloneOf) + CleanupPlan(w.ansibleRoot, hosts, emails, hostname, hasPlay, exitOf, u)
  {
  }

  /** Step 3 and the closing sounds, from command index `t`. */
  function CleanupPlan(root: string, hosts: Option<set<string>>, emails: Option<set<string>>, hostname: string,
                       hasPlay: bool, exitOf: ExitOracle, t: nat): seq<Step> {
    RemoveHostPlan(root, hosts, emails, hostname, exitOf, t) + SoundPlan(hasPlay, DestroySounds)
  }

  /** A missing stack does not stop the pipeline: the stack stage then runs nothing and the
      host is still removed from the inventory. */
  lemma AbsentStackSkipped(w: Workspaces, hostname: string, present: set<string>, cloneOf: CloneOracle)
    requires StackPath(w.terramatePath, hostname) !in AfterClones(w, present, cloneOf)
    ensures InfraDownPlan(w, hostname, present, cloneOf) == ClonePlan(w, present, cloneOf)
  {
    assert ClonePlan(w, present, cloneOf) + [] == ClonePlan(w, present, cloneOf);
  }

  /** The paths after the clone and stack stages from command index `t`. */
  function InfraDownPresent(w: Workspaces, hostname: string, present: set<string>, cloneOf: CloneOracle,
                            exitOf: ExitOracle, t: nat): set<string> {
    var clone := ClonePlan(w, present, cloneOf);
    if Aborts(clone, exitOf, t) then ClonedPresent(w, present, cloneOf, exitOf, t)
    else DestroyedPresent(w.terramatePath, hostname, AfterClones(w, present, cloneOf), exitOf, t + |clone|)
  }

  /** The file contents after the clone and stack stages from command index `t`. */
  function InfraDownFiles(w: Workspaces, hostname: string, present: set<string>, files: map<string, string>,
                          cloneOf: CloneOracle, exitOf: ExitOracle, t: nat): map<string, string> {
    var clone := ClonePlan(w, present, cloneOf);
    if Aborts(clone, exitOf, t) then files
    else DestroyedFiles(w.terramatePath, hostname, AfterClones(w, present, cloneOf), files, exitOf, t + |clone|)
  }

  /** When the clone and stack stages succeed, the stack directory is gone, no file below a
      stack directory that was there is left, and the Terramate clone is still there. */
  lemma InfraDownRemovesStack(w: Workspaces, hostname: string, present: set<string>, files: map<string, string>,
                              cloneOf: CloneOracle, exitOf: ExitOracle, t: nat)
    ensures var stack := StackPath(w.terramatePath, hostname);
      var after := InfraDownPresent(w, hostname, present, cloneOf, exitOf, t);
      var left := InfraDownFiles(w, hostname, present, files, cloneOf, exitOf, t);
      !Aborts(InfraDownPlan(w, hostname, present, cloneOf), exitOf, t) ==>
        stack !in after && w.terramatePath in after
        && (stack in AfterClones(w, present, cloneOf) ==> forall p :: p in left ==> !Under(p, stack))
  {
    var clone := ClonePlan(w, present, cloneOf);
    var cloned := AfterClones(w, present, cloneOf);
    var stack := StackPath(w.terramatePath, hostname);
    if !Aborts(InfraDownPlan(w, hostname, present, cloneOf), exitOf, t) {
      AbortsAppend(clone, DestroyStackPlan(w.terramatePath, hostname, cloned), exitOf, t);
      if stack in cloned {
        AbortsAppend(TeardownPlan(stack), RemovalCommitPlan(w.terramatePath, hostname), exitOf, t + |clone|);
      }
      RemoveTreeKeepsClone(w.terramatePath, hostname, cloned);
      ClonesPresent(w, present, cloneOf);
    }
  }

  /** Steps 1 and 2 of `main`: clone what is missing, then destroy the stack. */
  method InfraDown(m: Machine, w: Workspaces, hostname: string) returns (ok: bool)
    modifies m`trace, m`present, m`files
    ensures m.trace == old(m.trace) + Executed(InfraDownPlan(w, hostname, old(m.present), m.cloneOf), m.exitOf, |old(m.trace)|)
    ensures ok == !Aborts(InfraDownPlan(w, hostname, old(m.present), m.cloneOf), m.exitOf, |old(m.trace)|)
    ensures m.present == InfraDownPresent(w, hostname, old(m.present), m.cloneOf, m.exitOf, |old(m.trace)|)
    ensures m.files == InfraDownFiles(w, hostname, old(m.present), old(m.files), m.cloneOf, m.exitOf, |old(m.trace)|)
  {
    ghost var tr0, present0 := m.trace, m.present;
    ghost var clone := ClonePlan(w, m.present, m.cloneOf);
    ghost var destroy := DestroyStackPlan(w.terramatePath, hostname, AfterClones(w, m.present, m.cloneOf));
    ok := CloneRepos(m, w);
    if !ok {
      Halt(tr0, clone, destroy, m.exitOf);
      return;
    }
    Advance(tr0, clone, destroy, m.exitOf);
    ExecutedLength(clone, m.exitOf, |tr0|);
    ClonedPresentFacts(w, present0, m.cloneOf, m.exitOf, |tr0|);
    var destroyed;
    ok, destroyed := DestroyStack(m, w.terramatePath, hostname);
  }

  /** Step 3 of `main` and the closing sounds. */
  method CleanInventory(m: Machine, inv: InventoryManager, hostname: string, hasPlay: bool) returns (ok: bool)
    modifies m`trace, inv`inventoryHosts, inv`emailHosts
    ensures var plan := CleanupPlan(inv.root, old(inv.inventoryHosts), old(inv.emailHosts), hostname, hasPlay, m.exitOf, |old(m.trace)|);
      m.trace == old(m.trace) + Executed(plan, m.exitOf, |old(m.trace)|)
      && ok == !Aborts(plan, m.exitOf, |old(m.trace)|)
    ensures inv.inventoryHosts == HostsAfter(inv.root, old(inv.inventoryHosts), hostname, m.exitOf, |old(m.trace)|)
    ensures inv.emailHosts == EmailHostsAfter(inv.root, old(inv.inventoryHosts), old(inv.emailHosts), hostname, m.exitOf, |old(m.trace)|)
  {
    ghost var tr0 := m.trace;
    ghost var remove := RemoveHostPlan(inv.root, inv.inventoryHosts, inv.emailHosts, hostname, m.exitOf, |tr0|);
    ghost var sounds := SoundPlan(hasPlay, DestroySounds);
    ok := inv.RemoveHost(m, hostname);
    if !ok {
      Halt(tr0, remove, sounds, m.exitOf);
      return;
    }
    Advance(tr0, remove, sounds, m.exitOf);
    ghost var tr1 := m.trace;
    PlaySounds(m, hasPlay, DestroySounds);
    SoundsAllRun(hasPlay, DestroySounds, m.exitOf, |tr1|);
    UncheckedNeverAborts(sounds, m.exitOf, |tr1|);
  }

  /** Steps 1 to 3 of `main` and the closing sounds. */
  method TearDown(m: Machine, inv: InventoryManager, w: Workspaces, hostname: string, hasPlay: bool) returns (ok: bool)
    requires inv.root == w.ansibleRoot
    modifies m`trace, m`present, m`files, inv`inventoryHosts, inv`emailHosts
    ensures var plan := DecommissionPlan(w, hostname, old(m.present), m.cloneOf, old(inv.inventoryHosts),
                                         old(inv.emailHosts), hasPlay, m.exitOf, |old(m.trace)|);
      m.trace == old(m.trace) + Executed(plan, m.exitOf, |old(m.trace)|)
      && ok == !Aborts(plan, m.exitOf, |old(m.trace)|)
    ensures m.present == InfraDownPresent(w, hostname, old(m.present), m.cloneOf, m.exitOf, |old(m.trace)|)
    ensures m.files == InfraDownFiles(w, hostname, old(m.present), old(m.files), m.cloneOf, m.exitOf, |old(m.trace)|)
    ensures Aborts(InfraDownPlan(w, hostname, old(m.present), m.cloneOf), m.exitOf, |old(m.trace)|) ==>
      inv.inventoryHosts == old(inv.inventoryHosts) && inv.emailHosts == old(inv.emailHosts)
    ensures var u := |old(m.trace)| + |InfraDownPlan(w, hostname, old(m.present), m.cloneOf)|;
      !Aborts(InfraDownPlan(w, hostname, old(m.present), m.cloneOf), m.exitOf, |old(m.trace)|) ==>
        inv.inventoryHosts == HostsAfter(w.ansibleRoot, old(inv.inventoryHosts), hostname, m.exitOf, u)
        && inv.emailHosts == EmailHostsAfter(w.ansibleRoot, old(inv.inventoryHosts), old(inv.emailHosts), hostname, m.exitOf, u)
  {
    ghost var tr0, present0 := m.trace, m.present;
    ghost var hosts, emails := inv.inventoryHosts, inv.emailHosts;
    ghost var infra := InfraDownPlan(w, hostname, m.present, m.cloneOf);
    ok := InfraDown(m, w, hostname);
    if !ok {
      DecommissionSplit(w, hostname, present0, m.cloneOf, hosts, emails, hasPlay, m.exitOf, |tr0|, |tr0| + |infra|);
      Halt(tr0, infra, CleanupPlan(w.ansibleRoot, hosts, emails, hostname, hasPlay, m.exitOf, |tr0| + |infra|), m.exitOf);
      return;
    }
    ExecutedLength(infra, m.exitOf, |tr0|);
    ghost var tr1 := m.trace;
    DecommissionSplit(w, hostname, present0, m.cloneOf, hosts, emails, hasPlay, m.exitOf, |tr0|, |tr1|);
    ok := CleanInventory(m, inv, hostname, hasPlay);
    Then(tr0, tr1, m.trace, infra, CleanupPlan(w.ansibleRoot, hosts, emails, hostname, hasPlay, m.exitOf, |tr1|), m.exitOf, ok);
  }

  /** `main`: an invalid prefix or a missing Cloudflare token exits 1 before anything runs or
      the log is opened; otherwise the log is opened unless in debug mode, the stages run in
      order, and any exception exits 1. */
  method Decommission(m: Machine, inv: InventoryManager, args: Args, env: map<string, string>, runId: string,
                      hasPlay: bool) returns (exitCode: int, logOpened: bool)
    requires inv.root == ResolveWorkspaces(env, args.prefix, runId).ansibleRoot
    modifies m`trace, m`present, m`files, inv`inventoryHosts, inv`emailHosts
    ensures !ValidPrefix(args.prefix) || !EnvSet(env, "CLOUDFLARE_API_TOKEN") ==>
      exitCode == 1 && !logOpened && m.trace == old(m.trace) && m.present == old(m.present) && m.files == old(m.files)
      && inv.inventoryHosts == old(inv.inventoryHosts) && inv.emailHosts == old(inv.emailHosts)
    ensures ValidPrefix(args.prefix) && EnvSet(env, "CLOUDFLARE_API_TOKEN") ==>
      var plan := DecommissionPlan(ResolveWorkspaces(env, args.prefix, runId), Hostname(args.prefix), old(m.present),
                                   m.cloneOf, old(inv.inventoryHosts), old(inv.emailHosts), hasPlay, m.exitOf, |old(m.trace)|);
      logOpened == !args.debug
      && m.trace == old(m.trace) + Executed(plan, m.exitOf, |old(m.trace)|)
      && exitCode == (if Aborts(plan, m.exitOf, |old(m.trace)|) then 1 else 0)
    ensures ValidPrefix(args.prefix) && EnvSet(env, "CLOUDFLARE_API_TOKEN") ==>
      var w := ResolveWorkspaces(env, args.prefix, runId);
      var infra := InfraDownPlan(w, Hostname(args.prefix), old(m.present), m.cloneOf);
      var u := |old(m.trace)| + |infra|;
      m.present == InfraDownPresent(w, Hostname(args.prefix), old(m.present), m.cloneOf, m.exitOf, |old(m.trace)|)
      && m.files == InfraDownFiles(w, Hostname(args.prefix), old(m.present), old(m.files), m.cloneOf, m.exitOf, |old(m.trace)|)
      && (if Aborts(infra, m.exitOf, |old(m.trace)|) then
            inv.inventoryHosts == old(inv.inventoryHosts) && inv.emailHosts == old(inv.emailHosts)
          else
            inv.inventoryHosts == HostsAfter(w.ansibleRoot, old(inv.inventoryHosts), Hostname(args.prefix), m.exitOf, u)
            && inv.emailHosts == EmailHostsAfter(w.ansibleRoot, old(inv.inventoryHosts), old(inv.emailHosts), Hostname(args.prefix), m.exitOf, u))
  {
    if !ValidPrefix(args.prefix) {
      return 1, false;
    }
    if !EnvSet(env, "CLOUDFLARE_API_TOKEN") {
      return 1, false;
    }
    logOpened := !args.debug;
    var w := ResolveWorkspaces(env, args.prefix, runId);
    var ok := TearDown(m, inv, w, Hostname(args.prefix), hasPlay);
    exitCode := if ok then 0 else 1;
  }
}
