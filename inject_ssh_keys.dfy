/** inject-ssh-keys: for every host of a CSV listing that is not excluded by a name pattern,
    tries each user in turn: pushes a temporary key with EC2 Instance Connect (or uses an
    existing key), appends the public key to the user's `authorized_keys` over SSH, and tests
    the new key; then reports how many hosts were excluded, processed and failed.

    The CSV rows are an input; every external command (the key-push script and each `ssh`) is
    answered by `run`, and the debug prompt's answers by `answerOf`. */
module InjectSshKeys {
  import opened Common
  import opened Text
  import opened Lists

  /** The name patterns excluded when `--exclude` is not given. */
  const DefaultExcludePatterns: seq<string> := ["prod", "production", "live", "bastionhost"]

  /** The users tried on every host, in order. */
  const DefaultUsers: seq<string> := ["ansiblecontrol"]

  // ---------------------------------------------------------------------------------------
  // Exclusion
  // ---------------------------------------------------------------------------------------

  /** The default `--exclude` string, `','.join(DEFAULT_EXCLUDE_PATTERNS)`, parses back to the
      default patterns. */
  lemma DefaultPatternsRoundTrip()
    ensures CommaParts(Join(DefaultExcludePatterns, ',')) == DefaultExcludePatterns
  {
    var d := DefaultExcludePatterns;
    forall i | 0 <= i < |d| ensures ',' !in d[i] {
    }
    SplitJoin(d, ',');
    forall i | 0 <= i < |d| ensures Strip(d[i]) == d[i] {
      StripStripped(d[i]);
    }
  }

  /** `should_exclude_host`: a missing (NaN) or `N/A` name is excluded; otherwise a name is
      excluded when some pattern occurs in it, ignoring case. */
  predicate Excluded(name: Option<string>, patterns: seq<string>) {
    name.None? || name.value == "N/A"
    || exists i :: 0 <= i < |patterns| && Contains(Lower(name.value), Lower(patterns[i]))
  }

  /** The pattern loop of `should_exclude_host`, returning at the first pattern found. */
  method ShouldExclude(name: Option<string>, patterns: seq<string>) returns (excluded: bool)
    ensures excluded == Excluded(name, patterns)
  {
    if name.None? || name.value == "N/A" {
      return true;
    }
    var nameLower := Lower(name.value);
    var k := 0;
    while k < |patterns|
      invariant 0 <= k <= |patterns|
      invariant forall j :: 0 <= j < k ==> !Contains(nameLower, Lower(patterns[j]))
    {
      if Contains(nameLower, Lower(patterns[k])) {
        return true;
      }
      k := k + 1;
    }
    return false;
  }

  /** An empty pattern (as `--exclude "a,,b"` or a trailing comma gives) excludes every host. */
  lemma EmptyPatternExcludesAll(name: Option<string>, patterns: seq<string>, i: int)
    requires 0 <= i < |patterns| && patterns[i] == []
    ensures Excluded(name, patterns)
  {
    if name.Some? {
      assert Lower(patterns[i]) == [];
      ContainsEmpty(Lower(name.value));
    }
  }

  // ---------------------------------------------------------------------------------------
  // Error messages
  // ---------------------------------------------------------------------------------------

  const Esc: char := '\U{001B}'

  /** A character of `[0-9;]`. */
  predicate IsCodeChar(c: char) {
    ('0' <= c <= '9') || c == ';'
  }

  /** The end of the run of `[0-9;]` characters starting at `i`. */
  function CodeEnd(s: string, i: nat): (j: nat)
    requires i <= |s|
    ensures i <= j <= |s| && (j < |s| ==> !IsCodeChar(s[j]))
    ensures forall k :: i <= k < j ==> IsCodeChar(s[k])
    decreases |s| - i
  {
    if i < |s| && IsCodeChar(s[i]) then CodeEnd(s, i + 1) else i
  }

  /** `s` starts with a colour code `ESC [ [0-9;]* m`. */
  predicate ColourAtStart(s: string) {
    2 <= |s| && s[0] == Esc && s[1] == '[' && CodeEnd(s, 2) < |s| && s[CodeEnd(s, 2)] == 'm'
  }

  /** `re.sub(r'\x1b\[[0-9;]*m', '', s)`: colour codes removed left to right. */
  function StripAnsi(s: string): (r: string)
    ensures |r| <= |s|
    decreases |s|
  {
    if s == [] then []
    else if ColourAtStart(s) then StripAnsi(s[CodeEnd(s, 2) + 1..])
    else [s[0]] + StripAnsi(s[1..])
  }

  /** Text without an escape character is left alone. */
  lemma {:induction false} StripAnsiPlain(s: string)
    requires Esc !in s
    ensures StripAnsi(s) == s
  {
    if s != [] {
      StripAnsiPlain(s[1..]);
      assert [s[0]] + s[1..] == s;
    }
  }

  /** Colouring plain text with a code and a reset is undone: the text comes back. */
  lemma ColouredText(code: string, t: string)
    requires forall k :: 0 <= k < |code| ==> IsCodeChar(code[k])
    requires Esc !in t
    ensures StripAnsi([Esc, '['] + code + "m" + t + [Esc, '['] + "0m") == t
  {
    var tail := [Esc, '['] + "0m";
    var rest := t + tail;
    var s := [Esc, '['] + code + "m" + t + tail;
    assert s == [Esc, '['] + code + ("m" + rest);
    forall k | 2 <= k < 2 + |code| ensures IsCodeChar(s[k]) {
      assert s[k] == code[k - 2];
    }
    assert s[2 + |code|] == 'm';
    CodeRun(s, 2, |code|);
    assert ColourAtStart(s);
    assert s[CodeEnd(s, 2) + 1..] == rest;
    assert StripAnsi(s) == StripAnsi(rest);
    AfterText(t, tail);
    assert s == [Esc, '['] + code + "m" + t + [Esc, '['] + "0m";
  }

  /** A code run of length `n` at `i` ends at `i + n` when a non-code character follows. */
  lemma {:induction false} CodeRun(s: string, i: nat, n: nat)
    requires i + n < |s| && !IsCodeChar(s[i + n])
    requires forall k :: i <= k < i + n ==> IsCodeChar(s[k])
    ensures CodeEnd(s, i) == i + n
    decreases n
  {
    if n > 0 {
      CodeRun(s, i + 1, n - 1);
    }
  }

  /** Plain text followed by a reset code loses only the code. */
  lemma {:induction false} AfterText(t: string, tail: string)
    requires Esc !in t && tail == [Esc, '['] + "0m"
    ensures StripAnsi(t + tail) == t
  {
    if t == [] {
      assert t + tail == tail;
      assert tail[2] == '0' && tail[3] == 'm';
      assert CodeEnd(tail, 3) == 3;
      assert CodeEnd(tail, 2) == 3;
      assert ColourAtStart(tail);
      assert tail[4..] == [];
    } else {
      AfterText(t[1..], tail);
      assert (t + tail)[1..] == t[1..] + tail;
      assert [t[0]] + t[1..] == t;
    }
  }

  /** A known error: when `needle` occurs in the lower-cased message, it is replaced by
      `message`. */
  datatype Rule = Rule(needle: string, message: string)

  /** The rules of `push_temp_key`. */
  const PushRules: seq<Rule> := [
    Rule("access denied", "Access denied - check AWS permissions"),
    Rule("not found", "Instance not found or not accessible")]

  /** The rules of the SSH steps over a temporary key. */
  const TempKeyRules: seq<Rule> := [
    Rule("connection refused", "Connection refused - SSH service may not be running"),
    Rule("timeout", "Connection timed out"),
    Rule("permission denied", "Permission denied - temporary key may have expired")]

  /** The rules of the SSH steps over an existing key. */
  const ExistingKeyRules: seq<Rule> := [
    Rule("connection refused", "Connection refused - SSH service may not be running"),
    Rule("timeout", "Connection timed out"),
    Rule("permission denied", "Permission denied - check existing key permissions")]

  /** The message of the first rule whose needle occurs in `lowered`. */
  function FirstRule(lowered: string, rules: seq<Rule>): (r: Option<string>)
    ensures r.Some? ==> exists i :: 0 <= i < |rules| && r.value == rules[i].message && Contains(lowered, rules[i].needle)
    ensures r.None? <==> forall i :: 0 <= i < |rules| ==> !Contains(lowered, rules[i].needle)
  {
    if rules == [] then None
    else if Contains(lowered, rules[0].needle) then Some(rules[0].message)
    else
      var r := FirstRule(lowered, rules[1..]);
      assert forall i :: 1 <= i < |rules| ==> rules[i] == rules[1..][i - 1];
      r
  }

  /** The error cleanup of the scripts: colour codes removed from the stripped error output,
      then a known error's message, else the last non-blank line (stripped), else
      `Unknown error`. */
  function CleanError(stderr: string, rules: seq<Rule>): string {
    var e := StripAnsi(Strip(stderr));
    match FirstRule(Lower(e), rules)
    case Some(m) => m
    case None =>
      var lines := StrippedNonEmpty(Split(e, '\n'));
      if lines != [] then lines[|lines| - 1] else "Unknown error"
  }

  /** The cleaned message is never empty: it is a rule's message, or a non-blank line, or
      `Unknown error`. */
  lemma CleanErrorNonEmpty(stderr: string, rules: seq<Rule>)
    requires forall i :: 0 <= i < |rules| ==> rules[i].message != []
    ensures CleanError(stderr, rules) != []
  {
  }

  /** The message a failed key push prints: an access-denied error wins over a not-found one,
      and the message is never empty. */
  lemma PushFailureMessage(stderr: string)
    ensures var e := Lower(StripAnsi(Strip(stderr)));
      (Contains(e, "access denied") ==> CleanError(stderr, PushRules) == "Access denied - check AWS permissions")
      && (!Contains(e, "access denied") && Contains(e, "not found") ==>
            CleanError(stderr, PushRules) == "Instance not found or not accessible")
    ensures CleanError(stderr, PushRules) != []
  {
    CleanErrorNonEmpty(stderr, PushRules);
    assert PushRules[1..] == [PushRules[1]];
  }

  /** A one-line message with no colour code and no known error comes through as it is. */
  lemma CleanErrorPlainLine(m: string, rules: seq<Rule>)
    requires m != [] && IsStripped(m) && Esc !in m && '\n' !in m
    requires forall i :: 0 <= i < |rules| ==> !Contains(Lower(m), rules[i].needle)
    ensures CleanError(m, rules) == m
  {
    StripStripped(m);
    StripAnsiPlain(m);
    SplitPlain(m, '\n');
    StripStripped(m);
    assert StrippedNonEmpty([m]) == [m] + StrippedNonEmpty([m][1..]);
  }

  // ---------------------------------------------------------------------------------------
  // External commands
  // ---------------------------------------------------------------------------------------

  /** What an external command did: it completed, it hit its timeout, or starting it raised. */
  datatype Reply = Ran(result: Completed) | TimedOut | Raised

  /** The remote commands of the key injection, in order: create `~/.ssh`, check for the key,
      append the key, set the permissions. */
  function SshCommands(pubKey: string): (cmds: seq<string>)
    ensures |cmds| == 4
  {
    ["mkdir -p ~/.ssh",
     "grep -F '" + pubKey + "' ~/.ssh/authorized_keys 2>/dev/null || echo 'not_found'",
     "echo '" + pubKey + "' >> ~/.ssh/authorized_keys",
     "chmod 700 ~/.ssh && chmod 600 ~/.ssh/authorized_keys"]
  }

  /** The `ssh` command vector running one remote command. */
  function SshArgv(keyFile: string, user: string, ip: string, command: string): seq<string> {
    ["ssh", "-i", keyFile, "-o", "StrictHostKeyChecking=no", "-o", "ConnectTimeout=10",
     "-o", "UserKnownHostsFile=/dev/null", user + "@" + ip, command]
  }

  /** How the step sequence ended: the key was appended, it was already there, or a step
      failed (with the cleaned error message when the step exited non-zero). */
  datatype StepsOutcome = Injected | AlreadyPresent | StepFailed(message: Option<string>)

  /** The steps from step `i` on: the outcome and the number of `ssh` commands issued. */
  function StepsFrom(i: nat, keyFile: string, user: string, ip: string, pubKey: string, rules: seq<Rule>,
                     run: seq<string> -> Reply): (r: (StepsOutcome, nat))
    requires i <= 4
    ensures r.1 <= 4 - i
    ensures r.0.Injected? ==> r.1 == 4 - i
    decreases 4 - i
  {
    if i == 4 then (Injected, 0)
    else
      var reply := run(SshArgv(keyFile, user, ip, SshCommands(pubKey)[i]));
      if !reply.Ran? then (StepFailed(None), 1)
      else if reply.result.returncode != 0 then (StepFailed(Some(CleanError(reply.result.stderr, rules))), 1)
      else if i == 1 && !Contains(reply.result.stdout, "not_found") then (AlreadyPresent, 1)
      else
        var rest := StepsFrom(i + 1, keyFile, user, ip, pubKey, rules, run);
        (rest.0, rest.1 + 1)
  }

  /** The reply to step `i`. */
  function StepReply(i: nat, keyFile: string, user: string, ip: string, pubKey: string, run: seq<string> -> Reply): Reply
    requires i < 4
  {
    run(SshArgv(keyFile, user, ip, SshCommands(pubKey)[i]))
  }

  /** Step `i` completed with exit status 0. */
  predicate StepOk(i: nat, keyFile: string, user: string, ip: string, pubKey: string, run: seq<string> -> Reply)
    requires i < 4
  {
    var r := StepReply(i, keyFile, user, ip, pubKey, run);
    r.Ran? && r.result.returncode == 0
  }

  /** A key that is already present stops the sequence after the check, so the append step
      is never issued; the key is appended only when all four steps succeed and the check
      printed `not_found`. */
  lemma StepsFacts(keyFile: string, user: string, ip: string, pubKey: string, rules: seq<Rule>, run: seq<string> -> Reply)
    ensures var r := StepsFrom(0, keyFile, user, ip, pubKey, rules, run);
      (r.0.AlreadyPresent? <==>
        (StepOk(0, keyFile, user, ip, pubKey, run) && StepOk(1, keyFile, user, ip, pubKey, run)
         && !Contains(StepReply(1, keyFile, user, ip, pubKey, run).result.stdout, "not_found")))
      && (r.0.AlreadyPresent? ==> r.1 == 2)
    ensures var r := StepsFrom(0, keyFile, user, ip, pubKey, rules, run);
      r.0.Injected? <==>
        (StepOk(0, keyFile, user, ip, pubKey, run) && StepOk(1, keyFile, user, ip, pubKey, run)
         && Contains(StepReply(1, keyFile, user, ip, pubKey, run).result.stdout, "not_found")
         && StepOk(2, keyFile, user, ip, pubKey, run) && StepOk(3, keyFile, user, ip, pubKey, run))
  {
    var r1 := StepsFrom(1, keyFile, user, ip, pubKey, rules, run);
    var r2 := StepsFrom(2, keyFile, user, ip, pubKey, rules, run);
    var r3 := StepsFrom(3, keyFile, user, ip, pubKey, rules, run);
    assert r3.0.Injected? <==> StepOk(3, keyFile, user, ip, pubKey, run);
    assert r2.0.Injected? <==> StepOk(2, keyFile, user, ip, pubKey, run) && r3.0.Injected?;
    assert !r2.0.AlreadyPresent?;
  }

  /** The step loop of `inject_key_via_temp_ssh` and `_inject_key_via_direct_ssh`: returns at
      the first failing step, and after the check when the key is already present. */
  method InjectViaSsh(keyFile: string, user: string, ip: string, pubKey: string, rules: seq<Rule>,
                      run: seq<string> -> Reply)
    returns (outcome: StepsOutcome, issued: seq<seq<string>>)
    ensures (outcome, |issued|) == StepsFrom(0, keyFile, user, ip, pubKey, rules, run)
    ensures forall i :: 0 <= i < |issued| ==> issued[i] == SshArgv(keyFile, user, ip, SshCommands(pubKey)[i])
  {
    var commands := SshCommands(pubKey);
    issued := [];
    var k := 0;
    while k < 4
      invariant 0 <= k <= 4 && |issued| == k
      invariant forall i :: 0 <= i < k ==> issued[i] == SshArgv(keyFile, user, ip, commands[i])
      invariant var rest := StepsFrom(k, keyFile, user, ip, pubKey, rules, run);
        StepsFrom(0, keyFile, user, ip, pubKey, rules, run) == (rest.0, rest.1 + k)
    {
      var argv := SshArgv(keyFile, user, ip, commands[k]);
      issued := issued + [argv];
      var reply := run(argv);
      if !reply.Ran? {
        return StepFailed(None), issued;
      }
      if reply.result.returncode != 0 {
        return StepFailed(Some(CleanError(reply.result.stderr, rules))), issued;
      }
      if k == 1 && !Contains(reply.result.stdout, "not_found") {
        return AlreadyPresent, issued;
      }
      k := k + 1;
    }
    outcome := Injected;
  }

  /** The key push command of `push_temp_key`. */
  function PushArgv(python: string, script: string, role: string, instanceId: string, region: string,
                    keyFile: string, user: string): seq<string>
  {
    [python, script, role, instanceId, "--region", region, "--key-file", keyFile + ".pub", "--users", user]
  }

  /** `push_temp_key`: a missing push script, a failed run or a non-zero exit is a failure. */
  predicate Pushed(scriptExists: bool, reply: Reply) {
    scriptExists && reply.Ran? && reply.result.returncode == 0
  }

  /** The connection test command of `test_ssh_connection`. */
  function TestArgv(keyFile: string, user: string, ip: string): seq<string> {
    ["ssh", "-i", keyFile, "-o", "StrictHostKeyChecking=no", "-o", "ConnectTimeout=10",
     "-o", "PasswordAuthentication=no", "-o", "PubkeyAuthentication=yes",
     "-o", "PreferredAuthentications=publickey", user + "@" + ip, "echo 'SSH connection test successful'"]
  }

  /** `test_ssh_connection`: without a public IP there is nothing to test and the test fails;
      otherwise it passes when the command exits with 0. */
  predicate Connected(ip: string, reply: Reply) {
    ip != [] && ip != "N/A" && reply.Ran? && reply.result.returncode == 0
  }

  // ---------------------------------------------------------------------------------------
  // Users
  // ---------------------------------------------------------------------------------------

  /** The fixed state of `SSHKeyInjector`: the key to inject, the optional existing key that
      bypasses EC2 Instance Connect, and the public key (the stripped `.pub` file). */
  datatype Injector = Injector(sshKeyFile: string, existingKey: Option<string>, pubKey: string)

  /** What one run needs besides the host: the injector, the key-push script and whether it
      exists, and the interpreter. */
  datatype Setup = Setup(injector: Injector, python: string, pushScript: string, pushScriptExists: bool)

  /** One host's row of the CSV listing: the fields the script reads, with a missing name as
      `None` (a NaN cell) and a missing public IP as `N/A`. */
  datatype HostRow = HostRow(accountRole: string, instanceId: string, region: string, name: Option<string>,
                             state: string, publicIp: string)

  /** `if self.existing_key_file:`: an existing key is used only when its path is given and
      not empty. */
  predicate UsesExistingKey(inj: Injector) {
    inj.existingKey.Some? && inj.existingKey.value != []
  }

  /** The whole attempt for one user: push a temporary key (unless an existing key is used),
      inject the public key, then test it; each stage only after the previous one
      succeeded. */
  predicate UserWorks(s: Setup, h: HostRow, user: string, run: seq<string> -> Reply) {
    var inj := s.injector;
    if UsesExistingKey(inj) then
      !StepsFrom(0, inj.existingKey.value, user, h.publicIp, inj.pubKey, ExistingKeyRules, run).0.StepFailed?
      && Connected(h.publicIp, run(TestArgv(inj.sshKeyFile, user, h.publicIp)))
    else
      Pushed(s.pushScriptExists, run(PushArgv(s.python, s.pushScript, h.accountRole, h.instanceId, h.region, inj.sshKeyFile, user)))
      && !StepsFrom(0, inj.sshKeyFile, user, h.publicIp, inj.pubKey, TempKeyRules, run).0.StepFailed?
      && Connected(h.publicIp, run(TestArgv(inj.sshKeyFile, user, h.publicIp)))
  }

  /** One iteration of the user loop of `inject_key_to_host_all_users` and
      `_inject_key_via_existing_key`. */
  method TryUser(s: Setup, h: HostRow, user: string, run: seq<string> -> Reply) returns (ok: bool)
    ensures ok == UserWorks(s, h, user, run)
  {
    var inj := s.injector;
    if !UsesExistingKey(inj) {
      var push := run(PushArgv(s.python, s.pushScript, h.accountRole, h.instanceId, h.region, inj.sshKeyFile, user));
      if !Pushed(s.pushScriptExists, push) {
        return false;
      }
      var outcome, _ := InjectViaSsh(inj.sshKeyFile, user, h.publicIp, inj.pubKey, TempKeyRules, run);
      if outcome.StepFailed? {
        return false;
      }
    } else {
      var outcome, _ := InjectViaSsh(inj.existingKey.value, user, h.publicIp, inj.pubKey, ExistingKeyRules, run);
      if outcome.StepFailed? {
        return false;
      }
    }
    ok := Connected(h.publicIp, run(TestArgv(inj.sshKeyFile, user, h.publicIp)));
  }

  /** An empty existing-key path counts as none: the attempt goes through EC2 Instance Connect,
      so it works exactly when it works without an existing key, and a failed push fails it. */
  lemma EmptyExistingKeyPushes(s: Setup, h: HostRow, user: string, run: seq<string> -> Reply)
    requires s.injector.existingKey == Some([])
    ensures UserWorks(s, h, user, run) == UserWorks(s.(injector := s.injector.(existingKey := None)), h, user, run)
    ensures !Pushed(s.pushScriptExists,
                    run(PushArgv(s.python, s.pushScript, h.accountRole, h.instanceId, h.region, s.injector.sshKeyFile, user)))
      ==> !UserWorks(s, h, user, run)
  {
  }

  /** The first user, in order, for whom the whole attempt works. */
  function FirstWorkingUser(s: Setup, h: HostRow, users: seq<string>, run: seq<string> -> Reply): Option<string> {
    First(users, u => UserWorks(s, h, u, run))
  }

  /** `inject_key_to_host_all_users`: `(True, u)` for the first user `u` whose attempt works
      (no later user is tried), `(False, None)` when none does. */
  method InjectAllUsers(s: Setup, h: HostRow, users: seq<string>, run: seq<string> -> Reply)
    returns (success: bool, user: Option<string>)
    ensures user == FirstWorkingUser(s, h, users, run)
    ensures success <==> user.Some?
  {
    var works := u => UserWorks(s, h, u, run);
    var k := 0;
    while k < |users|
      invariant 0 <= k <= |users|
      invariant First(users, works) == First(users[k..], works)
    {
      var ok := TryUser(s, h, users[k], run);
      if ok {
        return true, Some(users[k]);
      }
      FirstFrom(users, works, k);
      k := k + 1;
    }
    return false, None;
  }

  // ---------------------------------------------------------------------------------------
  // Hosts
  // ---------------------------------------------------------------------------------------

  /** What `process_host` returns: success, and the users reported (`None` when the host was
      skipped or only listed in a dry run). */
  datatype HostResult = HostResult(success: bool, users: Option<seq<string>>)

  /** `process_host`: an excluded or not-running host is skipped, a dry run contacts nothing,
      and otherwise the host succeeds with the first working user. */
  function ProcessResult(h: HostRow, s: Setup, patterns: seq<string>, users: seq<string>, dryRun: bool,
                         run: seq<string> -> Reply): (r: HostResult)
    ensures Excluded(h.name, patterns) || h.state != "running" ==> r == HostResult(false, None)
    ensures !Excluded(h.name, patterns) && h.state == "running" && dryRun ==> r == HostResult(true, None)
    ensures r.users.Some? ==> |r.users.value| <= 1 && (r.success <==> |r.users.value| == 1)
  {
    if Excluded(h.name, patterns) || h.state != "running" then HostResult(false, None)
    else if dryRun then HostResult(true, None)
    else
      match FirstWorkingUser(s, h, users, run)
      case Some(u) => HostResult(true, Some([u]))
      case None => HostResult(false, Some([]))
  }

  /** `process_host`. */
  method ProcessHost(h: HostRow, s: Setup, patterns: seq<string>, users: seq<string>, dryRun: bool,
                     run: seq<string> -> Reply)
    returns (r: HostResult)
    ensures r == ProcessResult(h, s, patterns, users, dryRun, run)
  {
    var excluded := ShouldExclude(h.name, patterns);
    if excluded || h.state != "running" {
      return HostResult(false, None);
    }
    if dryRun {
      return HostResult(true, None);
    }
    var success, user := InjectAllUsers(s, h, users, run);
    if success {
      return HostResult(true, Some([user.value]));
    }
    return HostResult(false, Some([]));
  }

  // ---------------------------------------------------------------------------------------
  // Main
  // ---------------------------------------------------------------------------------------

  /** The counters of `main`, with the number of debug prompts asked so far and the users
      reported by processed hosts, in order. */
  datatype Tally = Tally(excluded: nat, processed: nat, failed: nat, skipped: nat, ec2: nat, prompts: nat,
                         reported: seq<string>)

  /** The counters after one more row, whose `process_host` result would be `r`. */
  function Count(t: Tally, h: HostRow, patterns: seq<string>, debug: bool, answerOf: nat -> string, r: HostResult): Tally {
    if Excluded(h.name, patterns) then t.(excluded := t.excluded + 1)
    else if debug && Lower(answerOf(t.prompts)) != "y" then t.(skipped := t.skipped + 1, prompts := t.prompts + 1)
    else
      Recorded(if debug then t.(prompts := t.prompts + 1) else t, r)
  }

  /** The counters after `process_host` returned `r`: a success is processed (and uses EC2
      Instance Connect) and reports its users; anything else failed. */
  function Recorded(t: Tally, r: HostResult): Tally {
    if r.success then
      t.(processed := t.processed + 1, ec2 := t.ec2 + 1,
         reported := t.reported + (if r.users.Some? then r.users.value else []))
    else t.(failed := t.failed + 1)
  }

  /** The counters after a list of rows. */
  function TallyOf(rows: seq<HostRow>, s: Setup, patterns: seq<string>, users: seq<string>, debug: bool,
                   dryRun: bool, run: seq<string> -> Reply, answerOf: nat -> string): Tally
  {
    if rows == [] then Tally(0, 0, 0, 0, 0, 0, [])
    else
      var h := rows[|rows| - 1];
      Count(TallyOf(rows[..|rows| - 1], s, patterns, users, debug, dryRun, run, answerOf),
            h, patterns, debug, answerOf, ProcessResult(h, s, patterns, users, dryRun, run))
  }

  /** Every row lands in exactly one of excluded, processed, failed and (in debug mode, when the
      prompt is declined) skipped; every processed row counts as an EC2 Instance Connect use,
      and at most one user is reported per processed row. */
  lemma {:induction false} TallyFacts(rows: seq<HostRow>, s: Setup, patterns: seq<string>, users: seq<string>, debug: bool,
                                      dryRun: bool, run: seq<string> -> Reply, answerOf: nat -> string)
    ensures var t := TallyOf(rows, s, patterns, users, debug, dryRun, run, answerOf);
      t.excluded + t.processed + t.failed + t.skipped == |rows|
      && t.ec2 == t.processed && |t.reported| <= t.processed
      && (!debug ==> t.skipped == 0)
      && (dryRun ==> t.reported == [])
  {
    if rows != [] {
      TallyFacts(rows[..|rows| - 1], s, patterns, users, debug, dryRun, run, answerOf);
    }
  }

  /** The number of times `u` occurs in `xs`. */
  function Occurrences(xs: seq<string>, u: string): nat {
    multiset(xs)[u]
  }

  /** The main loop of `main`: the counters, and `user_counts` holding, for each user, the
      number of processed hosts that reported it. */
  method ProcessHosts(rows: seq<HostRow>, s: Setup, patterns: seq<string>, users: seq<string>, debug: bool,
                      dryRun: bool, run: seq<string> -> Reply, answerOf: nat -> string)
    returns (t: Tally, userCounts: map<string, nat>)
    ensures t == TallyOf(rows, s, patterns, users, debug, dryRun, run, answerOf)
    ensures forall u :: u in userCounts <==> u in t.reported
    ensures forall u :: u in userCounts ==> userCounts[u] == Occurrences(t.reported, u)
  {
    t := Tally(0, 0, 0, 0, 0, 0, []);
    userCounts := map[];
    var k := 0;
    while k < |rows|
      invariant 0 <= k <= |rows|
      invariant t == TallyOf(rows[..k], s, patterns, users, debug, dryRun, run, answerOf)
      invariant forall u :: u in userCounts <==> u in t.reported
      invariant forall u :: u in userCounts ==> userCounts[u] == Occurrences(t.reported, u)
    {
      assert rows[..k + 1][..k] == rows[..k];
      t, userCounts := CountRow(t, userCounts, rows[k], s, patterns, users, debug, dryRun, run, answerOf);
      k := k + 1;
    }
    assert rows[..k] == rows;
  }

  /** One iteration of the main loop. */
  method CountRow(t0: Tally, counts: map<string, nat>, h: HostRow, s: Setup, patterns: seq<string>, users: seq<string>,
                  debug: bool, dryRun: bool, run: seq<string> -> Reply, answerOf: nat -> string)
    returns (t: Tally, userCounts: map<string, nat>)
    requires forall u :: u in counts <==> u in t0.reported
    requires forall u :: u in counts ==> counts[u] == Occurrences(t0.reported, u)
    ensures t == Count(t0, h, patterns, debug, answerOf, ProcessResult(h, s, patterns, users, dryRun, run))
    ensures forall u :: u in userCounts <==> u in t.reported
    ensures forall u :: u in userCounts ==> userCounts[u] == Occurrences(t.reported, u)
  {
    var excluded := ShouldExclude(h.name, patterns);
    if excluded || (debug && Lower(answerOf(t0.prompts)) != "y") {
      t := if excluded then t0.(excluded := t0.excluded + 1)
           else t0.(skipped := t0.skipped + 1, prompts := t0.prompts + 1);
      return t, counts;
    }
    var asked := if debug then t0.(prompts := t0.prompts + 1) else t0;
    var r := ProcessHost(h, s, patterns, users, dryRun, run);
    t, userCounts := Record(asked, counts, r);
  }

  /** The counter updates after `process_host` returned `r`. */
  method Record(t0: Tally, counts: map<string, nat>, r: HostResult) returns (t: Tally, userCounts: map<string, nat>)
    requires forall u :: u in counts <==> u in t0.reported
    requires forall u :: u in counts ==> counts[u] == Occurrences(t0.reported, u)
    ensures t == Recorded(t0, r)
    ensures forall u :: u in userCounts <==> u in t.reported
    ensures forall u :: u in userCounts ==> userCounts[u] == Occurrences(t.reported, u)
  {
    t, userCounts := t0, counts;
    if r.success {
      if r.users.Some? {
        userCounts := AddUsers(userCounts, t.reported, r.users.value);
        t := t.(reported := t.reported + r.users.value);
      }
      t := t.(processed := t.processed + 1, ec2 := t.ec2 + 1);
    } else {
      t := t.(failed := t.failed + 1);
    }
  }

  /** `user_counts[user] = user_counts.get(user, 0) + 1` for each reported user. */
  method AddUsers(counts: map<string, nat>, reported: seq<string>, more: seq<string>) returns (r: map<string, nat>)
    requires forall u :: u in counts <==> u in reported
    requires forall u :: u in counts ==> counts[u] == Occurrences(reported, u)
    ensures forall u :: u in r <==> u in reported + more
    ensures forall u :: u in r ==> r[u] == Occurrences(reported + more, u)
  {
    r := counts;
    var k := 0;
    while k < |more|
      invariant 0 <= k <= |more|
      invariant forall u :: u in r <==> u in reported + more[..k]
      invariant forall u :: u in r ==> r[u] == Occurrences(reported + more[..k], u)
    {
      var u := more[k];
      assert reported + more[..k + 1] == reported + more[..k] + [u];
      r := r[u := (if u in r then r[u] else 0) + 1];
      k := k + 1;
    }
    assert more[..k] == more;
  }
}
