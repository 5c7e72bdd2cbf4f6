/** install-teleport-on-hosts: asks find-ec2 for the hosts matching a filter, then runs the
    single-host installer on each of them and counts successes and failures.

    find-ec2 is answered by `findOf`, which gives the completed process for a command, or
    `None` when the call raised; every installer run is answered by `exitOf`, which gives the return
    code of a command, or `None` when it could not be run. */
module InstallTeleport {
  import opened Common
  import opened Text

  // ---------------------------------------------------------------------------------------
  // Hosts from find-ec2
  // ---------------------------------------------------------------------------------------

  /** The dictionary `get_hosts` builds for one CSV line. */
  datatype Host = Host(
    accountRole: string,
    instanceId: string,
    region: string,
    publicIp: string,
    privateIp: string,
    state: string,
    name: string,
    keyName: string)

  /** The eight fields of a host, in CSV order. */
  function Fields(h: Host): seq<string> {
    [h.accountRole, h.instanceId, h.region, h.publicIp, h.privateIp, h.state, h.name, h.keyName]
  }

  /** The host read from one CSV line: none for a blank line or one of fewer than 8 fields; the
      first 8 fields otherwise, extra ones ignored. */
  function HostOfLine(line: string): (r: Option<Host>)
    ensures r.Some? ==> Strip(line) != [] && |Split(line, ',')| >= 8 && Fields(r.value) == Split(line, ',')[..8]
    ensures Strip(line) != [] && |Split(line, ',')| >= 8 ==> r.Some?
  {
    if Strip(line) == [] then None
    else
      var parts := Split(line, ',');
      if |parts| >= 8 then Some(Host(parts[0], parts[1], parts[2], parts[3], parts[4], parts[5], parts[6], parts[7]))
      else None
  }

  /** The hosts of a list of lines, in order. */
  function HostsOfLines(lines: seq<string>): seq<Host> {
    if lines == [] then []
    else
      var h := HostOfLine(lines[|lines| - 1]);
      HostsOfLines(lines[..|lines| - 1]) + (if h.Some? then [h.value] else [])
  }

  /** What `get_hosts` returns for a find-ec2 run: the stripped output split at newlines, the
      first line (the header) skipped; nothing when the run failed. */
  function HostsOf(reply: Option<Completed>): seq<Host> {
    if reply.None? || reply.value.returncode != 0 then []
    else
      var lines := Split(Strip(reply.value.stdout), '\n');
      if |lines| > 1 then HostsOfLines(lines[1..]) else []
  }

  /** Output that is a header alone, with no newline inside, gives no host. */
  lemma HeaderOnly(stdout: string)
    requires '\n' !in Strip(stdout)
    ensures HostsOf(Some(Completed(0, stdout, []))) == []
  {
    SplitPlain(Strip(stdout), '\n');
  }

  /** The CSV line of a host. */
  function LineOf(h: Host): string {
    Join(Fields(h), ',')
  }

  /** A host whose fields hold no comma is read back from its line. */
  lemma HostLineRoundTrip(h: Host)
    requires forall i :: 0 <= i < 8 ==> ',' !in Fields(h)[i]
    ensures HostOfLine(LineOf(h)) == Some(h)
  {
    var f := Fields(h);
    SplitJoin(f, ',');
    var line := LineOf(h);
    assert line == f[0] + [','] + Join(f[1..], ',');
    assert line[|f[0]|] == ',';
    assert !IsSpace(line[|f[0]|]);
    StripEmptyIff(line);
  }

  /** Lines of comma-free hosts are read back as those hosts, in order. */
  lemma {:induction false} HostsRoundTrip(hs: seq<Host>)
    requires forall k, i :: 0 <= k < |hs| && 0 <= i < 8 ==> ',' !in Fields(hs[k])[i]
    ensures HostsOfLines(seq(|hs|, k requires 0 <= k < |hs| => LineOf(hs[k]))) == hs
  {
    var lines := seq(|hs|, k requires 0 <= k < |hs| => LineOf(hs[k]));
    if hs != [] {
      var init := hs[..|hs| - 1];
      HostsRoundTrip(init);
      assert lines[..|lines| - 1] == seq(|init|, k requires 0 <= k < |init| => LineOf(init[k]));
      HostLineRoundTrip(hs[|hs| - 1]);
      assert hs == init + [hs[|hs| - 1]];
    }
  }

  /** The parsing loop of `get_hosts`. */
  method GetHosts(reply: Option<Completed>) returns (hosts: seq<Host>)
    ensures hosts == HostsOf(reply)
  {
    if reply.None? || reply.value.returncode != 0 {
      return [];
    }
    hosts := [];
    var lines := Split(Strip(reply.value.stdout), '\n');
    if |lines| > 1 {
      var body := lines[1..];
      var k := 0;
      while k < |body|
        invariant 0 <= k <= |body|
        invariant hosts == HostsOfLines(body[..k])
      {
        var line := body[k];
        assert body[..k + 1][..k] == body[..k];
        if Strip(line) != [] {
          var parts := Split(line, ',');
          if |parts| >= 8 {
            hosts := hosts + [Host(parts[0], parts[1], parts[2], parts[3], parts[4], parts[5], parts[6], parts[7])];
          }
        }
        k := k + 1;
      }
      assert body[..k] == body;
    }
  }

  /** The find-ec2 command of `get_hosts`: `--limit` is passed on when the limit is non-zero. */
  function GetHostsCommand(python: string, script: string, filter: string, limit: Option<int>): (argv: seq<string>)
    ensures |argv| == 4 || |argv| == 6
    ensures argv[..4] == [python, script, "--search", filter]
    ensures |argv| == 6 <==> limit.Some? && limit.value != 0
    ensures |argv| == 6 ==> argv[4] == "--limit" && argv[5] == IntToString(limit.value)
  {
    var cmd := [python, script, "--search", filter];
    if limit.Some? && limit.value != 0 then cmd + ["--limit", IntToString(limit.value)] else cmd
  }

  // ---------------------------------------------------------------------------------------
  // The installer command
  // ---------------------------------------------------------------------------------------

  /** The flags passed on to the single-host installer. */
  datatype Options = Options(ansiblePath: Option<string>, forceDownload: bool, debug: bool, skipKeyPush: bool)

  /** The flag arguments, in the order `install_teleport_on_host` appends them; an empty
      ansible path counts as none. */
  function OptionArgs(o: Options): seq<string> {
    (if o.ansiblePath.Some? && o.ansiblePath.value != [] then ["--ansible-path", o.ansiblePath.value] else [])
    + (if o.forceDownload then ["--force-download"] else [])
    + (if o.debug then ["--debug"] else [])
    + (if o.skipKeyPush then ["--skip-ssh-key-push"] else [])
  }

  /** Reads flag arguments back: each flag at most once, in the appending order, and nothing
      else. */
  function ReadOptions(args: seq<string>): Option<Options> {
    if |args| >= 2 && args[0] == "--ansible-path" then ReadForce(args[2..], Some(args[1]))
    else ReadForce(args, None)
  }

  function ReadForce(args: seq<string>, path: Option<string>): Option<Options> {
    if args != [] && args[0] == "--force-download" then ReadDebug(args[1..], path, true)
    else ReadDebug(args, path, false)
  }

  function ReadDebug(args: seq<string>, path: Option<string>, force: bool): Option<Options> {
    if args != [] && args[0] == "--debug" then ReadSkip(args[1..], path, force, true)
    else ReadSkip(args, path, force, false)
  }

  function ReadSkip(args: seq<string>, path: Option<string>, force: bool, debug: bool): Option<Options> {
    if args == ["--skip-ssh-key-push"] then Some(Options(path, force, debug, true))
    else if args == [] then Some(Options(path, force, debug, false))
    else None
  }

  /** The flags can be read back from the command: the installer sees exactly the options
      given (an empty ansible path being no path). */
  lemma OptionArgsRoundTrip(o: Options)
    requires o.ansiblePath != Some([])
    ensures ReadOptions(OptionArgs(o)) == Some(o)
  {
    var f := if o.forceDownload then ["--force-download"] else [];
    var d := if o.debug then ["--debug"] else [];
    var s := if o.skipKeyPush then ["--skip-ssh-key-push"] else [];
    assert ReadSkip(s, o.ansiblePath, o.forceDownload, o.debug) == Some(o);
    ReadDebugStep(d, s, o);
    ReadForceStep(f, d + s, o);
    var rest := f + (d + s);
    if o.ansiblePath.Some? {
      var args := ["--ansible-path", o.ansiblePath.value] + rest;
      assert args[2..] == rest;
      assert OptionArgs(o) == args;
    } else {
      assert OptionArgs(o) == rest;
    }
  }

  lemma ReadDebugStep(d: seq<string>, s: seq<string>, o: Options)
    requires d == (if o.debug then ["--debug"] else [])
    requires s == (if o.skipKeyPush then ["--skip-ssh-key-push"] else [])
    ensures ReadDebug(d + s, o.ansiblePath, o.forceDownload) == Some(o)
  {
    if o.debug {
      assert (d + s)[1..] == s;
    }
  }

  lemma ReadForceStep(f: seq<string>, ds: seq<string>, o: Options)
    requires f == (if o.forceDownload then ["--force-download"] else [])
    requires ds == [] || ds[0] == "--debug" || ds[0] == "--skip-ssh-key-push"
    requires ReadDebug(ds, o.ansiblePath, o.forceDownload) == Some(o)
    ensures ReadForce(f + ds, o.ansiblePath) == Some(o)
  {
    if o.forceDownload {
      assert (f + ds)[1..] == ds;
    }
  }

  /** The command of `install_teleport_on_host`, extended step by step: the interpreter, the
      script, five host fields, the private key, then the flags. */
  method InstallCommand(python: string, script: string, h: Host, privateKey: string, o: Options)
    returns (cmd: seq<string>)
    ensures |cmd| >= 9
    ensures cmd[..9] == [python, script, h.accountRole, h.instanceId, h.region, h.publicIp, h.name, "--private-key", privateKey]
    ensures cmd[9..] == OptionArgs(o)
  {
    cmd := [python, script, h.accountRole, h.instanceId, h.region, h.publicIp, h.name, "--private-key", privateKey];
    var flags: seq<string> := [];
    if o.ansiblePath.Some? && o.ansiblePath.value != [] {
      flags := flags + ["--ansible-path", o.ansiblePath.value];
    }
    if o.forceDownload {
      flags := flags + ["--force-download"];
    }
    if o.debug {
      flags := flags + ["--debug"];
    }
    if o.skipKeyPush {
      flags := flags + ["--skip-ssh-key-push"];
    }
    cmd := cmd + flags;
  }

  /** Whether an installer run counts as a success: it ran and returned 0. */
  function Installed(rc: Option<int>): (ok: bool)
    ensures ok <==> rc == Some(0)
  {
    rc.Some? && rc.value == 0
  }

  /** The check after the debug branch as written: that branch keeps the bare exit status, so
      reading its return code raises and the run is reported as failed whatever the status. */
  function InstalledAsWritten(debug: bool, rc: Option<int>): bool {
    !debug && Installed(rc)
  }

  /** In debug mode an installer that returns 0 is still counted as a failure. */
  lemma DebugRunNeverSucceeds()
    ensures !InstalledAsWritten(true, Some(0)) && Installed(Some(0))
  {
  }

  // ---------------------------------------------------------------------------------------
  // Main
  // ---------------------------------------------------------------------------------------

  /** The number of hosts whose installer run succeeds. */
  function Successes(hosts: seq<Host>, python: string, script: string, privateKey: string, o: Options,
                     exitOf: seq<string> -> Option<int>): (n: nat)
    ensures n <= |hosts|
  {
    if hosts == [] then 0
    else
      var h := hosts[|hosts| - 1];
      var cmd := [python, script, h.accountRole, h.instanceId, h.region, h.publicIp, h.name, "--private-key", privateKey]
        + OptionArgs(o);
      Successes(hosts[..|hosts| - 1], python, script, privateKey, o, exitOf) + (if Installed(exitOf(cmd)) then 1 else 0)
  }

  /** The number of hosts the script as written counts as successful: `InstalledAsWritten`
      in place of `Installed`. */
  function SuccessesAsWritten(hosts: seq<Host>, python: string, script: string, privateKey: string, o: Options,
                              exitOf: seq<string> -> Option<int>): (n: nat)
    ensures n <= |hosts|
  {
    if hosts == [] then 0
    else
      var h := hosts[|hosts| - 1];
      var cmd := [python, script, h.accountRole, h.instanceId, h.region, h.publicIp, h.name, "--private-key", privateKey]
        + OptionArgs(o);
      SuccessesAsWritten(hosts[..|hosts| - 1], python, script, privateKey, o, exitOf)
        + (if InstalledAsWritten(o.debug, exitOf(cmd)) then 1 else 0)
  }

  /** The script as written reports no success in debug mode, and the corrected count
      otherwise. */
  lemma {:induction false} AsWrittenSuccesses(hosts: seq<Host>, python: string, script: string, privateKey: string,
                                              o: Options, exitOf: seq<string> -> Option<int>)
    ensures o.debug ==> SuccessesAsWritten(hosts, python, script, privateKey, o, exitOf) == 0
    ensures !o.debug ==>
      SuccessesAsWritten(hosts, python, script, privateKey, o, exitOf) == Successes(hosts, python, script, privateKey, o, exitOf)
  {
    if hosts != [] {
      AsWrittenSuccesses(hosts[..|hosts| - 1], python, script, privateKey, o, exitOf);
    }
  }

  /** The host loop of `main` (both branches run the same loop): each host adds one to exactly
      one of the two counters. */
  method InstallAll(hosts: seq<Host>, python: string, script: string, privateKey: string, o: Options,
                    exitOf: seq<string> -> Option<int>)
    returns (successful: nat, failed: nat)
    ensures successful + failed == |hosts|
    ensures successful == Successes(hosts, python, script, privateKey, o, exitOf)
  {
    successful, failed := 0, 0;
    var k := 0;
    while k < |hosts|
      invariant 0 <= k <= |hosts|
      invariant successful + failed == k
      invariant successful == Successes(hosts[..k], python, script, privateKey, o, exitOf)
    {
      var cmd := InstallCommand(python, script, hosts[k], privateKey, o);
      assert cmd == cmd[..9] + cmd[9..];
      assert hosts[..k + 1][..k] == hosts[..k];
      if Installed(exitOf(cmd)) {
        successful := successful + 1;
      } else {
        failed := failed + 1;
      }
      k := k + 1;
    }
    assert hosts[..k] == hosts;
  }

  /** The outcome of `main`. */
  datatype Outcome = Exited(code: int) | Summary(successful: nat, failed: nat, total: nat)

  /** `get_hosts`: a missing find-ec2 script gives no hosts; otherwise find-ec2 runs with the
      filter and the limit, and its answer is parsed. */
  function FoundHosts(findScriptExists: bool, python: string, findScript: string, filter: string, limit: Option<int>,
                      findOf: seq<string> -> Option<Completed>): seq<Host>
  {
    if findScriptExists then HostsOf(findOf(GetHostsCommand(python, findScript, filter, limit))) else []
  }

  /** `get_hosts` as a whole: the command built from the filter and the limit is the one run,
      and the hosts are what it answers. */
  method FindHosts(findScriptExists: bool, python: string, findScript: string, filter: string, limit: Option<int>,
                   findOf: seq<string> -> Option<Completed>)
    returns (hosts: seq<Host>)
    ensures !findScriptExists ==> hosts == []
    ensures findScriptExists ==> hosts == HostsOf(findOf(GetHostsCommand(python, findScript, filter, limit)))
  {
    if !findScriptExists {
      return [];
    }
    hosts := GetHosts(findOf(GetHostsCommand(python, findScript, filter, limit)));
  }

  /** `main`: exit 1 when a key file is missing or no host is found; otherwise every host is
      tried once and the summary adds up. */
  method InstallOnHosts(publicKeyExists: bool, privateKeyExists: bool, findScriptExists: bool, findScript: string,
                        filter: string, limit: Option<int>, findOf: seq<string> -> Option<Completed>,
                        python: string, script: string, privateKey: string, o: Options,
                        exitOf: seq<string> -> Option<int>)
    returns (outcome: Outcome)
    ensures var hosts := FoundHosts(findScriptExists, python, findScript, filter, limit, findOf);
      !publicKeyExists || !privateKeyExists || hosts == [] <==> outcome == Exited(1)
    ensures var hosts := FoundHosts(findScriptExists, python, findScript, filter, limit, findOf);
      outcome.Summary? ==>
        outcome.total == |hosts| && outcome.successful + outcome.failed == outcome.total
        && outcome.successful == Successes(hosts, python, script, privateKey, o, exitOf)
  {
    if !publicKeyExists || !privateKeyExists {
      return Exited(1);
    }
    var hosts := FindHosts(findScriptExists, python, findScript, filter, limit, findOf);
    if hosts == [] {
      return Exited(1);
    }
    var successful, failed := InstallAll(hosts, python, script, privateKey, o, exitOf);
    outcome := Summary(successful, failed, |hosts|);
  }
}
