/** Reloading the Teleport agent on a list of hosts: for each host the users are tried in
    order with `tsh ssh <user>@<host> sudo -n systemctl reload teleport`, and the first that
    exits 0 wins. The `tsh` runs are an oracle. */
module ReloadTeleport {
  import opened Common
  import opened Text

  /** The users tried when `--users` is not given, in order of preference. */
  const DefaultUsers: seq<string> := ["ec2-user", "cloud-user", "website", "ubuntu", "root"]

  /** The command line as given. */
  datatype Args = Args(hosts: string, users: Option<string>, timeout: int, verbose: bool)

  /** The normalised arguments, or the exit the parser takes. */
  datatype Parsed = Parsed(hostList: seq<string>, userList: seq<string>, timeout: int, verbose: bool) | ExitWith(code: int)

  /** `parse_arguments`: hosts and users are comma lists with blanks dropped; no host exits 2,
      and an absent or empty `--users` means the default users. */
  function ParseArguments(a: Args): (p: Parsed)
    ensures p.ExitWith? <==> CommaList(a.hosts) == []
    ensures p.ExitWith? ==> p.code == 2
    ensures p.Parsed? ==> p.hostList == CommaList(a.hosts) && p.timeout == a.timeout && p.verbose == a.verbose
    ensures p.Parsed? && (a.users.None? || a.users.value == []) ==> p.userList == DefaultUsers
    ensures p.Parsed? && a.users.Some? && a.users.value != [] ==> p.userList == CommaList(a.users.value)
  {
    var hostList := CommaList(a.hosts);
    if hostList == [] then ExitWith(2)
    else
      var userList := if a.users.Some? && a.users.value != [] then CommaList(a.users.value) else DefaultUsers;
      Parsed(hostList, userList, a.timeout, a.verbose)
  }

  /** Comma-joined clean host names parse back to themselves, and so do the users. */
  lemma ParseArgumentsJoin(hosts: seq<string>, users: seq<string>, timeout: int, verbose: bool)
    requires hosts != [] && users != []
    requires forall i :: 0 <= i < |hosts| ==> hosts[i] != [] && IsStripped(hosts[i]) && ',' !in hosts[i]
    requires forall i :: 0 <= i < |users| ==> users[i] != [] && IsStripped(users[i]) && ',' !in users[i]
    ensures ParseArguments(Args(Join(hosts, ','), Some(Join(users, ',')), timeout, verbose))
      == Parsed(hosts, users, timeout, verbose)
  {
    CommaListJoin(hosts);
    CommaListJoin(users);
  }

  /** The command run for one user on one host. */
  function ReloadCommand(user: string, host: string): (cmd: seq<string>)
    ensures |cmd| == 8 && cmd[2] == user + "@" + host
  {
    ["tsh", "ssh", user + "@" + host, "sudo", "-n", "systemctl", "reload", "teleport"]
  }

  /** What one `tsh` run gives: an exit, a missing `tsh` binary, a timeout, or another
      exception (named by its class). */
  datatype Attempt = Ran(result: Completed) | TshMissing | TimedOut | Raised(name: string)

  /** The diagnostic kept from a failed run: the last line of the stripped standard error
      when there is any standard error, else `exit_code_<n>`. A standard error of only
      whitespace has no lines, and taking the last of none raises `IndexError`, which the
      catch-all records by name. */
  function FailureMessage(c: Completed): (m: string)
    ensures c.stderr == [] ==> m == "exit_code_" + IntToString(c.returncode)
    ensures c.stderr != [] && Strip(c.stderr) == [] ==> m == "IndexError"
  {
    if c.stderr == [] then "exit_code_" + IntToString(c.returncode)
    else
      var lines := SplitLines(Strip(c.stderr));
      if lines == [] then "IndexError" else lines[|lines| - 1]
  }

  /** The diagnostic a run leaves, or `None` for a run that ends the loop. */
  function Diagnostic(a: Attempt): (m: Option<string>)
    ensures m.None? <==> a.TshMissing? || (a.Ran? && a.result.returncode == 0)
  {
    match a
    case Ran(c) => if c.returncode == 0 then None else Some(FailureMessage(c))
    case TshMissing => None
    case TimedOut => Some("timeout")
    case Raised(name) => Some(name)
  }

  /** What `reload_teleport_on_host` returns. */
  datatype HostResult = HostResult(success: bool, user: string, message: string)

  /** The loop over the users from `users` on, with `last` the latest diagnostic so far:
      the first user whose run exits 0 wins, a missing `tsh` stops at once, and otherwise the
      latest diagnostic (or `unknown_error`) is reported. */
  function Reload(users: seq<string>, host: string, timeout: int, attempt: (seq<string>, int) -> Attempt,
                  last: string): (r: HostResult)
    ensures r.success ==> r.message == [] && r.user in users
    ensures !r.success ==> r.user == [] && r.message != []
  {
    if users == [] then HostResult(false, "", if last != [] then last else "unknown_error")
    else
      var a := attempt(ReloadCommand(users[0], host), timeout);
      if a.Ran? && a.result.returncode == 0 then HostResult(true, users[0], "")
      else if a.TshMissing? then HostResult(false, "", "tsh_not_found")
      else
        var r := Reload(users[1..], host, timeout, attempt, Diagnostic(a).value);
        assert r.success ==> r.user in users;
        r
  }

  /** The run of a user exits 0. */
  predicate Succeeds(user: string, host: string, timeout: int, attempt: (seq<string>, int) -> Attempt) {
    var a := attempt(ReloadCommand(user, host), timeout);
    a.Ran? && a.result.returncode == 0
  }

  /** The run of a user ends the loop: it exits 0 or `tsh` is missing. */
  predicate Stops(user: string, host: string, timeout: int, attempt: (seq<string>, int) -> Attempt) {
    Succeeds(user, host, timeout, attempt) || attempt(ReloadCommand(user, host), timeout).TshMissing?
  }

  /** The first user that exits 0 before any missing `tsh` is the one reported; the users after
      it are never tried, so they do not matter. */
  lemma {:induction false} FirstSuccessWins(users: seq<string>, host: string, timeout: int,
                                            attempt: (seq<string>, int) -> Attempt, last: string, i: int)
    requires 0 <= i < |users| && Succeeds(users[i], host, timeout, attempt)
    requires forall j :: 0 <= j < i ==> !Stops(users[j], host, timeout, attempt)
    ensures Reload(users, host, timeout, attempt, last) == HostResult(true, users[i], "")
  {
    if i > 0 {
      var a := attempt(ReloadCommand(users[0], host), timeout);
      assert !Stops(users[0], host, timeout, attempt);
      forall j | 0 <= j < i - 1 ensures !Stops(users[1..][j], host, timeout, attempt) {
        assert users[1..][j] == users[j + 1];
      }
      FirstSuccessWins(users[1..], host, timeout, attempt, Diagnostic(a).value, i - 1);
    }
  }

  /** A missing `tsh` before any success ends the host with `tsh_not_found`; the users after
      it are never tried. */
  lemma {:induction false} MissingTshStops(users: seq<string>, host: string, timeout: int,
                                           attempt: (seq<string>, int) -> Attempt, last: string, i: int)
    requires 0 <= i < |users| && attempt(ReloadCommand(users[i], host), timeout).TshMissing?
    requires forall j :: 0 <= j < i ==> !Stops(users[j], host, timeout, attempt)
    ensures Reload(users, host, timeout, attempt, last) == HostResult(false, "", "tsh_not_found")
  {
    if i > 0 {
      var a := attempt(ReloadCommand(users[0], host), timeout);
      assert !Stops(users[0], host, timeout, attempt);
      forall j | 0 <= j < i - 1 ensures !Stops(users[1..][j], host, timeout, attempt) {
        assert users[1..][j] == users[j + 1];
      }
      MissingTshStops(users[1..], host, timeout, attempt, Diagnostic(a).value, i - 1);
    }
  }

  /** When no user's run stops the loop, the host fails with the diagnostic of the last user
      tried, or `unknown_error` when there were no users. */
  lemma {:induction false} AllFailLastMessage(users: seq<string>, host: string, timeout: int,
                                              attempt: (seq<string>, int) -> Attempt, last: string)
    requires forall j :: 0 <= j < |users| ==> !Stops(users[j], host, timeout, attempt)
    ensures users == [] ==> Reload(users, host, timeout, attempt, last).message == (if last != [] then last else "unknown_error")
    ensures users != [] ==>
      (var m := Diagnostic(attempt(ReloadCommand(users[|users| - 1], host), timeout));
       m.Some? && Reload(users, host, timeout, attempt, last) == HostResult(false, "", if m.value != [] then m.value else "unknown_error"))
  {
    if users != [] {
      var a := attempt(ReloadCommand(users[0], host), timeout);
      assert !Stops(users[0], host, timeout, attempt);
      forall j | 0 <= j < |users| - 1 ensures !Stops(users[1..][j], host, timeout, attempt) {
        assert users[1..][j] == users[j + 1];
      }
      AllFailLastMessage(users[1..], host, timeout, attempt, Diagnostic(a).value);
    }
  }

  /** The diagnostic the loop records after a run that does not end it. */
  method DiagnosticOf(a: Attempt) returns (m: string)
    requires !a.TshMissing? && !(a.Ran? && a.result.returncode == 0)
    ensures Some(m) == Diagnostic(a)
  {
    if a.Ran? {
      if a.result.stderr != [] {
        var lines := SplitLines(Strip(a.result.stderr));
        if lines == [] {
          m := "IndexError";
        } else {
          m := lines[|lines| - 1];
        }
      } else {
        m := "exit_code_" + IntToString(a.result.returncode);
      }
    } else if a.TimedOut? {
      m := "timeout";
    } else {
      m := a.name;
    }
  }

  /** `Reload` over the users from index `k` on, by position. */
  function ReloadFrom(users: seq<string>, k: nat, host: string, timeout: int, attempt: (seq<string>, int) -> Attempt,
                      last: string): (r: HostResult)
    requires k <= |users|
    decreases |users| - k
  {
    if k == |users| then HostResult(false, "", if last != [] then last else "unknown_error")
    else
      var a := attempt(ReloadCommand(users[k], host), timeout);
      if a.Ran? && a.result.returncode == 0 then HostResult(true, users[k], "")
      else if a.TshMissing? then HostResult(false, "", "tsh_not_found")
      else ReloadFrom(users, k + 1, host, timeout, attempt, Diagnostic(a).value)
  }

  /** Going by position is the same as going down the list of the remaining users. */
  lemma {:induction false} ReloadFromSuffix(users: seq<string>, k: nat, host: string, timeout: int,
                                            attempt: (seq<string>, int) -> Attempt, last: string)
    requires k <= |users|
    ensures ReloadFrom(users, k, host, timeout, attempt, last) == Reload(users[k..], host, timeout, attempt, last)
    decreases |users| - k
  {
    if k < |users| {
      var a := attempt(ReloadCommand(users[k], host), timeout);
      if !(a.Ran? && a.result.returncode == 0) && !a.TshMissing? {
        ReloadFromSuffix(users, k + 1, host, timeout, attempt, Diagnostic(a).value);
        assert users[k..][1..] == users[k + 1..];
      }
    }
  }

  /** `reload_teleport_on_host`: tries the users in order until one exits 0 or `tsh` is
      missing, keeping the latest diagnostic. */
  method ReloadOnHost(host: string, users: seq<string>, timeout: int, attempt: (seq<string>, int) -> Attempt)
    returns (r: HostResult)
    ensures r == Reload(users, host, timeout, attempt, "")
  {
    var last := "";
    var k := 0;
    ReloadFromSuffix(users, 0, host, timeout, attempt, last);
    assert users[0..] == users;
    while k < |users|
      invariant 0 <= k <= |users|
      invariant Reload(users, host, timeout, attempt, "") == ReloadFrom(users, k, host, timeout, attempt, last)
    {
      var user := users[k];
      var a := attempt(ReloadCommand(user, host), timeout);
      if a.Ran? && a.result.returncode == 0 {
        return HostResult(true, user, "");
      } else if a.TshMissing? {
        return HostResult(false, "", "tsh_not_found");
      }
      last := DiagnosticOf(a);
      k := k + 1;
    }
    return HostResult(false, "", if last != [] then last else "unknown_error");
  }

  /** What the run reports: the normalised arguments' exit, or each host's result in order
      and the number completed. */
  datatype Outcome = Exited(code: int) | Reloaded(results: seq<HostResult>, completed: nat)

  /** `main`: every host is tried in order with the same user list, and each counts as
      completed whatever its result. */
  method ReloadAll(a: Args, attempt: (seq<string>, int) -> Attempt) returns (o: Outcome)
    ensures CommaList(a.hosts) == [] <==> o == Exited(2)
    ensures o.Reloaded? ==> o.completed == |o.results| == |CommaList(a.hosts)|
    ensures o.Reloaded? ==> forall i :: 0 <= i < |o.results| ==>
      o.results[i] == Reload(ParseArguments(a).userList, CommaList(a.hosts)[i], a.timeout, attempt, "")
  {
    var p := ParseArguments(a);
    if p.ExitWith? {
      return Exited(p.code);
    }
    var results: seq<HostResult> := [];
    var completed := 0;
    var k := 0;
    while k < |p.hostList|
      invariant 0 <= k <= |p.hostList|
      invariant completed == |results| == k
      invariant forall i :: 0 <= i < k ==> results[i] == Reload(p.userList, p.hostList[i], p.timeout, attempt, "")
    {
      var r := ReloadOnHost(p.hostList[k], p.userList, p.timeout, attempt);
      results := results + [r];
      completed := completed + 1;
      k := k + 1;
    }
    return Reloaded(results, completed);
  }
}
