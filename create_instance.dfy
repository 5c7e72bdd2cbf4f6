/** The create pipeline (`create-new-test-instance.py`): clone the two repositories, create and
    apply the host's Terraform stack, add the host to the Ansible inventory and email map, run
    the two playbooks against it and import the database, in that order, stopping at the first
    checked command that fails. */
module CreateInstance {
  import opened Common
  import opened Text
  import opened Shell
  import opened Lifecycle

  const Placeholder := "TERRAFORM_STACK_PREFIX_PLACEHOLDER"
  const DefaultEmail := "devops@artofproblemsolving.com"
  const DefaultOfficeVpnIp := "50.203.25.222"
  const SshCommonArgs := "-o UserKnownHostsFile=/dev/null -o StrictHostKeyChecking=no"

  // ---------------------------------------------------------------------------------------
  // Configuration
  // ---------------------------------------------------------------------------------------

  datatype Config = Config(
    prefix: string,
    hostname: string,
    ci: bool,
    debug: bool,
    workspaces: Workspaces,
    vaultPasswordFile: string,
    bootstrapKey: string,
    ansiblecontrolKey: string,
    email: string,
    officeVpnIp: string)

  /** The configuration `main` derives from its arguments, the environment, the home directory
      (for the default key and vault paths) and the random run id. */
  function Configure(args: Args, env: map<string, string>, home: string, runId: string): (c: Config)
    ensures c.hostname == Hostname(args.prefix)
    ensures c.ci <==> args.ci || EnvSet(env, "CI")
    ensures c.workspaces == ResolveWorkspaces(env, args.prefix, runId)
  {
    Config(
      args.prefix,
      Hostname(args.prefix),
      args.ci || EnvSet(env, "CI"),
      args.debug,
      ResolveWorkspaces(env, args.prefix, runId),
      GetEnv(env, "VAULT_PASSWORD_FILE", JoinPath(home, ".aops_ansible_vault_pw")),
      GetEnv(env, "BOOTSTRAP_SSH_KEY", JoinPath(home, ".ssh/bootstrap_key")),
      GetEnv(env, "ANSIBLECONTROL_SSH_KEY", JoinPath(home, ".ssh/ansible_control_key")),
      GetEnv(env, "EMAIL", DefaultEmail),
      GetEnv(env, "OFFICE_VPN_IP", DefaultOfficeVpnIp))
  }

  // ---------------------------------------------------------------------------------------
  // Inventory text
  // ---------------------------------------------------------------------------------------

  /** A line whose trimmed text is exactly `hosts:`. */
  predicate IsHostsLine(line: string) {
    Strip(line) == "hosts:"
  }

  /** The index of the first `hosts:` line, or `|lines|` when there is none. */
  function FirstHostsLine(lines: seq<string>): (k: nat)
    ensures k <= |lines|
  {
    if lines == [] then 0
    else if IsHostsLine(lines[0]) then 0
    else 1 + FirstHostsLine(lines[1..])
  }

  /** The index found is a `hosts:` line, and no line before it is one. */
  lemma {:induction false} FirstHostsLineFacts(lines: seq<string>)
    ensures FirstHostsLine(lines) < |lines| ==> IsHostsLine(lines[FirstHostsLine(lines)])
    ensures forall j :: 0 <= j < FirstHostsLine(lines) ==> !IsHostsLine(lines[j])
  {
    if lines != [] && !IsHostsLine(lines[0]) {
      FirstHostsLineFacts(lines[1..]);
      forall j | 0 <= j < FirstHostsLine(lines) ensures !IsHostsLine(lines[j]) {
        if j > 0 {
          assert lines[j] == lines[1..][j - 1];
        }
      }
    }
  }

  /** The search comes back empty exactly when no line is a `hosts:` line. */
  lemma NoHostsLineIff(lines: seq<string>)
    ensures FirstHostsLine(lines) == |lines| <==> forall i :: 0 <= i < |lines| ==> !IsHostsLine(lines[i])
  {
    FirstHostsLineFacts(lines);
  }

  /** Scanning from the start, the first `hosts:` line is the first line that passes the test. */
  lemma FirstHostsLineScan(lines: seq<string>, i: nat)
    requires i < |lines| && i <= FirstHostsLine(lines)
    ensures IsHostsLine(lines[i]) <==> i == FirstHostsLine(lines)
  {
    FirstHostsLineFacts(lines);
  }

  function Spaces(n: nat): (r: string)
    ensures |r| == n && forall i :: 0 <= i < n ==> r[i] == ' '
  {
    seq(n, _ => ' ')
  }

  /** The inventory line for a new host under `line`: two more spaces of indentation than
      `line` has, then `<hostname>:` and a newline. */
  function HostEntry(line: string, hostname: string): (r: string)
    ensures |r| == |line| - |LStrip(line)| + 2 + |hostname| + 2
  {
    Spaces(|line| - |LStrip(line)| + 2) + hostname + ":\n"
  }

  /** `lines` with `e` added right after index `k`. */
  function InsertAfter(lines: seq<string>, k: nat, e: string): seq<string>
    requires k < |lines|
  {
    lines[..k + 1] + [e] + lines[k + 1..]
  }

  /** Inserting after `k` keeps every line in order and adds exactly one, at `k + 1`. */
  lemma InsertAfterKeeps(lines: seq<string>, k: nat, e: string)
    requires k < |lines|
    ensures |InsertAfter(lines, k, e)| == |lines| + 1
    ensures InsertAfter(lines, k, e)[..k + 1] + InsertAfter(lines, k, e)[k + 2..] == lines
    ensures InsertAfter(lines, k, e)[..k + 1] == lines[..k + 1]
    ensures InsertAfter(lines, k, e)[k + 1] == e
  {
    var r := InsertAfter(lines, k, e);
    assert r[..k + 1] == lines[..k + 1];
    assert r[k + 2..] == lines[k + 1..];
    assert lines[..k + 1] + lines[k + 1..] == lines;
  }

  /** The lines of `add_host_to_inventory`'s output. */
  function InsertHostLine(lines: seq<string>, hostname: string): seq<string> {
    var k := FirstHostsLine(lines);
    if k == |lines| then lines else InsertAfter(lines, k, HostEntry(lines[k], hostname))
  }

  /** The inventory text `add_host_to_inventory` writes back. */
  function AddHostText(text: string, hostname: string): string {
    Concat(InsertHostLine(SplitLinesKeepEnds(text), hostname))
  }

  /** With a `hosts:` line at `k` (the first one), every original line is kept in order and
      exactly one line is added, right after line `k`: the host's entry. */
  lemma InsertKeepsLines(lines: seq<string>, hostname: string, k: nat)
    requires k == FirstHostsLine(lines) && k < |lines|
    ensures |InsertHostLine(lines, hostname)| == |lines| + 1
    ensures InsertHostLine(lines, hostname)[..k + 1] + InsertHostLine(lines, hostname)[k + 2..] == lines
    ensures InsertHostLine(lines, hostname)[k + 1] == HostEntry(lines[k], hostname)
  {
    InsertAfterKeeps(lines, k, HostEntry(lines[k], hostname));
  }

  /** Without a `hosts:` line the inventory is written back unchanged, and nothing signals it. */
  lemma NoHostsLineUnchanged(text: string, hostname: string, lines: seq<string>)
    requires lines == SplitLinesKeepEnds(text)
    requires forall i :: 0 <= i < |lines| ==> !IsHostsLine(lines[i])
    ensures AddHostText(text, hostname) == text
  {
    FirstHostsLineFacts(lines);
  }

  /** Concatenating after an insertion splices the new line's text into the old text. */
  lemma ConcatInsertAfter(lines: seq<string>, k: nat, e: string)
    requires k < |lines|
    ensures Concat(lines) == Concat(lines[..k + 1]) + Concat(lines[k + 1..])
    ensures Concat(InsertAfter(lines, k, e)) == Concat(lines[..k + 1]) + e + Concat(lines[k + 1..])
  {
    ConcatAppend(lines[..k + 1] + [e], lines[k + 1..]);
    ConcatAppend(lines[..k + 1], [e]);
    assert Concat([e]) == e;
    ConcatAppend(lines[..k + 1], lines[k + 1..]);
    assert lines[..k + 1] + lines[k + 1..] == lines;
  }

  /** The entry line names the host, followed by the colon. */
  lemma EntryNamesHost(line: string, hostname: string)
    ensures Contains(HostEntry(line, hostname), hostname + ":")
  {
    var sp := Spaces(|line| - |LStrip(line)| + 2);
    assert HostEntry(line, hostname) == sp + (hostname + ":") + "\n";
    assert OccursAt(hostname + ":", hostname + ":", 0);
    ContainsAt(hostname + ":", hostname + ":", 0);
    ContainsInside(sp, hostname + ":", "\n", hostname + ":");
  }

  /** With a `hosts:` line at `k`, the text is the original with the entry spliced in after that
      line, and it names the host. */
  lemma InsertedText(text: string, hostname: string, lines: seq<string>, k: nat)
    requires lines == SplitLinesKeepEnds(text) && k == FirstHostsLine(lines) && k < |lines|
    ensures text == Concat(lines[..k + 1]) + Concat(lines[k + 1..])
    ensures AddHostText(text, hostname)
         == Concat(lines[..k + 1]) + HostEntry(lines[k], hostname) + Concat(lines[k + 1..])
    ensures Contains(AddHostText(text, hostname), hostname + ":")
  {
    var e := HostEntry(lines[k], hostname);
    assert InsertHostLine(lines, hostname) == InsertAfter(lines, k, e);
    ConcatInsertAfter(lines, k, e);
    EntryNamesHost(lines[k], hostname);
    ContainsInside(Concat(lines[..k + 1]), e, Concat(lines[k + 1..]), hostname + ":");
  }

  /** When the `hosts:` line is the last line and has no newline, the entry is glued onto it:
      the output is the old text followed directly by the entry. */
  lemma GluedEntry(text: string, hostname: string, lines: seq<string>)
    requires lines == SplitLinesKeepEnds(text) && |lines| > 0 && FirstHostsLine(lines) == |lines| - 1
    requires text[|text| - 1] != '\n'
    ensures AddHostText(text, hostname) == text + HostEntry(lines[|lines| - 1], hostname)
  {
    InsertedText(text, hostname, lines, |lines| - 1);
    assert lines[|lines|..] == [];
    assert lines[..|lines|] == lines;
  }

  /** `ensure_host`'s inventory step: insert only when `<hostname>:` does not already occur
      anywhere in the text. */
  function EnsureInventory(text: string, hostname: string): string {
    if Contains(text, hostname + ":") then text else AddHostText(text, hostname)
  }

  /** A second `ensure_host` leaves the inventory as the first one left it. */
  lemma EnsureInventoryIdempotent(text: string, hostname: string)
    ensures EnsureInventory(EnsureInventory(text, hostname), hostname) == EnsureInventory(text, hostname)
  {
    if !Contains(text, hostname + ":") {
      var lines := SplitLinesKeepEnds(text);
      if FirstHostsLine(lines) < |lines| {
        InsertedText(text, hostname, lines, FirstHostsLine(lines));
      } else {
        NoHostsLineIff(lines);
        NoHostsLineUnchanged(text, hostname, lines);
      }
    }
  }

  /** After `ensure_host` the host is named in the inventory, unless the inventory has no
      `hosts:` line to insert under. */
  lemma EnsureInventoryNamesHost(text: string, hostname: string, lines: seq<string>)
    requires lines == SplitLinesKeepEnds(text) && FirstHostsLine(lines) < |lines|
    ensures Contains(EnsureInventory(text, hostname), hostname + ":")
  {
    if !Contains(text, hostname + ":") {
      InsertedText(text, hostname, lines, FirstHostsLine(lines));
    }
  }

  /** The presence test is a substring test: any occurrence of `<hostname>:` counts, even as
      the tail of a longer name (`dev.aopstest.com` beside `mydev.aopstest.com`), and then the
      host is not inserted. */
  lemma SubstringPresence(before: string, hostname: string, after: string)
    ensures EnsureInventory(before + hostname + ":" + after, hostname) == before + hostname + ":" + after
  {
    var p := hostname + ":";
    assert OccursAt(p, p, 0);
    ContainsAt(p, p, 0);
    ContainsInside(before, p, after, p);
    assert before + hostname + ":" + after == before + p + after;
  }

  // ---------------------------------------------------------------------------------------
  // Where the entry lands in the YAML tree
  // ---------------------------------------------------------------------------------------

  /** The whitespace before a line's text. */
  function Indent(line: string): nat {
    |line| - |LStrip(line)|
  }

  /** The line is not blank. */
  predicate HasText(line: string) {
    LStrip(line) != []
  }

  /** The key a block-style YAML line opens: its text up to the first colon. */
  function KeyOf(line: string): string {
    Split(Strip(line), ':')[0]
  }

  /** The nearest of the lines before index `j` that is not blank and is indented less than
      `ind`. */
  function ParentFrom(lines: seq<string>, j: nat, ind: nat): (p: Option<nat>)
    requires j <= |lines|
    ensures p.Some? ==> p.value < j
  {
    if j == 0 then None
    else if HasText(lines[j - 1]) && Indent(lines[j - 1]) < ind then Some(j - 1)
    else ParentFrom(lines, j - 1, ind)
  }

  /** The line whose mapping holds line `i`'s key. */
  function ParentOf(lines: seq<string>, i: nat): (p: Option<nat>)
    requires i < |lines|
    ensures p.Some? ==> p.value < i
  {
    ParentFrom(lines, i, Indent(lines[i]))
  }

  /** The keys from the document's root down to the key line `i` opens (`all`, `hosts`, ...). */
  function KeyPath(lines: seq<string>, i: nat): (r: seq<string>)
    requires i < |lines|
    ensures |r| >= 1 && r[|r| - 1] == KeyOf(lines[i])
    decreases i
  {
    var p := ParentOf(lines, i);
    (if p.Some? then KeyPath(lines, p.value) else []) + [KeyOf(lines[i])]
  }

  /** A path of the form `all.hosts.<name>`, the only place the destroy pipeline's
      `yq 'del(.all.hosts."<name>")'` removes an entry from. */
  predicate UnderAllHosts(path: seq<string>) {
    |path| == 3 && path[..2] == ["all", "hosts"]
  }

  lemma {:induction false} ParentFromPrefix(a: seq<string>, b: seq<string>, j: nat, ind: nat)
    requires j <= |a| && j <= |b| && a[..j] == b[..j]
    ensures ParentFrom(a, j, ind) == ParentFrom(b, j, ind)
    decreases j
  {
    if j > 0 {
      assert a[j - 1] == a[..j][j - 1] && b[j - 1] == b[..j][j - 1];
      assert a[..j - 1] == a[..j][..j - 1] && b[..j - 1] == b[..j][..j - 1];
      ParentFromPrefix(a, b, j - 1, ind);
    }
  }

  /** A line's key path depends only on the lines up to it. */
  lemma {:induction false} KeyPathPrefix(a: seq<string>, b: seq<string>, i: nat)
    requires i < |a| && i < |b| && a[..i + 1] == b[..i + 1]
    ensures KeyPath(a, i) == KeyPath(b, i)
    decreases i
  {
    assert a[i] == a[..i + 1][i] && b[i] == b[..i + 1][i];
    assert a[..i] == a[..i + 1][..i] && b[..i] == b[..i + 1][..i];
    ParentFromPrefix(a, b, i, Indent(a[i]));
    var p := ParentOf(a, i);
    if p.Some? {
      assert a[..p.value + 1] == a[..i + 1][..p.value + 1] && b[..p.value + 1] == b[..i + 1][..p.value + 1];
      KeyPathPrefix(a, b, p.value);
    }
  }

  lemma {:induction false} LStripSpaces(n: nat, rest: string)
    ensures LStrip(Spaces(n) + rest) == LStrip(rest)
    decreases n
  {
    if n > 0 {
      assert (Spaces(n) + rest)[0] == ' ' && IsSpace(' ');
      assert (Spaces(n) + rest)[1..] == Spaces(n - 1) + rest;
      LStripSpaces(n - 1, rest);
    } else {
      assert Spaces(n) + rest == rest;
    }
  }

  /** The entry is indented deeper than the line it follows. */
  lemma EntryIndent(line: string, hostname: string)
    ensures Indent(HostEntry(line, hostname)) > Indent(line)
  {
    var n := |line| - |LStrip(line)| + 2;
    assert HostEntry(line, hostname) == Spaces(n) + (hostname + ":\n");
    LStripSpaces(n, hostname + ":\n");
  }

  /** A line indented deeper than the text line just before it is that line's child. */
  lemma ChildOfPrevious(out: seq<string>, k: nat)
    requires k + 1 < |out| && HasText(out[k]) && Indent(out[k]) < Indent(out[k + 1])
    ensures ParentOf(out, k + 1) == Some(k)
    ensures KeyPath(out, k + 1) == KeyPath(out, k) + [KeyOf(out[k + 1])]
  {
  }

  /** A path ends up at `all.hosts.<key>` exactly when its parent path is `all.hosts`. */
  lemma UnderAllHostsChild(path: seq<string>, key: string)
    ensures UnderAllHosts(path + [key]) <==> path == ["all", "hosts"]
  {
    if |path| == 2 {
      assert (path + [key])[..2] == path;
    }
  }

  /** The new entry is a child of the first `hosts:` line, whatever group that line belongs to:
      its key path is that line's path plus the entry's key. So the host lands at
      `all.hosts.<name>` exactly when the first `hosts:` line is the `hosts` key of `all`; an
      inventory whose first `hosts:` line sits in a child group gets the host where the
      destroy pipeline's removal does not look. */
  lemma EntryPath(lines: seq<string>, hostname: string)
    requires FirstHostsLine(lines) < |lines|
    ensures var k := FirstHostsLine(lines);
      var out := InsertHostLine(lines, hostname);
      k + 1 < |out| && out[k + 1] == HostEntry(lines[k], hostname)
      && ParentOf(out, k + 1) == Some(k)
      && KeyPath(out, k + 1) == KeyPath(lines, k) + [KeyOf(HostEntry(lines[k], hostname))]
    ensures var k := FirstHostsLine(lines);
      UnderAllHosts(KeyPath(InsertHostLine(lines, hostname), k + 1)) <==> KeyPath(lines, k) == ["all", "hosts"]
  {
    var k := FirstHostsLine(lines);
    var e := HostEntry(lines[k], hostname);
    var out := InsertHostLine(lines, hostname);
    FirstHostsLineFacts(lines);
    InsertAfterKeeps(lines, k, e);
    assert out[k] == lines[k];
    EntryIndent(lines[k], hostname);
    ChildOfPrevious(out, k);
    assert out[..k + 1] == lines[..k + 1];
    KeyPathPrefix(out, lines, k);
    UnderAllHostsChild(KeyPath(lines, k), KeyOf(e));
  }

  /** A block-style line that opens the mapping `key` at indentation `n`. */
  function KeyLine(n: nat, key: string): string {
    Spaces(n) + key + ":\n"
  }

  lemma KeyLineShape(n: nat, key: string)
    requires key != [] && !IsSpace(key[0])
    ensures LStrip(KeyLine(n, key)) == key + ":\n"
    ensures HasText(KeyLine(n, key)) && Indent(KeyLine(n, key)) == n
  {
    assert KeyLine(n, key) == Spaces(n) + (key + ":\n");
    LStripSpaces(n, key + ":\n");
  }

  lemma KeyLineKey(n: nat, key: string)
    requires PlainKey(key)
    ensures Strip(KeyLine(n, key)) == key + ":" && KeyOf(KeyLine(n, key)) == key
    ensures IsHostsLine(KeyLine(n, key)) <==> key == "hosts"
  {
    var body := key + ":\n";
    KeyLineShape(n, key);
    assert body[..|body| - 1] == key + ":";
    assert IsSpace('\n');
    assert RStrip(body) == RStrip(key + ":");
    assert RStrip(key + ":") == key + ":";
    SplitAfterHead(key, [], ':');
    assert key + [':'] + [] == key + ":";
    if key + ":" == "hosts:" {
      assert key == (key + ":")[..|key|];
    }
  }

  /** A key `KeyLine` can write: not empty, not starting with whitespace, without a colon. */
  predicate PlainKey(key: string) {
    key != [] && !IsSpace(key[0]) && ':' !in key
  }

  /** Five `key:` lines indented 0, 1, 2, 3 and 1 steps deep. */
  function FiveKeyLines(keys: seq<string>, step: nat): (r: seq<string>)
    requires |keys| == 5
    ensures |r| == 5
  {
    [KeyLine(0, keys[0]), KeyLine(step, keys[1]), KeyLine(2 * step, keys[2]), KeyLine(3 * step, keys[3]), KeyLine(step, keys[4])]
  }

  lemma FiveKeyLinesShape(keys: seq<string>, step: nat)
    requires |keys| == 5 && forall i :: 0 <= i < 5 ==> PlainKey(keys[i])
    ensures var lines := FiveKeyLines(keys, step);
      (forall i :: 0 <= i < 5 ==> HasText(lines[i]))
      && Indent(lines[0]) == 0 && Indent(lines[1]) == step && Indent(lines[2]) == 2 * step
      && Indent(lines[3]) == 3 * step && Indent(lines[4]) == step
  {
    KeyLineShape(0, keys[0]);
    KeyLineShape(step, keys[1]);
    KeyLineShape(2 * step, keys[2]);
    KeyLineShape(3 * step, keys[3]);
    KeyLineShape(step, keys[4]);
  }

  lemma FiveKeyLinesKeys(keys: seq<string>, step: nat)
    requires |keys| == 5 && forall i :: 0 <= i < 5 ==> PlainKey(keys[i])
    ensures var lines := FiveKeyLines(keys, step);
      forall i :: 0 <= i < 5 ==> KeyOf(lines[i]) == keys[i] && (IsHostsLine(lines[i]) <==> keys[i] == "hosts")
  {
    KeyLineKey(0, keys[0]);
    KeyLineKey(step, keys[1]);
    KeyLineKey(2 * step, keys[2]);
    KeyLineKey(3 * step, keys[3]);
    KeyLineKey(step, keys[4]);
  }

  /** The key paths of five non-blank lines indented 0, 1, 2, 3 and 1 levels deep. */
  lemma {:induction false} FiveLinePaths(lines: seq<string>, step: nat)
    requires |lines| == 5 && step > 0
    requires forall i :: 0 <= i < 5 ==> HasText(lines[i])
    requires Indent(lines[0]) == 0 && Indent(lines[1]) == step && Indent(lines[2]) == 2 * step
    requires Indent(lines[3]) == 3 * step && Indent(lines[4]) == step
    ensures KeyPath(lines, 3) == [KeyOf(lines[0]), KeyOf(lines[1]), KeyOf(lines[2]), KeyOf(lines[3])]
    ensures KeyPath(lines, 4) == [KeyOf(lines[0]), KeyOf(lines[4])]
  {
    assert ParentOf(lines, 0) == None;
    assert ParentOf(lines, 1) == Some(0);
    assert ParentOf(lines, 2) == Some(1);
    assert ParentOf(lines, 3) == Some(2);
    assert ParentFrom(lines, 2, step) == Some(0);
    assert ParentFrom(lines, 3, step) == Some(0);
    assert ParentOf(lines, 4) == Some(0);
  }

  /** In five such lines, the fourth sits under the first three keys and the fifth directly
      under the first. */
  lemma FiveKeyLinesPaths(keys: seq<string>, step: nat)
    requires |keys| == 5 && step > 0
    requires forall i :: 0 <= i < 5 ==> PlainKey(keys[i])
    ensures KeyPath(FiveKeyLines(keys, step), 3) == keys[..4]
    ensures KeyPath(FiveKeyLines(keys, step), 4) == [keys[0], keys[4]]
  {
    FiveKeyLinesShape(keys, step);
    FiveLinePaths(FiveKeyLines(keys, step), step);
    FiveKeyLinesKeys(keys, step);
  }

  /** In five such lines where only the fourth and fifth keys are `hosts`, the fourth line is
      the first `hosts:` line. */
  lemma FiveKeyLinesHosts(keys: seq<string>, step: nat)
    requires |keys| == 5 && forall i :: 0 <= i < 5 ==> PlainKey(keys[i])
    requires keys[0] != "hosts" && keys[1] != "hosts" && keys[2] != "hosts" && keys[3] == "hosts"
    ensures FirstHostsLine(FiveKeyLines(keys, step)) == 3
  {
    var lines := FiveKeyLines(keys, step);
    FiveKeyLinesKeys(keys, step);
    assert FirstHostsLine(lines[3..]) == 0;
    assert lines[2..][1..] == lines[3..];
    assert FirstHostsLine(lines[2..]) == 1;
    assert lines[1..][1..] == lines[2..];
    assert FirstHostsLine(lines[1..]) == 2;
  }

  /** An inventory indented by `step` spaces per level that lists a child group's hosts before
      the hosts of `all` itself. */
  function GroupFirstInventory(step: nat): seq<string> {
    FiveKeyLines(["all", "children", "web", "hosts", "hosts"], step)
  }

  /** In that inventory the new host goes under `all.children.web.hosts`, although the file has
      an `all.hosts` mapping, which is the only one the destroy pipeline removes hosts from. */
  lemma GroupFirstInventoryMissed(step: nat, hostname: string)
    requires step > 0
    ensures FirstHostsLine(GroupFirstInventory(step)) == 3
    ensures KeyPath(GroupFirstInventory(step), 3) == ["all", "children", "web", "hosts"]
    ensures KeyPath(GroupFirstInventory(step), 4) == ["all", "hosts"]
    ensures !UnderAllHosts(KeyPath(InsertHostLine(GroupFirstInventory(step), hostname), 4))
  {
    var keys := ["all", "children", "web", "hosts", "hosts"];
    assert forall i :: 0 <= i < 5 ==> PlainKey(keys[i]);
    FiveKeyLinesHosts(keys, step);
    FiveKeyLinesPaths(keys, step);
    assert keys[..4] == ["all", "children", "web", "hosts"];
    EntryPath(GroupFirstInventory(step), hostname);
  }

  // ---------------------------------------------------------------------------------------
  // Email map
  // ---------------------------------------------------------------------------------------

  /** The host has an entry in `host_emails` (`None`: the key `host_emails` is missing). */
  predicate HasEmail(emails: Option<map<string, string>>, hostname: string) {
    emails.Some? && hostname in emails.value
  }

  /** `host_emails` after `add_email_for_host`: created when missing, and given
      `hostname -> email` only when the host has no entry. */
  function WithEmail(emails: Option<map<string, string>>, hostname: string, email: string): (r: map<string, string>)
    ensures hostname in r
    ensures HasEmail(emails, hostname) ==> r == emails.value
    ensures !HasEmail(emails, hostname) ==> r[hostname] == email
    ensures forall k :: k != hostname ==> (k in r <==> HasEmail(emails, k))
    ensures forall k :: k in r && k != hostname ==> HasEmail(emails, k) && r[k] == emails.value[k]
  {
    var m := if emails.Some? then emails.value else map[];
    if hostname in m then m else m[hostname := email]
  }

  /** An entry, once made, is never overwritten: adding again with any address changes nothing. */
  lemma WithEmailIdempotent(emails: Option<map<string, string>>, hostname: string, e1: string, e2: string)
    ensures WithEmail(Some(WithEmail(emails, hostname, e1)), hostname, e2) == WithEmail(emails, hostname, e1)
  {
  }

  /** What `yaml.safe_load` makes of `group_vars/all/emails.yml`: the file is missing, the
      document is empty (`None`), its `host_emails` key is `null`, or it is a mapping whose
      `host_emails` is a map (`None`: the key is missing). Only the last can be updated; the
      others raise `FileNotFoundError` or `TypeError`. */
  datatype EmailsDoc = NoEmailsFile | EmptyDocument | NullHostEmails | Loaded(hostEmails: Option<map<string, string>>)

  /** `ensure_host` gets as far as its git commands: `inventory.yml` exists (`None`: it is
      missing) and the email document can be updated. */
  predicate FilesReady(inventory: Option<string>, emails: EmailsDoc) {
    inventory.Some? && emails.Loaded?
  }

  /** `inventory.yml` after `ensure_host`: edited whenever it could be read, even when the
      email file then raises. */
  function InventoryAfter(inventory: Option<string>, hostname: string): Option<string> {
    if inventory.Some? then Some(EnsureInventory(inventory.value, hostname)) else None
  }

  /** The email document after `ensure_host`: given the host's entry when both files could be
      read, untouched otherwise. */
  function EmailsAfter(inventory: Option<string>, emails: EmailsDoc, hostname: string, email: string): EmailsDoc {
    if FilesReady(inventory, emails) then Loaded(Some(WithEmail(emails.hostEmails, hostname, email))) else emails
  }

  /** A second `ensure_host` for the same host leaves both files as the first one left them,
      whatever address it is given and whether or not the first one raised. */
  lemma EnsureHostIdempotent(inventory: Option<string>, emails: EmailsDoc, hostname: string, e1: string, e2: string)
    ensures var inventory1 := InventoryAfter(inventory, hostname);
      var emails1 := EmailsAfter(inventory, emails, hostname, e1);
      InventoryAfter(inventory1, hostname) == inventory1
      && EmailsAfter(inventory1, emails1, hostname, e2) == emails1
      && FilesReady(inventory1, emails1) == FilesReady(inventory, emails)
  {
    if inventory.Some? {
      EnsureInventoryIdempotent(inventory.value, hostname);
      if emails.Loaded? {
        WithEmailIdempotent(emails.hostEmails, hostname, e1, e2);
      }
    }
  }

  // ---------------------------------------------------------------------------------------
  // InventoryManager
  // ---------------------------------------------------------------------------------------

  /** The commands `ensure_host` runs after editing the two files. */
  function InventoryPlan(root: string, hostname: string): seq<Step> {
    [ Step(Cmd(["git", "add", InventoryFile(root), EmailsFile(root)], Some(root)), true),
      Step(Cmd(["git", "commit", "-m", "Add " + hostname + " to inventory and emails.yml"], Some(root)), false),
      Step(Cmd(["git", "push", "origin", "simple"], Some(root)), true) ]
  }

  /** The loop of `add_host_to_inventory`: copy every line, and right after the first
      `hosts:` line add the host's entry. */
  method InsertHostLoop(lines: seq<string>, hostname: string) returns (out: seq<string>)
    ensures out == InsertHostLine(lines, hostname)
  {
    ghost var k := FirstHostsLine(lines);
    out := [];
    var inserted := false;
    var i := 0;
    while i < |lines|
      invariant 0 <= i <= |lines|
      invariant inserted <==> k < i
      invariant !inserted ==> out == lines[..i]
      invariant inserted ==> out == lines[..k + 1] + [HostEntry(lines[k], hostname)] + lines[k + 1..i]
    {
      var isHosts := IsHostsLine(lines[i]);
      if !inserted {
        FirstHostsLineScan(lines, i);
      }
      assert lines[..i + 1] == lines[..i] + [lines[i]];
      if inserted {
        assert lines[k + 1..i + 1] == lines[k + 1..i] + [lines[i]];
      }
      out := out + [lines[i]];
      if !inserted && isHosts {
        out := out + [HostEntry(lines[i], hostname)];
        inserted := true;
        assert lines[i + 1..i + 1] == [];
      }
      i := i + 1;
    }
    assert lines[..i] == lines;
    if inserted {
      assert out == InsertAfter(lines, k, HostEntry(lines[k], hostname));
    }
  }

  /** The inventory and email files of an Ansible clone: the text of `inventory.yml` (`None`:
      the file is missing), the document of `group_vars/all/emails.yml`, and how often that file
      was rewritten. A method that raises in the source returns `ok == false` here. */
  class InventoryManager {
    const root: string
    var inventory: Option<string>
    var emails: EmailsDoc
    var emailsWrites: nat

    constructor (root: string, inventory: Option<string>, emails: EmailsDoc)
      ensures this.root == root && this.inventory == inventory && this.emails == emails
      ensures emailsWrites == 0
    {
      this.root := root;
      this.inventory := inventory;
      this.emails := emails;
      emailsWrites := 0;
    }

    /** `add_host_to_inventory`: copy the lines, splicing the host's entry in after the first
        `hosts:` line, and write the result back; a missing file raises and changes nothing. */
    method AddHostToInventory(hostname: string) returns (ok: bool)
      modifies this`inventory
      ensures ok <==> old(inventory).Some?
      ensures inventory == if ok then Some(AddHostText(old(inventory).value, hostname)) else old(inventory)
    {
      if inventory.None? {
        return false;
      }
      var lines := SplitLinesKeepEnds(inventory.value);
      var out := InsertHostLoop(lines, hostname);
      inventory := Some(Concat(out));
      ok := true;
    }

    /** `add_email_for_host`: reports whether it added an entry, and rewrites the file exactly
        then; a document it cannot update raises and changes nothing. */
    method AddEmailForHost(hostname: string, email: string) returns (ok: bool, changed: bool)
      modifies this`emails, this`emailsWrites
      ensures ok <==> old(emails).Loaded?
      ensures changed <==> ok && !HasEmail(old(emails).hostEmails, hostname)
      ensures emails == if changed then Loaded(Some(WithEmail(old(emails).hostEmails, hostname, email))) else old(emails)
      ensures emailsWrites == old(emailsWrites) + (if changed then 1 else 0)
    {
      if !emails.Loaded? {
        return false, false;
      }
      var hostEmails := if emails.hostEmails.Some? then emails.hostEmails.value else map[];
      if hostname !in hostEmails {
        hostEmails := hostEmails[hostname := email];
        emails := Loaded(Some(hostEmails));
        emailsWrites := emailsWrites + 1;
        return true, true;
      }
      return true, false;
    }

    /** `ensure_host`: insert the host if its name does not occur in the inventory, add its email
        entry if missing, then `git add` the two files, commit (unchecked) and push. A file that
        cannot be read or updated raises before any git command. */
    method EnsureHost(m: Machine, hostname: string, email: string) returns (ok: bool)
      modifies this`inventory, this`emails, this`emailsWrites, m`trace
      ensures inventory == InventoryAfter(old(inventory), hostname)
      ensures emails == EmailsAfter(old(inventory), old(emails), hostname, email)
      ensures emailsWrites == old(emailsWrites)
        + (if FilesReady(old(inventory), old(emails)) && !HasEmail(old(emails).hostEmails, hostname) then 1 else 0)
      ensures FilesReady(old(inventory), old(emails)) ==>
        m.trace == old(m.trace) + Executed(InventoryPlan(root, hostname), m.exitOf, |old(m.trace)|)
        && ok == !Aborts(InventoryPlan(root, hostname), m.exitOf, |old(m.trace)|)
      ensures !FilesReady(old(inventory), old(emails)) ==> m.trace == old(m.trace) && !ok
    {
      if inventory.None? {
        return false;
      }
      if !Contains(inventory.value, hostname + ":") {
        var _ := AddHostToInventory(hostname);
      }
      var loaded, _ := AddEmailForHost(hostname, email);
      if !loaded {
        return false;
      }
      ok := m.RunPlan(InventoryPlan(root, hostname));
    }
  }

  // ---------------------------------------------------------------------------------------
  // Stages
  // ---------------------------------------------------------------------------------------

  /** `main.tf` as written from the template: every placeholder replaced by the prefix. */
  function RenderMainTf(template: string, prefix: string): string {
    ReplaceAll(template, Placeholder, prefix)
  }

  /** A template made of placeholder-free text around one placeholder gets the prefix there. */
  lemma RenderFillsPlaceholder(head: string, tail: string, prefix: string)
    requires !Contains(head + Placeholder[..|Placeholder| - 1], Placeholder)
    requires !Contains(tail, Placeholder)
    ensures RenderMainTf(head + Placeholder + tail, prefix) == head + prefix + tail
  {
    ReplaceAround(head, tail, Placeholder, prefix);
    ReplaceAbsent(tail, Placeholder, prefix);
  }

  function TerramateCreateCmd(terramatePath: string, hostname: string): Cmd {
    Cmd(["terramate", "create", StackArg(hostname)], Some(terramatePath))
  }

  /** `terraform apply`, with `-auto-approve` exactly in CI mode. */
  function ApplyArgv(ci: bool): (r: seq<string>)
    ensures |r| >= 2 && r[..2] == ["terraform", "apply"]
    ensures "-auto-approve" in r <==> ci
  {
    ["terraform", "apply"] + (if ci then ["-auto-approve"] else [])
  }

  /** The stack is created only when its directory is absent. */
  function StackCreatePlan(terramatePath: string, hostname: string, present: set<string>): seq<Step> {
    if StackPath(terramatePath, hostname) in present then []
    else [Step(TerramateCreateCmd(terramatePath, hostname), true)]
  }

  /** Commit and push the stack, then initialise and apply it. */
  function StackApplyPlan(terramatePath: string, hostname: string, ci: bool): seq<Step> {
    var stack := StackPath(terramatePath, hostname);
    [ Step(Cmd(["git", "add", "."], Some(terramatePath)), true),
      Step(Cmd(["git", "commit", "-m", "Create or update test instance " + hostname], Some(terramatePath)), false),
      Step(Cmd(["git", "push", "origin", "main"], Some(terramatePath)), true),
      Step(Cmd(["terraform", "init"], Some(stack)), true),
      Step(Cmd(ApplyArgv(ci), Some(stack)), true) ]
  }

  function StackPlan(terramatePath: string, hostname: string, ci: bool, present: set<string>): seq<Step> {
    StackCreatePlan(terramatePath, hostname, present) + StackApplyPlan(terramatePath, hostname, ci)
  }

  /** `main.tf` must be written but the template file is missing (`None`): opening it raises
      after `terramate create` and before `git add`. */
  predicate TemplateMissing(terramatePath: string, hostname: string, template: Option<string>, present: set<string>) {
    template.None? && JoinPath(StackPath(terramatePath, hostname), "main.tf") !in present
  }

  /** The commands the stack stage attempts: only the create step when the template is
      missing, the whole stage otherwise. */
  function StackRun(terramatePath: string, hostname: string, ci: bool, template: Option<string>,
                    present: set<string>): seq<Step>
  {
    if TemplateMissing(terramatePath, hostname, template, present) then StackCreatePlan(terramatePath, hostname, present)
    else StackPlan(terramatePath, hostname, ci, present)
  }

  /** A failing commit (nothing to commit, say) does not stop the stage: the run is the one in
      which the commit succeeded. */
  lemma CommitFailureTolerated(terramatePath: string, hostname: string, ci: bool, exitOf: ExitOracle, t: nat)
    ensures var plan := StackApplyPlan(terramatePath, hostname, ci);
      var fixed := (n: nat, c: Cmd) => if n == t + 1 then 0 else exitOf(n, c);
      Aborts(plan, exitOf, t) == Aborts(plan, fixed, t)
      && Executed(plan, exitOf, t) == Executed(plan, fixed, t)
  {
    var plan := StackApplyPlan(terramatePath, hostname, ci);
    var fixed := (n: nat, c: Cmd) => if n == t + 1 then 0 else exitOf(n, c);
    OnlyCheckedCodesMatter(plan, exitOf, fixed, t);
  }

  /** The paths after the stack stage from command index `t`: the stack directory once
      `terramate create` succeeded or was not needed, and its `main.tf` unless the template is
      missing; nothing new when `terramate create` fails. */
  function StackPresent(terramatePath: string, hostname: string, template: Option<string>, present: set<string>,
                        exitOf: ExitOracle, t: nat): set<string> {
    var stack := StackPath(terramatePath, hostname);
    if Aborts(StackCreatePlan(terramatePath, hostname, present), exitOf, t) then present
    else if TemplateMissing(terramatePath, hostname, template, present) then present + {stack}
    else present + {stack, JoinPath(stack, "main.tf")}
  }

  /** The file contents after the stack stage: `main.tf` is rendered from the template only
      when the stack exists and had no `main.tf`; an existing one is never overwritten. */
  function StackFiles(terramatePath: string, hostname: string, template: Option<string>, prefix: string,
                      present: set<string>, files: map<string, string>, exitOf: ExitOracle, t: nat): map<string, string> {
    var mainTf := JoinPath(StackPath(terramatePath, hostname), "main.tf");
    if !Aborts(StackCreatePlan(terramatePath, hostname, present), exitOf, t) && mainTf !in present && template.Some?
    then files[mainTf := RenderMainTf(template.value, prefix)]
    else files
  }

  /** `create_and_apply_terraform_stack`: `terramate create` if the stack directory is absent,
      `main.tf` from the template if it is absent, then commit, push, init and apply. A missing
      template file raises once `main.tf` is needed, so the stage fails after the create step. */
  method CreateAndApplyStack(m: Machine, terramatePath: string, prefix: string, hostname: string,
                             template: Option<string>, ci: bool) returns (ok: bool)
    modifies m`trace, m`present, m`files
    ensures var run := StackRun(terramatePath, hostname, ci, template, old(m.present));
      m.trace == old(m.trace) + Executed(run, m.exitOf, |old(m.trace)|)
      && ok == (!Aborts(run, m.exitOf, |old(m.trace)|) && !TemplateMissing(terramatePath, hostname, template, old(m.present)))
    ensures m.present == StackPresent(terramatePath, hostname, template, old(m.present), m.exitOf, |old(m.trace)|)
    ensures m.files == StackFiles(terramatePath, hostname, template, prefix, old(m.present), old(m.files), m.exitOf, |old(m.trace)|)
  {
    ghost var tr0 := m.trace;
    var stack := StackPath(terramatePath, hostname);
    var create := StackCreatePlan(terramatePath, hostname, m.present);
    var apply := StackApplyPlan(terramatePath, hostname, ci);
    ok := m.RunPlan(create);
    if !ok {
      Halt(tr0, create, apply, m.exitOf);
      return;
    }
    Advance(tr0, create, apply, m.exitOf);
    if stack !in m.present {
      m.present := m.present + {stack};
    }
    var mainTf := JoinPath(stack, "main.tf");
    if mainTf !in m.present {
      if template.None? {
        return false;
      }
      m.files := m.files[mainTf := RenderMainTf(template.value, prefix)];
      m.present := m.present + {mainTf};
    }
    ok := m.RunPlan(apply);
  }

  function PlaybookCmd(playbook: string, key: string, hostname: string, vault: string, root: string): Cmd {
    Cmd(["ansible-playbook", playbook, "--private-key", key, "--limit", hostname,
         "--vault-password-file", vault, "--ssh-common-args", SshCommonArgs], Some(root))
  }

  /** `run_ansible`: the initial setup with the bootstrap key, then the web setup with the
      Ansible control key, both limited to the new host. */
  function AnsiblePlan(c: Config): seq<Step> {
    [ Step(PlaybookCmd("initial_setup.yml", c.bootstrapKey, c.hostname, c.vaultPasswordFile, c.workspaces.ansibleRoot), true),
      Step(PlaybookCmd("web_setup.yml", c.ansiblecontrolKey, c.hostname, c.vaultPasswordFile, c.workspaces.ansibleRoot), true) ]
  }

  /** `import_db`. */
  function ImportPlan(hostname: string): seq<Step> {
    [Step(Cmd(["ssh-import-db.sh", hostname], None), true)]
  }

  const CreateSounds: seq<nat> := [880, 990, 1100]

  /** The commands of the stages after the stack stage. */
  function PostInfraPlan(c: Config, hasPlay: bool): seq<Step> {
    InventoryPlan(c.workspaces.ansibleRoot, c.hostname)
    + (AnsiblePlan(c) + (ImportPlan(c.hostname) + SoundPlan(hasPlay, CreateSounds)))
  }

  /** The stages up to and including the stack stage. */
  function InfraPlan(c: Config, present: set<string>, cloneOf: CloneOracle): seq<Step> {
    ClonePlan(c.workspaces, present, cloneOf)
    + StackPlan(c.workspaces.terramatePath, c.hostname, c.ci, AfterClones(c.workspaces, present, cloneOf))
  }

  /** The template is missing when the stack stage, after the clones, needs it. */
  predicate InfraTemplateMissing(c: Config, template: Option<string>, present: set<string>, cloneOf: CloneOracle) {
    TemplateMissing(c.workspaces.terramatePath, c.hostname, template, AfterClones(c.workspaces, present, cloneOf))
  }

  /** The clone and stack stages return normally: no checked command failed and the template
      was there when needed. */
  predicate InfraOk(c: Config, template: Option<string>, present: set<string>, cloneOf: CloneOracle,
                    exitOf: ExitOracle, t: nat) {
    !Aborts(InfraRun(c, template, present, cloneOf), exitOf, t) && !InfraTemplateMissing(c, template, present, cloneOf)
  }

  /** The commands the clone and stack stages attempt. */
  function InfraRun(c: Config, template: Option<string>, present: set<string>, cloneOf: CloneOracle): seq<Step> {
    ClonePlan(c.workspaces, present, cloneOf)
    + StackRun(c.workspaces.terramatePath, c.hostname, c.ci, template, AfterClones(c.workspaces, present, cloneOf))
  }

  /** Every command `main` may run, in order, given the paths present at the start. */
  function ProvisionPlan(c: Config, present: set<string>, cloneOf: CloneOracle, hasPlay: bool): seq<Step> {
    InfraPlan(c, present, cloneOf) + PostInfraPlan(c, hasPlay)
  }

  /** The programs the clone and stack stages call. */
  const InfraPrograms: set<string> := {"git", "terramate", "terraform"}

  /** Every command of the clone and stack stages is `git`, `terramate` or `terraform`. */
  lemma InfraProgramsOnly(c: Config, present: set<string>, cloneOf: CloneOracle)
    ensures forall i :: 0 <= i < |InfraPlan(c, present, cloneOf)| ==>
      InfraPlan(c, present, cloneOf)[i].cmd.argv != [] && InfraPlan(c, present, cloneOf)[i].cmd.argv[0] in InfraPrograms
  {
    var w := c.workspaces;
    var a := ClonePlan(w, present, cloneOf);
    var b := StackPlan(w.terramatePath, c.hostname, c.ci, AfterClones(w, present, cloneOf));
    var b1 := StackCreatePlan(w.terramatePath, c.hostname, AfterClones(w, present, cloneOf));
    var b2 := StackApplyPlan(w.terramatePath, c.hostname, c.ci);
    assert forall i :: 0 <= i < |a| ==> a[i].cmd.argv != [] && a[i].cmd.argv[0] == "git";
    assert forall i :: 0 <= i < |b1| ==> b1[i].cmd.argv != [] && b1[i].cmd.argv[0] == "terramate";
    assert forall i :: 0 <= i < |b2| ==> b2[i].cmd.argv != [] && b2[i].cmd.argv[0] in InfraPrograms;
    assert forall i :: 0 <= i < |b| ==> b[i] == if i < |b1| then b1[i] else b2[i - |b1|];
  }

  /** If cloning or the stack stage fails (a failing `terraform apply`, say), the run exits 1
      with only those stages' commands run: no playbook, no database import, no sound. */
  lemma InfraFailureStopsProvisioning(c: Config, present: set<string>, cloneOf: CloneOracle, hasPlay: bool,
                                      exitOf: ExitOracle, t: nat)
    requires Aborts(InfraPlan(c, present, cloneOf), exitOf, t)
    ensures Aborts(ProvisionPlan(c, present, cloneOf, hasPlay), exitOf, t)
    ensures Executed(ProvisionPlan(c, present, cloneOf, hasPlay), exitOf, t) == Executed(InfraPlan(c, present, cloneOf), exitOf, t)
    ensures forall cmd :: cmd in Executed(ProvisionPlan(c, present, cloneOf, hasPlay), exitOf, t) ==>
      cmd.argv != [] && cmd.argv[0] in InfraPrograms
  {
    var infra := InfraPlan(c, present, cloneOf);
    StopsAfterAbort(infra, PostInfraPlan(c, hasPlay), exitOf, t);
    ExecutedPrefix(infra, exitOf, t);
    InfraProgramsOnly(c, present, cloneOf);
    var r := Executed(infra, exitOf, t);
    forall cmd | cmd in r
      ensures cmd.argv != [] && cmd.argv[0] in InfraPrograms
    {
      var i :| 0 <= i < |r| && r[i] == cmd;
      assert cmd == infra[i].cmd;
    }
  }

  /** With the template missing, the clone and stack stages attempt at most the clones and
      `terramate create`: the stack is neither committed, pushed, initialised nor applied. A
      template that is present, or a `main.tf` that already exists, leaves the whole stage. */
  lemma MissingTemplateNoApply(c: Config, template: Option<string>, present: set<string>, cloneOf: CloneOracle)
    ensures var run := InfraRun(c, template, present, cloneOf);
      InfraTemplateMissing(c, template, present, cloneOf) ==>
        |run| <= |ClonePlan(c.workspaces, present, cloneOf)| + 1
        && forall i :: 0 <= i < |run| ==>
             |run[i].cmd.argv| >= 2 && run[i].cmd.argv[0] in {"git", "terramate"}
             && run[i].cmd.argv[1] in {"clone", "checkout", "create"}
    ensures !InfraTemplateMissing(c, template, present, cloneOf) ==> InfraRun(c, template, present, cloneOf) == InfraPlan(c, present, cloneOf)
  {
    var w := c.workspaces;
    var a := ClonePlan(w, present, cloneOf);
    var b := StackCreatePlan(w.terramatePath, c.hostname, AfterClones(w, present, cloneOf));
    if InfraTemplateMissing(c, template, present, cloneOf) {
      var run := a + b;
      assert forall i :: 0 <= i < |a| ==>
        |a[i].cmd.argv| >= 2 && a[i].cmd.argv[0] == "git" && a[i].cmd.argv[1] in {"clone", "checkout"};
      assert forall i :: 0 <= i < |b| ==> |b[i].cmd.argv| >= 2 && b[i].cmd.argv[..2] == ["terramate", "create"];
      assert forall i :: 0 <= i < |run| ==> run[i] == if i < |a| then a[i] else b[i - |a|];
    }
  }

  /** The paths after the clone and stack stages from command index `t`. */
  function InfraPresent(c: Config, template: Option<string>, present: set<string>, cloneOf: CloneOracle,
                        exitOf: ExitOracle, t: nat): set<string> {
    var w := c.workspaces;
    var clone := ClonePlan(w, present, cloneOf);
    if Aborts(clone, exitOf, t) then ClonedPresent(w, present, cloneOf, exitOf, t)
    else StackPresent(w.terramatePath, c.hostname, template, AfterClones(w, present, cloneOf), exitOf, t + |clone|)
  }

  /** The file contents after the clone and stack stages from command index `t`. */
  function InfraFiles(c: Config, template: Option<string>, present: set<string>, files: map<string, string>,
                      cloneOf: CloneOracle, exitOf: ExitOracle, t: nat): map<string, string> {
    var w := c.workspaces;
    var clone := ClonePlan(w, present, cloneOf);
    if Aborts(clone, exitOf, t) then files
    else StackFiles(w.terramatePath, c.hostname, template, c.prefix, AfterClones(w, present, cloneOf), files, exitOf, t + |clone|)
  }

  /** The clone and stack stages only add paths; when both succeed the stack directory and its
      `main.tf` exist, and a `main.tf` that was not there before holds the rendered template. */
  lemma BuiltStackExists(c: Config, template: Option<string>, present: set<string>, files: map<string, string>,
                         cloneOf: CloneOracle, exitOf: ExitOracle, t: nat)
    ensures present <= InfraPresent(c, template, present, cloneOf, exitOf, t)
    ensures var stack := StackPath(c.workspaces.terramatePath, c.hostname);
      var mainTf := JoinPath(stack, "main.tf");
      var after := InfraPresent(c, template, present, cloneOf, exitOf, t);
      var written := InfraFiles(c, template, present, files, cloneOf, exitOf, t);
      !Aborts(InfraPlan(c, present, cloneOf), exitOf, t) && !InfraTemplateMissing(c, template, present, cloneOf) ==>
        stack in after && mainTf in after
        && (mainTf !in AfterClones(c.workspaces, present, cloneOf) ==>
              template.Some? && mainTf in written && written[mainTf] == RenderMainTf(template.value, c.prefix))
  {
    var w := c.workspaces;
    var clone := ClonePlan(w, present, cloneOf);
    var cloned := AfterClones(w, present, cloneOf);
    ClonedPresentFacts(w, present, cloneOf, exitOf, t);
    AbortsAppend(clone, StackPlan(w.terramatePath, c.hostname, c.ci, cloned), exitOf, t);
    AbortsAppend(StackCreatePlan(w.terramatePath, c.hostname, cloned), StackApplyPlan(w.terramatePath, c.hostname, c.ci), exitOf, t + |clone|);
  }

  /** Steps 1 and 2 of `main`: clone what is missing, then create and apply the stack. */
  method BuildInfra(m: Machine, c: Config, template: Option<string>) returns (ok: bool)
    modifies m`trace, m`present, m`files
    ensures m.trace == old(m.trace) + Executed(InfraRun(c, template, old(m.present), m.cloneOf), m.exitOf, |old(m.trace)|)
    ensures ok == InfraOk(c, template, old(m.present), m.cloneOf, m.exitOf, |old(m.trace)|)
    ensures m.present == InfraPresent(c, template, old(m.present), m.cloneOf, m.exitOf, |old(m.trace)|)
    ensures m.files == InfraFiles(c, template, old(m.present), old(m.files), m.cloneOf, m.exitOf, |old(m.trace)|)
  {
    var w := c.workspaces;
    ghost var tr0 := m.trace;
    ghost var present0 := m.present;
    ghost var clone := ClonePlan(w, m.present, m.cloneOf);
    ghost var stack := StackRun(w.terramatePath, c.hostname, c.ci, template, AfterClones(w, m.present, m.cloneOf));
    ok := CloneRepos(m, w);
    if !ok {
      Halt(tr0, clone, stack, m.exitOf);
      return;
    }
    Advance(tr0, clone, stack, m.exitOf);
    ExecutedLength(clone, m.exitOf, |tr0|);
    ClonedPresentFacts(w, present0, m.cloneOf, m.exitOf, |tr0|);
    ok := CreateAndApplyStack(m, w.terramatePath, c.prefix, c.hostname, template, c.ci);
  }

  /** Steps 3 to 5 of `main` and the closing sounds: add the host to the inventory and email
      map, run the two playbooks, import the database, then play the sounds. The files are
      edited whatever the git commands that follow the edit do. */
  method ConfigureHost(m: Machine, inv: InventoryManager, c: Config, hasPlay: bool) returns (ok: bool)
    requires inv.root == c.workspaces.ansibleRoot
    modifies m`trace, inv`inventory, inv`emails, inv`emailsWrites
    ensures FilesReady(old(inv.inventory), old(inv.emails)) ==>
      m.trace == old(m.trace) + Executed(PostInfraPlan(c, hasPlay), m.exitOf, |old(m.trace)|)
      && ok == !Aborts(PostInfraPlan(c, hasPlay), m.exitOf, |old(m.trace)|)
    ensures !FilesReady(old(inv.inventory), old(inv.emails)) ==> m.trace == old(m.trace) && !ok
    ensures inv.inventory == InventoryAfter(old(inv.inventory), c.hostname)
    ensures inv.emails == EmailsAfter(old(inv.inventory), old(inv.emails), c.hostname, c.email)
  {
    var ready := FilesReady(inv.inventory, inv.emails);
    ghost var tr0 := m.trace;
    ghost var inventory := InventoryPlan(c.workspaces.ansibleRoot, c.hostname);
    var ansible := AnsiblePlan(c);
    var importDb := ImportPlan(c.hostname);
    ghost var sounds := SoundPlan(hasPlay, CreateSounds);
    ok := inv.EnsureHost(m, c.hostname, c.email);
    if !ready {
      return;
    }
    if !ok {
      Halt(tr0, inventory, ansible + (importDb + sounds), m.exitOf);
      return;
    }
    Advance(tr0, inventory, ansible + (importDb + sounds), m.exitOf);
    ghost var tr1 := m.trace;
    ok := m.RunPlan(ansible);
    if !ok {
      Halt(tr1, ansible, importDb + sounds, m.exitOf);
      return;
    }
    Advance(tr1, ansible, importDb + sounds, m.exitOf);
    ghost var tr2 := m.trace;
    ok := m.RunPlan(importDb);
    if !ok {
      Halt(tr2, importDb, sounds, m.exitOf);
      return;
    }
    Advance(tr2, importDb, sounds, m.exitOf);
    ghost var tr3 := m.trace;
    PlaySounds(m, hasPlay, CreateSounds);
    SoundsAllRun(hasPlay, CreateSounds, m.exitOf, |tr3|);
    UncheckedNeverAborts(sounds, m.exitOf, |tr3|);
  }

  /** `main`: derive the configuration, open the log unless in debug mode, run the stages in
      order and play the closing sounds; any exception exits 1. The inventory manager stands for
      the files of the Ansible clone. */
  method Provision(m: Machine, inv: InventoryManager, args: Args, env: map<string, string>, home: string,
                   runId: string, template: Option<string>, hasPlay: bool) returns (exitCode: int, logOpened: bool)
    requires inv.root == Configure(args, env, home, runId).workspaces.ansibleRoot
    modifies m, inv
    ensures logOpened == !args.debug
    ensures var c := Configure(args, env, home, runId);
      !InfraOk(c, template, old(m.present), m.cloneOf, m.exitOf, |old(m.trace)|) ==>
        m.trace == old(m.trace) + Executed(InfraRun(c, template, old(m.present), m.cloneOf), m.exitOf, |old(m.trace)|)
        && exitCode == 1
    ensures var c := Configure(args, env, home, runId);
      InfraOk(c, template, old(m.present), m.cloneOf, m.exitOf, |old(m.trace)|) && !FilesReady(old(inv.inventory), old(inv.emails)) ==>
        m.trace == old(m.trace) + Executed(InfraPlan(c, old(m.present), m.cloneOf), m.exitOf, |old(m.trace)|)
        && exitCode == 1
    ensures var c := Configure(args, env, home, runId);
      var plan := ProvisionPlan(c, old(m.present), m.cloneOf, hasPlay);
      InfraOk(c, template, old(m.present), m.cloneOf, m.exitOf, |old(m.trace)|) && FilesReady(old(inv.inventory), old(inv.emails)) ==>
        m.trace == old(m.trace) + Executed(plan, m.exitOf, |old(m.trace)|)
        && exitCode == (if Aborts(plan, m.exitOf, |old(m.trace)|) then 1 else 0)
    ensures var c := Configure(args, env, home, runId);
      !InfraOk(c, template, old(m.present), m.cloneOf, m.exitOf, |old(m.trace)|) ==>
        inv.inventory == old(inv.inventory) && inv.emails == old(inv.emails)
    ensures var c := Configure(args, env, home, runId);
      InfraOk(c, template, old(m.present), m.cloneOf, m.exitOf, |old(m.trace)|) ==>
        inv.inventory == InventoryAfter(old(inv.inventory), c.hostname)
        && inv.emails == EmailsAfter(old(inv.inventory), old(inv.emails), c.hostname, c.email)
    ensures var c := Configure(args, env, home, runId);
      m.present == InfraPresent(c, template, old(m.present), m.cloneOf, m.exitOf, |old(m.trace)|)
      && m.files == InfraFiles(c, template, old(m.present), old(m.files), m.cloneOf, m.exitOf, |old(m.trace)|)
  {
    var c := Configure(args, env, home, runId);
    logOpened := !c.debug;
    ghost var tr0 := m.trace;
    ghost var present0 := m.present;
    ghost var infra := InfraPlan(c, m.present, m.cloneOf);
    var ok := BuildInfra(m, c, template);
    if !ok {
      return 1, logOpened;
    }
    MissingTemplateNoApply(c, template, present0, m.cloneOf);
    Advance(tr0, infra, PostInfraPlan(c, hasPlay), m.exitOf);
    ok := ConfigureHost(m, inv, c, hasPlay);
    exitCode := if ok then 0 else 1;
  }
}
