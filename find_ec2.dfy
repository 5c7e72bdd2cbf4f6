/** find-ec2: runs show-instances once per AWS profile (through `assume`) and keeps the CSV
    lines that contain one of the search terms, with the first field replaced by the profile.

    The profile listing and every show-instances run are inputs: the completed process, or
    `None` when the script is missing or the call raised. */
module FindEc2 {
  import opened Common
  import opened Text
  import opened Lists
  import Ec2

  // ---------------------------------------------------------------------------------------
  // Search terms
  // ---------------------------------------------------------------------------------------

  /** `term.strip().lower() in line_lower` for one term. */
  predicate TermIn(lineLower: string, term: string) {
    Contains(lineLower, Lower(Strip(term)))
  }

  /** `any(term.strip().lower() in line_lower for term in search_terms)`. */
  predicate Matches(line: string, terms: seq<string>) {
    exists i :: 0 <= i < |terms| && TermIn(Lower(line), terms[i])
  }

  /** A term that strips to nothing (`--search ""`, or a stray comma) keeps every line. */
  lemma EmptyTermMatchesAll(line: string, terms: seq<string>, i: int)
    requires 0 <= i < |terms| && Strip(terms[i]) == []
    ensures Matches(line, terms)
  {
    assert Lower(Strip(terms[i])) == [];
    ContainsEmpty(Lower(line));
    assert TermIn(Lower(line), terms[i]);
  }

  /** The `any(...)` loop: stops at the first term found. */
  method AnyTermIn(lineLower: string, terms: seq<string>) returns (found: bool)
    ensures found <==> exists i :: 0 <= i < |terms| && TermIn(lineLower, terms[i])
  {
    found := false;
    var i := 0;
    while i < |terms| && !found
      invariant 0 <= i <= |terms|
      invariant found <==> exists j :: 0 <= j < i && TermIn(lineLower, terms[j])
    {
      found := TermIn(lineLower, terms[i]);
      i := i + 1;
    }
  }

  // ---------------------------------------------------------------------------------------
  // Line filter
  // ---------------------------------------------------------------------------------------

  /** What the filter of `run_show_instances_script` makes of one output line: the header and
      lines matching no term are dropped, and so are lines of fewer than 7 comma fields; the
      rest are kept with field 0 replaced by the account. */
  function FilterLine(line: string, terms: seq<string>, account: string): Option<string> {
    if StartsWith(line, Ec2.Header) || !Matches(line, terms) then None
    else
      var parts := Split(line, ',');
      if |parts| >= 7 then Some(Join([account] + parts[1..], ',')) else None
  }

  /** The kept lines of a whole output, in order. */
  function FilterLines(lines: seq<string>, terms: seq<string>, account: string): seq<string> {
    FilterMap(lines, line => FilterLine(line, terms, account))
  }

  /** A kept line has the account as its first field and the original line's other fields,
      unchanged and in order; it came from a non-header line of at least 7 fields matching a
      term. */
  lemma FilterLineFields(line: string, terms: seq<string>, account: string)
    requires ',' !in account && FilterLine(line, terms, account).Some?
    ensures var o := FilterLine(line, terms, account).value;
      Split(o, ',') == [account] + Split(line, ',')[1..]
      && |Split(line, ',')| >= 7 && !StartsWith(line, Ec2.Header) && Matches(line, terms)
  {
    var parts := Split(line, ',');
    var fields := [account] + parts[1..];
    forall i | 0 <= i < |fields| ensures ',' !in fields[i] {
      if i > 0 {
        assert fields[i] == parts[i];
      }
    }
    SplitJoin(fields, ',');
  }

  /** A line is kept exactly when it is not the header, matches a term and has at least 7
      fields. */
  lemma FilterLineKept(line: string, terms: seq<string>, account: string)
    ensures FilterLine(line, terms, account).Some?
      <==> !StartsWith(line, Ec2.Header) && Matches(line, terms) && |Split(line, ',')| >= 7
  {
  }

  /** Filtering a concatenation filters each part: kept lines stay in input order. */
  lemma FilterLinesAppend(a: seq<string>, b: seq<string>, terms: seq<string>, account: string)
    ensures FilterLines(a + b, terms, account) == FilterLines(a, terms, account) + FilterLines(b, terms, account)
  {
    FilterMapAppend(a, b, line => FilterLine(line, terms, account));
  }

  /** The output lines are exactly the kept lines: each comes from an input line, and each
      input line that passes the filter yields one. */
  lemma FilterLinesMember(lines: seq<string>, terms: seq<string>, account: string, o: string)
    ensures o in FilterLines(lines, terms, account) <==> exists i :: 0 <= i < |lines| && KeptAs(lines[i], terms, account, o)
  {
    FilterMapMember(lines, line => FilterLine(line, terms, account), o);
  }

  /** The line `line` is kept and becomes `o`. */
  predicate KeptAs(line: string, terms: seq<string>, account: string, o: string) {
    FilterLine(line, terms, account) == Some(o)
  }

  /** The loop over `result.stdout.splitlines()`, overwriting `parts[0]` before joining. */
  method FilterOutput(stdout: string, terms: seq<string>, account: string) returns (filtered: seq<string>)
    ensures filtered == FilterLines(SplitLines(stdout), terms, account)
  {
    var lines := SplitLines(stdout);
    filtered := [];
    var k := 0;
    while k < |lines|
      invariant 0 <= k <= |lines|
      invariant filtered == FilterLines(lines[..k], terms, account)
    {
      var line := lines[k];
      FilterMapStep(lines, k, line => FilterLine(line, terms, account));
      if !StartsWith(line, Ec2.Header) {
        var found := AnyTermIn(Lower(line), terms);
        if found {
          var parts := Split(line, ',');
          if |parts| >= 7 {
            parts := parts[0 := account];
            assert parts == [account] + Split(line, ',')[1..];
            filtered := filtered + [Join(parts, ',')];
          }
        }
      }
      k := k + 1;
    }
    assert lines[..k] == lines;
  }

  // ---------------------------------------------------------------------------------------
  // Running show-instances
  // ---------------------------------------------------------------------------------------

  /** The command of `run_show_instances_script`; `--sort` is passed on when one was given. */
  function ShowCommand(account: string, script: string, sort: Option<string>): (argv: seq<string>)
    ensures |argv| == 6 || |argv| == 8
    ensures argv[..6] == ["assume", account, "--exec", "--", "python", script]
    ensures |argv| == 8 <==> sort.Some? && sort.value != []
    ensures |argv| == 8 ==> argv[6..] == ["--sort", sort.value]
  {
    var cmd := ["assume", account, "--exec", "--", "python", script];
    if sort.Some? && sort.value != [] then cmd + ["--sort", sort.value] else cmd
  }

  /** The lines one account contributes: none when the run failed or could not start. */
  function AccountLines(reply: Option<Completed>, terms: seq<string>, account: string): seq<string> {
    if reply.Some? && reply.value.returncode == 0 then FilterLines(SplitLines(reply.value.stdout), terms, account)
    else []
  }

  /** `run_show_instances_script`. */
  method RunShowInstances(reply: Option<Completed>, terms: seq<string>, account: string) returns (lines: seq<string>)
    ensures lines == AccountLines(reply, terms, account)
    ensures reply.None? || reply.value.returncode != 0 ==> lines == []
  {
    if reply.None? || reply.value.returncode != 0 {
      return [];
    }
    lines := FilterOutput(reply.value.stdout, terms, account);
  }

  // ---------------------------------------------------------------------------------------
  // Profiles
  // ---------------------------------------------------------------------------------------

  /** `get_aws_profiles`: the stripped non-empty lines of list-aws-profiles' output, cut to the
      first `limit` when a positive limit is given; nothing when the listing failed. */
  function Profiles(listing: Option<Completed>, limit: Option<int>): (r: seq<string>)
    ensures forall i :: 0 <= i < |r| ==> r[i] != [] && IsStripped(r[i])
    ensures limit.Some? && limit.value > 0 ==> |r| <= limit.value
    ensures listing.None? || listing.value.returncode != 0 ==> r == []
  {
    if listing.Some? && listing.value.returncode == 0 then
      Limit(StrippedNonEmpty(SplitLines(listing.value.stdout)), limit)
    else []
  }

  /** A profile is the strip of some non-blank output line, and, with no effective limit, every
      such line gives one. */
  lemma ProfilesMember(out: string, limit: Option<int>, p: string)
    ensures p in Profiles(Some(Completed(0, out, [])), limit)
      ==> p != [] && exists i :: 0 <= i < |SplitLines(out)| && Strip(SplitLines(out)[i]) == p
    ensures (limit.None? || limit.value <= 0) ==> (p in Profiles(Some(Completed(0, out, [])), limit) <==> p != [] && exists i :: 0 <= i < |SplitLines(out)| && Strip(SplitLines(out)[i]) == p)
  {
    var all := StrippedNonEmpty(SplitLines(out));
    StrippedNonEmptyMember(SplitLines(out), p);
    var r := Limit(all, limit);
    if p in r {
      var k :| 0 <= k < |r| && r[k] == p;
      assert all[k] == p;
    }
  }

  // ---------------------------------------------------------------------------------------
  // Main
  // ---------------------------------------------------------------------------------------

  /** The result lines of the accounts, account by account in list order. */
  function AllLines(accounts: seq<string>, terms: seq<string>, script: string, sort: Option<string>,
                    showOf: seq<string> -> Option<Completed>): seq<string>
  {
    if accounts == [] then []
    else
      var a := accounts[|accounts| - 1];
      AllLines(accounts[..|accounts| - 1], terms, script, sort, showOf)
      + AccountLines(showOf(ShowCommand(a, script, sort)), terms, a)
  }

  /** One more account: its lines follow those of the accounts before it. */
  lemma AllLinesStep(accounts: seq<string>, k: nat, terms: seq<string>, script: string, sort: Option<string>,
                     showOf: seq<string> -> Option<Completed>)
    requires k < |accounts|
    ensures AllLines(accounts[..k + 1], terms, script, sort, showOf)
      == AllLines(accounts[..k], terms, script, sort, showOf)
         + AccountLines(showOf(ShowCommand(accounts[k], script, sort)), terms, accounts[k])
  {
    assert accounts[..k + 1][..k] == accounts[..k];
  }

  /** The loop of `main` over the accounts, each one's lines printed in turn. */
  method RunAccounts(accounts: seq<string>, terms: seq<string>, script: string, sort: Option<string>,
                     showOf: seq<string> -> Option<Completed>)
    returns (lines: seq<string>)
    ensures lines == AllLines(accounts, terms, script, sort, showOf)
  {
    lines := [];
    var k := 0;
    while k < |accounts|
      invariant 0 <= k <= |accounts|
      invariant lines == AllLines(accounts[..k], terms, script, sort, showOf)
    {
      var account := accounts[k];
      var results := RunShowInstances(showOf(ShowCommand(account, script, sort)), terms, account);
      AllLinesStep(accounts, k, terms, script, sort, showOf);
      lines := lines + results;
      k := k + 1;
    }
    assert accounts[..k] == accounts;
  }

  /** `main`: with no profile it exits with status 1 and prints nothing; otherwise it prints the
      header, then the lines of each account in order. `showOf` answers each show-instances
      command. */
  method FindInstances(search: string, limit: Option<int>, sort: Option<string>, listing: Option<Completed>,
                       script: string, showOf: seq<string> -> Option<Completed>)
    returns (exitCode: int, out: seq<string>)
    ensures Profiles(listing, limit) == [] ==> exitCode == 1 && out == []
    ensures Profiles(listing, limit) != [] ==>
      exitCode == 0 && |out| >= 1 && out[0] == Ec2.Header
      && out[1..] == AllLines(Profiles(listing, limit), CommaParts(search), script, sort, showOf)
  {
    var terms := CommaParts(search);
    var accounts := Profiles(listing, limit);
    if accounts == [] {
      return 1, [];
    }
    var lines := RunAccounts(accounts, terms, script, sort, showOf);
    out := [Ec2.Header] + lines;
    exitCode := 0;
  }
}
