/** The profile lister: prints, one per line, the names of the `[profile …]` sections of the
    AWS config file whose name holds the role filter, and counts them. The config file is a
    parameter: missing, failing part-way through the read, or its text. */
module ListAwsProfiles {
  import opened Common
  import opened Text

  /** The role a printed profile's name must mention. */
  const RoleFilter: string := "AWSAdministratorAccess"

  /** The opening of a profile section header. */
  const ProfilePrefix: string := "[profile "

  /** The config file as the script finds it: absent, raising a read error after the loop has
      received the text `before` (empty when the open itself fails), or read whole. */
  datatype Config = Missing | Unreadable(before: string) | Contents(text: string)

  /** The profile named by one line of the file: the stripped line must start with
      `[profile `, and the name is what lies between that prefix and the line's last
      character. */
  function ProfileName(line: string): (r: Option<string>)
    ensures r.Some? ==> |Strip(line)| >= |ProfilePrefix| + 1
  {
    var t := Strip(line);
    if StartsWith(t, ProfilePrefix) then
      StripIsStripped(line);
      assert t[|t| - 1] != ' ';
      Some(t[|ProfilePrefix|..|t| - 1])
    else None
  }

  /** A recognised line is the prefix, the name and one closing character, once stripped. */
  lemma ProfileNameShape(line: string)
    requires ProfileName(line).Some?
    ensures var t := Strip(line);
      t == ProfilePrefix + ProfileName(line).value + [t[|t| - 1]]
  {
    var t := Strip(line);
    assert t[..|ProfilePrefix|] == ProfilePrefix;
  }

  /** Stripping ignores a line's trailing newline when its text ends with a non-space. */
  lemma StripNewline(t: string)
    requires t != [] && !IsSpace(t[0]) && !IsSpace(t[|t| - 1])
    ensures Strip(t + "\n") == t
  {
    var s := t + "\n";
    assert LStrip(s) == s;
    assert s[..|s| - 1] == t;
    assert RStrip(s) == RStrip(t);
  }

  /** The header of a profile named `n`, with or without its newline, reads back as `n`,
      whatever `n` holds. */
  lemma ProfileNameOfHeader(n: string)
    ensures ProfileName(ProfilePrefix + n + "]") == Some(n)
    ensures ProfileName(ProfilePrefix + n + "]" + "\n") == Some(n)
  {
    var t := ProfilePrefix + n + "]";
    assert t[..|ProfilePrefix|] == ProfilePrefix;
    assert t[|ProfilePrefix|..|t| - 1] == n;
    StripStripped(t);
    StripNewline(t);
  }

  /** The names printed for these lines, in file order. */
  function Printed(lines: seq<string>): (r: seq<string>)
    ensures |r| <= |lines|
  {
    if lines == [] then []
    else
      var name := ProfileName(lines[|lines| - 1]);
      Printed(lines[..|lines| - 1]) + (if name.Some? && Contains(name.value, RoleFilter) then [name.value] else [])
  }

  /** Some line of the file is the header of profile `n`. */
  predicate Names(lines: seq<string>, n: string) {
    exists i :: 0 <= i < |lines| && ProfileName(lines[i]) == Some(n)
  }

  /** One more line names `n` when it or an earlier line does. */
  lemma NamesSnoc(lines: seq<string>, n: string)
    requires lines != []
    ensures Names(lines, n) <==> Names(lines[..|lines| - 1], n) || ProfileName(lines[|lines| - 1]) == Some(n)
  {
    var init := lines[..|lines| - 1];
    if Names(lines, n) {
      var i :| 0 <= i < |lines| && ProfileName(lines[i]) == Some(n);
      if i < |init| {
        assert init[i] == lines[i];
      }
    }
    if Names(init, n) {
      var i :| 0 <= i < |init| && ProfileName(init[i]) == Some(n);
      assert lines[i] == init[i];
    }
  }

  /** A name is printed exactly when some line of the file names that profile and the name
      holds the role filter. */
  lemma {:induction false} PrintedMember(lines: seq<string>, n: string)
    ensures n in Printed(lines) <==> Contains(n, RoleFilter) && Names(lines, n)
  {
    if lines != [] {
      PrintedMember(lines[..|lines| - 1], n);
      NamesSnoc(lines, n);
    }
  }

  /** Every printed name mentions the role filter. */
  lemma {:induction false} PrintedFiltered(lines: seq<string>)
    ensures forall i :: 0 <= i < |Printed(lines)| ==> Contains(Printed(lines)[i], RoleFilter)
  {
    if lines != [] {
      PrintedFiltered(lines[..|lines| - 1]);
    }
  }

  /** What the script does: its exit code, the names it prints on standard output, and the
      count it reports. */
  datatype Listing = Listing(exitCode: int, printed: seq<string>, count: nat)

  /** `main`: a missing config exits 1 at once; otherwise each line is stripped, profile headers
      are picked out, and the names holding the filter are printed and counted. A read error
      exits 1 after the names of the lines read before it have been printed. */
  method ListProfiles(config: Config) returns (r: Listing)
    ensures config.Missing? || config.Unreadable? <==> r.exitCode == 1
    ensures config.Missing? ==> r.printed == []
    ensures config.Unreadable? ==> r.printed == Printed(SplitLinesKeepEnds(config.before))
    ensures config.Contents? ==> r.printed == Printed(SplitLinesKeepEnds(config.text))
    ensures r.count == |r.printed|
  {
    if config.Missing? {
      return Listing(1, [], 0);
    }
    var lines := SplitLinesKeepEnds(if config.Unreadable? then config.before else config.text);
    var printed: seq<string> := [];
    var count := 0;
    var k := 0;
    while k < |lines|
      invariant 0 <= k <= |lines|
      invariant printed == Printed(lines[..k])
      invariant count == |printed|
    {
      assert lines[..k + 1][..k] == lines[..k];
      var line := Strip(lines[k]);
      if StartsWith(line, ProfilePrefix) {
        var name := ProfileName(lines[k]).value;
        if Contains(name, RoleFilter) {
          printed := printed + [name];
          count := count + 1;
        }
      }
      k := k + 1;
    }
    assert lines[..k] == lines;
    return Listing(if config.Unreadable? then 1 else 0, printed, count);
  }
}
