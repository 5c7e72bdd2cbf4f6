/** show-instances: lists the EC2 instances of the US regions as CSV rows, optionally sorted by a
    column and with the matches of a search query highlighted.

    The describe call is an input (its answer, or the error it raised); the interactive column
    prompt is a sequence of answers. */
module ShowInstances {
  import opened Common
  import opened Text
  import opened Ec2

  const Regions: seq<string> := ["us-east-1", "us-east-2", "us-west-1", "us-west-2"]

  /** The sortable columns and their display titles. */
  const SortColumns: map<string, string> := map[
    "instance_id" := "Instance ID",
    "region" := "Region",
    "state" := "State",
    "name" := "Name",
    "key_name" := "Key Name"]

  // ---------------------------------------------------------------------------------------
  // Sort column
  // ---------------------------------------------------------------------------------------

  /** What `get_sort_column` ends in: a column, an exit with status 1 for an unknown column, or
      a prompt that is still waiting because no answer named a column. */
  datatype SortChoice = SortBy(column: string) | Rejected(given: string) | Waiting

  /** The first prompt answer that names a column. */
  function FirstColumn(answers: seq<string>): (r: Option<string>)
    ensures r.Some? ==> r.value in SortColumns && r.value in answers
    ensures r.None? ==> forall a :: a in answers ==> a !in SortColumns
  {
    if answers == [] then None
    else if answers[0] in SortColumns then Some(answers[0])
    else FirstColumn(answers[1..])
  }

  /** `get_sort_column`: no `--sort` flag sorts by region, a bare `--sort` asks until a column is
      named, and `--sort COLUMN` is accepted exactly when it names a column. */
  function SortColumn(sort: Option<string>, answers: seq<string>): (r: SortChoice)
    ensures r.SortBy? ==> r.column in SortColumns
    ensures sort.None? ==> r == SortBy("region")
    ensures sort.Some? && sort.value != "" ==> (r == SortBy(sort.value) <==> sort.value in SortColumns)
    ensures r.Rejected? <==> sort.Some? && sort.value != "" && sort.value !in SortColumns
    ensures r.Waiting? ==> sort == Some("") && forall a :: a in answers ==> a !in SortColumns
  {
    match sort
    case None => SortBy("region")
    case Some(s) =>
      if s == "" then
        match FirstColumn(answers)
        case Some(c) => SortBy(c)
        case None => Waiting
      else if s in SortColumns then SortBy(s)
      else Rejected(s)
  }

  // ---------------------------------------------------------------------------------------
  // Instances of one region
  // ---------------------------------------------------------------------------------------

  /** The dictionary `get_instances_in_region` builds for one instance. */
  datatype Row = Row(
    instanceId: string,
    region: string,
    publicIp: string,
    privateIp: string,
    state: string,
    name: string,
    keyName: string)

  /** `d.get(key, "N/A")` for an attribute the answer may omit. */
  function GetOrNA(x: Option<string>): string {
    if x.Some? then x.value else "N/A"
  }

  /** The row of one instance: the name from its first `Name` tag, and `N/A` for every
      attribute the answer omits. */
  function RowOf(inst: Instance, region: string): (r: Row)
    ensures r.instanceId == inst.instanceId && r.region == region && r.state == inst.state
    ensures inst.publicIp.None? ==> r.publicIp == "N/A"
    ensures inst.publicIp.Some? ==> r.publicIp == inst.publicIp.value
    ensures inst.privateIp.None? ==> r.privateIp == "N/A"
    ensures inst.privateIp.Some? ==> r.privateIp == inst.privateIp.value
    ensures inst.keyName.None? ==> r.keyName == "N/A"
    ensures inst.keyName.Some? ==> r.keyName == inst.keyName.value
    ensures inst.tags.None? ==> r.name == "N/A"
    ensures inst.tags.Some? ==> r.name == NameTag(inst.tags.value, "N/A")
  {
    Row(inst.instanceId, region, GetOrNA(inst.publicIp), GetOrNA(inst.privateIp), inst.state,
        if inst.tags.Some? then NameTag(inst.tags.value, "N/A") else "N/A",
        GetOrNA(inst.keyName))
  }

  /** The rows of a list of instances, in order. */
  function RowsOf(insts: seq<Instance>, region: string): seq<Row> {
    if insts == [] then []
    else RowsOf(insts[..|insts| - 1], region) + [RowOf(insts[|insts| - 1], region)]
  }

  /** The rows of all reservations, reservation by reservation. */
  function RegionRows(reservations: seq<seq<Instance>>, region: string): seq<Row> {
    if reservations == [] then []
    else RegionRows(reservations[..|reservations| - 1], region) + RowsOf(reservations[|reservations| - 1], region)
  }

  /** The number of instances over all reservations. */
  function InstanceCount(reservations: seq<seq<Instance>>): nat {
    if reservations == [] then 0
    else InstanceCount(reservations[..|reservations| - 1]) + |reservations[|reservations| - 1]|
  }

  /** One row per instance, in the order of the answer, each one converted by `RowOf`. */
  lemma {:induction false} RowsOfFacts(insts: seq<Instance>, region: string)
    ensures |RowsOf(insts, region)| == |insts|
    ensures forall k :: 0 <= k < |insts| ==> RowsOf(insts, region)[k] == RowOf(insts[k], region)
  {
    if insts != [] {
      RowsOfFacts(insts[..|insts| - 1], region);
    }
  }

  /** One row per instance of every reservation, each labelled with the region asked. */
  lemma {:induction false} RegionRowsFacts(reservations: seq<seq<Instance>>, region: string)
    ensures |RegionRows(reservations, region)| == InstanceCount(reservations)
    ensures forall k :: 0 <= k < |RegionRows(reservations, region)| ==> RegionRows(reservations, region)[k].region == region
  {
    if reservations != [] {
      var init := reservations[..|reservations| - 1];
      var last := reservations[|reservations| - 1];
      RegionRowsFacts(init, region);
      RowsOfFacts(last, region);
      var a: seq<Row> := RegionRows(init, region);
      var b: seq<Row> := RowsOf(last, region);
      forall k | 0 <= k < |a + b| ensures (a + b)[k].region == region {
        if k >= |a| {
          assert (a + b)[k] == b[k - |a|] == RowOf(last[k - |a|], region);
        }
      }
    }
  }

  /** The rows of one more instance follow those of the instances before it. */
  lemma RowsOfStep(insts: seq<Instance>, j: nat, next: nat, region: string)
    requires j < |insts| && next == j + 1
    ensures RowsOf(insts[..next], region) == RowsOf(insts[..j], region) + [RowOf(insts[j], region)]
  {
    assert insts[..next][..j] == insts[..j];
  }

  /** The rows of one more reservation follow those of the reservations before it. */
  lemma RegionRowsStep(reservations: seq<seq<Instance>>, i: nat, next: nat, region: string)
    requires i < |reservations| && next == i + 1
    ensures RegionRows(reservations[..next], region) == RegionRows(reservations[..i], region) + RowsOf(reservations[i], region)
  {
    assert reservations[..next][..i] == reservations[..i];
  }

  /** The inner loop of `get_instances_in_region`: one row appended per instance. */
  method AppendRows(rows: seq<Row>, insts: seq<Instance>, region: string) returns (out: seq<Row>)
    ensures out == rows + RowsOf(insts, region)
  {
    out := rows;
    var j := 0;
    while j < |insts|
      invariant 0 <= j <= |insts|
      invariant out == rows + RowsOf(insts[..j], region)
    {
      var next := j + 1;
      RowsOfStep(insts, j, next, region);
      out := out + [RowOf(insts[j], region)];
      j := next;
    }
    assert insts[..j] == insts;
  }

  /** `get_instances_in_region`: the nested loop over reservations and their instances; a
      failed describe call gives no rows. */
  method InstancesInRegion(response: ApiOutcome<seq<seq<Instance>>>, region: string) returns (rows: seq<Row>)
    ensures response.ApiOk? ==> rows == RegionRows(response.value, region)
    ensures !response.ApiOk? ==> rows == []
  {
    if !response.ApiOk? {
      return [];
    }
    var reservations := response.value;
    rows := [];
    var i := 0;
    while i < |reservations|
      invariant 0 <= i <= |reservations|
      invariant rows == RegionRows(reservations[..i], region)
    {
      var next := i + 1;
      RegionRowsStep(reservations, i, next, region);
      rows := AppendRows(rows, reservations[i], region);
      i := next;
    }
    assert reservations[..i] == reservations;
  }

  // ---------------------------------------------------------------------------------------
  // Highlighting
  // ---------------------------------------------------------------------------------------

  /** A piece of the rich text: plain, or styled as a match. */
  datatype Piece = Plain(text: string) | Marked(text: string)

  /** What `highlight_matches` returns: the text itself, or a rich text made of pieces. */
  datatype Rendered = AsIs(text: string) | Highlighted(pieces: seq<Piece>)

  /** The characters of a list of pieces, in order. */
  function Texts(ps: seq<Piece>): string {
    if ps == [] then [] else ps[0].text + Texts(ps[1..])
  }

  /** The characters a rendering shows. */
  function Shown(r: Rendered): string {
    match r
    case AsIs(t) => t
    case Highlighted(ps) => Texts(ps)
  }

  /** The positions at which the scan finds `ql` in `tl` from cursor `start` on: each search
      begins just past the previous match. */
  function Matches(tl: string, ql: string, start: nat): seq<nat>
    requires ql != [] && start <= |tl|
    decreases |tl| - start
  {
    var pos := Find(tl, ql, start);
    if pos < 0 then [] else [pos] + Matches(tl, ql, pos + |ql|)
  }

  /** Match positions of width `n` in a text of length `len`: in order, none before `start`,
      and none overlapping the one before it. */
  predicate Spaced(ms: seq<nat>, n: nat, start: nat, len: nat) {
    start <= len && (ms == [] || (start <= ms[0] && ms[0] + n <= len && Spaced(ms[1..], n, ms[0] + n, len)))
  }

  /** The pieces for the match positions `ms` of width `n`: the text up to each match, the
      match itself, and finally the rest of the text. */
  function Cut(text: string, ms: seq<nat>, n: nat, start: nat): (ps: seq<Piece>)
    requires Spaced(ms, n, start, |text|)
    ensures |ps| == 2 * |ms| + 1
  {
    if ms == [] then [Plain(text[start..])]
    else [Plain(text[start..ms[0]]), Marked(text[ms[0]..ms[0] + n])] + Cut(text, ms[1..], n, ms[0] + n)
  }

  /** The scan's matches lie in order inside the text and never overlap. */
  lemma {:induction false} MatchesSpaced(tl: string, ql: string, start: nat)
    requires ql != [] && start <= |tl|
    ensures Spaced(Matches(tl, ql, start), |ql|, start, |tl|)
    decreases |tl| - start
  {
    if Find(tl, ql, start) >= 0 {
      MatchesSpaced(tl, ql, Find(tl, ql, start) + |ql|);
      MatchesSpacedStep(tl, ql, start);
    }
  }

  /** One match further on: the match found comes first, after the cursor, and the matches
      after it follow it. */
  lemma MatchesSpacedStep(tl: string, ql: string, start: nat)
    requires ql != [] && start <= |tl| && Find(tl, ql, start) >= 0
    requires Spaced(Matches(tl, ql, Find(tl, ql, start) + |ql|), |ql|, Find(tl, ql, start) + |ql|, |tl|)
    ensures Spaced(Matches(tl, ql, start), |ql|, start, |tl|)
  {
    MatchesNext(tl, ql, start);
    assert ([Find(tl, ql, start)] + Matches(tl, ql, Find(tl, ql, start) + |ql|))[1..]
      == Matches(tl, ql, Find(tl, ql, start) + |ql|);
  }

  /** With a match at or after the cursor, the scan finds it first and goes on past it. */
  lemma MatchesNext(tl: string, ql: string, start: nat)
    requires ql != [] && start <= |tl| && Find(tl, ql, start) >= 0
    ensures Find(tl, ql, start) + |ql| <= |tl|
    ensures Matches(tl, ql, start) == [Find(tl, ql, start)] + Matches(tl, ql, Find(tl, ql, start) + |ql|)
  {
  }

  /** The pieces the scan appends from cursor `start` on, given the lower-cased text `tl` and
      query `ql`. */
  function Segments(text: string, tl: string, ql: string, start: nat): seq<Piece>
    requires |tl| == |text| && ql != [] && start <= |text|
  {
    MatchesSpaced(tl, ql, start);
    Cut(text, Matches(tl, ql, start), |ql|, start)
  }

  /** `highlight_matches(text, query)`. */
  function Highlight(text: string, query: string): Rendered {
    if query == [] || !Contains(Lower(text), Lower(query)) then AsIs(text)
    else Highlighted(Segments(text, Lower(text), Lower(query), 0))
  }

  /** `highlight_matches`: an empty query, or one that does not occur in the text up to case,
      gives the text back unchanged; otherwise the scan below builds the rich text. */
  method HighlightMatches(text: string, query: string) returns (r: Rendered)
    ensures r == Highlight(text, query)
    ensures query == [] || !Contains(Lower(text), Lower(query)) ==> r == AsIs(text)
  {
    if query == [] {
      return AsIs(text);
    }
    var textLower := Lower(text);
    var queryLower := Lower(query);
    if !Contains(textLower, queryLower) {
      return AsIs(text);
    }
    var pieces := ScanMatches(text, textLower, queryLower);
    r := Highlighted(pieces);
  }

  /** The scan loop of `highlight_matches`, stepping by the query's length (which lower-casing
      keeps): the cursor moves past each match, so it strictly grows and the loop ends. */
  method ScanMatches(text: string, tl: string, ql: string) returns (pieces: seq<Piece>)
    requires |tl| == |text| && ql != []
    ensures pieces == Segments(text, tl, ql, 0)
  {
    ghost var all := Segments(text, tl, ql, 0);
    ghost var remaining := all;
    pieces := [];
    assert pieces + remaining == all;
    var start := 0;
    var pos := Find(tl, ql, start);
    while pos != -1
      invariant start <= |text| && pos == Find(tl, ql, start)
      invariant remaining == Segments(text, tl, ql, start)
      invariant pieces + remaining == all
      decreases |text| - start
    {
      SegmentsNext(text, tl, ql, start);
      var pair := [Plain(text[start..pos]), Marked(text[pos..pos + |ql|])];
      ghost var later := Segments(text, tl, ql, pos + |ql|);
      assert (pieces + pair) + later == pieces + (pair + later);
      pieces := pieces + pair;
      remaining := later;
      start := pos + |ql|;
      pos := Find(tl, ql, start);
    }
    SegmentsLastPiece(text, tl, ql, start);
    pieces := pieces + [Plain(text[start..])];
  }

  /** The last step of the scan: with no match after the cursor, the rest of the text is one
      plain piece. */
  lemma SegmentsLastPiece(text: string, tl: string, ql: string, start: nat)
    requires |tl| == |text| && ql != [] && start <= |text| && Find(tl, ql, start) < 0
    ensures Segments(text, tl, ql, start) == [Plain(text[start..])]
  {
  }

  /** One step of the scan: the pieces are the text before the next match, the match, and the
      pieces after it. */
  lemma SegmentsNext(text: string, tl: string, ql: string, start: nat)
    requires |tl| == |text| && ql != [] && start <= |text| && Find(tl, ql, start) >= 0
    ensures start <= Find(tl, ql, start) && Find(tl, ql, start) + |ql| <= |text|
    ensures Segments(text, tl, ql, start)
      == [Plain(text[start..Find(tl, ql, start)]), Marked(text[Find(tl, ql, start)..Find(tl, ql, start) + |ql|])]
         + Segments(text, tl, ql, Find(tl, ql, start) + |ql|)
  {
    MatchesNext(tl, ql, start);
    MatchesSpaced(tl, ql, Find(tl, ql, start) + |ql|);
    CutNext(text, [Find(tl, ql, start)] + Matches(tl, ql, Find(tl, ql, start) + |ql|), |ql|, start);
  }

  /** `Cut` with at least one match, one step unfolded. */
  lemma CutNext(text: string, ms: seq<nat>, n: nat, start: nat)
    requires Spaced(ms, n, start, |text|) && ms != []
    ensures ms[0] + n <= |text|
    ensures Cut(text, ms, n, start)
      == [Plain(text[start..ms[0]]), Marked(text[ms[0]..ms[0] + n])] + Cut(text, ms[1..], n, ms[0] + n)
  {
  }

  /** The pieces put back together are the text from the cursor on. */
  lemma {:induction false} CutText(text: string, ms: seq<nat>, n: nat, start: nat)
    requires Spaced(ms, n, start, |text|)
    ensures Texts(Cut(text, ms, n, start)) == text[start..]
  {
    if ms != [] {
      CutText(text, ms[1..], n, ms[0] + n);
      CutTextStep(text, ms, n, start);
    }
  }

  /** One match further on: the text after the first match, with the text before it and the
      match in front, is the text from the cursor. */
  lemma CutTextStep(text: string, ms: seq<nat>, n: nat, start: nat)
    requires Spaced(ms, n, start, |text|) && ms != []
    requires Texts(Cut(text, ms[1..], n, ms[0] + n)) == text[ms[0] + n..]
    ensures Texts(Cut(text, ms, n, start)) == text[start..]
  {
    CutNext(text, ms, n, start);
    TextsCons(text[start..ms[0]], text[ms[0]..ms[0] + n], Cut(text, ms[1..], n, ms[0] + n));
    SliceThree(text, start, ms[0], ms[0] + n);
  }

  /** The characters of a plain piece and a marked one put in front of a list. */
  lemma TextsCons(p: string, m: string, rest: seq<Piece>)
    ensures Texts([Plain(p), Marked(m)] + rest) == p + (m + Texts(rest))
  {
    var ps := [Plain(p), Marked(m)] + rest;
    assert ps[1..] == [Marked(m)] + rest;
    assert ps[1..][1..] == rest;
  }

  /** A text cut in three and put back together. */
  lemma SliceThree(s: string, i: int, j: int, k: int)
    requires 0 <= i <= j <= k <= |s|
    ensures s[i..j] + (s[j..k] + s[k..]) == s[i..]
  {
    assert s[j..k] + s[k..] == s[j..];
  }

  /** The scan's pieces spell the text from the cursor on. */
  lemma SegmentsText(text: string, tl: string, ql: string, start: nat)
    requires |tl| == |text| && ql != [] && start <= |text|
    ensures Texts(Segments(text, tl, ql, start)) == text[start..]
  {
    MatchesSpaced(tl, ql, start);
    CutText(text, Matches(tl, ql, start), |ql|, start);
  }

  /** Highlighting changes only the styling: the characters shown are the text's. */
  lemma HighlightKeepsText(text: string, query: string)
    ensures Shown(Highlight(text, query)) == text
  {
    if query != [] && Contains(Lower(text), Lower(query)) {
      SegmentsText(text, Lower(text), Lower(query), 0);
    }
  }

  /** Every position in `ms` is an occurrence of `ql` in `tl`. */
  predicate AllOccur(tl: string, ql: string, ms: seq<nat>) {
    ms == [] || (OccursAt(tl, ql, ms[0]) && AllOccur(tl, ql, ms[1..]))
  }

  /** Every match the scan finds is an occurrence of the query. */
  lemma {:induction false} MatchesOccur(tl: string, ql: string, start: nat)
    requires ql != [] && start <= |tl|
    ensures AllOccur(tl, ql, Matches(tl, ql, start))
    decreases |tl| - start
  {
    if Find(tl, ql, start) >= 0 {
      MatchesOccur(tl, ql, Find(tl, ql, start) + |ql|);
      MatchesOccurStep(tl, ql, start);
    }
  }

  /** One match further on: the match found is an occurrence. */
  lemma MatchesOccurStep(tl: string, ql: string, start: nat)
    requires ql != [] && start <= |tl| && Find(tl, ql, start) >= 0
    requires AllOccur(tl, ql, Matches(tl, ql, Find(tl, ql, start) + |ql|))
    ensures AllOccur(tl, ql, Matches(tl, ql, start))
  {
    MatchesNext(tl, ql, start);
    assert ([Find(tl, ql, start)] + Matches(tl, ql, Find(tl, ql, start) + |ql|))[1..]
      == Matches(tl, ql, Find(tl, ql, start) + |ql|);
  }

  /** The pieces run plain, marked, plain, …, plain, and every marked piece equals `ql` up to
      case. */
  predicate Alternating(ps: seq<Piece>, ql: string) {
    if |ps| < 3 then |ps| == 1 && ps[0].Plain?
    else ps[0].Plain? && ps[1].Marked? && Lower(ps[1].text) == ql && Alternating(ps[2..], ql)
  }

  /** An alternating list, piece by piece: marked pieces sit at the odd positions, the last
      piece is plain, and each marked piece equals `ql` up to case. */
  lemma {:induction false} AlternatingPositions(ps: seq<Piece>, ql: string)
    requires Alternating(ps, ql)
    ensures ps != [] && ps[|ps| - 1].Plain?
    ensures forall i :: 0 <= i < |ps| ==> (ps[i].Marked? <==> i % 2 == 1)
    ensures forall i :: 0 <= i < |ps| && ps[i].Marked? ==> Lower(ps[i].text) == ql
  {
    if |ps| >= 3 {
      var rest := ps[2..];
      AlternatingPositions(rest, ql);
      forall i | 2 <= i < |ps| ensures ps[i] == rest[i - 2] && (i - 2) % 2 == i % 2 {
      }
    }
  }

  /** Cutting a text at occurrences of `ql` in its lower-cased form gives alternating pieces. */
  lemma {:induction false} CutAlternates(text: string, ms: seq<nat>, ql: string, start: nat)
    requires Spaced(ms, |ql|, start, |text|) && AllOccur(Lower(text), ql, ms)
    ensures Alternating(Cut(text, ms, |ql|, start), ql)
  {
    if ms != [] {
      CutAlternates(text, ms[1..], ql, ms[0] + |ql|);
      CutAlternatesStep(text, ms, ql, start);
    }
  }

  /** One match further on: the text before the first match and the match, put before the
      alternating pieces after it, alternate. */
  lemma CutAlternatesStep(text: string, ms: seq<nat>, ql: string, start: nat)
    requires Spaced(ms, |ql|, start, |text|) && AllOccur(Lower(text), ql, ms) && ms != []
    requires Alternating(Cut(text, ms[1..], |ql|, ms[0] + |ql|), ql)
    ensures Alternating(Cut(text, ms, |ql|, start), ql)
  {
    CutNext(text, ms, |ql|, start);
    LowerSlice(text, ms[0], ms[0] + |ql|);
    AlternatingCons(text[start..ms[0]], text[ms[0]..ms[0] + |ql|], Cut(text, ms[1..], |ql|, ms[0] + |ql|), ql);
  }

  /** A plain piece and a match equal to `ql` up to case, put before an alternating list, keep
      it alternating. */
  lemma AlternatingCons(p: string, m: string, rest: seq<Piece>, ql: string)
    requires Alternating(rest, ql) && Lower(m) == ql
    ensures Alternating([Plain(p), Marked(m)] + rest, ql)
  {
    assert ([Plain(p), Marked(m)] + rest)[2..] == rest;
  }

  /** Plain and marked pieces alternate, starting and ending with a plain one, there is one
      marked piece per match found, and every marked piece equals the query up to case. */
  lemma SegmentsMarked(text: string, ql: string, start: nat)
    requires ql != [] && start <= |text|
    ensures var ps := Segments(text, Lower(text), ql, start);
      |ps| == 2 * |Matches(Lower(text), ql, start)| + 1
      && ps[|ps| - 1].Plain?
      && (forall i :: 0 <= i < |ps| ==> (ps[i].Marked? <==> i % 2 == 1))
      && (forall i :: 0 <= i < |ps| && ps[i].Marked? ==> Lower(ps[i].text) == ql)
  {
    SegmentsAlternate(text, ql, start);
    AlternatingPositions(Segments(text, Lower(text), ql, start), ql);
  }

  /** The same, in the recursive form the cut produces. */
  lemma SegmentsAlternate(text: string, ql: string, start: nat)
    requires ql != [] && start <= |text|
    ensures var ps := Segments(text, Lower(text), ql, start);
      |ps| == 2 * |Matches(Lower(text), ql, start)| + 1 && Alternating(ps, ql)
  {
    MatchesSpaced(Lower(text), ql, start);
    MatchesOccur(Lower(text), ql, start);
    CutAlternates(text, Matches(Lower(text), ql, start), ql, start);
  }

  /** No occurrence of `ql` in `tl` starts in `[lo, hi)`. */
  predicate NoneIn(tl: string, ql: string, lo: int, hi: int) {
    forall k :: lo <= k < hi ==> !OccursAt(tl, ql, k)
  }

  /** No occurrence starts between the cursor and the first match, between one match's end and
      the next match, or after the last match's end. */
  predicate Gaps(tl: string, ql: string, ms: seq<nat>, start: nat) {
    if ms == [] then NoneIn(tl, ql, start, |tl|)
    else NoneIn(tl, ql, start, ms[0]) && Gaps(tl, ql, ms[1..], ms[0] + |ql|)
  }

  /** The scan misses no occurrence: each search finds the leftmost one after the cursor. */
  lemma {:induction false} MatchesGaps(tl: string, ql: string, start: nat)
    requires ql != [] && start <= |tl|
    ensures Gaps(tl, ql, Matches(tl, ql, start), start)
    decreases |tl| - start
  {
    if Find(tl, ql, start) < 0 {
      FindFacts(tl, ql, start);
    } else {
      MatchesGaps(tl, ql, Find(tl, ql, start) + |ql|);
      MatchesGapsStep(tl, ql, start);
    }
  }

  /** One match further on: no occurrence lies between the cursor and the match found. */
  lemma MatchesGapsStep(tl: string, ql: string, start: nat)
    requires ql != [] && start <= |tl| && Find(tl, ql, start) >= 0
    requires Gaps(tl, ql, Matches(tl, ql, Find(tl, ql, start) + |ql|), Find(tl, ql, start) + |ql|)
    ensures Gaps(tl, ql, Matches(tl, ql, start), start)
  {
    FindFacts(tl, ql, start);
    MatchesNext(tl, ql, start);
    assert ([Find(tl, ql, start)] + Matches(tl, ql, Find(tl, ql, start) + |ql|))[1..]
      == Matches(tl, ql, Find(tl, ql, start) + |ql|);
  }

  /** No case-insensitive match of `ql` starts in the first `m` characters of `s`. */
  predicate NoMatchBefore(s: string, ql: string, m: int)
    decreases m
  {
    m <= 0 || (!OccursAt(Lower(s), ql, m - 1) && NoMatchBefore(s, ql, m - 1))
  }

  /** `NoMatchBefore`, position by position. */
  lemma {:induction false} NoMatchBeforeIff(s: string, ql: string, m: int)
    ensures NoMatchBefore(s, ql, m) <==> NoneIn(Lower(s), ql, 0, m)
    decreases m
  {
    if m > 0 {
      NoMatchBeforeIff(s, ql, m - 1);
    }
  }

  /** With no occurrence in `[i, j)` of `tl`, none starts in the first `j - i` characters of
      `tl[i..e]`. */
  lemma NoneInPrefix(tl: string, ql: string, i: int, j: int, e: int)
    requires 0 <= i <= j <= e <= |tl| && NoneIn(tl, ql, i, j)
    ensures NoneIn(tl[i..e], ql, 0, j - i)
  {
    forall k | 0 <= k < j - i ensures !OccursAt(tl[i..e], ql, k) {
      OccursInSlice(tl, ql, i, e, k);
    }
  }

  /** The same for the text before a match and the match, whose lower-cased form is a piece of
      the lower-cased text. */
  lemma NoneInSlice(text: string, ql: string, i: int, j: int, e: int)
    requires 0 <= i <= j <= e <= |text| && NoneIn(Lower(text), ql, i, j)
    ensures NoMatchBefore(text[i..j] + text[j..e], ql, |text[i..j]|)
  {
    assert text[i..j] + text[j..e] == text[i..e];
    LowerSlice(text, i, e);
    NoneInPrefix(Lower(text), ql, i, j, e);
    NoMatchBeforeIff(text[i..j] + text[j..e], ql, |text[i..j]|);
  }

  /** And for the rest of the text. */
  lemma RestNone(text: string, ql: string, i: int)
    requires 0 <= i <= |text| && NoneIn(Lower(text), ql, i, |text|)
    ensures NoMatchBefore(text[i..], ql, |text[i..]|)
  {
    assert text[i..] == text[i..|text|];
    LowerSlice(text, i, |text|);
    NoneInPrefix(Lower(text), ql, i, |text|, |text|);
    NoMatchBeforeIff(text[i..], ql, |text[i..]|);
  }

  /** Every plain piece that has a successor holds no match starting inside it, not even one
      that runs into the successor. */
  predicate CleanPairs(ps: seq<Piece>, ql: string) {
    |ps| < 2
    || ((ps[0].Plain? ==> NoMatchBefore(ps[0].text + ps[1].text, ql, |ps[0].text|)) && CleanPairs(ps[1..], ql))
  }

  /** `CleanPairs`, position by position. */
  lemma {:induction false} CleanPairsPositions(ps: seq<Piece>, ql: string)
    requires CleanPairs(ps, ql)
    ensures forall i :: 0 <= i < |ps| - 1 && ps[i].Plain? ==> NoMatchBefore(ps[i].text + ps[i + 1].text, ql, |ps[i].text|)
  {
    if |ps| >= 2 {
      var rest := ps[1..];
      CleanPairsPositions(rest, ql);
      forall i | 1 <= i < |ps| ensures ps[i] == rest[i - 1] {
      }
    }
  }

  /** A plain piece with no earlier match, followed by its match, put before a list whose pairs
      are clean, keeps them clean. */
  lemma CleanPairsCons(p: string, m: string, rest: seq<Piece>, ql: string)
    requires CleanPairs(rest, ql) && NoMatchBefore(p + m, ql, |p|)
    ensures CleanPairs([Plain(p), Marked(m)] + rest, ql)
  {
    var ps := [Plain(p), Marked(m)] + rest;
    assert ps[1..] == [Marked(m)] + rest;
    assert ps[1..][1..] == rest;
  }

  /** Cutting at positions with no occurrence in the gaps leaves the plain pieces clean. */
  lemma {:induction false} CutClean(text: string, tl: string, ms: seq<nat>, ql: string, start: nat)
    requires tl == Lower(text) && Spaced(ms, |ql|, start, |text|) && Gaps(tl, ql, ms, start)
    ensures CleanPairs(Cut(text, ms, |ql|, start), ql)
    decreases |ms|
  {
    if ms != [] {
      GapsTail(tl, ms, ql, start, |text|);
      CutClean(text, tl, ms[1..], ql, ms[0] + |ql|);
      CutCleanStep(text, tl, ms, ql, start);
    }
  }

  /** What holds of the positions after the first match, from the end of that match. */
  lemma GapsTail(tl: string, ms: seq<nat>, ql: string, start: nat, len: nat)
    requires Spaced(ms, |ql|, start, len) && Gaps(tl, ql, ms, start) && ms != []
    ensures start <= ms[0] && ms[0] + |ql| <= len && NoneIn(tl, ql, start, ms[0])
    ensures Spaced(ms[1..], |ql|, ms[0] + |ql|, len) && Gaps(tl, ql, ms[1..], ms[0] + |ql|)
  {
  }

  /** One match further on: the text before the first match holds no occurrence, even one
      running into the match. */
  lemma CutCleanStep(text: string, tl: string, ms: seq<nat>, ql: string, start: nat)
    requires Spaced(ms, |ql|, start, |text|) && ms != [] && start <= ms[0] && ms[0] + |ql| <= |text|
    requires tl == Lower(text) && NoneIn(tl, ql, start, ms[0])
    requires CleanPairs(Cut(text, ms[1..], |ql|, ms[0] + |ql|), ql)
    ensures CleanPairs(Cut(text, ms, |ql|, start), ql)
  {
    var p, m := text[start..ms[0]], text[ms[0]..ms[0] + |ql|];
    var rest := Cut(text, ms[1..], |ql|, ms[0] + |ql|);
    NoneInSlice(text, ql, start, ms[0], ms[0] + |ql|);
    CleanPairsCons(p, m, rest, ql);
    CutNext(text, ms, |ql|, start);
  }

  /** The last piece of a cut holds no occurrence when none follows the last position. */
  lemma {:induction false} CutTailClean(text: string, ms: seq<nat>, ql: string, start: nat)
    requires Spaced(ms, |ql|, start, |text|) && Gaps(Lower(text), ql, ms, start)
    ensures var ps := Cut(text, ms, |ql|, start);
      NoMatchBefore(ps[|ps| - 1].text, ql, |ps[|ps| - 1].text|)
  {
    if ms == [] {
      RestNone(text, ql, start);
    } else {
      CutTailClean(text, ms[1..], ql, ms[0] + |ql|);
      CutLastStep(text, ms, |ql|, start);
    }
  }

  /** With a match, the last piece of a cut is the last piece of the cut after the match. */
  lemma CutLastStep(text: string, ms: seq<nat>, n: nat, start: nat)
    requires Spaced(ms, n, start, |text|) && ms != []
    ensures var ps := Cut(text, ms, n, start);
      var rest := Cut(text, ms[1..], n, ms[0] + n);
      ps[|ps| - 1] == rest[|rest| - 1]
  {
    CutNext(text, ms, n, start);
  }

  /** Matches are taken left to right: no match starts inside a plain piece that a marked piece
      follows, not even one that runs into that marked piece, and none starts in the last
      piece. */
  lemma SegmentsLeftmost(text: string, ql: string, start: nat)
    requires ql != [] && start <= |text|
    ensures var ps := Segments(text, Lower(text), ql, start);
      (forall i :: 0 <= i < |ps| - 1 && ps[i].Plain? ==> NoneIn(Lower(ps[i].text + ps[i + 1].text), ql, 0, |ps[i].text|))
      && NoneIn(Lower(ps[|ps| - 1].text), ql, 0, |ps[|ps| - 1].text|)
  {
    SegmentsClean(text, ql, start);
    PiecesNone(Segments(text, Lower(text), ql, start), ql);
  }

  /** The same, in the recursive form the cut produces. */
  lemma SegmentsClean(text: string, ql: string, start: nat)
    requires ql != [] && start <= |text|
    ensures var ps := Segments(text, Lower(text), ql, start);
      CleanPairs(ps, ql) && NoMatchBefore(ps[|ps| - 1].text, ql, |ps[|ps| - 1].text|)
  {
    MatchesSpaced(Lower(text), ql, start);
    MatchesGaps(Lower(text), ql, start);
    CutClean(text, Lower(text), Matches(Lower(text), ql, start), ql, start);
    CutTailClean(text, Matches(Lower(text), ql, start), ql, start);
  }

  /** Clean pairs and a clean last piece, position by position and occurrence by occurrence. */
  lemma PiecesNone(ps: seq<Piece>, ql: string)
    requires ps != [] && CleanPairs(ps, ql) && NoMatchBefore(ps[|ps| - 1].text, ql, |ps[|ps| - 1].text|)
    ensures forall i :: 0 <= i < |ps| - 1 && ps[i].Plain? ==> NoneIn(Lower(ps[i].text + ps[i + 1].text), ql, 0, |ps[i].text|)
    ensures NoneIn(Lower(ps[|ps| - 1].text), ql, 0, |ps[|ps| - 1].text|)
  {
    NoMatchBeforeIff(ps[|ps| - 1].text, ql, |ps[|ps| - 1].text|);
    CleanPairsPositions(ps, ql);
    forall i | 0 <= i < |ps| - 1 && ps[i].Plain?
      ensures NoneIn(Lower(ps[i].text + ps[i + 1].text), ql, 0, |ps[i].text|)
    {
      NoMatchBeforeIff(ps[i].text + ps[i + 1].text, ql, |ps[i].text|);
    }
  }

}
