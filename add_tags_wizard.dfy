/** The interactive EC2 tag wizard: list the instances of the four US regions, let the operator
    pick some by number, read `key=value` tags until `done`, and tag the picked instances
    region by region, counting successes and failures. Prompts are answer sequences and the
    cloud calls are oracles. */
module AddTagsWizard {
  import opened Common
  import opened Text
  import opened Lists
  import Ec2

  /** The regions the wizard scans, in order. */
  const Regions: seq<string> := ["us-east-1", "us-east-2", "us-west-1", "us-west-2"]

  /** One row of the instance listing. */
  datatype Listed = Listed(instanceId: string, region: string, state: string, name: string)

  /** The listing row of a described instance: its name is the first `Name` tag, or `N/A`. */
  function ListedOf(i: Ec2.Instance, region: string): (r: Listed)
    ensures r.instanceId == i.instanceId && r.region == region && r.state == i.state
    ensures i.tags.None? ==> r.name == "N/A"
  {
    Listed(i.instanceId, region, i.state, if i.tags.Some? then Ec2.NameTag(i.tags.value, "N/A") else "N/A")
  }

  // ---------------------------------------------------------------------------------------
  // Selecting instances
  // ---------------------------------------------------------------------------------------

  /** `int(s)` for a string without surrounding whitespace: an optional sign and decimal
      digits; anything else is a `ValueError`. */
  function ParseInt(s: string): (r: Option<int>)
    ensures r.Some? ==> s != []
  {
    if |s| > 1 && (s[0] == '-' || s[0] == '+') && AllDigits(s[1..]) then
      Some(if s[0] == '-' then -(DigitsValue(s[1..]) as int) else DigitsValue(s[1..]))
    else if s != [] && AllDigits(s) then Some(DigitsValue(s))
    else None
  }

  /** `int` reads back what `str` writes. */
  lemma ParseIntOfString(i: int)
    ensures ParseInt(IntToString(i)) == Some(i)
  {
    if i < 0 {
      DigitsValueOfNat(-i);
      assert ("-" + NatToString(-i))[1..] == NatToString(-i);
    } else {
      DigitsValueOfNat(i);
    }
  }

  /** `[int(x.strip()) - 1 for x in items]`: the zero-based indices, or `None` when an item is
      not an integer. */
  function Indices(items: seq<string>): (r: Option<seq<int>>)
    ensures r.Some? ==> |r.value| == |items|
  {
    if items == [] then Some([])
    else
      match ParseInt(Strip(items[0]))
      case None => None
      case Some(n) =>
        match Indices(items[1..])
        case None => None
        case Some(rest) => Some([n - 1] + rest)
  }

  /** The instances at the in-range indices, in the order given, repeats included. */
  function Picked(all: seq<Listed>, indices: seq<int>): (r: seq<Listed>)
    ensures |r| <= |indices|
  {
    if indices == [] then []
    else
      var i := indices[|indices| - 1];
      Picked(all, indices[..|indices| - 1]) + (if 0 <= i < |all| then [all[i]] else [])
  }

  /** Every picked instance is at one of the in-range indices given; when every index is in
      range, the pick is exactly the indexed instances, in order. */
  lemma {:induction false} PickedFacts(all: seq<Listed>, indices: seq<int>)
    ensures forall x :: x in Picked(all, indices) ==>
      exists j :: 0 <= j < |indices| && 0 <= indices[j] < |all| && all[indices[j]] == x
    ensures (forall j :: 0 <= j < |indices| ==> 0 <= indices[j] < |all|) ==>
      Picked(all, indices) == seq(|indices|, j requires 0 <= j < |indices| && 0 <= indices[j] < |all| => all[indices[j]])
  {
    if indices != [] {
      var init := indices[..|indices| - 1];
      PickedFacts(all, init);
      forall x | x in Picked(all, indices)
        ensures exists j :: 0 <= j < |indices| && 0 <= indices[j] < |all| && all[indices[j]] == x
      {
        if x in Picked(all, init) {
          var j :| 0 <= j < |init| && 0 <= init[j] < |all| && all[init[j]] == x;
          assert indices[j] == init[j];
        } else {
          assert all[indices[|indices| - 1]] == x;
        }
      }
    }
  }

  /** The selection loop over the parsed indices: in-range ones are appended, others reported
      and skipped. */
  method PickInstances(all: seq<Listed>, indices: seq<int>) returns (selected: seq<Listed>)
    ensures selected == Picked(all, indices)
  {
    selected := [];
    var k := 0;
    while k < |indices|
      invariant 0 <= k <= |indices|
      invariant selected == Picked(all, indices[..k])
    {
      assert indices[..k + 1][..k] == indices[..k];
      var idx := indices[k];
      if 0 <= idx < |all| {
        selected := selected + [all[idx]];
      }
      k := k + 1;
    }
    assert indices[..k] == indices;
  }

  /** What one answer to the selection prompt does. */
  datatype Choice = Chosen(instances: seq<Listed>) | Retry

  /** `all` and `none` (any case) pick everything or nothing; otherwise a comma list of
      numbers picks the in-range instances, and a non-number or an empty pick asks again. */
  function ChoiceOf(all: seq<Listed>, answer: string): (c: Choice)
    ensures c.Chosen? && Lower(answer) != "all" && Lower(answer) != "none" ==>
      c.instances != [] && forall x :: x in c.instances ==> x in all
  {
    if Lower(answer) == "all" then Chosen(all)
    else if Lower(answer) == "none" then Chosen([])
    else
      match Indices(Split(answer, ','))
      case None => Retry
      case Some(indices) =>
        var picked := Picked(all, indices);
        PickedFacts(all, indices);
        if picked != [] then Chosen(picked) else Retry
  }

  /** The first answer that settles the prompt decides the selection; `None` when the answers
      run out first. An empty listing selects nothing without asking. */
  function Selection(all: seq<Listed>, answers: seq<string>): Option<seq<Listed>> {
    if all == [] then Some([])
    else
      match First(answers, a => ChoiceOf(all, a).Chosen?)
      case None => None
      case Some(a) => Some(ChoiceOf(all, a).instances)
  }

  /** One answer of the selection prompt, as the loop body reads it. */
  method Choose(all: seq<Listed>, answer: string) returns (c: Choice)
    ensures c == ChoiceOf(all, answer)
  {
    if Lower(answer) == "all" {
      return Chosen(all);
    } else if Lower(answer) == "none" {
      return Chosen([]);
    }
    var indices := Indices(Split(answer, ','));
    if indices.None? {
      return Retry;
    }
    var picked := PickInstances(all, indices.value);
    if picked == [] {
      return Retry;
    }
    return Chosen(picked);
  }

  /** `select_instances`: prompts until an answer settles. */
  method SelectInstances(all: seq<Listed>, answers: seq<string>) returns (selected: Option<seq<Listed>>)
    ensures selected == Selection(all, answers)
  {
    if all == [] {
      return Some([]);
    }
    var settles := a => ChoiceOf(all, a).Chosen?;
    var k := 0;
    while k < |answers|
      invariant 0 <= k <= |answers|
      invariant First(answers, settles) == First(answers[k..], settles)
    {
      var choice := Choose(all, answers[k]);
      if choice.Chosen? {
        return Some(choice.instances);
      }
      FirstFrom(answers, settles, k);
      k := k + 1;
    }
    return None;
  }

  /** The first character of a join is the first character of the first piece. */
  lemma JoinHead(parts: seq<string>, sep: char)
    requires |parts| >= 1 && parts[0] != []
    ensures Join(parts, sep) != [] && Join(parts, sep)[0] == parts[0][0]
  {
  }

  /** A digit string is its own strip. */
  lemma DigitsStripped(s: string)
    requires AllDigits(s)
    ensures Strip(s) == s
  {
    if s != [] {
      assert IsDigit(s[0]) && IsDigit(s[|s| - 1]);
    }
    StripStripped(s);
  }

  /** The decimal forms of some numbers: what the operator types between the commas. */
  function Numerals(ns: seq<nat>): (r: seq<string>)
    ensures |r| == |ns|
  {
    if ns == [] then [] else [NatToString(ns[0])] + Numerals(ns[1..])
  }

  /** One-based numbers turned into zero-based indices. */
  function ZeroBased(ns: seq<nat>): (r: seq<int>)
    ensures |r| == |ns|
  {
    if ns == [] then [] else [ns[0] as int - 1] + ZeroBased(ns[1..])
  }

  /** Each numeral is the decimal form of its number, and each index is one less. */
  lemma {:induction false} NumeralsFacts(ns: seq<nat>)
    ensures forall j :: 0 <= j < |ns| ==> Numerals(ns)[j] == NatToString(ns[j]) && ZeroBased(ns)[j] == ns[j] as int - 1
  {
    if ns != [] {
      NumeralsFacts(ns[1..]);
      forall j | 1 <= j < |ns|
        ensures Numerals(ns)[j] == NatToString(ns[j]) && ZeroBased(ns)[j] == ns[j] as int - 1
      {
        assert ns[1..][j - 1] == ns[j];
      }
    }
  }

  /** Parsing the decimal forms of one-based numbers gives the zero-based indices. */
  lemma {:induction false} IndicesOfNumbers(ns: seq<nat>)
    ensures Indices(Numerals(ns)) == Some(ZeroBased(ns))
  {
    if ns != [] {
      var strs := Numerals(ns);
      IndicesOfNumbers(ns[1..]);
      assert strs[1..] == Numerals(ns[1..]);
      DigitsStripped(strs[0]);
      DigitsValueOfNat(ns[0]);
    }
  }

  /** An answer starting with a digit is neither `all` nor `none`. */
  lemma NotAKeyword(answer: string)
    requires answer != [] && IsDigit(answer[0])
    ensures Lower(answer) != "all" && Lower(answer) != "none"
  {
    assert Lower(answer)[0] == answer[0];
  }

  /** The numerals hold no comma, and the answer they make starts with a digit. */
  lemma NumeralsAnswer(ns: seq<nat>)
    requires ns != []
    ensures forall j :: 0 <= j < |Numerals(ns)| ==> ',' !in Numerals(ns)[j]
    ensures Join(Numerals(ns), ',') != [] && IsDigit(Join(Numerals(ns), ',')[0])
  {
    var strs := Numerals(ns);
    NumeralsFacts(ns);
    JoinHead(strs, ',');
    forall j | 0 <= j < |strs| ensures ',' !in strs[j] {
      assert AllDigits(strs[j]);
    }
  }

  /** In-range one-based numbers pick the numbered instances, in order. */
  lemma PickedNumbers(all: seq<Listed>, ns: seq<nat>)
    requires forall j :: 0 <= j < |ns| ==> 1 <= ns[j] <= |all|
    ensures |Picked(all, ZeroBased(ns))| == |ns|
    ensures forall j :: 0 <= j < |ns| ==> Picked(all, ZeroBased(ns))[j] == all[ns[j] as int - 1]
  {
    NumeralsFacts(ns);
    PickedFacts(all, ZeroBased(ns));
  }

  /** Typing the one-based numbers of some listed instances, comma-separated, selects exactly
      those instances in that order, repeats included. */
  lemma SelectByNumbers(all: seq<Listed>, ns: seq<nat>)
    requires ns != []
    requires forall j :: 0 <= j < |ns| ==> 1 <= ns[j] <= |all|
    ensures var c := ChoiceOf(all, Join(Numerals(ns), ','));
      c.Chosen? && |c.instances| == |ns| && forall j :: 0 <= j < |ns| ==> c.instances[j] == all[ns[j] as int - 1]
  {
    var answer := Join(Numerals(ns), ',');
    NumeralsAnswer(ns);
    NotAKeyword(answer);
    SplitJoin(Numerals(ns), ',');
    IndicesOfNumbers(ns);
    PickedNumbers(all, ns);
  }

  // ---------------------------------------------------------------------------------------
  // Reading tags
  // ---------------------------------------------------------------------------------------

  /** What one answer to the tag prompt is. */
  datatype Entry = Done | Cancel | Pair(key: string, value: string) | Invalid

  /** `done` and `cancel` (any case) end the prompt; otherwise the answer is split at its
      first `=`, both halves are stripped, and it is a tag when neither half is empty. */
  function EntryOf(answer: string): (e: Entry)
    ensures e.Pair? ==> e.key != [] && e.value != [] && '=' !in e.key
  {
    if Lower(answer) == "done" then Done
    else if Lower(answer) == "cancel" then Cancel
    else
      match SplitOnce(answer, '=')
      case None => Invalid
      case Some(halves) =>
        var key := Strip(halves.0);
        var value := Strip(halves.1);
        if key != [] && value != [] then
          assert '=' !in key by {
            SplitOnceParts(answer, '=');
            StripInside(halves.0);
          }
          Pair(key, value)
        else Invalid
  }

  /** `s.split(c, 1)` when `c` occurs in `s`: the text before its first occurrence and the
      text after it; `None` when `c` does not occur. */
  function SplitOnce(s: string, c: char): (r: Option<(string, string)>)
    ensures r.None? <==> c !in s
  {
    if s == [] then None
    else if s[0] == c then Some(([], s[1..]))
    else
      match SplitOnce(s[1..], c)
      case None => None
      case Some(halves) => Some(([s[0]] + halves.0, halves.1))
  }

  /** The two halves and the separator between them make up the string, and the first half
      holds no separator. */
  lemma {:induction false} SplitOnceParts(s: string, c: char)
    requires SplitOnce(s, c).Some?
    ensures s == SplitOnce(s, c).value.0 + [c] + SplitOnce(s, c).value.1
    ensures c !in SplitOnce(s, c).value.0
  {
    if s[0] != c {
      SplitOnceParts(s[1..], c);
    }
  }

  /** Splitting `key + [c] + value` at its first `c` gives back `key` and `value` when `key`
      has no `c`, whatever `value` holds. */
  lemma {:induction false} SplitOnceJoin(key: string, c: char, value: string)
    requires c !in key
    ensures SplitOnce(key + [c] + value, c) == Some((key, value))
  {
    if key == [] {
      assert (key + [c] + value)[1..] == value;
    } else {
      assert (key + [c] + value)[1..] == key[1..] + [c] + value;
      SplitOnceJoin(key[1..], c, value);
      assert [key[0]] + key[1..] == key;
    }
  }

  /** A stripped key without `=` and a stripped value, written `key=value`, read back as that
      tag; the value may itself hold `=`. */
  lemma EntryOfPair(key: string, value: string)
    requires key != [] && value != [] && IsStripped(key) && IsStripped(value) && '=' !in key
    ensures EntryOf(key + "=" + value) == Pair(key, value)
  {
    var answer := key + "=" + value;
    assert Lower(answer)[|key|] == '=';
    assert Lower(answer) != "done" && Lower(answer) != "cancel";
    SplitOnceJoin(key, '=', value);
    StripStripped(key);
    StripStripped(value);
  }

  /** The tags that the answers before a `done` or `cancel` add, in order. */
  function Pairs(answers: seq<string>): (r: seq<(string, string)>)
    ensures |r| <= |answers|
  {
    if answers == [] then []
    else
      var e := EntryOf(answers[|answers| - 1]);
      Pairs(answers[..|answers| - 1]) + (if e.Pair? then [(e.key, e.value)] else [])
  }

  /** The dictionary built by assigning the tags in turn. */
  function TagMap(pairs: seq<(string, string)>): (m: map<string, string>)
    ensures |pairs| > 0 ==> pairs[|pairs| - 1].0 in m
  {
    if pairs == [] then map[]
    else TagMap(pairs[..|pairs| - 1])[pairs[|pairs| - 1].0 := pairs[|pairs| - 1].1]
  }

  /** The dictionary's keys are the keys assigned. */
  lemma {:induction false} TagMapKeys(pairs: seq<(string, string)>)
    ensures forall k :: k in TagMap(pairs) <==> k in Keys(pairs)
  {
    if pairs != [] {
      var init := pairs[..|pairs| - 1];
      TagMapKeys(init);
      assert Keys(pairs) == Keys(init) + [pairs[|pairs| - 1].0];
    }
  }

  /** The dictionary's keys in insertion order. */
  function Keys(pairs: seq<(string, string)>): seq<string> {
    seq(|pairs|, i requires 0 <= i < |pairs| => pairs[i].0)
  }

  /** A later value for a key overwrites an earlier one: each key maps to the value of its
      last assignment. */
  lemma {:induction false} TagMapLastWins(pairs: seq<(string, string)>, i: int)
    requires 0 <= i < |pairs|
    requires forall j :: i < j < |pairs| ==> pairs[j].0 != pairs[i].0
    ensures pairs[i].0 in TagMap(pairs) && TagMap(pairs)[pairs[i].0] == pairs[i].1
  {
    if i < |pairs| - 1 {
      var init := pairs[..|pairs| - 1];
      TagMapLastWins(init, i);
    }
  }

  /** How the tag prompt ends. */
  datatype TagsOutcome = Tags(tags: map<string, string>, order: seq<string>) | Cancelled | Unanswered

  /** Where the tag prompt stops once the answers before `k` are read: the first `done` or
      `cancel` from `k` on, or the number of answers. */
  function StopAt(answers: seq<string>, k: nat): (n: nat)
    requires k <= |answers|
    ensures k <= n <= |answers|
    ensures n < |answers| ==> EntryOf(answers[n]).Done? || EntryOf(answers[n]).Cancel?
    decreases |answers| - k
  {
    if k == |answers| then k
    else if EntryOf(answers[k]).Done? || EntryOf(answers[k]).Cancel? then k
    else StopAt(answers, k + 1)
  }

  /** No answer between `k` and the stop ends the prompt. */
  lemma {:induction false} StopAtFirst(answers: seq<string>, k: nat)
    requires k <= |answers|
    ensures forall j :: k <= j < StopAt(answers, k) ==> !EntryOf(answers[j]).Done? && !EntryOf(answers[j]).Cancel?
    decreases |answers| - k
  {
    if k < |answers| && !EntryOf(answers[k]).Done? && !EntryOf(answers[k]).Cancel? {
      StopAtFirst(answers, k + 1);
    }
  }

  /** What `get_tags_from_user` returns for these answers: the dictionary of the tags before a
      `done`, nothing after a `cancel`. */
  function TagsOf(answers: seq<string>): TagsOutcome {
    var n := StopAt(answers, 0);
    if n == |answers| then Unanswered
    else if EntryOf(answers[n]).Cancel? then Cancelled
    else
      var pairs := Pairs(answers[..n]);
      Tags(TagMap(pairs), Dedup(Keys(pairs)))
  }

  /** `get_tags_from_user`: prompts until `done` or `cancel`, assigning each valid tag. */
  method GetTags(answers: seq<string>) returns (outcome: TagsOutcome)
    ensures outcome == TagsOf(answers)
  {
    var tags: map<string, string> := map[];
    var order: seq<string> := [];
    ghost var pairs: seq<(string, string)> := [];
    var k := 0;
    while k < |answers| && !EntryOf(answers[k]).Done? && !EntryOf(answers[k]).Cancel?
      invariant 0 <= k <= |answers|
      invariant StopAt(answers, 0) == StopAt(answers, k)
      invariant pairs == Pairs(answers[..k])
      invariant tags == TagMap(pairs) && order == Dedup(Keys(pairs))
    {
      var entry := EntryOf(answers[k]);
      TagStep(answers, k);
      if entry.Pair? {
        KeysSnoc(pairs, entry.key, entry.value);
        if entry.key !in order {
          order := order + [entry.key];
        }
        tags := tags[entry.key := entry.value];
        pairs := pairs + [(entry.key, entry.value)];
      }
      k := k + 1;
    }
    if k == |answers| {
      return Unanswered;
    } else if EntryOf(answers[k]).Cancel? {
      return Cancelled;
    }
    return Tags(tags, order);
  }

  /** One answer of the prompt: which tags have been read. */
  lemma TagStep(answers: seq<string>, k: int)
    requires 0 <= k < |answers|
    ensures Pairs(answers[..k + 1]) == Pairs(answers[..k])
      + (if EntryOf(answers[k]).Pair? then [(EntryOf(answers[k]).key, EntryOf(answers[k]).value)] else [])
  {
    assert answers[..k + 1][..k] == answers[..k];
  }

  /** Assigning one more key: the dictionary maps it to the new value, and the insertion order
      gains it when it is new. */
  lemma KeysSnoc(pairs: seq<(string, string)>, key: string, value: string)
    ensures TagMap(pairs + [(key, value)]) == TagMap(pairs)[key := value]
    ensures Keys(pairs + [(key, value)]) == Keys(pairs) + [key]
    ensures Dedup(Keys(pairs + [(key, value)])) ==
      if key in Dedup(Keys(pairs)) then Dedup(Keys(pairs)) else Dedup(Keys(pairs)) + [key]
  {
    assert (pairs + [(key, value)])[..|pairs|] == pairs;
    assert Keys(pairs + [(key, value)]) == Keys(pairs) + [key];
    DedupSnoc(Keys(pairs), key);
  }

  /** The dictionary holds exactly the keys of its insertion order, each once. */
  lemma TagsOrder(answers: seq<string>)
    requires TagsOf(answers).Tags?
    ensures Distinct(TagsOf(answers).order)
    ensures forall k :: k in TagsOf(answers).tags <==> k in TagsOf(answers).order
  {
    var pairs := Pairs(answers[..StopAt(answers, 0)]);
    DedupFacts(Keys(pairs));
    TagMapKeys(pairs);
  }

  // ---------------------------------------------------------------------------------------
  // Applying tags
  // ---------------------------------------------------------------------------------------

  /** Whether tagging an instance works: its region's client is created and `create_tags`
      on it succeeds. */
  predicate Tagged(x: Listed, clientFails: string -> bool, tagOk: Listed -> bool) {
    !clientFails(x.region) && tagOk(x)
  }

  /** How many of `xs` are tagged (`want`) or not (`!want`). */
  function CountIf(xs: seq<Listed>, clientFails: string -> bool, tagOk: Listed -> bool, want: bool): (n: nat)
    ensures n <= |xs|
  {
    if xs == [] then 0
    else
      CountIf(xs[..|xs| - 1], clientFails, tagOk, want)
      + (if Tagged(xs[|xs| - 1], clientFails, tagOk) == want then 1 else 0)
  }

  /** Every instance is counted once, as tagged or as not. */
  lemma {:induction false} CountSplit(xs: seq<Listed>, clientFails: string -> bool, tagOk: Listed -> bool)
    ensures CountIf(xs, clientFails, tagOk, true) + CountIf(xs, clientFails, tagOk, false) == |xs|
  {
    if xs != [] {
      CountSplit(xs[..|xs| - 1], clientFails, tagOk);
    }
  }

  /** The regions of the instances, in order. */
  function RegionsOf(xs: seq<Listed>): seq<string> {
    seq(|xs|, i requires 0 <= i < |xs| => xs[i].region)
  }

  /** The instances in one region, in their relative order. */
  function InRegion(xs: seq<Listed>, region: string): (r: seq<Listed>)
    ensures |r| <= |xs|
  {
    if xs == [] then []
    else
      var x := xs[|xs| - 1];
      InRegion(xs[..|xs| - 1], region) + (if x.region == region then [x] else [])
  }

  /** A group holds only instances of its region, taken from the list. */
  lemma {:induction false} InRegionMembers(xs: seq<Listed>, region: string)
    ensures forall x :: x in InRegion(xs, region) ==> x in xs && x.region == region
  {
    if xs != [] {
      InRegionMembers(xs[..|xs| - 1], region);
    }
  }

  /** One more instance joins the group of its own region only. */
  lemma InRegionSnoc(xs: seq<Listed>, x: Listed, region: string)
    ensures InRegion(xs + [x], region) == InRegion(xs, region) + (if x.region == region then [x] else [])
  {
    assert (xs + [x])[..|xs|] == xs;
  }

  /** One more instance adds one to the count it belongs to. */
  lemma CountIfSnoc(xs: seq<Listed>, x: Listed, clientFails: string -> bool, tagOk: Listed -> bool, want: bool)
    ensures CountIf(xs + [x], clientFails, tagOk, want)
      == CountIf(xs, clientFails, tagOk, want) + (if Tagged(x, clientFails, tagOk) == want then 1 else 0)
  {
    assert (xs + [x])[..|xs|] == xs;
  }

  /** A region none of the instances is in has an empty group. */
  lemma {:induction false} NoRegionNoGroup(xs: seq<Listed>, region: string)
    requires region !in RegionsOf(xs)
    ensures InRegion(xs, region) == []
  {
    if xs != [] {
      var init := xs[..|xs| - 1];
      assert RegionsOf(xs) == RegionsOf(init) + [xs[|xs| - 1].region];
      NoRegionNoGroup(init, region);
    }
  }

  /** The regions of one more instance, and the order of their first appearances. */
  lemma RegionsSnoc(xs: seq<Listed>, x: Listed)
    ensures RegionsOf(xs + [x]) == RegionsOf(xs) + [x.region]
    ensures x.region in Dedup(RegionsOf(xs)) <==> x.region in RegionsOf(xs)
    ensures Dedup(RegionsOf(xs + [x])) ==
      if x.region in RegionsOf(xs) then Dedup(RegionsOf(xs)) else Dedup(RegionsOf(xs)) + [x.region]
    ensures Distinct(Dedup(RegionsOf(xs)))
  {
    assert RegionsOf(xs + [x]) == RegionsOf(xs) + [x.region];
    DedupSnoc(RegionsOf(xs), x.region);
    DedupFacts(RegionsOf(xs));
  }

  /** The `instances_by_region` dictionary, filled by appending each instance to the list of
      its region, created empty on the region's first appearance. */
  function Groups(xs: seq<Listed>): map<string, seq<Listed>> {
    if xs == [] then map[]
    else
      var g := Groups(xs[..|xs| - 1]);
      var x := xs[|xs| - 1];
      g[x.region := (if x.region in g then g[x.region] else []) + [x]]
  }

  /** The dictionary has a key for each region that occurs, and the list under it is exactly
      that region's instances in their original order. */
  lemma {:induction false} GroupsFacts(xs: seq<Listed>)
    ensures forall r :: r in Groups(xs) <==> r in RegionsOf(xs)
    ensures forall r :: r in Groups(xs) ==> Groups(xs)[r] == InRegion(xs, r)
  {
    if xs != [] {
      var init := xs[..|xs| - 1];
      var x := xs[|xs| - 1];
      GroupsFacts(init);
      GroupKeys(init);
      assert RegionsOf(xs) == RegionsOf(init) + [x.region];
      if x.region !in RegionsOf(init) {
        NoRegionNoGroup(init, x.region);
      }
    }
  }

  /** The dictionary has a key for each region that occurs. */
  lemma {:induction false} GroupKeys(xs: seq<Listed>)
    ensures forall r :: r in Groups(xs) <==> r in RegionsOf(xs)
  {
    if xs != [] {
      var init := xs[..|xs| - 1];
      GroupKeys(init);
      assert RegionsOf(xs) == RegionsOf(init) + [xs[|xs| - 1].region];
    }
  }

  /** One more instance: its region's list, new or not, gains it at the end. */
  lemma GroupsSnoc(xs: seq<Listed>, x: Listed)
    ensures x.region in Groups(xs) <==> x.region in RegionsOf(xs)
    ensures Groups(xs + [x])
      == Groups(xs)[x.region := (if x.region in Groups(xs) then Groups(xs)[x.region] else []) + [x]]
  {
    assert (xs + [x])[..|xs|] == xs;
    GroupKeys(xs);
  }

  /** One step of the grouping loop over the first `k + 1` instances: a region joins the order
      on its first appearance, and its list gains the instance at the end. */
  lemma GroupStep(xs: seq<Listed>, k: int)
    requires 0 <= k < |xs|
    ensures var g := Groups(xs[..k]); var r := xs[k].region;
      && Dedup(RegionsOf(xs[..k + 1]))
         == (if r in g then Dedup(RegionsOf(xs[..k])) else Dedup(RegionsOf(xs[..k])) + [r])
      && Groups(xs[..k + 1]) == g[r := (if r in g then g[r] else []) + [xs[k]]]
  {
    assert xs[..k + 1] == xs[..k] + [xs[k]];
    RegionsSnoc(xs[..k], xs[k]);
    GroupsSnoc(xs[..k], xs[k]);
  }

  /** The grouping loop: the keys come in order of first appearance. */
  method GroupByRegion(xs: seq<Listed>) returns (order: seq<string>, groups: map<string, seq<Listed>>)
    ensures order == Dedup(RegionsOf(xs))
    ensures groups == Groups(xs)
  {
    order, groups := [], map[];
    var k := 0;
    while k < |xs|
      invariant 0 <= k <= |xs|
      invariant order == Dedup(RegionsOf(xs[..k]))
      invariant groups == Groups(xs[..k])
    {
      var x := xs[k];
      GroupStep(xs, k);
      if x.region !in groups {
        order := order + [x.region];
        groups := groups[x.region := []];
      }
      groups := groups[x.region := groups[x.region] + [x]];
      k := k + 1;
    }
    assert xs[..k] == xs;
  }

  /** The counts of the groups of `order`, added up. */
  function GroupCount(order: seq<string>, xs: seq<Listed>, clientFails: string -> bool, tagOk: Listed -> bool,
                      want: bool): nat
  {
    if order == [] then 0
    else
      GroupCount(order[..|order| - 1], xs, clientFails, tagOk, want)
      + CountIf(InRegion(xs, order[|order| - 1]), clientFails, tagOk, want)
  }

  /** One more instance adds to the group of its region and to no other. */
  lemma {:induction false} GroupCountSnoc(order: seq<string>, xs: seq<Listed>, x: Listed,
                                          clientFails: string -> bool, tagOk: Listed -> bool, want: bool)
    requires Distinct(order)
    ensures GroupCount(order, xs + [x], clientFails, tagOk, want)
      == GroupCount(order, xs, clientFails, tagOk, want)
         + (if x.region in order && Tagged(x, clientFails, tagOk) == want then 1 else 0)
  {
    if order != [] {
      var init := order[..|order| - 1];
      var r := order[|order| - 1];
      assert order == init + [r];
      assert GroupCount(order, xs + [x], clientFails, tagOk, want)
        == GroupCount(init, xs + [x], clientFails, tagOk, want) + CountIf(InRegion(xs + [x], r), clientFails, tagOk, want);
      assert GroupCount(order, xs, clientFails, tagOk, want)
        == GroupCount(init, xs, clientFails, tagOk, want) + CountIf(InRegion(xs, r), clientFails, tagOk, want);
      GroupCountSnoc(init, xs, x, clientFails, tagOk, want);
      InRegionSnoc(xs, x, r);
      if x.region == r {
        CountIfSnoc(InRegion(xs, r), x, clientFails, tagOk, want);
      } else {
        assert InRegion(xs + [x], r) == InRegion(xs, r) + [];
        assert InRegion(xs + [x], r) == InRegion(xs, r);
        assert x.region in order <==> x.region in init;
      }
    }
  }

  /** A region first seen with the last instance adds that instance's count. */
  lemma GroupCountNewRegion(order: seq<string>, xs: seq<Listed>, x: Listed,
                            clientFails: string -> bool, tagOk: Listed -> bool, want: bool)
    requires x.region !in RegionsOf(xs)
    ensures GroupCount(order + [x.region], xs + [x], clientFails, tagOk, want)
      == GroupCount(order, xs + [x], clientFails, tagOk, want) + (if Tagged(x, clientFails, tagOk) == want then 1 else 0)
  {
    assert (order + [x.region])[..|order|] == order;
    NoRegionNoGroup(xs, x.region);
    InRegionSnoc(xs, x, x.region);
    CountIfSnoc([], x, clientFails, tagOk, want);
    assert [] + [x] == [x];
  }

  /** Grouping by region loses and duplicates nothing: the groups' counts add up to the
      count over all the instances. */
  lemma {:induction false} GroupCountAll(xs: seq<Listed>, clientFails: string -> bool, tagOk: Listed -> bool,
                                         want: bool)
    ensures GroupCount(Dedup(RegionsOf(xs)), xs, clientFails, tagOk, want) == CountIf(xs, clientFails, tagOk, want)
  {
    if xs != [] {
      var init := xs[..|xs| - 1];
      var x := xs[|xs| - 1];
      assert init + [x] == xs;
      GroupCountAll(init, clientFails, tagOk, want);
      var d := Dedup(RegionsOf(init));
      RegionsSnoc(init, x);
      GroupCountSnoc(d, init, x, clientFails, tagOk, want);
      if x.region !in RegionsOf(init) {
        GroupCountNewRegion(d, init, x, clientFails, tagOk, want);
      }
    }
  }

  /** What `apply_tags_to_instances` reports. */
  datatype Applied = Applied(success: nat, errors: nat)

  /** One region's pass: a client that cannot be created fails the whole group; otherwise each
      instance is tagged or fails on its own. */
  method TagRegion(group: seq<Listed>, region: string, clientFails: string -> bool, tagOk: Listed -> bool)
    returns (success: nat, errors: nat)
    requires forall x :: x in group ==> x.region == region
    ensures success == CountIf(group, clientFails, tagOk, true)
    ensures errors == CountIf(group, clientFails, tagOk, false)
  {
    if clientFails(region) {
      NoneTagged(group, region, clientFails, tagOk);
      return 0, |group|;
    }
    success, errors := 0, 0;
    var j := 0;
    while j < |group|
      invariant 0 <= j <= |group|
      invariant success == CountIf(group[..j], clientFails, tagOk, true)
      invariant errors == CountIf(group[..j], clientFails, tagOk, false)
    {
      assert group[..j + 1][..j] == group[..j];
      assert group[j] in group;
      if tagOk(group[j]) {
        success := success + 1;
      } else {
        errors := errors + 1;
      }
      j := j + 1;
    }
    assert group[..j] == group;
  }

  /** When a region's client cannot be created, none of its instances is tagged. */
  lemma {:induction false} NoneTagged(group: seq<Listed>, region: string, clientFails: string -> bool,
                                      tagOk: Listed -> bool)
    requires forall x :: x in group ==> x.region == region
    requires clientFails(region)
    ensures CountIf(group, clientFails, tagOk, true) == 0
    ensures CountIf(group, clientFails, tagOk, false) == |group|
  {
    if group != [] {
      var init := group[..|group| - 1];
      assert forall x :: x in init ==> x in group;
      NoneTagged(init, region, clientFails, tagOk);
      assert group[|group| - 1] in group;
    }
  }

  /** One region of the tagging loop over the regions in order of first appearance: its
      group is its instances, and its counts add to those of the regions before it. */
  lemma ApplyStep(xs: seq<Listed>, k: int, clientFails: string -> bool, tagOk: Listed -> bool)
    requires 0 <= k < |Dedup(RegionsOf(xs))|
    ensures var order := Dedup(RegionsOf(xs)); var region := order[k];
      && region in Groups(xs) && Groups(xs)[region] == InRegion(xs, region)
      && (forall x :: x in InRegion(xs, region) ==> x.region == region)
      && (forall want: bool :: GroupCount(order[..k + 1], xs, clientFails, tagOk, want)
            == GroupCount(order[..k], xs, clientFails, tagOk, want) + CountIf(InRegion(xs, region), clientFails, tagOk, want))
  {
    var order := Dedup(RegionsOf(xs));
    assert order[..k + 1][..k] == order[..k];
    assert order[k] in order;
    GroupsFacts(xs);
    DedupFacts(RegionsOf(xs));
    InRegionMembers(xs, order[k]);
  }

  /** `apply_tags_to_instances`: nothing happens without instances or tags; otherwise every
      selected instance is counted exactly once, as tagged when its region's client and its
      `create_tags` call both work, as failed otherwise. */
  method ApplyTags(selected: seq<Listed>, tags: map<string, string>, clientFails: string -> bool,
                   tagOk: Listed -> bool) returns (result: Option<Applied>)
    ensures selected == [] || tags == map[] <==> result.None?
    ensures result.Some? ==> result.value.success == CountIf(selected, clientFails, tagOk, true)
    ensures result.Some? ==> result.value.errors == CountIf(selected, clientFails, tagOk, false)
    ensures result.Some? ==> result.value.success + result.value.errors == |selected|
  {
    if selected == [] || tags == map[] {
      return None;
    }
    var order, groups := GroupByRegion(selected);
    var success, errors := 0, 0;
    var k := 0;
    while k < |order|
      invariant 0 <= k <= |order|
      invariant success == GroupCount(order[..k], selected, clientFails, tagOk, true)
      invariant errors == GroupCount(order[..k], selected, clientFails, tagOk, false)
    {
      var region := order[k];
      ApplyStep(selected, k, clientFails, tagOk);
      var s, e := TagRegion(groups[region], region, clientFails, tagOk);
      success, errors := success + s, errors + e;
      k := k + 1;
    }
    assert order[..k] == order;
    GroupCountAll(selected, clientFails, tagOk, true);
    GroupCountAll(selected, clientFails, tagOk, false);
    CountSplit(selected, clientFails, tagOk);
    return Some(Applied(success, errors));
  }

  // ---------------------------------------------------------------------------------------
  // The wizard
  // ---------------------------------------------------------------------------------------

  /** What the fetch loop gets for one region: the instances (an error of the describe call is
      caught inside `get_instances_in_region` and gives none), or an exception from creating
      the region's client: `NoCredentialsError`, which ends the wizard, or another one, which
      skips the region. */
  datatype Fetch = Fetched(instances: seq<Ec2.Instance>) | NoCredentials | FetchFailed

  /** The listing rows of a region's instances, in order. */
  function RowsOf(instances: seq<Ec2.Instance>, region: string): (r: seq<Listed>)
    ensures |r| == |instances|
  {
    seq(|instances|, i requires 0 <= i < |instances| => ListedOf(instances[i], region))
  }

  /** The rows one region's answer contributes. */
  function RegionRows(f: Fetch, region: string): seq<Listed> {
    if f.Fetched? then RowsOf(f.instances, region) else []
  }

  /** `rows` in front of a listing that may have failed. */
  function Prepend(rows: seq<Listed>, rest: Option<seq<Listed>>): Option<seq<Listed>> {
    if rest.None? then None else Some(rows + rest.value)
  }

  /** The rows of the regions in order, or `None` when one of them reports missing
      credentials. */
  function Listing(regions: seq<string>, fetch: string -> Fetch): Option<seq<Listed>> {
    if regions == [] then Some([])
    else if fetch(regions[0]).NoCredentials? then None
    else Prepend(RegionRows(fetch(regions[0]), regions[0]), Listing(regions[1..], fetch))
  }

  /** Every listed row belongs to a scanned region. */
  lemma {:induction false} ListingRegions(regions: seq<string>, fetch: string -> Fetch)
    requires Listing(regions, fetch).Some?
    ensures forall x :: x in Listing(regions, fetch).value ==> x.region in regions
  {
    if regions != [] {
      ListingRegions(regions[1..], fetch);
    }
  }

  /** One region of the fetch loop. */
  lemma ListingStep(regions: seq<string>, k: int, fetch: string -> Fetch, rows: seq<Listed>)
    requires 0 <= k < |regions|
    ensures Prepend(rows, Listing(regions[k..], fetch)) ==
      if fetch(regions[k]).NoCredentials? then None
      else Prepend(rows + RegionRows(fetch(regions[k]), regions[k]), Listing(regions[k + 1..], fetch))
  {
    assert regions[k..][1..] == regions[k + 1..];
    assert regions[k..][0] == regions[k];
    var rest := Listing(regions[k + 1..], fetch);
    if rest.Some? {
      assert rows + (RegionRows(fetch(regions[k]), regions[k]) + rest.value)
        == (rows + RegionRows(fetch(regions[k]), regions[k])) + rest.value;
    }
  }

  /** The fetch loop of `main` over the regions. */
  method FetchAll(regions: seq<string>, fetch: string -> Fetch) returns (all: Option<seq<Listed>>)
    ensures all == Listing(regions, fetch)
  {
    var rows: seq<Listed> := [];
    var k := 0;
    assert regions[0..] == regions;
    assert Listing(regions, fetch).Some? ==> [] + Listing(regions, fetch).value == Listing(regions, fetch).value;
    while k < |regions|
      invariant 0 <= k <= |regions|
      invariant Listing(regions, fetch) == Prepend(rows, Listing(regions[k..], fetch))
    {
      var f := fetch(regions[k]);
      ListingStep(regions, k, fetch, rows);
      if f.NoCredentials? {
        return None;
      }
      rows := rows + RegionRows(f, regions[k]);
      k := k + 1;
    }
    assert rows + [] == rows;
    return Some(rows);
  }

  /** How the wizard ends. */
  datatype Outcome =
    | Exit(code: int)            // `sys.exit(code)`
    | Stopped                    // returns without tagging
    | Unfinished                 // a prompt was left without an answer
    | Finished(applied: Applied)

  /** The wizard reaches the tagging: the environment is set, the listing holds instances,
      the selection and the tags are answered and non-empty, and the user confirms. */
  ghost predicate Proceeds(envOk: bool, fetch: string -> Fetch, selectAnswers: seq<string>, tagAnswers: seq<string>,
                           confirmed: bool)
  {
    envOk && Listing(Regions, fetch).Some? && Listing(Regions, fetch).value != []
    && Selection(Listing(Regions, fetch).value, selectAnswers).Some?
    && Selection(Listing(Regions, fetch).value, selectAnswers).value != []
    && TagsOf(tagAnswers).Tags? && TagsOf(tagAnswers).tags != map[] && confirmed
  }

  /** A prompt runs out of answers: the selection prompt, or the tag prompt after a non-empty
      selection. */
  ghost predicate LeftOpen(envOk: bool, fetch: string -> Fetch, selectAnswers: seq<string>, tagAnswers: seq<string>) {
    envOk && Listing(Regions, fetch).Some? && Listing(Regions, fetch).value != []
    && (Selection(Listing(Regions, fetch).value, selectAnswers).None?
        || (Selection(Listing(Regions, fetch).value, selectAnswers).value != [] && TagsOf(tagAnswers).Unanswered?))
  }

  /** `main`: exits 1 without the environment variables or credentials, stops when nothing is
      listed, selected or confirmed, or when the tags are cancelled or empty, and otherwise
      tags the selection and reports the counts. The four outcomes are told apart exactly by
      these conditions. */
  method Wizard(envOk: bool, fetch: string -> Fetch, selectAnswers: seq<string>, tagAnswers: seq<string>,
                confirmed: bool, clientFails: string -> bool, tagOk: Listed -> bool)
    returns (outcome: Outcome)
    ensures outcome.Exit? <==> !envOk || Listing(Regions, fetch).None?
    ensures outcome.Exit? ==> outcome.code == 1
    ensures outcome.Finished? <==> Proceeds(envOk, fetch, selectAnswers, tagAnswers, confirmed)
    ensures outcome.Unfinished? <==> LeftOpen(envOk, fetch, selectAnswers, tagAnswers)
    ensures envOk && Listing(Regions, fetch) == Some([]) ==> outcome == Stopped
    ensures envOk && Listing(Regions, fetch).Some? && Selection(Listing(Regions, fetch).value, selectAnswers) == Some([])
      ==> outcome == Stopped
    ensures outcome.Finished? ==>
      var selected := Selection(Listing(Regions, fetch).value, selectAnswers).value;
      outcome.applied.success == CountIf(selected, clientFails, tagOk, true)
      && outcome.applied.errors == CountIf(selected, clientFails, tagOk, false)
      && outcome.applied.success + outcome.applied.errors == |selected|
  {
    if !envOk {
      return Exit(1);
    }
    var all := FetchAll(Regions, fetch);
    if all.None? {
      return Exit(1);
    }
    if all.value == [] {
      return Stopped;
    }
    var selected := SelectInstances(all.value, selectAnswers);
    if selected.None? {
      return Unfinished;
    }
    if selected.value == [] {
      return Stopped;
    }
    var tags := GetTags(tagAnswers);
    if tags.Unanswered? {
      return Unfinished;
    }
    if tags.Cancelled? || tags.tags == map[] || !confirmed {
      return Stopped;
    }
    var applied := ApplyTags(selected.value, tags.tags, clientFails, tagOk);
    return Finished(applied.value);
  }
}
