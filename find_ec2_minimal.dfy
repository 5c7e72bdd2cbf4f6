/** find-ec2-minimal: the same search as find-ec2, done directly over boto3: discover the US
    regions of every profile, list the instances of every (profile, region) pair, keep the rows
    that contain a search term, and print them, optionally sorted by a column.

    The profile list and every API answer are inputs: `regionsOf` answers the region listing of
    a profile and `instancesOf` the instance listing of a (profile, region) pair. */
module FindEc2Minimal {
  import opened Common
  import opened Text
  import opened Lists
  import opened Ec2

  // ---------------------------------------------------------------------------------------
  // Search terms and the row filter
  // ---------------------------------------------------------------------------------------

  /** `[t.strip().lower() for t in search.split(',') if t.strip()]`. */
  function SearchTerms(search: string): (r: seq<string>)
    ensures |r| == |CommaList(search)|
    ensures forall i :: 0 <= i < |r| ==> r[i] != []
  {
    var items := CommaList(search);
    seq(|items|, i requires 0 <= i < |items| => Lower(items[i]))
  }

  /** A search of clean comma-free items gives those items, lower-cased. */
  lemma SearchTermsOfItems(items: seq<string>)
    requires forall i :: 0 <= i < |items| ==> items[i] != [] && IsStripped(items[i]) && ',' !in items[i]
    ensures |SearchTerms(Join(items, ','))| == |items|
    ensures forall i :: 0 <= i < |items| ==> SearchTerms(Join(items, ','))[i] == Lower(items[i])
  {
    CommaListJoin(items);
  }

  /** `any(term in line_str.lower() for term in search_terms)` for the comma-join of a row. */
  predicate Matches(row: seq<string>, terms: seq<string>) {
    exists i :: 0 <= i < |terms| && Contains(Lower(Join(row, ',')), terms[i])
  }

  /** Unlike find-ec2, an empty term list keeps no row: a search made only of commas and
      blanks finds nothing. */
  lemma NoTermsNoRows(search: string, row: seq<string>)
    requires forall k :: 0 <= k < |search| ==> search[k] == ',' || IsSpace(search[k])
    ensures !Matches(row, SearchTerms(search))
  {
    var parts := Split(search, ',');
    forall i | 0 <= i < |parts| ensures Strip(parts[i]) == [] {
      forall k | 0 <= k < |parts[i]| ensures IsSpace(parts[i][k]) {
        PartInside(search, i, k);
      }
      StripEmptyIff(parts[i]);
    }
    NoneLeft(parts);
  }

  /** A character of a piece of a split is a character of the string. */
  lemma {:induction false} PartInside(s: string, i: int, k: int)
    requires 0 <= i < |Split(s, ',')| && 0 <= k < |Split(s, ',')[i]|
    ensures Split(s, ',')[i][k] in s
    decreases |s|
  {
    var parts := Split(s, ',');
    JoinSplit(s, ',');
    PartInJoin(parts, i, k);
  }

  /** A character of a part is a character of their join. */
  lemma {:induction false} PartInJoin(parts: seq<string>, i: int, k: int)
    requires 0 <= i < |parts| && 0 <= k < |parts[i]|
    ensures parts[i][k] in Join(parts, ',')
  {
    if |parts| > 1 {
      if i == 0 {
        assert Join(parts, ',')[k] == parts[0][k];
      } else {
        PartInJoin(parts[1..], i - 1, k);
        assert parts[1..][i - 1] == parts[i];
      }
    }
  }

  /** Pieces that all strip to nothing leave no item. */
  lemma {:induction false} NoneLeft(parts: seq<string>)
    requires forall i :: 0 <= i < |parts| ==> Strip(parts[i]) == []
    ensures StrippedNonEmpty(parts) == []
  {
    if parts != [] {
      NoneLeft(parts[1..]);
    }
  }

  /** The row of one instance: empty strings for absent attributes, and the value of its first
      `Name` tag. */
  function RowOf(profile: string, region: string, inst: Instance): (row: seq<string>)
    ensures |row| == 8 && row[0] == profile && row[1] == inst.instanceId && row[2] == region
    ensures row[3] == OrElse(inst.publicIp, "") && row[4] == OrElse(inst.privateIp, "")
    ensures row[5] == inst.state
    ensures row[6] == NameTag(if inst.tags.Some? then inst.tags.value else [], "")
    ensures row[7] == OrElse(inst.keyName, "")
  {
    [profile, inst.instanceId, region, OrElse(inst.publicIp, ""), OrElse(inst.privateIp, ""), inst.state,
     NameTag(if inst.tags.Some? then inst.tags.value else [], ""), OrElse(inst.keyName, "")]
  }

  /** The kept rows of the instances listed in one region, in listing order. */
  function KeptRows(profile: string, region: string, insts: seq<Instance>, terms: seq<string>): seq<seq<string>> {
    if insts == [] then []
    else
      var row := RowOf(profile, region, insts[|insts| - 1]);
      KeptRows(profile, region, insts[..|insts| - 1], terms) + (if Matches(row, terms) then [row] else [])
  }

  /** Every kept row matches a term, has 8 fields and names the profile and the region. */
  lemma {:induction false} KeptRowsFacts(profile: string, region: string, insts: seq<Instance>, terms: seq<string>)
    ensures |KeptRows(profile, region, insts, terms)| <= |insts|
    ensures forall row :: row in KeptRows(profile, region, insts, terms) ==> Matches(row, terms) && |row| == 8 && row[0] == profile && row[2] == region
  {
    if insts != [] {
      KeptRowsFacts(profile, region, insts[..|insts| - 1], terms);
    }
  }

  // ---------------------------------------------------------------------------------------
  // Profiles and regions
  // ---------------------------------------------------------------------------------------

  /** `get_profiles`: the session's profiles, cut to the first `limit` when it is positive. */
  function Profiles(available: seq<string>, limit: Option<int>): (r: seq<string>)
    ensures |r| <= |available| && r == available[..|r|]
    ensures limit.Some? && limit.value > 0 ==> |r| == if limit.value < |available| then limit.value else |available|
    ensures limit.None? || limit.value <= 0 ==> r == available
  {
    Limit(available, limit)
  }

  /** What `describe_regions` did for a profile. */
  datatype RegionsReply = Regions(names: seq<string>) | CredentialFailure | OtherFailure

  /** `get_all_regions`: the US regions; none on a credential error, and `us-east-1` alone on any
      other error. */
  function AllRegions(reply: RegionsReply): (r: seq<string>)
    ensures reply.Regions? ==> forall i :: 0 <= i < |r| ==> StartsWith(r[i], "us-") && r[i] in reply.names
    ensures reply.Regions? ==> forall x :: x in reply.names && StartsWith(x, "us-") ==> x in r
    ensures reply.CredentialFailure? ==> r == []
    ensures reply.OtherFailure? ==> r == ["us-east-1"]
  {
    match reply
    case Regions(names) => UsRegions(names)
    case CredentialFailure => []
    case OtherFailure => ["us-east-1"]
  }

  /** `[r for r in regions if r.startswith("us-")]`. */
  function UsRegions(names: seq<string>): (r: seq<string>)
    ensures forall i :: 0 <= i < |r| ==> StartsWith(r[i], "us-") && r[i] in names
    ensures forall x :: x in names && StartsWith(x, "us-") ==> x in r
  {
    if names == [] then []
    else
      var rest := UsRegions(names[..|names| - 1]);
      var x := names[|names| - 1];
      assert names == names[..|names| - 1] + [x];
      rest + (if StartsWith(x, "us-") then [x] else [])
  }

  /** The profiles whose region list is non-empty, in list order. */
  function KeptProfiles(profiles: seq<string>, regionsOf: string -> RegionsReply): seq<string> {
    if profiles == [] then []
    else
      var p := profiles[|profiles| - 1];
      KeptProfiles(profiles[..|profiles| - 1], regionsOf) + (if AllRegions(regionsOf(p)) != [] then [p] else [])
  }

  /** The number of regions over a list of profiles. */
  function RegionCount(profiles: seq<string>, regionsOf: string -> RegionsReply): nat {
    if profiles == [] then 0
    else RegionCount(profiles[..|profiles| - 1], regionsOf) + |AllRegions(regionsOf(profiles[|profiles| - 1]))|
  }

  /** One more profile adds itself to the kept ones when it has regions, and its regions to
      the count. */
  lemma KeptStep(profiles: seq<string>, k: nat, next: nat, regionsOf: string -> RegionsReply)
    requires k < |profiles| && next == k + 1
    ensures AllRegions(regionsOf(profiles[k])) != [] ==>
      KeptProfiles(profiles[..next], regionsOf) == KeptProfiles(profiles[..k], regionsOf) + [profiles[k]]
    ensures AllRegions(regionsOf(profiles[k])) == [] ==>
      KeptProfiles(profiles[..next], regionsOf) == KeptProfiles(profiles[..k], regionsOf)
    ensures RegionCount(KeptProfiles(profiles[..next], regionsOf), regionsOf)
      == RegionCount(KeptProfiles(profiles[..k], regionsOf), regionsOf) + |AllRegions(regionsOf(profiles[k]))|
  {
    var before := KeptProfiles(profiles[..k], regionsOf);
    assert profiles[..next][..k] == profiles[..k];
    if AllRegions(regionsOf(profiles[k])) != [] {
      assert (before + [profiles[k]])[..|before|] == before;
    }
  }

  /** `regions_by_profile[profile] = regions`, with the dictionary's keys kept in insertion
      order: a new key goes at the end, an old one keeps its place. */
  method Record(order: seq<string>, byProfile: map<string, seq<string>>, profile: string, regions: seq<string>)
    returns (order': seq<string>, byProfile': map<string, seq<string>>)
    requires forall p :: p in byProfile <==> p in order
    ensures order' == if profile in order then order else order + [profile]
    ensures byProfile' == byProfile[profile := regions]
    ensures forall p :: p in byProfile' <==> p in order'
  {
    order' := order;
    if profile !in byProfile {
      order' := order + [profile];
    }
    byProfile' := byProfile[profile := regions];
  }

  /** What `discover_regions` holds once it has seen the profiles whose kept ones are `kept`. */
  ghost predicate Discovered(kept: seq<string>, regionsOf: string -> RegionsReply,
                             order: seq<string>, byProfile: map<string, seq<string>>, totalPairs: nat)
  {
    && order == Dedup(kept)
    && (forall p :: p in byProfile <==> p in order)
    && (forall p :: p in byProfile ==> byProfile[p] == AllRegions(regionsOf(p)) && byProfile[p] != [])
    && totalPairs == RegionCount(kept, regionsOf)
  }

  /** One turn of the loop of `discover_regions`: a profile with regions is recorded and its
      regions counted; one without is skipped. */
  method DiscoverOne(ghost kept: seq<string>, profile: string, regionsOf: string -> RegionsReply,
                     order: seq<string>, byProfile: map<string, seq<string>>, totalPairs: nat)
    returns (order': seq<string>, byProfile': map<string, seq<string>>, totalPairs': nat)
    requires Discovered(kept, regionsOf, order, byProfile, totalPairs)
    ensures AllRegions(regionsOf(profile)) != [] ==> Discovered(kept + [profile], regionsOf, order', byProfile', totalPairs')
    ensures AllRegions(regionsOf(profile)) == [] ==> Discovered(kept, regionsOf, order', byProfile', totalPairs')
  {
    var regions := AllRegions(regionsOf(profile));
    order', byProfile', totalPairs' := order, byProfile, totalPairs;
    if regions != [] {
      DedupSnoc(kept, profile);
      assert (kept + [profile])[..|kept|] == kept;
      order', byProfile' := Record(order, byProfile, profile, regions);
      totalPairs' := totalPairs + |regions|;
    }
  }

  /** `discover_regions`: the dictionary from each kept profile to its regions (its keys in
      insertion order), and `total_pairs`, the number of regions summed over the kept profiles,
      a profile listed twice counted twice. */
  method DiscoverRegions(profiles: seq<string>, regionsOf: string -> RegionsReply)
    returns (order: seq<string>, byProfile: map<string, seq<string>>, totalPairs: nat)
    ensures order == Dedup(KeptProfiles(profiles, regionsOf))
    ensures forall p :: p in byProfile <==> p in order
    ensures forall p :: p in byProfile ==> byProfile[p] == AllRegions(regionsOf(p)) && byProfile[p] != []
    ensures totalPairs == RegionCount(KeptProfiles(profiles, regionsOf), regionsOf)
  {
    order, byProfile, totalPairs := [], map[], 0;
    var k := 0;
    while k < |profiles|
      invariant 0 <= k <= |profiles|
      invariant Discovered(KeptProfiles(profiles[..k], regionsOf), regionsOf, order, byProfile, totalPairs)
    {
      var next := k + 1;
      KeptStep(profiles, k, next, regionsOf);
      order, byProfile, totalPairs := DiscoverOne(KeptProfiles(profiles[..k], regionsOf), profiles[k], regionsOf, order, byProfile, totalPairs);
      k := next;
    }
    assert profiles[..k] == profiles;
  }

  /** Counting each dictionary key once never exceeds counting every kept profile, and the two
      agree when no profile is listed twice. */
  lemma {:induction false} DedupCount(ps: seq<string>, regionsOf: string -> RegionsReply)
    ensures RegionCount(Dedup(ps), regionsOf) <= RegionCount(ps, regionsOf)
    ensures Distinct(ps) ==> RegionCount(Dedup(ps), regionsOf) == RegionCount(ps, regionsOf)
  {
    if ps != [] {
      var init := ps[..|ps| - 1];
      var x := ps[|ps| - 1];
      DedupCount(init, regionsOf);
      assert ps == init + [x];
      DedupSnoc(init, x);
      DedupFacts(init);
      var d := Dedup(init);
      if x !in d {
        assert (d + [x])[..|d|] == d;
      }
      if Distinct(ps) {
        assert Distinct(init);
        assert x !in init;
      }
    }
  }

  // ---------------------------------------------------------------------------------------
  // Instances
  // ---------------------------------------------------------------------------------------

  /** How an instance listing ended: normally, with a `ClientError`/`ProfileNotFound` (the next
      region is tried), with a `CredentialRetrievalError` (the profile's remaining regions are
      abandoned), or with any other exception (a read or connect timeout,
      `EndpointConnectionError`, `NoCredentialsError`), which nothing catches: it ends the run
      with a traceback and exit status 1 before anything is printed. */
  datatype Failure = NoFailure | ClientFailure | CredentialFailureIn | Uncaught

  /** One instance listing: the instances iterated before it ended, and how it ended. Rows of
      the instances seen before a failure are kept. */
  datatype Listing = Listing(insts: seq<Instance>, failure: Failure)

  /** The rows of one profile, region by region, up to and including a region whose listing
      lost the credentials. */
  function ProfileRows(profile: string, regions: seq<string>, terms: seq<string>,
                       instancesOf: (string, string) -> Listing): seq<seq<string>>
  {
    if regions == [] then []
    else
      var l := instancesOf(profile, regions[0]);
      KeptRows(profile, regions[0], l.insts, terms)
      + (if l.failure.CredentialFailureIn? then [] else ProfileRows(profile, regions[1..], terms, instancesOf))
  }

  /** The number of pairs processed for one profile: its regions up to and including the first
      whose listing lost the credentials. */
  function ProfilePairs(profile: string, regions: seq<string>, instancesOf: (string, string) -> Listing): (n: nat)
    ensures n <= |regions|
    ensures (forall i :: 0 <= i < |regions| ==> !instancesOf(profile, regions[i]).failure.CredentialFailureIn?) ==> n == |regions|
  {
    if regions == [] then 0
    else if instancesOf(profile, regions[0]).failure.CredentialFailureIn? then 1
    else
      assert forall i :: 0 <= i < |regions| - 1 ==> regions[1..][i] == regions[i + 1];
      1 + ProfilePairs(profile, regions[1..], instancesOf)
  }

  /** A listing of the profile, reached before its credentials were lost, raised an exception
      that nothing catches. */
  predicate ProfileCrashes(profile: string, regions: seq<string>, instancesOf: (string, string) -> Listing)
    decreases |regions|
  {
    regions != []
    && (instancesOf(profile, regions[0]).failure.Uncaught?
        || (!instancesOf(profile, regions[0]).failure.CredentialFailureIn?
            && ProfileCrashes(profile, regions[1..], instancesOf)))
  }

  /** The profile's scan crashes exactly when one of the regions it reaches (the first
      `ProfilePairs` of them) fails with an uncaught exception. */
  lemma {:induction false} ProfileCrashesIff(profile: string, regions: seq<string>,
                                             instancesOf: (string, string) -> Listing)
    ensures ProfileCrashes(profile, regions, instancesOf)
        <==> exists i :: 0 <= i < ProfilePairs(profile, regions, instancesOf)
                         && instancesOf(profile, regions[i]).failure.Uncaught?
    decreases |regions|
  {
    if regions != [] && !instancesOf(profile, regions[0]).failure.Uncaught?
       && !instancesOf(profile, regions[0]).failure.CredentialFailureIn? {
      var rest := regions[1..];
      ProfileCrashesIff(profile, rest, instancesOf);
      if ProfileCrashes(profile, rest, instancesOf) {
        var i :| 0 <= i < ProfilePairs(profile, rest, instancesOf) && instancesOf(profile, rest[i]).failure.Uncaught?;
        assert rest[i] == regions[i + 1];
      }
      if exists i :: 0 <= i < ProfilePairs(profile, regions, instancesOf) && instancesOf(profile, regions[i]).failure.Uncaught? {
        var i :| 0 <= i < ProfilePairs(profile, regions, instancesOf) && instancesOf(profile, regions[i]).failure.Uncaught?;
        assert i > 0 && regions[i] == rest[i - 1];
      }
    }
  }

  /** The inner loop of `discover_instances` for one profile; `crashed` when a listing raised
      an uncaught exception, which ends the run. */
  method ScanProfile(profile: string, regions: seq<string>, terms: seq<string>,
                     instancesOf: (string, string) -> Listing)
    returns (crashed: bool, rows: seq<seq<string>>, pairs: nat)
    ensures crashed == ProfileCrashes(profile, regions, instancesOf)
    ensures !crashed ==> rows == ProfileRows(profile, regions, terms, instancesOf)
    ensures !crashed ==> pairs == ProfilePairs(profile, regions, instancesOf)
  {
    crashed, rows, pairs := false, [], 0;
    var k := 0;
    while k < |regions|
      invariant 0 <= k <= |regions|
      invariant rows + ProfileRows(profile, regions[k..], terms, instancesOf) == ProfileRows(profile, regions, terms, instancesOf)
      invariant pairs + ProfilePairs(profile, regions[k..], instancesOf) == ProfilePairs(profile, regions, instancesOf)
      invariant ProfileCrashes(profile, regions[k..], instancesOf) == ProfileCrashes(profile, regions, instancesOf)
    {
      var region := regions[k];
      pairs := pairs + 1;
      var l := instancesOf(profile, region);
      ProfileUnfold(profile, regions[k..], terms, instancesOf);
      assert regions[k..][1..] == regions[k + 1..];
      if l.failure.Uncaught? {
        return true, [], pairs;
      }
      rows := rows + KeptRows(profile, region, l.insts, terms);
      if l.failure.CredentialFailureIn? {
        return;
      }
      k := k + 1;
    }
  }

  /** One step of the region loop. */
  lemma ProfileUnfold(profile: string, regions: seq<string>, terms: seq<string>, instancesOf: (string, string) -> Listing)
    requires regions != []
    ensures var l := instancesOf(profile, regions[0]);
      ProfileCrashes(profile, regions, instancesOf)
        == (l.failure.Uncaught? || (!l.failure.CredentialFailureIn? && ProfileCrashes(profile, regions[1..], instancesOf)))
      && ProfileRows(profile, regions, terms, instancesOf)
        == KeptRows(profile, regions[0], l.insts, terms)
           + (if l.failure.CredentialFailureIn? then [] else ProfileRows(profile, regions[1..], terms, instancesOf))
      && ProfilePairs(profile, regions, instancesOf)
        == 1 + (if l.failure.CredentialFailureIn? then 0 else ProfilePairs(profile, regions[1..], instancesOf))
  {
  }

  /** The rows over the dictionary's profiles, profile by profile. */
  function AllRows(order: seq<string>, byProfile: map<string, seq<string>>, terms: seq<string>,
                   instancesOf: (string, string) -> Listing): seq<seq<string>>
    requires forall p :: p in order ==> p in byProfile
  {
    if order == [] then []
    else
      var p := order[|order| - 1];
      AllRows(order[..|order| - 1], byProfile, terms, instancesOf) + ProfileRows(p, byProfile[p], terms, instancesOf)
  }

  /** The pairs processed over the dictionary's profiles. */
  function AllPairs(order: seq<string>, byProfile: map<string, seq<string>>, instancesOf: (string, string) -> Listing): nat
    requires forall p :: p in order ==> p in byProfile
  {
    if order == [] then 0
    else
      var p := order[|order| - 1];
      AllPairs(order[..|order| - 1], byProfile, instancesOf) + ProfilePairs(p, byProfile[p], instancesOf)
  }

  /** The scan of some profile of the dictionary crashes. */
  predicate AllCrash(order: seq<string>, byProfile: map<string, seq<string>>, instancesOf: (string, string) -> Listing)
    requires forall p :: p in order ==> p in byProfile
  {
    exists i :: 0 <= i < |order| && ProfileCrashes(order[i], byProfile[order[i]], instancesOf)
  }

  /** `discover_instances`: every pair of every profile of the dictionary in key order, and
      `current_pair`, the number of pairs processed; `crashed` when a listing raised an
      uncaught exception, which ends the run without a result. */
  method DiscoverInstances(order: seq<string>, byProfile: map<string, seq<string>>, terms: seq<string>,
                           instancesOf: (string, string) -> Listing)
    returns (crashed: bool, rows: seq<seq<string>>, currentPair: nat)
    requires forall p :: p in order ==> p in byProfile
    ensures crashed == AllCrash(order, byProfile, instancesOf)
    ensures !crashed ==> rows == AllRows(order, byProfile, terms, instancesOf)
    ensures !crashed ==> currentPair == AllPairs(order, byProfile, instancesOf)
  {
    crashed, rows, currentPair := false, [], 0;
    var k := 0;
    while k < |order|
      invariant 0 <= k <= |order|
      invariant rows == AllRows(order[..k], byProfile, terms, instancesOf)
      invariant currentPair == AllPairs(order[..k], byProfile, instancesOf)
      invariant forall i :: 0 <= i < k ==> !ProfileCrashes(order[i], byProfile[order[i]], instancesOf)
    {
      var profile := order[k];
      var profileCrashed, results, pairs := ScanProfile(profile, byProfile[profile], terms, instancesOf);
      if profileCrashed {
        return true, [], currentPair;
      }
      assert order[..k + 1][..k] == order[..k];
      rows := rows + results;
      currentPair := currentPair + pairs;
      k := k + 1;
    }
    assert order[..k] == order;
  }

  /** The progress counter never passes `total_pairs`: each profile processes at most its
      regions, and the dictionary counts each profile at most once. */
  lemma PairsWithinTotal(profiles: seq<string>, regionsOf: string -> RegionsReply, instancesOf: (string, string) -> Listing)
    ensures var kept := KeptProfiles(profiles, regionsOf);
      var order := Dedup(kept);
      var byProfile := map p | p in order :: AllRegions(regionsOf(p));
      AllPairs(order, byProfile, instancesOf) <= RegionCount(kept, regionsOf)
  {
    var kept := KeptProfiles(profiles, regionsOf);
    var order := Dedup(kept);
    var byProfile := map p | p in order :: AllRegions(regionsOf(p));
    PairsWithinRegions(order, byProfile, regionsOf, instancesOf);
    DedupCount(kept, regionsOf);
  }

  /** Pairs processed are at most the regions listed. */
  lemma {:induction false} PairsWithinRegions(order: seq<string>, byProfile: map<string, seq<string>>,
                                              regionsOf: string -> RegionsReply, instancesOf: (string, string) -> Listing)
    requires forall p :: p in order ==> p in byProfile && byProfile[p] == AllRegions(regionsOf(p))
    ensures AllPairs(order, byProfile, instancesOf) <= RegionCount(order, regionsOf)
  {
    if order != [] {
      PairsWithinRegions(order[..|order| - 1], byProfile, regionsOf, instancesOf);
    }
  }

  // ---------------------------------------------------------------------------------------
  // Sorting by a column
  // ---------------------------------------------------------------------------------------

  /** Python's `a <= b` on strings: lexicographic by code point. */
  predicate LexLe(a: string, b: string) {
    a == [] || (b != [] && (a[0] < b[0] || (a[0] == b[0] && LexLe(a[1..], b[1..]))))
  }

  lemma {:induction false} LexLeTotal(a: string, b: string)
    ensures LexLe(a, b) || LexLe(b, a)
  {
    if a != [] && b != [] && a[0] == b[0] {
      LexLeTotal(a[1..], b[1..]);
    }
  }

  lemma {:induction false} LexLeTrans(a: string, b: string, c: string)
    requires LexLe(a, b) && LexLe(b, c)
    ensures LexLe(a, c)
  {
    if a != [] && b != [] && c != [] && a[0] == b[0] && b[0] == c[0] {
      LexLeTrans(a[1..], b[1..], c[1..]);
    }
  }

  lemma {:induction false} LexLeAntisym(a: string, b: string)
    requires LexLe(a, b) && LexLe(b, a)
    ensures a == b
  {
    if a != [] && b != [] {
      LexLeAntisym(a[1..], b[1..]);
      assert a == [a[0]] + a[1..];
      assert b == [b[0]] + b[1..];
    }
  }

  /** The sort key `x[idx]`. */
  function Key(row: seq<string>, idx: nat): string {
    if idx < |row| then row[idx] else []
  }

  predicate SortedBy(rows: seq<seq<string>>, idx: nat) {
    forall i, j :: 0 <= i < j < |rows| ==> LexLe(Key(rows[i], idx), Key(rows[j], idx))
  }

  /** Inserting a row after every row whose key is not greater, as a stable sort does. */
  function Insert(row: seq<string>, rows: seq<seq<string>>, idx: nat): (r: seq<seq<string>>)
    ensures multiset(r) == multiset(rows) + multiset{row}
  {
    if rows == [] then [row]
    else if LexLe(Key(row, idx), Key(rows[0], idx)) && Key(row, idx) != Key(rows[0], idx) then [row] + rows
    else
      assert rows == [rows[0]] + rows[1..];
      [rows[0]] + Insert(row, rows[1..], idx)
  }

  /** `rows.sort(key=lambda x: x[idx])`, as an insertion sort. */
  function SortRows(rows: seq<seq<string>>, idx: nat): (r: seq<seq<string>>)
    ensures multiset(r) == multiset(rows)
  {
    if rows == [] then []
    else
      assert rows == rows[..|rows| - 1] + [rows[|rows| - 1]];
      Insert(rows[|rows| - 1], SortRows(rows[..|rows| - 1], idx), idx)
  }

  /** A row whose key is at most every key of a sorted list can go in front of it. */
  lemma ConsSorted(x: seq<string>, rows: seq<seq<string>>, idx: nat)
    requires SortedBy(rows, idx)
    requires forall j :: 0 <= j < |rows| ==> LexLe(Key(x, idx), Key(rows[j], idx))
    ensures SortedBy([x] + rows, idx)
  {
    var r := [x] + rows;
    forall i, j | 0 <= i < j < |r| ensures LexLe(Key(r[i], idx), Key(r[j], idx)) {
      assert r[j] == rows[j - 1];
      if i > 0 {
        assert r[i] == rows[i - 1];
      }
    }
  }

  /** Every key of an insertion is bounded below by a bound of the row and of the list. */
  lemma {:induction false} InsertLowerBound(lo: string, row: seq<string>, rows: seq<seq<string>>, idx: nat)
    requires LexLe(lo, Key(row, idx))
    requires forall j :: 0 <= j < |rows| ==> LexLe(lo, Key(rows[j], idx))
    ensures forall j :: 0 <= j < |Insert(row, rows, idx)| ==> LexLe(lo, Key(Insert(row, rows, idx)[j], idx))
  {
    if rows != [] && !(LexLe(Key(row, idx), Key(rows[0], idx)) && Key(row, idx) != Key(rows[0], idx)) {
      var tail := rows[1..];
      forall j | 0 <= j < |tail| ensures LexLe(lo, Key(tail[j], idx)) {
        assert tail[j] == rows[j + 1];
      }
      InsertLowerBound(lo, row, tail, idx);
      var ins := Insert(row, tail, idx);
      assert Insert(row, rows, idx) == [rows[0]] + ins;
      forall j | 0 <= j < |ins| + 1 ensures LexLe(lo, Key(([rows[0]] + ins)[j], idx)) {
        if j > 0 {
          assert ([rows[0]] + ins)[j] == ins[j - 1];
        }
      }
    }
  }

  /** Insertion keeps a sorted list sorted. */
  lemma {:induction false} InsertSorted(row: seq<string>, rows: seq<seq<string>>, idx: nat)
    requires SortedBy(rows, idx)
    ensures SortedBy(Insert(row, rows, idx), idx)
  {
    var k := Key(row, idx);
    if rows != [] {
      var k0 := Key(rows[0], idx);
      if LexLe(k, k0) && k != k0 {
        forall j | 0 <= j < |rows| ensures LexLe(k, Key(rows[j], idx)) {
          if j > 0 {
            LexLeTrans(k, k0, Key(rows[j], idx));
          }
        }
        ConsSorted(row, rows, idx);
      } else {
        LexLeTotal(k, k0);
        if LexLe(k, k0) {
          LexLeAntisym(k, k0);
        }
        var tail := rows[1..];
        assert SortedBy(tail, idx) by {
          forall i, j | 0 <= i < j < |tail| ensures LexLe(Key(tail[i], idx), Key(tail[j], idx)) {
            assert tail[i] == rows[i + 1] && tail[j] == rows[j + 1];
          }
        }
        forall j | 0 <= j < |tail| ensures LexLe(k0, Key(tail[j], idx)) {
          assert tail[j] == rows[j + 1];
        }
        InsertSorted(row, tail, idx);
        InsertLowerBound(k0, row, tail, idx);
        ConsSorted(rows[0], Insert(row, tail, idx), idx);
      }
    }
  }

  /** The sorted rows are ordered by the column and are the same rows. */
  lemma {:induction false} SortRowsSorted(rows: seq<seq<string>>, idx: nat)
    ensures SortedBy(SortRows(rows, idx), idx)
    ensures multiset(SortRows(rows, idx)) == multiset(rows)
  {
    if rows != [] {
      SortRowsSorted(rows[..|rows| - 1], idx);
      InsertSorted(rows[|rows| - 1], SortRows(rows[..|rows| - 1], idx), idx);
    }
  }

  /** `HEADER.split(',').index(column)`. */
  function ColumnIndex(column: string): (idx: nat)
    requires column in Columns
    ensures idx < |Columns| && Columns[idx] == column
    ensures forall j :: 0 <= j < idx ==> Columns[j] != column
  {
    if column == Columns[0] then 0
    else if column == Columns[1] then 1
    else if column == Columns[2] then 2
    else if column == Columns[3] then 3
    else if column == Columns[4] then 4
    else if column == Columns[5] then 5
    else if column == Columns[6] then 6
    else 7
  }

  // ---------------------------------------------------------------------------------------
  // Main
  // ---------------------------------------------------------------------------------------

  /** The dictionary `discover_regions` builds for `profiles`. */
  function RegionMap(order: seq<string>, regionsOf: string -> RegionsReply): (m: map<string, seq<string>>)
    ensures forall p :: p in order ==> p in m
  {
    map p | p in order :: AllRegions(regionsOf(p))
  }

  /** A map with exactly the profiles of `order`, each holding its regions, is the region map. */
  lemma RegionMapOf(order: seq<string>, byProfile: map<string, seq<string>>, regionsOf: string -> RegionsReply)
    requires forall p :: p in byProfile <==> p in order
    requires forall p :: p in byProfile ==> byProfile[p] == AllRegions(regionsOf(p))
    ensures byProfile == RegionMap(order, regionsOf)
  {
  }

  /** The rows found for `profiles`, in discovery order. */
  function Found(profiles: seq<string>, terms: seq<string>, regionsOf: string -> RegionsReply,
                 instancesOf: (string, string) -> Listing): seq<seq<string>>
  {
    var order := Dedup(KeptProfiles(profiles, regionsOf));
    AllRows(order, RegionMap(order, regionsOf), terms, instancesOf)
  }

  /** Instance discovery for `profiles` ends in an uncaught exception. */
  predicate Crashes(profiles: seq<string>, regionsOf: string -> RegionsReply, instancesOf: (string, string) -> Listing) {
    var order := Dedup(KeptProfiles(profiles, regionsOf));
    AllCrash(order, RegionMap(order, regionsOf), instancesOf)
  }

  /** A run in which no listing raises an uncaught exception does not crash. */
  lemma NoUncaughtNoCrash(profiles: seq<string>, regionsOf: string -> RegionsReply, instancesOf: (string, string) -> Listing)
    requires forall p, r :: !instancesOf(p, r).failure.Uncaught?
    ensures !Crashes(profiles, regionsOf, instancesOf)
  {
    var order := Dedup(KeptProfiles(profiles, regionsOf));
    var byProfile := RegionMap(order, regionsOf);
    forall i | 0 <= i < |order| ensures !ProfileCrashes(order[i], byProfile[order[i]], instancesOf) {
      ProfileCrashesIff(order[i], byProfile[order[i]], instancesOf);
    }
  }

  /** The printing loop: one comma-joined line per row. */
  method PrintRows(rows: seq<seq<string>>) returns (lines: seq<string>)
    ensures |lines| == |rows|
    ensures forall i :: 0 <= i < |rows| ==> lines[i] == Join(rows[i], ',')
  {
    lines := [];
    var k := 0;
    while k < |rows|
      invariant 0 <= k <= |rows| && |lines| == k
      invariant forall i :: 0 <= i < k ==> lines[i] == Join(rows[i], ',')
    {
      lines := lines + [Join(rows[k], ',')];
      k := k + 1;
    }
  }

  /** Region discovery followed by instance discovery: the rows found for `profiles`, unless
      a listing raised an uncaught exception. */
  method DiscoverAll(profiles: seq<string>, terms: seq<string>, regionsOf: string -> RegionsReply,
                     instancesOf: (string, string) -> Listing) returns (crashed: bool, rows: seq<seq<string>>)
    ensures crashed == Crashes(profiles, regionsOf, instancesOf)
    ensures !crashed ==> rows == Found(profiles, terms, regionsOf, instancesOf)
  {
    var order, byProfile, totalPairs := DiscoverRegions(profiles, regionsOf);
    RegionMapOf(order, byProfile, regionsOf);
    var currentPair;
    crashed, rows, currentPair := DiscoverInstances(order, byProfile, terms, instancesOf);
  }

  /** The report: the rows sorted by the chosen column when `--sort` is given and as found
      otherwise, printed as the header and one line per row, and counted. */
  method Report(discovered: seq<seq<string>>, sort: Option<string>)
    returns (rows: seq<seq<string>>, lines: seq<string>, found: nat)
    requires sort.Some? ==> sort.value in Columns
    ensures multiset(rows) == multiset(discovered)
    ensures sort.None? ==> rows == discovered
    ensures sort.Some? ==> SortedBy(rows, ColumnIndex(sort.value))
    ensures |lines| == |rows| + 1 && lines[0] == Header
    ensures forall i :: 0 <= i < |rows| ==> lines[i + 1] == Join(rows[i], ',')
    ensures found == |rows|
  {
    rows := discovered;
    if sort.Some? {
      var idx := ColumnIndex(sort.value);
      SortRowsSorted(discovered, idx);
      rows := SortRows(discovered, idx);
    }
    var printed := PrintRows(rows);
    lines := [Header] + printed;
    found := |rows|;
  }

  /** `main`: exit 1 without profiles, or when instance discovery raises an uncaught
      exception; otherwise the rows found, sorted by the chosen column
      when `--sort` is given (`sort` is one of the header's columns, as the argument parser
      enforces), printed as the header and one line per row, and counted in the summary. */
  method FindInstances(search: string, limit: Option<int>, sort: Option<string>, available: seq<string>,
                       regionsOf: string -> RegionsReply, instancesOf: (string, string) -> Listing)
    returns (exitCode: int, rows: seq<seq<string>>, lines: seq<string>, found: nat)
    requires sort.Some? ==> sort.value in Columns
    ensures Profiles(available, limit) == [] ==> exitCode == 1 && lines == []
    ensures Profiles(available, limit) != [] && Crashes(Profiles(available, limit), regionsOf, instancesOf) ==>
      exitCode == 1 && lines == []
    ensures Profiles(available, limit) != [] && !Crashes(Profiles(available, limit), regionsOf, instancesOf) ==>
      exitCode == 0
      && multiset(rows) == multiset(Found(Profiles(available, limit), SearchTerms(search), regionsOf, instancesOf))
      && (sort.None? ==> rows == Found(Profiles(available, limit), SearchTerms(search), regionsOf, instancesOf))
      && (sort.Some? ==> SortedBy(rows, ColumnIndex(sort.value)))
      && |lines| == |rows| + 1 && lines[0] == Header
      && (forall i :: 0 <= i < |rows| ==> lines[i + 1] == Join(rows[i], ','))
      && found == |rows|
  {
    var terms := SearchTerms(search);
    var profiles := Profiles(available, limit);
    if profiles == [] {
      return 1, [], [], 0;
    }
    var crashed, discovered := DiscoverAll(profiles, terms, regionsOf, instancesOf);
    if crashed {
      return 1, [], [], 0;
    }
    rows, lines, found := Report(discovered, sort);
    exitCode := 0;
  }
}
