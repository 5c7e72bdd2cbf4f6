/** Turning on instance-metadata tags for a list of EC2 instances: each instance is looked for
    region by region, and where it is found its metadata options are switched to expose tags.
    The describe and modify calls are oracles. */
module EnableTagsImds {
  import opened Common
  import opened Text

  /** The regions searched when `--regions` is not given, in order. */
  const DefaultRegions: seq<string> := ["us-east-1", "us-east-2", "us-west-1", "us-west-2"]

  /** The error codes that mean "not in this region" and are skipped silently. */
  const NotFoundCodes: seq<string> := ["InvalidInstanceID.NotFound", "InvalidInstanceID.Malformed"]

  /** The command line as given. */
  datatype Args = Args(ids: string, regions: Option<string>, verbose: bool)

  /** The normalised arguments, or the exit the parser takes. */
  datatype Parsed = Parsed(instanceIds: seq<string>, regionList: seq<string>, verbose: bool) | ExitWith(code: int)

  /** `parse_arguments`: regions and IDs are comma lists with blanks dropped; an absent or
      empty `--regions` means the four US regions, and no ID exits 2. */
  function ParseArguments(a: Args): (p: Parsed)
    ensures p.ExitWith? <==> CommaList(a.ids) == []
    ensures p.ExitWith? ==> p.code == 2
    ensures p.Parsed? ==> p.instanceIds == CommaList(a.ids) && p.verbose == a.verbose
    ensures p.Parsed? && (a.regions.None? || a.regions.value == []) ==> p.regionList == DefaultRegions
    ensures p.Parsed? && a.regions.Some? && a.regions.value != [] ==> p.regionList == CommaList(a.regions.value)
  {
    var regions := if a.regions.Some? && a.regions.value != [] then CommaList(a.regions.value) else DefaultRegions;
    var ids := CommaList(a.ids);
    if ids == [] then ExitWith(2) else Parsed(ids, regions, a.verbose)
  }

  /** Whatever the arguments, every region searched is a non-empty name. */
  lemma RegionsNonEmpty(a: Args)
    requires ParseArguments(a).Parsed?
    ensures forall i :: 0 <= i < |ParseArguments(a).regionList| ==> ParseArguments(a).regionList[i] != []
  {
  }

  // ---------------------------------------------------------------------------------------
  // Finding the region
  // ---------------------------------------------------------------------------------------

  /** What `find_instance_region` returns: the region, or `""` and a reason. */
  datatype Located = Located(region: string, message: string)

  /** The diagnostic one failed describe leaves: nothing for the not-found codes, else the
      region and the error code (or the exception's class name). */
  function Recorded(region: string, o: ApiOutcome<()>): Option<string> {
    match o
    case ApiOk(_) => None
    case ClientError(code) => if code in NotFoundCodes then None else Some(region + ":" + code)
    case OtherError(name) => Some(region + ":" + name)
  }

  /** The search from `regions` on, with `last` the latest diagnostic so far: the first region
      whose describe succeeds is returned, and otherwise the latest diagnostic or
      `not_found`. */
  function Locate(regions: seq<string>, id: string, probe: (string, string) -> ApiOutcome<()>, last: string): (r: Located)
    ensures r.region != [] ==> r.region in regions && r.message == []
  {
    if regions == [] then Located("", if last != [] then last else "not_found")
    else if probe(regions[0], id).ApiOk? then Located(regions[0], "")
    else
      var rec := Recorded(regions[0], probe(regions[0], id));
      Locate(regions[1..], id, probe, if rec.Some? then rec.value else last)
  }

  /** The instance is reported in the first region, in list order, whose describe succeeds. */
  lemma {:induction false} LocateFirst(regions: seq<string>, id: string, probe: (string, string) -> ApiOutcome<()>,
                                       last: string, i: int)
    requires 0 <= i < |regions| && probe(regions[i], id).ApiOk?
    requires forall j :: 0 <= j < i ==> !probe(regions[j], id).ApiOk?
    ensures Locate(regions, id, probe, last) == Located(regions[i], "")
  {
    if i > 0 {
      var rec := Recorded(regions[0], probe(regions[0], id));
      assert forall j :: 0 <= j < i - 1 ==> regions[1..][j] == regions[j + 1];
      LocateFirst(regions[1..], id, probe, if rec.Some? then rec.value else last, i - 1);
    }
  }

  /** The latest diagnostic left by the failed describes of `regions`, a later one
      overwriting an earlier one; `last` when none leaves one. */
  function LatestError(regions: seq<string>, id: string, probe: (string, string) -> ApiOutcome<()>, last: string): string {
    if regions == [] then last
    else
      var rec := Recorded(regions[|regions| - 1], probe(regions[|regions| - 1], id));
      if rec.Some? then rec.value else LatestError(regions[..|regions| - 1], id, probe, last)
  }

  /** Taking the first region's diagnostic into account up front changes nothing. */
  lemma {:induction false} LatestErrorCons(regions: seq<string>, id: string, probe: (string, string) -> ApiOutcome<()>,
                                           last: string)
    requires regions != []
    ensures var rec := Recorded(regions[0], probe(regions[0], id));
      LatestError(regions, id, probe, last) == LatestError(regions[1..], id, probe, if rec.Some? then rec.value else last)
  {
    if |regions| > 1 {
      var init := regions[..|regions| - 1];
      LatestErrorCons(init, id, probe, last);
      assert init[1..] == regions[1..][..|regions[1..]| - 1];
      assert init[0] == regions[0];
    }
  }

  /** When no describe succeeds, the reason is the latest diagnostic recorded across all the
      regions, or `not_found` when there is none. */
  lemma {:induction false} LocateNotFound(regions: seq<string>, id: string, probe: (string, string) -> ApiOutcome<()>,
                                          last: string)
    requires forall j :: 0 <= j < |regions| ==> !probe(regions[j], id).ApiOk?
    ensures Locate(regions, id, probe, last) ==
      Located("", if LatestError(regions, id, probe, last) != [] then LatestError(regions, id, probe, last) else "not_found")
  {
    if regions != [] {
      var rec := Recorded(regions[0], probe(regions[0], id));
      assert forall j :: 0 <= j < |regions| - 1 ==> regions[1..][j] == regions[j + 1];
      LocateNotFound(regions[1..], id, probe, if rec.Some? then rec.value else last);
      LatestErrorCons(regions, id, probe, last);
    }
  }

  /** `find_instance_region`: the loop over the regions. */
  method FindInstanceRegion(id: string, regions: seq<string>, probe: (string, string) -> ApiOutcome<()>)
    returns (r: Located)
    ensures r == Locate(regions, id, probe, "")
  {
    var last := "";
    var k := 0;
    while k < |regions|
      invariant 0 <= k <= |regions|
      invariant Locate(regions, id, probe, "") == Locate(regions[k..], id, probe, last)
    {
      var region := regions[k];
      assert regions[k..][1..] == regions[k + 1..];
      match probe(region, id) {
        case ApiOk(_) =>
          return Located(region, "");
        case ClientError(code) =>
          if code !in NotFoundCodes {
            last := region + ":" + code;
          }
        case OtherError(name) =>
          last := region + ":" + name;
      }
      k := k + 1;
    }
    return Located("", if last != [] then last else "not_found");
  }

  // ---------------------------------------------------------------------------------------
  // Enabling metadata tags
  // ---------------------------------------------------------------------------------------

  /** A describe answer: per reservation, per instance, the `InstanceMetadataTags` option
      when the instance reports one. */
  type Description = seq<seq<Option<string>>>

  /** What `enable_imds_tags` returns, and whether it asked for the modification. */
  datatype Enabling = Enabling(status: string, message: string, modified: bool)

  /** `enable_imds_tags`: reads the first instance of the first reservation; tags already
      `enabled` need nothing, anything else (a missing option counts as `disabled`) is
      switched on; an empty answer fails with `IndexError`, and a failed call reports its
      error code or exception name. */
  function EnableImdsTags(id: string, region: string, describe: (string, string) -> ApiOutcome<Description>,
                          modifyCall: (string, string) -> ApiOutcome<()>): (e: Enabling)
    ensures e.status in ["enabled", "already_enabled", "error"]
    ensures e.status == "already_enabled" ==> !e.modified && e.message == []
    ensures e.status == "enabled" ==> e.modified && e.message == [] && modifyCall(region, id).ApiOk?
    ensures e.modified ==> describe(region, id).ApiOk?
  {
    match describe(region, id)
    case ClientError(code) => Enabling("error", code, false)
    case OtherError(name) => Enabling("error", name, false)
    case ApiOk(desc) =>
      if desc == [] || desc[0] == [] then Enabling("error", "IndexError", false)
      else
        var current := if desc[0][0].Some? then desc[0][0].value else "disabled";
        if current == "enabled" then Enabling("already_enabled", "", false)
        else
          match modifyCall(region, id)
          case ApiOk(_) => Enabling("enabled", "", true)
          case ClientError(code) => Enabling("error", code, true)
          case OtherError(name) => Enabling("error", name, true)
  }

  /** Enabling is idempotent: once the describe reports the tags enabled, no modification is
      asked for; and a successful modification is asked for exactly when they were not. */
  lemma EnableOnce(id: string, region: string, describe: (string, string) -> ApiOutcome<Description>,
                   modifyCall: (string, string) -> ApiOutcome<()>)
    requires describe(region, id).ApiOk? && describe(region, id).value != [] && describe(region, id).value[0] != []
    ensures EnableImdsTags(id, region, describe, modifyCall).modified <==> describe(region, id).value[0][0] != Some("enabled")
    ensures describe(region, id).value[0][0] == Some("enabled") ==> EnableImdsTags(id, region, describe, modifyCall).status == "already_enabled"
  {
  }

  // ---------------------------------------------------------------------------------------
  // The run
  // ---------------------------------------------------------------------------------------

  /** What happened to one instance: not found anywhere (with the reason), or found in a
      region and enabled there with some outcome. */
  datatype IdResult = NotFound(reason: string) | Found(region: string, enabling: Enabling)

  /** The result for one instance: enabling is attempted only where it was found. */
  function ResultFor(id: string, regions: seq<string>, probe: (string, string) -> ApiOutcome<()>,
                     describe: (string, string) -> ApiOutcome<Description>,
                     modifyCall: (string, string) -> ApiOutcome<()>): IdResult
  {
    var loc := Locate(regions, id, probe, "");
    if loc.region == [] then NotFound(loc.message)
    else Found(loc.region, EnableImdsTags(id, loc.region, describe, modifyCall))
  }

  /** An instance is enabled somewhere exactly when one of the regions' describes finds it,
      and then in a region from the list. */
  lemma {:induction false} FoundIff(id: string, regions: seq<string>, probe: (string, string) -> ApiOutcome<()>,
                                    last: string)
    requires forall i :: 0 <= i < |regions| ==> regions[i] != []
    ensures Locate(regions, id, probe, last).region != [] <==> exists i :: 0 <= i < |regions| && probe(regions[i], id).ApiOk?
  {
    if regions != [] && !probe(regions[0], id).ApiOk? {
      var rec := Recorded(regions[0], probe(regions[0], id));
      FoundIff(id, regions[1..], probe, if rec.Some? then rec.value else last);
      if exists i :: 0 <= i < |regions| && probe(regions[i], id).ApiOk? {
        var i :| 0 <= i < |regions| && probe(regions[i], id).ApiOk?;
        assert regions[1..][i - 1] == regions[i];
      }
      if exists i :: 0 <= i < |regions[1..]| && probe(regions[1..][i], id).ApiOk? {
        var i :| 0 <= i < |regions[1..]| && probe(regions[1..][i], id).ApiOk?;
        assert regions[1..][i] == regions[i + 1];
      }
    }
  }

  /** One pass of the loop in `main`: search, then enable where found. */
  method ProcessId(id: string, regions: seq<string>, probe: (string, string) -> ApiOutcome<()>,
                   describe: (string, string) -> ApiOutcome<Description>,
                   modifyCall: (string, string) -> ApiOutcome<()>) returns (r: IdResult)
    ensures r == ResultFor(id, regions, probe, describe, modifyCall)
  {
    var loc := FindInstanceRegion(id, regions, probe);
    if loc.region == [] {
      return NotFound(loc.message);
    }
    var e := EnableImdsTags(id, loc.region, describe, modifyCall);
    return Found(loc.region, e);
  }

  /** What the run reports: the parser's exit, or one result per instance, in order. */
  datatype Outcome = Exited(code: int) | Done(results: seq<IdResult>)

  /** `main`: every instance is looked for, and enabled where found. */
  method EnableAll(a: Args, probe: (string, string) -> ApiOutcome<()>,
                   describe: (string, string) -> ApiOutcome<Description>,
                   modifyCall: (string, string) -> ApiOutcome<()>) returns (o: Outcome)
    ensures CommaList(a.ids) == [] <==> o == Exited(2)
    ensures o.Done? ==> |o.results| == |CommaList(a.ids)|
    ensures o.Done? ==> forall i :: 0 <= i < |o.results| ==>
      o.results[i] == ResultFor(CommaList(a.ids)[i], ParseArguments(a).regionList, probe, describe, modifyCall)
  {
    var p := ParseArguments(a);
    if p.ExitWith? {
      return Exited(p.code);
    }
    var results := ProcessIds(p.instanceIds, p.regionList, probe, describe, modifyCall);
    return Done(results);
  }

  /** The loop of `main` over the instance IDs, in order. */
  method ProcessIds(ids: seq<string>, regions: seq<string>, probe: (string, string) -> ApiOutcome<()>,
                    describe: (string, string) -> ApiOutcome<Description>,
                    modifyCall: (string, string) -> ApiOutcome<()>) returns (results: seq<IdResult>)
    ensures |results| == |ids|
    ensures forall i :: 0 <= i < |ids| ==> results[i] == ResultFor(ids[i], regions, probe, describe, modifyCall)
  {
    results := [];
    var k := 0;
    while k < |ids|
      invariant 0 <= k <= |ids|
      invariant |results| == k
      invariant forall i :: 0 <= i < k ==> results[i] == ResultFor(ids[i], regions, probe, describe, modifyCall)
    {
      var r := ProcessId(ids[k], regions, probe, describe, modifyCall);
      results := results + [r];
      k := k + 1;
    }
  }
}
