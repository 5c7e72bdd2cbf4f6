/** What the fleet scripts read from an EC2 `describe_instances` answer, and the CSV layout in
    which they exchange instance lists. */
module Ec2 {
  import opened Common

  /** The CSV header line that show-instances, find-ec2 and find-ec2-minimal print. */
  const Header: string := "account_role,instance_id,region,public_ip,private_ip,state,name,key_name"

  /** The fields of `Header`, in order: what `Header.split(',')` gives. */
  const Columns: seq<string> :=
    ["account_role", "instance_id", "region", "public_ip", "private_ip", "state", "name", "key_name"]

  /** One resource tag. */
  datatype Tag = Tag(key: string, value: string)

  /** One instance as the describe call reports it; attributes the answer may omit are
      optional. */
  datatype Instance = Instance(
    instanceId: string,
    state: string,
    publicIp: Option<string>,
    privateIp: Option<string>,
    keyName: Option<string>,
    tags: Option<seq<Tag>>)

  /** `x if x else default` for an optional string attribute. */
  function OrElse(x: Option<string>, default: string): (r: string)
    ensures x.Some? && x.value != [] ==> r == x.value
    ensures (x.None? || x.value == []) ==> r == default
  {
    if x.Some? && x.value != [] then x.value else default
  }

  /** The loop over an instance's tags that stops at the first tag keyed `Name` and takes its
      value; `default` when there is none. */
  function NameTag(tags: seq<Tag>, default: string): string {
    if tags == [] then default
    else if tags[0].key == "Name" then tags[0].value
    else NameTag(tags[1..], default)
  }

  /** The name is the value of the first `Name` tag, and the default exactly when no tag is
      keyed `Name`. */
  lemma {:induction false} NameTagFirst(tags: seq<Tag>, default: string)
    ensures (forall i :: 0 <= i < |tags| ==> tags[i].key != "Name") ==> NameTag(tags, default) == default
    ensures forall i :: (0 <= i < |tags| && tags[i].key == "Name"
      && (forall j :: 0 <= j < i ==> tags[j].key != "Name")) ==> NameTag(tags, default) == tags[i].value
  {
    if tags != [] && tags[0].key != "Name" {
      NameTagFirst(tags[1..], default);
      forall i | 0 <= i < |tags| && tags[i].key == "Name" && (forall j :: 0 <= j < i ==> tags[j].key != "Name")
        ensures NameTag(tags, default) == tags[i].value
      {
        assert i != 0;
        assert tags[1..][i - 1] == tags[i];
        forall j | 0 <= j < i - 1 ensures tags[1..][j].key != "Name" {
          assert tags[1..][j] == tags[j + 1];
        }
      }
    }
  }
}
