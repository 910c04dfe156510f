/**
 * `main`: validate the launch parameters, split the devices into groups,
 * pop `vllm_version`, check the remaining value types and build the two
 * artifacts, with the number of servers wired from the number of groups.
 */
module Launcher {
  import opened Text
  import opened Numerals
  import opened Names
  import opened Params
  import opened Devices
  import opened Nginx
  import opened Compose

  /** The environment variables the program reads. */
  datatype Env = Env(
    cudaVisibleDevices: Option<string>,
    hfHome: Option<string>,
    hfTokenPath: Option<string>,
    port: Option<string>)

  /** Why `main` stops before writing anything. */
  datatype Failure =
    | GroupSizeTooSmall          // `assert n_gpus_per_group >= 1` fails
    | GroupSizeNotComparable     // `>=` on a string or a container raises TypeError
    | MissingModel               // `assert "model" in fire_kwargs` fails
    | DeviceListInvalid          // `int()` rejects an entry of CUDA_VISIBLE_DEVICES
    | InvalidType(key: string)   // the type check of the remaining parameters fails

  /** The two files `main` writes, and the groups behind them. */
  datatype Artifacts = Artifacts(groups: seq<seq<int>>, compose: string, nginx: string)

  datatype Outcome = Written(artifacts: Artifacts) | Rejected(failure: Failure)

  const GroupSizeKey := "tensor_parallel_size"
  const ModelKey := "model"
  const VersionKey := "vllm_version"
  const DefaultTag := "latest"

  datatype GroupSizeResult = Size(g: nat) | Invalid(failure: Failure)

  /**
   * `fire_kwargs.get("tensor_parallel_size", 1)` and `assert ... >= 1`. A
   * bool compares as 0 or 1 and then slices as that number; a string or a
   * container makes `>=` raise `TypeError`.
   */
  function GroupSize(bag: Bag): (r: GroupSizeResult)
    ensures r.Size? ==> r.g >= 1
    ensures Lookup(bag, GroupSizeKey).None? ==> r == Size(1)
    ensures (exists n :: Lookup(bag, GroupSizeKey) == Some(Int(n)) && n >= 1) ==> r == Size(Lookup(bag, GroupSizeKey).value.n)
    ensures r == Invalid(GroupSizeTooSmall) <==> Lookup(bag, GroupSizeKey) in {Some(Bool(false))} || (exists n :: Lookup(bag, GroupSizeKey) == Some(Int(n)) && n < 1)
    ensures Lookup(bag, GroupSizeKey) == Some(Bool(true)) ==> r == Size(1)
    ensures r == Invalid(GroupSizeNotComparable) <==>
              Lookup(bag, GroupSizeKey).Some? && (Lookup(bag, GroupSizeKey).value.Str? || Lookup(bag, GroupSizeKey).value.Composite?)
  {
    match Lookup(bag, GroupSizeKey)
    case None => Size(1)
    case Some(v) =>
      match v
      case Int(n) => if n >= 1 then Size(n) else Invalid(GroupSizeTooSmall)
      case Bool(b) => if b then Size(1) else Invalid(GroupSizeTooSmall)
      case Str(_) => Invalid(GroupSizeNotComparable)
      case Composite(_) => Invalid(GroupSizeNotComparable)
  }

  /** Whether `isinstance(v, (int, float, str))` holds; a bool is an int. */
  predicate Scalar(v: Value)
  {
    !v.Composite?
  }

  /** The key of the first parameter the type check rejects. */
  function FirstInvalid(bag: Bag): (r: Option<string>)
    decreases |bag|
  {
    if |bag| == 0 then None
    else if !Scalar(bag[0].1) then Some(bag[0].0)
    else FirstInvalid(bag[1..])
  }

  /** `fire_kwargs.get("vllm_version", "latest")`, as the f-string renders it. */
  function Tag(bag: Bag): string
  {
    var v := Lookup(bag, VersionKey);
    if v.Some? then ValueText(v.value) else DefaultTag
  }

  /** `os.getenv("VLLM_NOW_PORT", 80)`, as the f-string renders it. */
  function PortText(port: Option<string>): string
  {
    if port.Some? then port.value else IntToString(80)
  }

  /** The checks of `main` in the order they run; `None` when every one passes. */
  function Validate(env: Env, discovered: seq<int>, bag: Bag): Option<Failure>
  {
    var g := GroupSize(bag);
    if g.Invalid? then Some(g.failure)
    else if Lookup(bag, ModelKey).None? then Some(MissingModel)
    else if DeviceIds(env.cudaVisibleDevices, discovered).None? then Some(DeviceListInvalid)
    else
      var bad := FirstInvalid(Without(bag, VersionKey));
      if bad.Some? then Some(InvalidType(bad.value)) else None
  }

  // ---------------------------------------------------------------------
  // The type check

  /**
   * `for k, v in fire_kwargs.items(): assert isinstance(v, (int, float, str))`:
   * the key of the first value that fails, or `None`.
   */
  method CheckTypes(bag: Bag) returns (bad: Option<string>)
    ensures bad == FirstInvalid(bag)
  {
    var i := 0;
    while i < |bag|
      invariant 0 <= i <= |bag|
      invariant forall j :: 0 <= j < i ==> Scalar(bag[j].1)
      invariant FirstInvalid(bag) == FirstInvalid(bag[i..])
    {
      if !Scalar(bag[i].1) {
        return Some(bag[i].0);
      }
      assert bag[i..][1..] == bag[i + 1..];
      i := i + 1;
    }
    return None;
  }

  /** The first rejected key is the key of a non-scalar value with only scalars before it. */
  lemma {:induction false} FirstInvalidSpec(bag: Bag)
    ensures FirstInvalid(bag).None? <==> forall j :: 0 <= j < |bag| ==> Scalar(bag[j].1)
    ensures FirstInvalid(bag).Some? ==>
              exists j :: 0 <= j < |bag| && !Scalar(bag[j].1) && bag[j].0 == FirstInvalid(bag).value &&
                          forall i :: 0 <= i < j ==> Scalar(bag[i].1)
    decreases |bag|
  {
    if |bag| > 0 && Scalar(bag[0].1) {
      FirstInvalidSpec(bag[1..]);
      if FirstInvalid(bag[1..]).Some? {
        var j :| 0 <= j < |bag[1..]| && !Scalar(bag[1..][j].1) && bag[1..][j].0 == FirstInvalid(bag[1..]).value &&
                 forall i :: 0 <= i < j ==> Scalar(bag[1..][i].1);
        assert bag[j + 1] == bag[1..][j];
        assert forall i :: 0 <= i < j + 1 ==> Scalar(bag[i].1) by {
          forall i | 0 <= i < j + 1 ensures Scalar(bag[i].1) {
            if i > 0 {
              assert bag[i] == bag[1..][i - 1];
            }
          }
        }
      } else {
        assert forall j :: 0 <= j < |bag| ==> Scalar(bag[j].1) by {
          forall j | 0 <= j < |bag| ensures Scalar(bag[j].1) {
            if j > 0 {
              assert bag[j] == bag[1..][j - 1];
            }
          }
        }
      }
    }
  }

  // ---------------------------------------------------------------------
  // main

  /**
   * `main(**fire_kwargs)` with the environment and the discovered devices
   * passed in. It rejects exactly what `Validate` rejects, in the same
   * order; otherwise it partitions the devices, renders the manifest for
   * the bag without `vllm_version`, and renders the load balancer for as
   * many servers as there are groups.
   */
  method Launch(env: Env, discovered: seq<int>, fireKwargs: Bag) returns (out: Outcome)
    ensures out.Rejected? <==> Validate(env, discovered, fireKwargs).Some?
    ensures out.Rejected? ==> out.failure == Validate(env, discovered, fireKwargs).value
    ensures out.Written? ==>
              && GroupSize(fireKwargs).Size?
              && DeviceIds(env.cudaVisibleDevices, discovered).Some?
              && out.artifacts.groups == Partition(DeviceIds(env.cudaVisibleDevices, discovered).value, GroupSize(fireKwargs).g)
              && out.artifacts.nginx == MakeNginxConf(DefaultWorkerConnections, |out.artifacts.groups|)
    ensures out.Written? && Clean(Tag(fireKwargs), Without(fireKwargs, VersionKey), env.hfHome, env.hfTokenPath, PortText(env.port)) ==>
              out.artifacts.compose
              == JoinLines(ManifestLines(out.artifacts.groups, Tag(fireKwargs), Without(fireKwargs, VersionKey),
                                         HomeDir(env.hfHome), Token(env.hfTokenPath), PortText(env.port)))
  {
    var kwargs := fireKwargs;
    var size := GroupSize(kwargs);
    if size.Invalid? {
      return Rejected(size.failure);
    }
    if Lookup(kwargs, ModelKey).None? {
      return Rejected(MissingModel);
    }
    var ids := DeviceIds(env.cudaVisibleDevices, discovered);
    if ids.None? {
      return Rejected(DeviceListInvalid);
    }
    var groups := Partition(ids.value, size.g);

    var version := Tag(kwargs);
    kwargs := Without(kwargs, VersionKey);

    var bad := CheckTypes(kwargs);
    if bad.Some? {
      return Rejected(InvalidType(bad.value));
    }
    var compose := MakeDockerComposeYml(groups, version, kwargs, env.hfHome, env.hfTokenPath, PortText(env.port));
    var nginx := MakeNginxConf(DefaultWorkerConnections, |groups|);
    return Written(Artifacts(groups, compose, nginx));
  }

  // ---------------------------------------------------------------------
  // Properties of a launch

  /**
   * The servers agree across the two files: the nginx upstream list, the
   * compose service headers and the load balancer's `depends_on` all name
   * `vllm-server-0 .. vllm-server-(n-1)`, in that order, one per group.
   */
  lemma ServersAgree(groups: seq<seq<int>>)
    ensures Pick(UpstreamLines(|groups|), UpstreamPrefix, ":8000;") == Indices(|groups|)
    ensures Pick(ServiceLines(groups), HeaderPrefix, ":") == Indices(|groups|)
    ensures Pick(DependsLines(|groups|), DependsPrefix, "") == Indices(|groups|)
  {
    UpstreamText(|groups|);
    ServiceNames(groups);
    DependsNames(|groups|);
  }

  /** Each service reserves the devices of its own group, and the groups are the partition's. */
  lemma ServiceDevicesArePartition(ids: seq<int>, g: nat)
    requires g >= 1
    ensures |Pick(ServiceLines(Partition(ids, g)), DevicePrefix, "")| == |Partition(ids, g)| == |ids| / g
    ensures forall i :: 0 <= i < |Partition(ids, g)| ==>
              i * g + g <= |ids| &&
              Pick(ServiceLines(Partition(ids, g)), DevicePrefix, "")[i] == PyStrList(ids[i * g .. i * g + g])
  {
    var groups := Partition(ids, g);
    PartitionShape(ids, g);
    ServiceDevices(groups);
    var lists := DeviceLists(groups);
    forall i | 0 <= i < |groups| ensures i * g + g <= |ids| && lists[i] == PyStrList(ids[i * g .. i * g + g]) {
      assert lists[i] == PyStrList(groups[i]);
    }
  }

  /**
   * `vllm_version` is gone before the flags are rendered: for parameter
   * names as Fire delivers them (no `-`, no `=`), no flag names it.
   */
  lemma VersionNeverFlag(fireKwargs: Bag)
    requires forall j :: 0 <= j < |fireKwargs| ==> '-' !in fireKwargs[j].0 && '=' !in fireKwargs[j].0
    ensures var kwargs := Without(fireKwargs, VersionKey);
            && (forall f :: f in ToggleFlags(kwargs) ==> f != "--" + Hyphenate(VersionKey))
            && (forall f :: f in ValueFlags(kwargs) ==> !StartsWith(f, "--" + Hyphenate(VersionKey) + "="))
  {
    var kwargs := Without(fireKwargs, VersionKey);
    WithoutFrom(fireKwargs, VersionKey);
    assert forall j :: 0 <= j < |kwargs| ==> '-' !in kwargs[j].0 && '=' !in kwargs[j].0 && kwargs[j].0 != VersionKey by {
      forall j | 0 <= j < |kwargs| ensures '-' !in kwargs[j].0 && '=' !in kwargs[j].0 && kwargs[j].0 != VersionKey {
        var i :| 0 <= i < |fireKwargs| && kwargs[j] == fireKwargs[i];
      }
    }
    NoToggleNamed(kwargs, VersionKey);
    NoValueFlagNamed(kwargs, VersionKey);
  }

  lemma NoToggleNamed(bag: Bag, key: string)
    requires '-' !in key
    requires forall j :: 0 <= j < |bag| ==> '-' !in bag[j].0 && bag[j].0 != key
    ensures forall f :: f in ToggleFlags(bag) ==> f != "--" + Hyphenate(key)
  {
    FlagsFromEntries(bag);
    forall f | f in ToggleFlags(bag) ensures f != "--" + Hyphenate(key) {
      var j :| 0 <= j < |bag| && bag[j].1.Bool? && f == ToggleFlag(bag[j]);
      if f == "--" + Hyphenate(key) {
        assert Hyphenate(bag[j].0) == f[2..];
        HyphenateOnly(bag[j].0, key);
      }
    }
  }

  lemma NoValueFlagNamed(bag: Bag, key: string)
    requires '-' !in key && '=' !in key
    requires forall j :: 0 <= j < |bag| ==> '-' !in bag[j].0 && '=' !in bag[j].0 && bag[j].0 != key
    ensures forall f :: f in ValueFlags(bag) ==> !StartsWith(f, "--" + Hyphenate(key) + "=")
  {
    FlagsFromEntries(bag);
    forall f | f in ValueFlags(bag) ensures !StartsWith(f, "--" + Hyphenate(key) + "=") {
      var j :| 0 <= j < |bag| && !bag[j].1.Bool? && f == ValueFlag(bag[j]);
      var k := bag[j].0;
      if StartsWith(f, "--" + Hyphenate(key) + "=") {
        HyphenateAvoids(k, '=');
        HyphenateAvoids(key, '=');
        SameFlagName(Hyphenate(k), Hyphenate(key), ValueText(bag[j].1));
        HyphenateOnly(k, key);
      }
    }
  }

  /** The image tag is `vllm_version`, `latest` when absent, and the manifest's second line names it. */
  lemma ImageTag(groups: seq<seq<int>>, fireKwargs: Bag, home: string, token: Option<string>, port: string)
    ensures Lookup(fireKwargs, VersionKey).None? ==> Tag(fireKwargs) == DefaultTag
    ensures forall v :: Lookup(fireKwargs, VersionKey) == Some(Str(v)) ==> Tag(fireKwargs) == v
    ensures ManifestLines(groups, Tag(fireKwargs), Without(fireKwargs, VersionKey), home, token, port)[1]
         == "  image: vllm/vllm-openai:" + Tag(fireKwargs)
  {
    ManifestImageLine(groups, Tag(fireKwargs), Without(fireKwargs, VersionKey), home, token, port);
  }
}
