/**
 * Where the device ids come from and how `main` splits them into groups of
 * `tensor_parallel_size` devices.
 */
module Devices {
  import opened Text
  import opened Numerals

  // ---------------------------------------------------------------------
  // get_available_physical_gpus

  /** `list(map(int, parts))`; `None` when some `int()` raises. */
  function ParseAll(parts: seq<string>): Option<seq<int>>
    decreases |parts|
  {
    if |parts| == 0 then Some([])
    else
      match ParseInt(parts[0])
      case None => None
      case Some(n) =>
        match ParseAll(parts[1..])
        case None => None
        case Some(rest) => Some([n] + rest)
  }

  /** The override branch: `list(map(int, value.split(",")))`. */
  function ParseIdList(s: string): Option<seq<int>>
  {
    ParseAll(Split(s, ','))
  }

  /**
   * The ordered device ids. A set, non-empty `CUDA_VISIBLE_DEVICES` is
   * parsed and used verbatim; otherwise the ids the discovery library
   * reports, in its order. `None` is the `ValueError` of a malformed list.
   */
  function DeviceIds(cudaVisibleDevices: Option<string>, discovered: seq<int>): Option<seq<int>>
  {
    if cudaVisibleDevices.Some? && cudaVisibleDevices.value != "" then ParseIdList(cudaVisibleDevices.value)
    else Some(discovered)
  }

  /** The ids rendered back as a comma-separated list. */
  function IdListText(ids: seq<int>): string
  {
    JoinWith(seq(|ids|, k requires 0 <= k < |ids| => IntToString(ids[k])), ",")
  }

  // ---------------------------------------------------------------------
  // The partition of main

  /** `ids[i : i + g]`: Python clamps the end of a slice to the length. */
  function Slice(ids: seq<int>, i: nat, g: nat): seq<int>
    requires i <= |ids|
  {
    ids[i .. if i + g <= |ids| then i + g else |ids|]
  }

  /**
   * `[ids[i:i+g] for i in range(start, len(ids), g) if len(ids[i:i+g]) == g]`
   */
  function PartitionFrom(ids: seq<int>, g: nat, start: nat): seq<seq<int>>
    requires g >= 1
    decreases |ids| - start
  {
    if start >= |ids| then []
    else
      var chunk := Slice(ids, start, g);
      (if |chunk| == g then [chunk] else []) + PartitionFrom(ids, g, start + g)
  }

  function Partition(ids: seq<int>, g: nat): seq<seq<int>>
    requires g >= 1
  {
    PartitionFrom(ids, g, 0)
  }

  function Flatten(groups: seq<seq<int>>): seq<int>
    decreases |groups|
  {
    if |groups| == 0 then [] else groups[0] + Flatten(groups[1..])
  }

  // ---------------------------------------------------------------------
  // Facts

  lemma {:induction false} MulAtLeast(g: nat, a: int)
    requires a >= 1
    ensures g * a >= g
    decreases a
  {
    if a > 1 {
      MulAtLeast(g, a - 1);
      assert g * a == g * (a - 1) + g;
    }
  }

  /** Euclidean division is unique: `x == g * a + r` with `0 <= r < g` fixes `x / g`. */
  lemma DivUnique(x: nat, g: nat, a: int, r: int)
    requires g >= 1 && 0 <= r < g && x == g * a + r
    ensures x / g == a
  {
    var b, s := x / g, x % g;
    assert x == g * b + s;
    if a > b {
      MulAtLeast(g, a - b);
    } else if b > a {
      MulAtLeast(g, b - a);
    }
  }

  lemma DivStep(x: nat, g: nat)
    requires 1 <= g <= x
    ensures x / g == 1 + (x - g) / g
  {
    var q, r := (x - g) / g, (x - g) % g;
    assert x - g == g * q + r;
    assert x == g * (q + 1) + r;
    DivUnique(x, g, q + 1, r);
  }

  lemma DivSmall(x: nat, g: nat)
    requires 0 <= x < g
    ensures x / g == 0
  {
    DivUnique(x, g, 0, x);
  }

  /**
   * From position `start`, the comprehension yields `(|ids| - start) / g`
   * groups; group `j` is the `g` ids from `start + j * g` on.
   */
  lemma {:induction false} PartitionFromShape(ids: seq<int>, g: nat, start: nat)
    requires g >= 1 && start <= |ids|
    ensures |PartitionFrom(ids, g, start)| == (|ids| - start) / g
    ensures forall j :: 0 <= j < |PartitionFrom(ids, g, start)| ==>
              start + j * g + g <= |ids| &&
              PartitionFrom(ids, g, start)[j] == ids[start + j * g .. start + j * g + g]
    decreases |ids| - start
  {
    var p := PartitionFrom(ids, g, start);
    if start == |ids| {
    } else if start + g <= |ids| {
      PartitionFromShape(ids, g, start + g);
      DivStep(|ids| - start, g);
      var rest := PartitionFrom(ids, g, start + g);
      PartitionFromCons(ids, g, start);
      forall j | 0 <= j < |p|
        ensures start + j * g + g <= |ids| && p[j] == ids[start + j * g .. start + j * g + g]
      {
        if j > 0 {
          assert p[j] == rest[j - 1];
          MulShift(j, g);
        }
      }
    } else {
      DivSmall(|ids| - start, g);
      PartitionFromShort(ids, g, start);
    }
  }

  lemma MulShift(j: nat, g: nat)
    requires j >= 1
    ensures (j - 1) * g + g == j * g
  {
  }

  /**
   * The partition: exactly `|ids| / g` groups, group `j` being the ids
   * `j * g .. j * g + g - 1`, so every group has exactly `g` ids.
   */
  lemma PartitionShape(ids: seq<int>, g: nat)
    requires g >= 1
    ensures |Partition(ids, g)| == |ids| / g
    ensures forall j :: 0 <= j < |Partition(ids, g)| ==>
              j * g + g <= |ids| && Partition(ids, g)[j] == ids[j * g .. j * g + g]
    ensures forall j :: 0 <= j < |Partition(ids, g)| ==> |Partition(ids, g)[j]| == g
  {
    PartitionFromShape(ids, g, 0);
  }

  lemma FlattenCons(chunk: seq<int>, rest: seq<seq<int>>)
    ensures Flatten([chunk] + rest) == chunk + Flatten(rest)
  {
    assert ([chunk] + rest)[1..] == rest;
  }

  lemma {:induction false} FlattenFrom(ids: seq<int>, g: nat, start: nat)
    requires g >= 1 && start <= |ids|
    ensures start + g * |PartitionFrom(ids, g, start)| <= |ids|
    ensures Flatten(PartitionFrom(ids, g, start)) == ids[start .. start + g * |PartitionFrom(ids, g, start)|]
    decreases |ids| - start
  {
    var p := PartitionFrom(ids, g, start);
    if start + g > |ids| {
      PartitionFromShort(ids, g, start);
      assert g * |p| == 0;
    } else {
      FlattenFrom(ids, g, start + g);
      var rest := PartitionFrom(ids, g, start + g);
      var m := g * |rest|;
      PartitionFromCons(ids, g, start);
      assert |p| == |rest| + 1;
      MulSucc(g, |rest|);
      assert g * |p| == g + m;
      FlattenStep(ids, ids[start .. start + g], rest, start, start + g, start + g + m);
    }
  }

  /** Fewer than `g` ids left: no more groups. */
  lemma PartitionFromShort(ids: seq<int>, g: nat, start: nat)
    requires g >= 1 && start + g > |ids|
    ensures PartitionFrom(ids, g, start) == []
  {
    if start < |ids| {
      assert |Slice(ids, start, g)| < g;
      assert PartitionFrom(ids, g, start + g) == [];
    }
  }

  /** One group of `g` ids in front of groups that flatten to the ids after it. */
  lemma FlattenStep(ids: seq<int>, chunk: seq<int>, rest: seq<seq<int>>, start: nat, mid: nat, end: nat)
    requires start <= mid <= end <= |ids|
    requires chunk == ids[start .. mid] && Flatten(rest) == ids[mid .. end]
    ensures Flatten([chunk] + rest) == ids[start .. end]
  {
    FlattenCons(chunk, rest);
    SliceJoin(ids, start, mid, end);
  }

  lemma PartitionFromCons(ids: seq<int>, g: nat, start: nat)
    requires g >= 1 && start + g <= |ids|
    ensures PartitionFrom(ids, g, start) == [ids[start .. start + g]] + PartitionFrom(ids, g, start + g)
  {
    assert Slice(ids, start, g) == ids[start .. start + g];
  }

  lemma MulSucc(g: nat, k: nat)
    ensures g * (k + 1) == g * k + g && g * k >= 0
  {
  }

  lemma SliceJoin(s: seq<int>, i: nat, j: nat, k: nat)
    requires i <= j <= k <= |s|
    ensures s[i..j] + s[j..k] == s[i..k]
  {
  }

  /**
   * In order and nothing but the remainder lost: the groups, concatenated,
   * are the first `g * (|ids| / g)` ids, and fewer than `g` ids are left over.
   */
  lemma PartitionPrefix(ids: seq<int>, g: nat)
    requires g >= 1
    ensures g * (|ids| / g) <= |ids| < g * (|ids| / g) + g
    ensures Flatten(Partition(ids, g)) == ids[..g * (|ids| / g)]
  {
    FlattenFrom(ids, g, 0);
    PartitionFromShape(ids, g, 0);
  }

  /** `[0, 1, 2]` in groups of one. */
  lemma PartitionOfOnes()
    ensures Partition([0, 1, 2], 1) == [[0], [1], [2]]
  {
    var ids := [0, 1, 2];
    assert PartitionFrom(ids, 1, 3) == [];
    assert Slice(ids, 2, 1) == [2];
    assert PartitionFrom(ids, 1, 2) == [[2]];
    assert Slice(ids, 1, 1) == [1];
    assert PartitionFrom(ids, 1, 1) == [[1], [2]];
    assert Slice(ids, 0, 1) == [0];
  }

  /** `[0, 1, 2]` in groups of two: `2` is left over. */
  lemma PartitionOfTwos()
    ensures Partition([0, 1, 2], 2) == [[0, 1]]
  {
    var ids := [0, 1, 2];
    assert PartitionFrom(ids, 2, 4) == [];
    assert Slice(ids, 2, 2) == [2];
    assert PartitionFrom(ids, 2, 2) == [];
    assert Slice(ids, 0, 2) == [0, 1];
  }

  /** `ParseAll` succeeds exactly when every piece is an integer, and keeps the order. */
  lemma {:induction false} ParseAllSpec(parts: seq<string>)
    ensures ParseAll(parts).Some? <==> forall k :: 0 <= k < |parts| ==> ParseInt(parts[k]).Some?
    ensures ParseAll(parts).Some? ==>
              |ParseAll(parts).value| == |parts| &&
              forall k :: 0 <= k < |parts| ==> ParseAll(parts).value[k] == ParseInt(parts[k]).value
    decreases |parts|
  {
    if |parts| > 0 {
      ParseAllSpec(parts[1..]);
      assert forall k :: 1 <= k < |parts| ==> parts[k] == parts[1..][k - 1];
    }
  }

  /** The rendered ids: one separator-free numeral per id, each parsing back to it. */
  lemma NumeralsParse(ids: seq<int>, parts: seq<string>)
    requires parts == seq(|ids|, k requires 0 <= k < |ids| => IntToString(ids[k]))
    ensures forall k :: 0 <= k < |parts| ==> ',' !in parts[k]
    ensures forall k :: 0 <= k < |parts| ==> ParseInt(parts[k]) == Some(ids[k])
  {
    forall k | 0 <= k < |parts|
      ensures ',' !in parts[k] && ParseInt(parts[k]) == Some(ids[k])
    {
      IntToStringChars(ids[k]);
      ParseIntToString(ids[k]);
    }
  }

  /** Round trip: the override text of a non-empty id list parses back to it. */
  lemma ParseIdListText(ids: seq<int>)
    requires |ids| > 0
    ensures ParseIdList(IdListText(ids)) == Some(ids)
  {
    var parts := seq(|ids|, k requires 0 <= k < |ids| => IntToString(ids[k]));
    NumeralsParse(ids, parts);
    JoinSplit(parts, ',');
    assert Split(IdListText(ids), ',') == parts;
    ParseAllExact(parts, ids);
  }

  lemma {:induction false} ParseAllExact(parts: seq<string>, ids: seq<int>)
    requires |parts| == |ids|
    requires forall k :: 0 <= k < |parts| ==> ParseInt(parts[k]) == Some(ids[k])
    ensures ParseAll(parts) == Some(ids)
    decreases |parts|
  {
    if |parts| > 0 {
      assert ParseInt(parts[0]) == Some(ids[0]);
      forall k | 0 <= k < |parts| - 1 ensures ParseInt(parts[1..][k]) == Some(ids[1..][k]) {
        assert parts[1..][k] == parts[k + 1];
      }
      ParseAllExact(parts[1..], ids[1..]);
      assert [ids[0]] + ids[1..] == ids;
    }
  }

  /** A set, non-empty override wins over discovery; otherwise discovery is used as is. */
  lemma DeviceIdsSource(cudaVisibleDevices: Option<string>, discovered: seq<int>)
    ensures cudaVisibleDevices == None || cudaVisibleDevices == Some("") ==>
              DeviceIds(cudaVisibleDevices, discovered) == Some(discovered)
    ensures forall ids :: |ids| > 0 && cudaVisibleDevices == Some(IdListText(ids)) ==>
              DeviceIds(cudaVisibleDevices, discovered) == Some(ids)
  {
    forall ids | |ids| > 0 && cudaVisibleDevices == Some(IdListText(ids))
      ensures DeviceIds(cudaVisibleDevices, discovered) == Some(ids)
    {
      ParseIdListText(ids);
      IntToStringChars(ids[0]);
      assert IdListText(ids) != "" by {
        JoinNonEmpty(seq(|ids|, k requires 0 <= k < |ids| => IntToString(ids[k])), ",");
      }
    }
  }
}
