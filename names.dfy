/**
 * The service names both artifacts use: `vllm-server-<i>` for the server
 * of group `i`.
 */
module Names {
  import opened Text
  import opened Numerals

  const ServicePrefix := "vllm-server-"

  function ServiceName(i: int): string
  {
    ServicePrefix + IntToString(i)
  }

  /** Distinct groups get distinct service names. */
  lemma ServiceNameInjective(i: int, j: int)
    requires ServiceName(i) == ServiceName(j)
    ensures i == j
  {
    assert IntToString(i) == ServiceName(i)[|ServicePrefix|..];
    assert IntToString(j) == ServiceName(j)[|ServicePrefix|..];
    ParseIntToString(i);
    ParseIntToString(j);
  }

  /** The numerals `0 .. n - 1`, the indices a reader finds behind the prefix. */
  function Indices(n: nat): (r: seq<string>)
    ensures |r| == n
  {
    seq(n, i requires 0 <= i < n => IntToString(i))
  }
}
