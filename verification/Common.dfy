/** Values shared by every component: optional values, results, and the limits
    both halves of the product agree on. */
module Common {
  datatype Option<+T> = None | Some(value: T)

  datatype Result<+T, +E> = Success(value: T) | Failure(error: E)

  /** One UTF-16 code unit of a JavaScript string. */
  type CodeUnit = u: int | 0 <= u < 0x10000

  type Byte = bv8

  const MAX_DEPTH: nat := 6
  const MAX_RETURNED_NODES: nat := 2_000
  const MAX_TEXT_BYTES: nat := 8 * 1024 * 1024
  const MAX_ENVELOPE_BYTES: nat := 24 * 1024 * 1024
  const MAX_RASTER_DECODED_BYTES: nat := 12 * 1024 * 1024
  const MAX_RASTER_BASE64_BYTES: nat := 16 * 1024 * 1024
  const MAX_SVG_BYTES: nat := 4 * 1024 * 1024
  const MAX_IN_FLIGHT: nat := 4
  const MAX_QUEUE: nat := 16
  const INACTIVITY_TIMEOUT_MS: nat := 15_000
  const TOTAL_TIMEOUT_MS: nat := 120_000
  const U64_MAX: nat := 0xFFFF_FFFF_FFFF_FFFF
  const U32_MAX: nat := 0xFFFF_FFFF

  function Min(a: nat, b: nat): nat {
    if a < b then a else b
  }

  function Max(a: nat, b: nat): nat {
    if a < b then b else a
  }

  /** `picked` is what stands in `all` at the indices `at`, in order, and those are exactly
      the indices of what is to be kept. */
  ghost predicate Picks<T>(all: seq<T>, keep: T -> bool, at: seq<nat>, picked: seq<T>) {
    && |at| == |picked|
    && (forall i, j :: 0 <= i < j < |at| ==> at[i] < at[j])
    && (forall i :: 0 <= i < |at| ==> at[i] < |all| && picked[i] == all[at[i]])
    && forall k: nat :: k < |all| ==> (k in at <==> keep(all[k]))
  }

  lemma {:induction false} PicksOneMore<T>(all: seq<T>, keep: T -> bool, at: seq<nat>, picked: seq<T>, x: T)
    requires Picks(all, keep, at, picked)
    ensures keep(x) ==> Picks(all + [x], keep, at + [|all|], picked + [x])
    ensures !keep(x) ==> Picks(all + [x], keep, at, picked)
  {
    assert forall k :: k in at ==> k < |all|;
    assert forall k :: k in at + [|all|] <==> k in at || k == |all|;
  }
}
