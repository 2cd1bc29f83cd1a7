/** Types shared by every module: optional values, results, and the machine
    integers whose width the modelled code depends on. */
module Basics {

  datatype Option<+T> = None | Some(value: T)

  datatype Result<+T, +E> = Ok(value: T) | Err(error: E)

  const U64_MAX: int := 0xFFFF_FFFF_FFFF_FFFF
  const U32_MAX: int := 0xFFFF_FFFF

  type U64 = n: int | 0 <= n <= 0xFFFF_FFFF_FFFF_FFFF
  type U32 = n: int | 0 <= n <= 0xFFFF_FFFF
  type U8 = n: int | 0 <= n <= 0xFF
  type I64 = n: int | -0x8000_0000_0000_0000 <= n <= 0x7FFF_FFFF_FFFF_FFFF

  type Bytes = seq<U8>

  /** The largest number of bytes one Rust vector can hold (`isize::MAX`). */
  const MAX_VEC_BYTES: int := 0x7FFF_FFFF_FFFF_FFFF

  function SaturatingSub(a: U64, b: U64): (r: U64)
    ensures b <= a ==> r + b == a
    ensures a < b ==> r == 0
  {
    if a < b then 0 else a - b
  }

  function Min(a: int, b: int): (r: int)
    ensures r <= a && r <= b && (r == a || r == b)
  {
    if a < b then a else b
  }

  function Max(a: int, b: int): (r: int)
    ensures a <= r && b <= r && (r == a || r == b)
  {
    if a < b then b else a
  }

  ghost predicate Distinct<T>(s: seq<T>) {
    forall i, j :: 0 <= i < j < |s| ==> s[i] != s[j]
  }

  /** `a` is `b` with some elements left out; `places` says where they were. */
  ghost predicate Embeds<T>(a: seq<T>, b: seq<T>, places: seq<nat>) {
    && |places| == |a|
    && (forall k :: 0 <= k < |a| ==> places[k] < |b| && b[places[k]] == a[k])
    && (forall j, k :: 0 <= j < k < |a| ==> places[j] < places[k])
  }

  /** Places after an element has been put in front. */
  lemma ShiftEmbeds<T>(a: seq<T>, b: seq<T>, places: seq<nat>, head: T)
    requires Embeds(a, b, places)
    ensures Embeds(a, [head] + b, Shifted(places))
    ensures Embeds([head] + a, [head] + b, [0] + Shifted(places))
  {
  }

  ghost function Shifted(places: seq<nat>): seq<nat> {
    seq(|places|, k requires 0 <= k < |places| => places[k] + 1)
  }

  lemma InShifted(places: seq<nat>, i: nat)
    ensures i in Shifted(places) <==> i > 0 && i - 1 in places
  {
    if i > 0 && i - 1 in places {
      var k :| 0 <= k < |places| && places[k] == i - 1;
      assert Shifted(places)[k] == i;
    }
  }

  /** A store shared with other tasks, after `n` turns of a task that only reads it,
      the first of them turn `first`; `meanwhile(t, s)` is what the others, and
      evictions, make of the store before turn `t`. */
  ghost function Turned<S>(meanwhile: (nat, S) -> S, first: nat, s: S, n: nat): S {
    if n == 0 then s else meanwhile(first + n - 1, Turned(meanwhile, first, s, n - 1))
  }
}
