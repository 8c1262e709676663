/**
  Shared vocabulary of the BraTS label transforms: tensors as flattened
  row-major volumes with a shape, per-voxel channel triples, and the error
  results that stand in for the exceptions the transforms can raise.
 */
module Volumes {

  /** Number of elements of a tensor of the given shape (1 for a 0-d tensor). */
  function Product(shape: seq<nat>): nat
  {
    if |shape| == 0 then 1 else shape[0] * Product(shape[1..])
  }

  /** A volume: its shape and its elements in row-major order. */
  datatype Volume = Volume(shape: seq<nat>, data: seq<int>)

  /** A well-formed tensor holds exactly as many elements as its shape says. */
  type Tensor = a: Volume | |a.data| == Product(a.shape) witness Volume([], [0])

  /** The exceptions the transforms raise: a missing dictionary key, a listed
      entry that is not a tensor, an index past the first axis, and a failed
      `assert`. */
  datatype Error = KeyError(key: string) | TypeError(key: string) | IndexError | AssertionError

  /** A value of a sample dictionary: a tensor, or anything else (a file
      path, metadata), kept as its text. */
  datatype Entry = TensorEntry(tensor: Tensor) | OtherEntry(text: string)

  datatype Result<+T> = Ok(value: T) | Err(error: Error)

  /** The values of the three channels (TC, WT, ET) at one voxel. */
  datatype Channels = Channels(tc: int, wt: int, et: int)

  /** Torch's conversion of a boolean to a number. */
  function B2I(b: bool): (n: int)
    ensures n == 0 || n == 1
    ensures n == 1 <==> b
  {
    if b then 1 else 0
  }

  /** Every channel of the voxel is 0 or 1. */
  predicate Binary(v: Channels)
  {
    v.tc in {0, 1} && v.wt in {0, 1} && v.et in {0, 1}
  }

  /** A binary voxel whose regions are nested: ET inside TC inside WT. */
  predicate Nested(v: Channels)
  {
    Binary(v) && v.et <= v.tc <= v.wt
  }

  /** A tensor of the given shape leading with `channels` along axis 0 has,
      per channel, the element count of the remaining axes. */
  lemma ChannelBound(shape: seq<nat>, channels: nat)
    requires |shape| >= 1 && shape[0] >= channels
    ensures Product(shape) >= channels * Product(shape[1..])
  {
    MulMonotone(shape[0], channels, Product(shape[1..]));
  }

  /** Multiplying by a natural number preserves order. */
  lemma {:induction false} MulMonotone(a: nat, b: nat, m: nat)
    requires b <= a
    ensures b * m <= a * m
    decreases a - b
  {
    if b < a {
      MulMonotone(a - 1, b, m);
      assert a * m == (a - 1) * m + m;
    }
  }

  /** Prepending an axis of size k multiplies the element count by k. */
  lemma ProductCons(k: nat, shape: seq<nat>)
    ensures Product([k] + shape) == k * Product(shape)
  {
    assert ([k] + shape)[1..] == shape;
  }
}
