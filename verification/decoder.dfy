/**
  The label decoder: a channel-first tensor whose first three channels are
  TC, WT and ET is collapsed into one integer label volume.

  Two decoders are given. `DecodeAsWritten` follows the transform's code line
  by line, including its final `assert`. `Decode` is the decoding the code's
  comments describe (label 2 is ET, label 3 is TC and not ET, label 1 is WT
  and neither of the others), which the round-trip lemmas are about.
 */
module Decoder {
  import opened Volumes

  /** Indexing channels 0, 1 and 2 needs at least one axis of size three. */
  predicate ShapeOk(t: Tensor)
  {
    |t.shape| >= 1 && t.shape[0] >= 3
  }

  /** Number of voxels in one channel. */
  function VoxelCount(t: Tensor): nat
    requires |t.shape| >= 1
  {
    Product(t.shape[1..])
  }

  /** The (TC, WT, ET) values at voxel i: elements i of channels 0, 1 and 2. */
  function Voxel(t: Tensor, i: nat): Channels
    requires ShapeOk(t) && i < VoxelCount(t)
  {
    ChannelBound(t.shape, 3);
    var m := VoxelCount(t);
    Channels(t.data[i], t.data[m + i], t.data[2 * m + i])
  }

  /** A voxel the as-written decoder turns into 6 rather than 3. */
  predicate AsWrittenHigh(v: Channels)
  {
    v.et != 1 || (v.tc != 0 && v.wt != 0)
  }

  /** The decoder's per-voxel arithmetic exactly as written: the "label 3"
      mask is TC or ET != 1, the "label 1" mask is WT or ET != 1 or not
      label 3, "label 2" is rebuilt from the label 1 mask, and the output is
      label1 + 2 * label1 + 3 * label3. A channel counts as set when nonzero. */
  function DecodeVoxelAsWritten(v: Channels): (r: int)
    ensures r == 3 || r == 6
    ensures r == 6 <==> AsWrittenHigh(v)
    ensures Binary(v) ==> (r == 3 <==> v.et == 1 && (v.tc == 0 || v.wt == 0))
  {
    var label2 := v.et;
    var label3 := v.tc != 0 || v.et != 1;
    var label1 := v.wt != 0 || (label2 != 1 || !label3);
    var label2Scaled := B2I(label1) * 1 * 2;
    var label3Scaled := B2I(label3) * 3;
    B2I(label1) + (label2Scaled + label3Scaled)
  }

  /** The condition of the decoder's `assert`: some output voxel exceeds 3. */
  predicate AssertionHolds(out: seq<int>)
  {
    exists i :: 0 <= i < |out| && out[i] > 3
  }

  /** The transform as written: a tensor with fewer than three channels raises
      an IndexError, and an output with no voxel above 3 fails the assertion. */
  function DecodeAsWritten(t: Tensor): (r: Result<Tensor>)
    ensures r == Err(IndexError) <==> !ShapeOk(t)
    ensures ShapeOk(t) ==>
      (r.Ok? <==> exists i :: 0 <= i < VoxelCount(t) && AsWrittenHigh(Voxel(t, i)))
    ensures r.Err? && ShapeOk(t) ==> r.error == AssertionError
    ensures r.Ok? ==> ShapeOk(t) && r.value.shape == t.shape[1..]
    ensures r.Ok? ==> |r.value.data| == VoxelCount(t)
    ensures r.Ok? ==> forall i :: 0 <= i < |r.value.data| ==> r.value.data[i] in {3, 6}
    ensures r.Ok? ==> forall i :: 0 <= i < VoxelCount(t) ==>
      (r.value.data[i] == 6 <==> AsWrittenHigh(Voxel(t, i)))
  {
    if |t.shape| == 0 || t.shape[0] < 3 then
      Err(IndexError)
    else
      var m := VoxelCount(t);
      var out := seq(m, i requires 0 <= i < m => DecodeVoxelAsWritten(Voxel(t, i)));
      assert forall i :: 0 <= i < m ==> out[i] == DecodeVoxelAsWritten(Voxel(t, i));
      if AssertionHolds(out) then Ok(Volume(t.shape[1..], out)) else Err(AssertionError)
  }

  /** The precedence the decoding follows: enhancing tumor (2) over tumor core
      (3) over whole tumor (1) over background (0). */
  function Precedence(v: Channels): int
  {
    if v.et != 0 then 2
    else if v.tc != 0 then 3
    else if v.wt != 0 then 1
    else 0
  }

  /** The per-voxel decoding the comments describe, built from three
      disjoint masks: label 2 is ET, label 3 is TC and not ET, label 1 is WT
      and neither label 2 nor label 3. */
  function DecodeVoxel(v: Channels): (r: int)
    ensures r == Precedence(v)
    ensures 0 <= r <= 3
  {
    var label2 := v.et != 0;
    var label3 := v.tc != 0 && !label2;
    var label1 := v.wt != 0 && !label2 && !label3;
    B2I(label1) + 2 * B2I(label2) + 3 * B2I(label3)
  }

  /** The decoding the comments describe, lifted to a tensor. The output has
      the shape of one channel, and no voxel exceeds 3. */
  function Decode(t: Tensor): (r: Result<Tensor>)
    ensures r.Ok? <==> ShapeOk(t)
    ensures r.Err? ==> r.error == IndexError
    ensures r.Ok? ==> r.value.shape == t.shape[1..] && |r.value.data| == VoxelCount(t)
    ensures r.Ok? ==> forall i :: 0 <= i < VoxelCount(t) ==> r.value.data[i] == Precedence(Voxel(t, i))
    ensures r.Ok? ==> forall i :: 0 <= i < |r.value.data| ==> 0 <= r.value.data[i] <= 3
  {
    if |t.shape| == 0 || t.shape[0] < 3 then
      Err(IndexError)
    else
      var m := VoxelCount(t);
      var out := seq(m, i requires 0 <= i < m => DecodeVoxel(Voxel(t, i)));
      Ok(Volume(t.shape[1..], out))
  }
}
