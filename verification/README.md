# BraTS label transforms in Dafny

A model of the two label transforms of a brain-tumor segmentation pipeline
(`utils/transforms.py`):

- the **encoder** `ConvertToMultiChannelBasedOnBratsClassesd` turns an integer
  label volume (0 background, 1 peritumoral edema, 2 GD-enhancing tumor,
  3 necrotic / non-enhancing tumor core) into three stacked binary channels in
  the order TC (tumor core, labels 2 and 3), WT (whole tumor, labels 1, 2
  and 3) and ET (enhancing tumor, label 2). It does this for every listed key
  of a sample dictionary.
- the **decoder** `ConvertToBratsClassesBasedOnMultiChannel` is meant to
  collapse the three channels back into one label volume.

A tensor is its shape plus its elements in row-major order
(`Volumes.Volume`, well-formed as `Volumes.Tensor`). Stacking three channels on a new axis 0 is then
concatenation, and `data[c]` is the c-th slice of one channel's length.
Values are mathematical integers. Torch's `logical_or` reads a value as set
when it is nonzero, and so does the model. Exceptions become
`Result` errors: `KeyError` for a listed key missing from the sample,
`TypeError` for a listed key whose entry is not a tensor, `IndexError` for a tensor without three channels along axis 0, and
`AssertionError` for the decoder's final `assert`.

The decoder is modelled twice:

- `Decoder.DecodeAsWritten` follows the code. The "label 3" mask is
  `TC or ET != 1` and the "label 1" mask is `WT or ET != 1 or not label3`.
  "label 2" is rebuilt from the label-1 mask. The output is
  `label1 + 2*label1 + 3*label3`, followed by `assert any(output > 3)`.
  Every output voxel is 3 or 6, for any input values.
- `Decoder.Decode` follows the decoder's comments. Label 2 is ET. Label 3 is
  TC and not ET. Label 1 is WT and neither label 2 nor label 3. It inverts the
  encoder. It reads a channel as set when it is nonzero. On 0/1 channels this
  is the same as the comments, where label 2 is the ET value itself.

The comments at lines 81-90 describe the precedence ET → 2, TC without ET
→ 3, WT alone → 1, else 0, under which decoding inverts encoding on labels
0..3. The code does not do this. `DecodeAsWritten` models the code, and
`Decode` models the comments.

Files: `volumes.dfy` (tensors, channel triples, errors), `encoder.dfy`,
`decoder.dfy`, `roundtrip.dfy` (how the encoder and the two decoders relate).

## Model

| member | source | states |
|---|---|---|
| Volumes.B2I | utils/transforms.py:91-96 | torch's promotion of a boolean mask to a number gives 0 or 1, and 1 exactly when the mask is set |
| Encoder.RegionValue | utils/transforms.py:56-65 | a channel's value at a voxel is 1 exactly when the label belongs to that region (TC = {2,3}, WT = {1,2,3}, ET = {2}) and 0 otherwise |
| Encoder.EncodeVoxel | utils/transforms.py:56-65 | a voxel's three channel values are 0/1 and nested (ET ≤ TC ≤ WT); each is 1 iff the label is in that region; any label outside {1,2,3}, including stray values like 4, gives (0,0,0) |
| Encoder.EncodeVoxelInjective | utils/transforms.py:56-65 | the labels 0..3 have four distinct encodings |
| Encoder.EncodeVoxelOntoNested | utils/transforms.py:56-65 | every nested binary triple is the encoding of some label in 0..3 |
| Encoder.Channel | utils/transforms.py:57-65 | one channel has the label volume's length; each voxel is 0/1, and is 1 iff the label is in the region |
| Encoder.EncodeTensor | utils/transforms.py:55-66 | the encoding has shape [3] + input shape; TC, WT, ET channels in that order, each as long as the input; every value 0/1; ET ≤ TC ≤ WT at every voxel |
| Encoder.EncodeSample | utils/transforms.py:52-67 | succeeds iff every listed key is in the sample and holds a tensor; otherwise the first listed key that fails raises a KeyError if it is missing and a TypeError if it holds something else; the result has the same keys; unlisted entries of any kind are carried over unchanged; with distinct keys each listed entry is replaced by its encoding |
| Decoder.DecodeVoxelAsWritten | utils/transforms.py:81-96 | for any channel values the as-written voxel output is 3 or 6; it is 6 iff ET ≠ 1 or both TC and WT are set; on binary voxels it is 3 iff ET = 1 and not both TC and WT |
| Decoder.DecodeAsWritten | utils/transforms.py:71-97 | IndexError iff there are not three channels on axis 0; otherwise success iff some voxel has ET ≠ 1 or both TC and WT set (the assert), else AssertionError; the output has one channel's shape, values in {3,6}, 6 exactly at such voxels |
| Decoder.DecodeVoxel | utils/transforms.py:81-90 | the comment-described mask arithmetic equals the precedence ET → 2, TC → 3, WT → 1, else 0; the value lies in 0..3 |
| Decoder.Decode | utils/transforms.py:72-90 | the intended decoding fails only with IndexError when channels are missing; the output has one channel's shape and each voxel follows the precedence ET → 2, TC → 3, WT → 1, else 0; no voxel exceeds 3 |
| RoundTrip.VoxelRoundTrip | utils/transforms.py:56-90 | the intended decoding of an encoded voxel gives back labels 0..3 and gives 0 for any other value |
| RoundTrip.VoxelRoundTripBack | utils/transforms.py:56-90 | re-encoding an intended decoding gives the voxel back iff it is a nested binary triple |
| RoundTrip.AsWrittenVoxelRoundTrip | utils/transforms.py:56-96 | the as-written decoder maps the encoding of every label, in 0..3 or not, to 6 |
| RoundTrip.EncodedVoxel | utils/transforms.py:66-77 | voxel i read from channels 0, 1, 2 of an encoded tensor is the encoding of label i |
| RoundTrip.RoundTrip | utils/transforms.py:52-90 | every label tensor with values in 0..3 comes back unchanged from encoding and the intended decoding |
| RoundTrip.RoundTripBack | utils/transforms.py:52-90 | every 3-channel tensor whose voxels are nested binary triples comes back unchanged from the intended decoding and re-encoding |
| RoundTrip.AsWrittenRoundTrip | utils/transforms.py:52-97 | the as-written decoder turns the encoding of any non-empty label tensor into a tensor of the same shape full of 6, and fails its assertion on an empty one |
| RoundTrip.AsWrittenRoundTripCounterexample | utils/transforms.py:82-96 | the one-voxel background volume [0] comes back as [6] |
| RoundTrip.AssertionRejectsIntendedDecoding | utils/transforms.py:97 | the assertion as written is false of every output of the intended decoding |
| RoundTrip.AsWrittenAssertionCounterexample | utils/transforms.py:97 | a one-voxel prediction (TC, WT, ET) = (0, 0, 1) makes the as-written decoder fail its assertion |
| RoundTrip.AsWrittenNeverAgrees | utils/transforms.py:81-96 | for every voxel the as-written decoder and the intended decoding give different values |
| RoundTrip.AsWrittenDisagreesEverywhere | utils/transforms.py:71-97 | whenever the as-written decoder returns a volume, it differs from the intended decoding at every voxel |
| RoundTrip.EncodeSampleTwice | utils/transforms.py:53-66 | a key listed twice is encoded twice: the second pass encodes the already-encoded channels |

## Left out

- The `Compose` pipelines `train_transform`, `val_transform`, `test_transform` and `post_trans` (lines 103-161). Besides the encoder (lines 109, 131), they chain framework transforms (loading, orientation, resampling, cropping, flipping, intensity changes) whose code is not part of this model.
- `Activations(sigmoid=True)` and `AsDiscrete(threshold=0.5)` (lines 158-159). These are floating-point operations. Their effect shows up only as `Binary`, in the third ensures of `DecodeVoxelAsWritten`. Each channel is thresholded on its own, so a thresholded prediction need not be `Nested`. Both decoders are modelled on every triple.
- Floating-point element values. The encoder's `.float()` and the decoder's float input are modelled as integers. A fractional value other than 0 or 1 is not modelled.
- Torch dtype promotion (bool to int in `torch.mul`, int plus bool in `torch.add`). Booleans become 0/1 through `B2I`.
- The MetaTensor plumbing at lines 98-99. `data.set_array(output)` overwrites the caller's tensor in place, and the result is wrapped with the input's metadata. The model returns the output volume only.
- Broadcasting. All channels of a tensor share one shape, so the element-wise operations never broadcast. A sample entry that is not a tensor is kept only as its text (`OtherEntry`). The model records whether it is a tensor, not what it holds.
- The `MapTransform` and `Transform` base classes, including `allow_missing_keys`, and the imports at lines 1-40. The encoder reads `self.keys` directly, so a missing key raises a KeyError.
- Encoder.EncodeSample: the per-key statement "the entry becomes the encoding of the input entry" is stated only for distinct keys. A repeated key encodes the already-encoded channels again, as RoundTrip.EncodeSampleTwice shows.

## Findings

| source | as written | input that shows it | evidently intended | confidence | as-written member | corrected member |
|---|---|---|---|---|---|---|
| utils/transforms.py:85-92 | the masks are built with `logical_or` ("TC or ET != 1", "WT or ET != 1 or not label3"), and label 2 is rebuilt from the label-1 mask, so every voxel decodes to 3 or 6 | the label volume [0], encoded as (0,0,0), decodes to [6]; every encoded label decodes to 6 | label 2 = ET, label 3 = TC and not ET, label 1 = WT and not label 2 and not label 3, as the comments at lines 81-90 say, so that decoding inverts encoding on labels 0..3 | not executed; high | RoundTrip.AsWrittenRoundTripCounterexample | RoundTrip.RoundTrip |
| utils/transforms.py:97 | `assert(torch.any(output>3))` demands some voxel above 3, which no correctly decoded label volume has | the intended decoding of any prediction (for instance one voxel (1,1,1), decoded to 2) fails it; the as-written decoder fails it on the prediction (0,0,1) | no voxel of the decoded volume exceeds 3 | not executed; medium | RoundTrip.AssertionRejectsIntendedDecoding | Decoder.Decode |
