/**
  How the encoder and the two decoders fit together: the decoding the
  comments describe inverts the encoder on the four BraTS labels and on
  nested channel triples; the decoder as written maps every encoded voxel
  to 6, and its assertion rejects every output of the intended decoding.
 */
module RoundTrip {
  import opened Volumes
  import opened Encoder
  import opened Decoder

  /** Decoding an encoded voxel gives back its label when it is one of the
      four BraTS labels, and background otherwise. */
  lemma VoxelRoundTrip(x: int)
    ensures DecodeVoxel(EncodeVoxel(x)) == (if 0 <= x <= 3 then x else 0)
  {
  }

  /** Encoding a decoded voxel gives it back exactly when it is a nested
      binary triple. */
  lemma VoxelRoundTripBack(v: Channels)
    ensures EncodeVoxel(DecodeVoxel(v)) == v <==> Nested(v)
  {
    if Nested(v) {
      EncodeVoxelOntoNested(v);
      var x :| 0 <= x <= 3 && EncodeVoxel(x) == v;
      VoxelRoundTrip(x);
    }
  }

  /** The as-written decoder turns the encoding of any label into 6. */
  lemma AsWrittenVoxelRoundTrip(x: int)
    ensures DecodeVoxelAsWritten(EncodeVoxel(x)) == 6
  {
  }

  /** Voxel i of an encoded tensor is the encoding of element i. */
  lemma EncodedVoxel(t: Tensor, i: nat)
    requires i < |t.data|
    ensures ShapeOk(EncodeTensor(t)) && VoxelCount(EncodeTensor(t)) == |t.data|
    ensures Voxel(EncodeTensor(t), i) == EncodeVoxel(t.data[i])
  {
    var e := EncodeTensor(t);
    assert e.shape[1..] == t.shape;
    var v := Voxel(e, i);
    var w := EncodeVoxel(t.data[i]);
    assert v.tc == w.tc && v.wt == w.wt && v.et == w.et;
  }

  /** Every label tensor with values in 0..3 survives encoding and the
      intended decoding unchanged. */
  lemma RoundTrip(t: Tensor)
    requires forall i :: 0 <= i < |t.data| ==> 0 <= t.data[i] <= 3
    ensures Decode(EncodeTensor(t)) == Ok(t)
  {
    var e := EncodeTensor(t);
    assert e.shape[1..] == t.shape;
    var r := Decode(e);
    assert r.Ok?;
    assert r.value.shape == t.shape;
    forall i | 0 <= i < |t.data|
      ensures r.value.data[i] == t.data[i]
    {
      EncodedVoxel(t, i);
      VoxelRoundTrip(t.data[i]);
    }
    assert r.value.data == t.data;
  }

  /** Two tensors of exactly three channels with the same shape and the same
      voxels are equal. */
  lemma VoxelsDetermine(a: Tensor, b: Tensor)
    requires ShapeOk(a) && a.shape[0] == 3 && a.shape == b.shape
    requires forall i :: 0 <= i < VoxelCount(a) ==> Voxel(a, i) == Voxel(b, i)
    ensures a == b
  {
    var m := VoxelCount(a);
    assert |a.data| == 3 * m == |b.data|;
    forall j | 0 <= j < |a.data|
      ensures a.data[j] == b.data[j]
    {
      if j < m {
        assert Voxel(a, j).tc == Voxel(b, j).tc;
      } else if j < 2 * m {
        assert Voxel(a, j - m).wt == Voxel(b, j - m).wt;
      } else {
        assert Voxel(a, j - 2 * m).et == Voxel(b, j - 2 * m).et;
      }
    }
    assert a.data == b.data;
  }

  /** Every tensor of three nested binary channels survives the intended
      decoding and re-encoding unchanged. */
  lemma RoundTripBack(t: Tensor)
    requires ShapeOk(t) && t.shape[0] == 3
    requires forall i :: 0 <= i < VoxelCount(t) ==> Nested(Voxel(t, i))
    ensures Decode(t).Ok? && EncodeTensor(Decode(t).value) == t
  {
    var d := Decode(t).value;
    var e := EncodeTensor(d);
    assert e.shape == t.shape;
    forall i | 0 <= i < VoxelCount(t)
      ensures Voxel(e, i) == Voxel(t, i)
    {
      EncodedVoxel(d, i);
      VoxelRoundTripBack(Voxel(t, i));
    }
    VoxelsDetermine(e, t);
  }

  /** The as-written decoder never gives back an encoded label tensor: a
      non-empty one comes back as all sixes, an empty one fails the assertion. */
  lemma AsWrittenRoundTrip(t: Tensor)
    ensures |t.data| > 0 ==>
      DecodeAsWritten(EncodeTensor(t)) == Ok(Volume(t.shape, seq(|t.data|, i => 6)))
    ensures |t.data| == 0 ==> DecodeAsWritten(EncodeTensor(t)) == Err(AssertionError)
  {
    var e := EncodeTensor(t);
    assert e.shape[1..] == t.shape;
    assert ShapeOk(e) && VoxelCount(e) == |t.data|;
    var r := DecodeAsWritten(e);
    if |t.data| > 0 {
      EncodedVoxel(t, 0);
      assert AsWrittenHigh(Voxel(e, 0));
      assert r.Ok?;
      forall i | 0 <= i < |t.data|
        ensures r.value.data[i] == 6
      {
        EncodedVoxel(t, i);
      }
      assert r.value.data == seq(|t.data|, i => 6);
    }
  }

  /** A one-voxel background volume: the as-written decoder returns 6, not 0. */
  lemma AsWrittenRoundTripCounterexample()
    ensures DecodeAsWritten(EncodeTensor(Volume([1], [0]))) == Ok(Volume([1], [6]))
  {
    AsWrittenRoundTrip(Volume([1], [0]));
    assert seq(1, i => 6) == [6];
  }

  /** The assertion as written fails on every output of the intended decoding,
      which never exceeds 3. */
  lemma AssertionRejectsIntendedDecoding(t: Tensor)
    ensures Decode(t).Ok? ==> !AssertionHolds(Decode(t).value.data)
  {
  }

  /** A single voxel predicted as enhancing tumor only: the as-written
      decoder gives 3 there, so its assertion fails. */
  lemma AsWrittenAssertionCounterexample()
    ensures DecodeAsWritten(Volume([3, 1], [0, 0, 1])) == Err(AssertionError)
  {
    var t: Tensor := Volume([3, 1], [0, 0, 1]);
    assert [3, 1][1..] == [1];
    assert VoxelCount(t) == 1;
    assert Voxel(t, 0) == Channels(0, 0, 1);
  }

  /** At no voxel does the decoder as written agree with the intended
      decoding: the first gives 3 or 6, the second gives 3 only when ET is
      unset, where the first gives 6. */
  lemma AsWrittenNeverAgrees(v: Channels)
    ensures DecodeVoxelAsWritten(v) != DecodeVoxel(v)
  {
  }

  /** Whenever the decoder as written returns a volume, every voxel of it
      differs from the intended decoding of the same prediction. */
  lemma AsWrittenDisagreesEverywhere(t: Tensor)
    ensures DecodeAsWritten(t).Ok? ==>
      && Decode(t).Ok?
      && |DecodeAsWritten(t).value.data| == |Decode(t).value.data|
      && forall i :: 0 <= i < |Decode(t).value.data| ==>
           DecodeAsWritten(t).value.data[i] != Decode(t).value.data[i]
  {
    if DecodeAsWritten(t).Ok? {
      var a := DecodeAsWritten(t).value;
      var d := Decode(t).value;
      forall i | 0 <= i < |d.data|
        ensures a.data[i] != d.data[i]
      {
        var v := Voxel(t, i);
        AsWrittenNeverAgrees(v);
        assert a.data[i] == 6 <==> AsWrittenHigh(v);
        assert d.data[i] == DecodeVoxel(v);
      }
    }
  }

  /** Encoding the same key twice encodes the already-encoded channels again. */
  lemma EncodeSampleTwice(k: string, d: map<string, Entry>)
    requires Encodable(d, k)
    ensures EncodeSample([k, k], d).Ok?
    ensures EncodeSample([k, k], d).value[k] == TensorEntry(EncodeTensor(EncodeTensor(d[k].tensor)))
  {
    var d1 := d[k := TensorEntry(EncodeTensor(d[k].tensor))];
    var d2 := d1[k := TensorEntry(EncodeTensor(d1[k].tensor))];
    assert [k, k][1..] == [k];
    assert [k][1..] == [];
    assert EncodeSample([], d2) == Ok(d2);
    assert EncodeSample([k], d1) == Ok(d2);
  }
}
