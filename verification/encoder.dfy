/**
  The label encoder: an integer BraTS label volume (0 background, 1 edema,
  2 enhancing tumor, 3 necrotic / non-enhancing core) becomes three stacked
  binary channels in the order TC, WT, ET, for every listed key of a sample.
 */
module Encoder {
  import opened Volumes

  /** The three regions, in channel order. */
  datatype Region = TC | WT | ET

  /** The labels each region is made of: the tumor core is labels 2 and 3,
      the whole tumor labels 1, 2 and 3, the enhancing tumor label 2 alone. */
  function RegionLabels(region: Region): set<int>
  {
    match region
    case TC => {2, 3}
    case WT => {1, 2, 3}
    case ET => {2}
  }

  /** One channel's value at a voxel, computed by the element-wise comparisons
      of the transform. */
  function RegionValue(x: int, region: Region): (v: int)
    ensures v == 1 <==> x in RegionLabels(region)
    ensures v == 0 <==> x !in RegionLabels(region)
  {
    match region
    case TC => B2I(x == 2 || x == 3)
    case WT => B2I((x == 2 || x == 3) || x == 1)
    case ET => B2I(x == 2)
  }

  /** The three channel values of one voxel. */
  function EncodeVoxel(x: int): (v: Channels)
    ensures Nested(v)
    ensures v == Channels(0, 0, 0) <==> x !in {1, 2, 3}
    ensures v.tc == 1 <==> x in RegionLabels(TC)
    ensures v.wt == 1 <==> x in RegionLabels(WT)
    ensures v.et == 1 <==> x in RegionLabels(ET)
  {
    Channels(RegionValue(x, TC), RegionValue(x, WT), RegionValue(x, ET))
  }

  /** The four labels are told apart by their encodings. */
  lemma EncodeVoxelInjective(x: int, y: int)
    requires 0 <= x <= 3 && 0 <= y <= 3
    requires EncodeVoxel(x) == EncodeVoxel(y)
    ensures x == y
  {
  }

  /** Every nested binary triple is the encoding of one of the four labels. */
  lemma EncodeVoxelOntoNested(v: Channels)
    requires Nested(v)
    ensures exists x :: 0 <= x <= 3 && EncodeVoxel(x) == v
  {
    if v.et == 1 {
      assert EncodeVoxel(2) == v;
    } else if v.tc == 1 {
      assert EncodeVoxel(3) == v;
    } else if v.wt == 1 {
      assert EncodeVoxel(1) == v;
    } else {
      assert EncodeVoxel(0) == v;
    }
  }

  /** One channel of a label volume: the region's mask, voxel by voxel. */
  function Channel(labels: seq<int>, region: Region): (c: seq<int>)
    ensures |c| == |labels|
    ensures forall i :: 0 <= i < |labels| ==> (c[i] == 1 <==> labels[i] in RegionLabels(region))
    ensures forall i :: 0 <= i < |labels| ==> c[i] in {0, 1}
  {
    seq(|labels|, i requires 0 <= i < |labels| => RegionValue(labels[i], region))
  }

  /** The encoding of one label tensor: a new leading axis of size 3 holding
      the TC, WT and ET masks, each of the input's shape. */
  function EncodeTensor(t: Tensor): (r: Tensor)
    ensures r.shape == [3] + t.shape
    ensures |r.data| == 3 * |t.data|
    ensures forall i :: 0 <= i < |t.data| ==>
      && (r.data[i] == 1 <==> t.data[i] in RegionLabels(TC))
      && (r.data[|t.data| + i] == 1 <==> t.data[i] in RegionLabels(WT))
      && (r.data[2 * |t.data| + i] == 1 <==> t.data[i] in RegionLabels(ET))
    ensures forall j :: 0 <= j < |r.data| ==> r.data[j] in {0, 1}
    ensures forall i :: 0 <= i < |t.data| ==>
      r.data[2 * |t.data| + i] <= r.data[i] <= r.data[|t.data| + i]
  {
    ProductCons(3, t.shape);
    var tc, wt, et := Channel(t.data, TC), Channel(t.data, WT), Channel(t.data, ET);
    StackedAt(tc, wt, et);
    Volume([3] + t.shape, tc + wt + et)
  }

  /** Element i of each of three equally long channels, read back from their
      concatenation. */
  lemma StackedAt(a: seq<int>, b: seq<int>, c: seq<int>)
    requires |a| == |b| == |c|
    ensures forall i :: 0 <= i < |a| ==>
      (a + b + c)[i] == a[i] && (a + b + c)[|a| + i] == b[i] && (a + b + c)[2 * |a| + i] == c[i]
    ensures forall j :: |a| <= j < 2 * |a| ==> (a + b + c)[j] == b[j - |a|]
    ensures forall j :: 2 * |a| <= j < 3 * |a| ==> (a + b + c)[j] == c[j - 2 * |a|]
  {
  }

  /** Keys pairwise distinct. */
  predicate Distinct(keys: seq<string>)
  {
    forall i, j :: 0 <= i < j < |keys| ==> keys[i] != keys[j]
  }

  /** The listed key can be encoded: it is in the sample and holds a tensor. */
  predicate Encodable(d: map<string, Entry>, k: string)
  {
    k in d && d[k].TensorEntry?
  }

  /** The dictionary transform: a copy of the sample in which the tensor under
      each listed key, taken in order, is replaced by its encoding. A listed
      key the sample lacks raises a KeyError; a listed key holding something
      other than a tensor makes `torch.logical_or` raise a TypeError. */
  function EncodeSample(keys: seq<string>, d: map<string, Entry>): (r: Result<map<string, Entry>>)
    ensures r.Ok? <==> forall i :: 0 <= i < |keys| ==> Encodable(d, keys[i])
    ensures r.Err? ==> exists i :: FirstFailure(keys, d, i, r.error)
    ensures r.Ok? ==> r.value.Keys == d.Keys
    ensures r.Ok? ==> forall k :: k in d && k !in keys ==> r.value[k] == d[k]
    ensures r.Ok? && Distinct(keys) ==>
      forall k :: k in keys ==> r.value[k] == TensorEntry(EncodeTensor(d[k].tensor))
    decreases |keys|
  {
    if |keys| == 0 then
      Ok(d)
    else if keys[0] !in d then
      assert FirstFailure(keys, d, 0, KeyError(keys[0]));
      Err(KeyError(keys[0]))
    else if !d[keys[0]].TensorEntry? then
      assert FirstFailure(keys, d, 0, TypeError(keys[0]));
      Err(TypeError(keys[0]))
    else
      var d' := d[keys[0] := TensorEntry(EncodeTensor(d[keys[0]].tensor))];
      assert forall k :: Encodable(d', k) == Encodable(d, k) && (k in d' <==> k in d);
      var rest := EncodeSample(keys[1..], d');
      assert forall k :: k in keys[1..] ==> k in keys;
      assert forall j :: 1 <= j < |keys| ==> keys[j] == keys[1..][j - 1];
      if rest.Err? then FirstFailureShift(keys, d, d', rest.error); rest else rest
  }

  /** Listed key i is the first that cannot be encoded, and e is the
      exception it raises. */
  predicate FirstFailure(keys: seq<string>, d: map<string, Entry>, i: int, e: Error)
  {
    && 0 <= i < |keys|
    && !Encodable(d, keys[i])
    && e == (if keys[i] in d then TypeError(keys[i]) else KeyError(keys[i]))
    && forall j :: 0 <= j < i ==> Encodable(d, keys[j])
  }

  /** A first failure among the remaining keys, after the first key was
      encoded, is a first failure of the whole key list. */
  lemma FirstFailureShift(keys: seq<string>, d: map<string, Entry>, d': map<string, Entry>, e: Error)
    requires |keys| > 0 && Encodable(d, keys[0])
    requires forall k :: Encodable(d', k) == Encodable(d, k) && (k in d' <==> k in d)
    requires exists i :: FirstFailure(keys[1..], d', i, e)
    ensures exists i :: FirstFailure(keys, d, i, e)
  {
    var i :| FirstFailure(keys[1..], d', i, e);
    assert keys[1..][i] == keys[i + 1];
    forall j | 0 <= j < i + 1
      ensures Encodable(d, keys[j])
    {
      if j > 0 {
        assert keys[j] == keys[1..][j - 1];
      }
    }
    assert FirstFailure(keys, d, i + 1, e);
  }
}
