/** Pages of a packed sequence and the sizes of what they hold. */
module PageLayout {
  import opened Alignment
  import opened Bytes

  // Element counts and widths of stored keys and values; INT8 storage adds two bytes of scale per head and group.
  datatype KVLayout = KVLayout(heads: nat, headDim: nat, elementBytes: nat, int8: bool, groupTokens: nat)
  {
    function BytesPerToken(): nat { heads * headDim * elementBytes }

    function TensorBytes(tokens: nat): nat { tokens * BytesPerToken() }

    function ScaleBytes(tokens: nat): nat
      requires groupTokens > 0
    {
      if int8 then Groups(tokens, groupTokens) * (heads * 2) else 0
    }
  }

  datatype PageDescriptor = PageDescriptor(
    pageId: nat, segmentId: nat, tokenStart: nat, segmentTokenStart: nat, validTokens: nat, paddedTokens: nat,
    fileOffset: nat := 0, payloadBytes: nat := 0, storageBytes: nat := 0, paddingBytes: nat := 0,
    kBytes: nat := 0, vOffset: nat := 0, vBytes: nat := 0, kScaleOffset: nat := 0, vScaleOffset: nat := 0, scaleBytes: nat := 0)
  {
    function TokenStop(): nat { tokenStart + validTokens }
  }

  // What a page stores: keys, values and, under INT8, their scales.
  datatype Payload = Payload(k: seq<byte>, v: seq<byte>, kScales: seq<byte>, vScales: seq<byte>)

  lemma SizesMonotone(layout: KVLayout, n: nat, m: nat)
    requires layout.groupTokens > 0 && n <= m
    ensures layout.TensorBytes(n) <= layout.TensorBytes(m) && layout.ScaleBytes(n) <= layout.ScaleBytes(m)
  {
    Scale(n, m, layout.BytesPerToken());
    GroupsMonotone(n, m, layout.groupTokens);
    Scale(Groups(n, layout.groupTokens), Groups(m, layout.groupTokens), layout.heads * 2);
  }

  // The payload, then zeros in the tensors; the rest of the scale buffers is as before.
  ghost predicate Delivered(data: Payload, v0: seq<byte>, kScales0: seq<byte>, vScales0: seq<byte>,
                            k: seq<byte>, v: seq<byte>, kScales: seq<byte>, vScales: seq<byte>)
  {
    && |data.k| <= |k| && |data.v| <= |v0| && |data.kScales| <= |kScales0| && |data.vScales| <= |vScales0|
    && |v| == |v0|
    && k == data.k + Zeros(|k| - |data.k|)
    && v == data.v + (if |k| > |data.k| then Zeros(|v| - |data.v|) else v0[|data.v|..])
    && kScales == data.kScales + kScales0[|data.kScales|..]
    && vScales == data.vScales + vScales0[|data.vScales|..]
  }
}
