/** The checkpoint codec as it runs. */
module CheckpointCodec {
  import opened Wrappers
  import opened Bundles
  import opened Sorting
  import opened Checkpoint

  /** Pack sorted bundles into chunks: close a chunk when the next bundle would push it over the cap. */
  method FillChunks(codec: Codec, cap: nat, sorted: seq<Bundle>) returns (chunks: seq<seq<Bundle>>)
    ensures chunks == Fill(codec, cap, [], sorted)
    ensures Split(codec, cap, chunks, sorted) && Tight(codec, cap, chunks)
  {
    chunks := [];
    var current: seq<Bundle> := [];
    var currentBytes := 0;
    assert sorted[0..] == sorted;
    for i := 0 to |sorted|
      invariant currentBytes == Bytesize(codec, current)
      invariant chunks + Fill(codec, cap, current, sorted[i..]) == Fill(codec, cap, [], sorted)
    {
      var bundle := sorted[i];
      var size := codec.size(bundle);
      FillOne(codec, cap, current, sorted, i);
      if |current| > 0 && currentBytes + size > cap {
        chunks := chunks + [current];
        current := [];
        currentBytes := 0;
      }
      current := current + [bundle];
      currentBytes := currentBytes + size;
    }
    if |current| > 0 {
      chunks := chunks + [current];
    }
    FillSplits(codec, cap, [], sorted);
    assert [] + sorted == sorted;
  }

  /** Placing one more bundle, in the chunk under way or in a new one. */
  lemma FillOne(codec: Codec, cap: nat, current: seq<Bundle>, sorted: seq<Bundle>, i: nat)
    requires i < |sorted|
    ensures var bundle, more := sorted[i], sorted[i + 1..];
            && Bytesize(codec, current + [bundle]) == Bytesize(codec, current) + codec.size(bundle)
            && Bytesize(codec, [] + [bundle]) == codec.size(bundle)
            && Fill(codec, cap, current, sorted[i..])
               == if current != [] && Bytesize(codec, current) + codec.size(bundle) > cap
                  then [current] + Fill(codec, cap, [] + [bundle], more) else Fill(codec, cap, current + [bundle], more)
  {
    var bundle := sorted[i];
    assert sorted[i..][0] == bundle && sorted[i..][1..] == sorted[i + 1..];
    assert (current + [bundle])[..|current|] == current;
    assert [] + [bundle] == [bundle] && [bundle][..0] == [];
  }

  method EncodeCheckpoint(codec: Codec, cap: nat, winners: seq<Bundle>) returns (encoded: Encoded)
    ensures encoded == Encode(codec, cap, winners)
  {
    var chunks := FillChunks(codec, cap, Sort(winners, AddressLess));
    var blocks: seq<Block> := [];
    var chunkCids: seq<Cid> := [];
    for i := 0 to |chunks|
      invariant blocks == ChunkBlocks(codec, chunks[..i]) && chunkCids == Cids(blocks)
    {
      var block := BlockFor(codec, codec.packChunk(chunks[i]));
      blocks := blocks + [block];
      chunkCids := chunkCids + [block.cid];
    }
    assert chunks[..|chunks|] == chunks;
    var rootBlock := BlockFor(codec, codec.packRoot(chunkCids));
    return Encoded(rootBlock.cid, chunkCids, blocks + [rootBlock]);
  }

  /** Fetch and decode the chunks, in root order. */
  method DecodeCheckpoint(codec: Codec, root: Cid, getBlock: Fetch, known: Option<seq<Cid>>) returns (decoded: Decoded)
    ensures decoded == Decode(codec, root, getBlock, known)
    ensures if known.Some? && codec.hash(codec.packRoot(known.value)) == root then DecodedFrom(codec, known.value, getBlock, decoded)
            else if getBlock(root).None? then decoded == RootUnavailable
            else if codec.unpackRoot(getBlock(root).value).None? then decoded == BadRoot
            else DecodedFrom(codec, codec.unpackRoot(getBlock(root).value).value, getBlock, decoded)
  {
    DecodeExactly(codec, root, getBlock, known);
    var chunks: seq<Cid>;
    if known.Some? && codec.hash(codec.packRoot(known.value)) == root {
      chunks := known.value;
    } else {
      var rootBytes := getBlock(root);
      if rootBytes.None? { return RootUnavailable; }
      var listed := codec.unpackRoot(rootBytes.value);
      if listed.None? { return BadRoot; }
      chunks := listed.value;
    }
    decoded := FetchChunks(codec, chunks, getBlock);
  }

  method FetchChunks(codec: Codec, chunks: seq<Cid>, getBlock: Fetch) returns (decoded: Decoded)
    ensures decoded == DecodeChunks(codec, chunks, getBlock)
  {
    var bundles: seq<Bundle> := [];
    assert chunks[0..] == chunks;
    for i := 0 to |chunks|
      invariant Prefixed(bundles, DecodeChunks(codec, chunks[i..], getBlock)) == DecodeChunks(codec, chunks, getBlock)
    {
      assert chunks[i..][1..] == chunks[i + 1..];
      var bytes := getBlock(chunks[i]);
      if bytes.None? { return ChunkUnavailable(chunks[i]); }
      var wires := codec.unpackChunk(bytes.value);
      if wires.None? { return BadChunk(chunks[i]); }
      bundles := bundles + wires.value;
    }
    return Ok(bundles);
  }

  function Prefixed(bundles: seq<Bundle>, rest: Decoded): Decoded {
    if rest.Ok? then Ok(bundles + rest.bundles) else rest
  }
}
