/**
 The checkpoint codec: a winner set becomes content-addressed blocks (address sort, size-cap fill, a
 root listing the chunks) and comes back.
 */
module Checkpoint {
  import opened Wrappers
  import opened Bundles
  import opened Sorting
  import WinnerSet
  import Pruning
  import Convergence

  type Bytes = seq<Byte>

  /** The block encoding and its hash, as far as the codec relies on them. */
  datatype Codec = Codec(
    size: Bundle -> nat,
    packChunk: seq<Bundle> -> Bytes,
    unpackChunk: Bytes -> Option<seq<Bundle>>,
    packRoot: seq<Cid> -> Bytes,
    unpackRoot: Bytes -> Option<seq<Cid>>,
    hash: Bytes -> Cid)

  /** A bundle as it reads back from its bytes: the address in lower case. */
  function Wired(b: Bundle): Bundle {
    b.(address := ToLower(b.address))
  }

  /** The wire loses the letters' case of the address and nothing else: the wallet, the votes, the block and the signature stay. */
  lemma WireKeepsTheBallot(b: Bundle)
    ensures forall c <- Wired(b).address :: !('A' <= c <= 'Z')
    ensures WalletOf(Wired(b)) == WalletOf(b) == Wired(b).address
    ensures Wired(b).votes == b.votes && Wired(b).blockNumber == b.blockNumber && Wired(b).signature == b.signature
    ensures Wired(Wired(b)) == Wired(b)
  {
    assert ToLower(ToLower(b.address)) == ToLower(b.address);
  }

  function WiredAll(bs: seq<Bundle>): seq<Bundle> {
    seq(|bs|, i requires 0 <= i < |bs| => Wired(bs[i]))
  }

  /** Encodings read back, addresses are bytes on the wire, and hashes do not collide. */
  ghost predicate Lawful(codec: Codec) {
    && (forall bs :: codec.unpackChunk(codec.packChunk(bs)) == Some(WiredAll(bs)))
    && (forall bs :: codec.packChunk(WiredAll(bs)) == codec.packChunk(bs))
    && (forall b :: codec.size(Wired(b)) == codec.size(b))
    && (forall cids :: codec.unpackRoot(codec.packRoot(cids)) == Some(cids))
    && (forall x, y | codec.hash(x) == codec.hash(y) :: x == y)
  }

  // ---- the sort ----

  predicate AddressLess(a: Bundle, b: Bundle) {
    StringLess(ToLower(a.address), ToLower(b.address))
  }

  predicate DistinctWallets(winners: seq<Bundle>) {
    forall i, j :: 0 <= i < j < |winners| ==> WalletOf(winners[i]) != WalletOf(winners[j])
  }

  /** One string comes before another: it ends, or has the lower character, where the two part. */
  predicate PartsBefore(a: string, b: string, i: nat) {
    && i <= |a| && i <= |b| && a[..i] == b[..i]
    && ((i == |a| && |a| < |b|) || (i < |a| && i < |b| && a[i] < b[i]))
  }

  lemma {:induction false} StringLessByIndex(a: string, b: string)
    ensures StringLess(a, b) <==> Before(a, b)
  {
    if b == [] {
      assert forall i: nat :: !PartsBefore(a, b, i);
    } else if a == [] {
      assert PartsBefore(a, b, 0);
    } else if a[0] == b[0] {
      StringLessByIndex(a[1..], b[1..]);
      if i: nat :| PartsBefore(a[1..], b[1..], i) {
        assert a[..i + 1] == [a[0]] + a[1..][..i] && b[..i + 1] == [b[0]] + b[1..][..i];
        assert PartsBefore(a, b, i + 1);
      }
      if i: nat :| PartsBefore(a, b, i) {
        assert i > 0;
        var k: nat := i - 1;
        assert a[1..][..k] == a[..i][1..] && b[1..][..k] == b[..i][1..];
        assert PartsBefore(a[1..], b[1..], k);
      }
    } else if a[0] < b[0] {
      assert PartsBefore(a, b, 0);
    } else {
      forall i: nat ensures !PartsBefore(a, b, i) {
        if 0 < i <= |a| && i <= |b| {
          assert a[..i][0] == a[0] && b[..i][0] == b[0];
        }
      }
    }
  }

  ghost predicate Before(a: string, b: string) {
    exists i: nat :: PartsBefore(a, b, i)
  }

  /** In the order of their addresses in lower case. */
  ghost predicate InAddressOrder(sorted: seq<Bundle>) {
    forall i, j | 0 <= i < j < |sorted| :: Before(ToLower(sorted[i].address), ToLower(sorted[j].address))
  }

  lemma AscendingAddresses(sorted: seq<Bundle>)
    requires Ascending(sorted, AddressLess)
    ensures InAddressOrder(sorted)
  {
    forall i, j | 0 <= i < j < |sorted|
      ensures Before(ToLower(sorted[i].address), ToLower(sorted[j].address))
    {
      assert AddressLess(sorted[i], sorted[j]);
      StringLessByIndex(ToLower(sorted[i].address), ToLower(sorted[j].address));
    }
  }

  lemma AddressOrder()
    ensures Transitive(AddressLess)
  {
    forall a ensures !AddressLess(a, a) {
      StringLessTotal(ToLower(a.address), ToLower(a.address));
    }
    forall a, b, c | AddressLess(a, b) && AddressLess(b, c) ensures AddressLess(a, c) {
      StringLessTransitive(ToLower(a.address), ToLower(b.address), ToLower(c.address));
    }
  }

  lemma WalletsDoNotTie(winners: seq<Bundle>)
    requires DistinctWallets(winners)
    ensures NoTies(winners, AddressLess)
  {
    forall i, j | 0 <= i < j < |winners|
      ensures AddressLess(winners[i], winners[j]) || AddressLess(winners[j], winners[i])
    {
      StringLessTotal(WalletOf(winners[i]), WalletOf(winners[j]));
    }
  }

  // ---- the size-cap fill ----

  function Bytesize(codec: Codec, bs: seq<Bundle>): nat {
    if bs == [] then 0 else Bytesize(codec, bs[..|bs| - 1]) + codec.size(bs[|bs| - 1])
  }

  /** A chunk's size is the sum of its bundles' sizes. */
  lemma {:induction false} BytesizeAdds(codec: Codec, a: seq<Bundle>, b: seq<Bundle>)
    ensures Bytesize(codec, a + b) == Bytesize(codec, a) + Bytesize(codec, b)
    ensures |b| == 1 ==> Bytesize(codec, b) == codec.size(b[0])
    decreases |b|
  {
    if b == [] {
      assert a + b == a;
    } else {
      var n := |b| - 1;
      BytesizeAdds(codec, a, b[..n]);
      assert (a + b)[..|a| + n] == a + b[..n];
    }
  }

  function Flatten(chunks: seq<seq<Bundle>>): seq<Bundle> {
    if chunks == [] then [] else chunks[0] + Flatten(chunks[1..])
  }

  /** Within the cap, or one oversized bundle alone. */
  predicate ChunkOk(codec: Codec, cap: nat, chunk: seq<Bundle>) {
    |chunk| == 1 || (chunk != [] && Bytesize(codec, chunk) <= cap)
  }

  predicate Split(codec: Codec, cap: nat, chunks: seq<seq<Bundle>>, whole: seq<Bundle>) {
    Flatten(chunks) == whole && forall chunk <- chunks :: ChunkOk(codec, cap, chunk)
  }

  /** No chunk has room for the bundle that opens the next one. */
  predicate Tight(codec: Codec, cap: nat, chunks: seq<seq<Bundle>>) {
    forall i | 0 <= i < |chunks| - 1 :: NoRoom(codec, cap, chunks, i)
  }

  predicate NoRoom(codec: Codec, cap: nat, chunks: seq<seq<Bundle>>, i: nat)
    requires i + 1 < |chunks|
  {
    chunks[i + 1] != [] && Bytesize(codec, chunks[i]) + codec.size(chunks[i + 1][0]) > cap
  }

  /** The fill, from a chunk under way and the bundles still to place. */
  function Fill(codec: Codec, cap: nat, current: seq<Bundle>, rest: seq<Bundle>): seq<seq<Bundle>>
    decreases |rest|
  {
    if rest == [] then if current == [] then [] else [current]
    else if current != [] && Bytesize(codec, current) + codec.size(rest[0]) > cap then
      [current] + Fill(codec, cap, [rest[0]], rest[1..])
    else Fill(codec, cap, current + [rest[0]], rest[1..])
  }

  lemma {:induction false} FillSplits(codec: Codec, cap: nat, current: seq<Bundle>, rest: seq<Bundle>)
    requires current == [] || ChunkOk(codec, cap, current)
    ensures Split(codec, cap, Fill(codec, cap, current, rest), current + rest)
    ensures Tight(codec, cap, Fill(codec, cap, current, rest))
    ensures var chunks := Fill(codec, cap, current, rest); current != [] ==> chunks != [] && current <= chunks[0]
    ensures current == [] && rest != [] ==> var chunks := Fill(codec, cap, current, rest); chunks != [] && chunks[0] != [] && chunks[0][0] == rest[0]
    decreases |rest|
  {
    if rest == [] {
      assert current + rest == current;
      if current != [] { assert Flatten([current]) == current + Flatten([]); }
    } else if current != [] && Bytesize(codec, current) + codec.size(rest[0]) > cap {
      var more := Fill(codec, cap, [rest[0]], rest[1..]);
      FillSplits(codec, cap, [rest[0]], rest[1..]);
      assert [rest[0]] + rest[1..] == rest;
      assert ([current] + more)[1..] == more;
      forall i | 0 <= i < |[current] + more| - 1 ensures NoRoom(codec, cap, [current] + more, i) {
        assert i > 0 ==> NoRoom(codec, cap, more, i - 1);
      }
    } else {
      assert (current + [rest[0]])[..|current|] == current;
      FillSplits(codec, cap, current + [rest[0]], rest[1..]);
      assert current + [rest[0]] + rest[1..] == current + rest;
    }
  }

  lemma {:induction false} BytesizeOfPart(codec: Codec, bs: seq<Bundle>, from: nat, to: nat)
    requires from <= to <= |bs|
    ensures Bytesize(codec, bs[from..to]) <= Bytesize(codec, bs)
    decreases |bs|
  {
    if bs != [] {
      var n := |bs| - 1;
      if to == |bs| && from < to {
        assert bs[from..to][..to - from - 1] == bs[..n][from..n];
        BytesizeOfPart(codec, bs[..n], from, n);
      } else if to < |bs| {
        assert bs[from..to] == bs[..n][from..to];
        BytesizeOfPart(codec, bs[..n], from, to);
      }
    }
  }

  lemma FlattenHead(chunks: seq<seq<Bundle>>)
    requires chunks != []
    ensures |chunks[0]| <= |Flatten(chunks)| && Flatten(chunks)[..|chunks[0]|] == chunks[0]
    ensures Flatten(chunks)[|chunks[0]|..] == Flatten(chunks[1..])
  {
  }

  lemma SplitRest(codec: Codec, cap: nat, chunks: seq<seq<Bundle>>, whole: seq<Bundle>)
    requires chunks != [] && Split(codec, cap, chunks, whole)
    ensures 0 < |chunks[0]| <= |whole| && whole[..|chunks[0]|] == chunks[0] && ChunkOk(codec, cap, chunks[0])
    ensures Split(codec, cap, chunks[1..], whole[|chunks[0]|..])
    ensures Tight(codec, cap, chunks) ==> Tight(codec, cap, chunks[1..])
  {
    FlattenHead(chunks);
    assert chunks[0] in chunks;
    if Tight(codec, cap, chunks) {
      forall i | 0 <= i < |chunks[1..]| - 1 ensures NoRoom(codec, cap, chunks[1..], i) {
        assert NoRoom(codec, cap, chunks, i + 1);
      }
    }
  }

  /** A tight first chunk reaches at least as far as any other split's first chunk does from the same place. */
  lemma TightReaches(codec: Codec, cap: nat, whole: seq<Bundle>, from: nat, chunks: seq<seq<Bundle>>, other: seq<seq<Bundle>>)
    requires from <= |whole| && chunks != [] && other != []
    requires Split(codec, cap, chunks, whole[from..]) && Tight(codec, cap, chunks) && Split(codec, cap, other, whole)
    ensures from + |chunks[0]| >= |other[0]|
  {
    var k := |chunks[0]|;
    SplitRest(codec, cap, chunks, whole[from..]);
    SplitRest(codec, cap, other, whole);
    if from + k < |whole| {
      HasNext(codec, cap, chunks, whole[from..]);
      var over := whole[from..from + k + 1];
      assert over[..k] == whole[from..][..k] == chunks[0];
      assert over[k] == whole[from..][k] == chunks[1][0];
      assert NoRoom(codec, cap, chunks, 0);
      OverfullEndsOutside(codec, cap, whole, from, from + k + 1, |other[0]|);
    }
  }

  lemma OverfullEndsOutside(codec: Codec, cap: nat, whole: seq<Bundle>, from: nat, to: nat, end: nat)
    requires from + 2 <= to <= |whole| && end <= |whole|
    requires Bytesize(codec, whole[from..to]) > cap && ChunkOk(codec, cap, whole[..end])
    ensures end < to
  {
    if to <= end {
      assert whole[..end][from..to] == whole[from..to];
      BytesizeOfPart(codec, whole[..end], from, to);
    }
  }

  lemma HasNext(codec: Codec, cap: nat, chunks: seq<seq<Bundle>>, whole: seq<Bundle>)
    requires chunks != [] && Split(codec, cap, chunks, whole) && |chunks[0]| < |whole|
    ensures |chunks| > 1 && chunks[1] != [] && chunks[1][0] == whole[|chunks[0]|]
  {
    SplitRest(codec, cap, chunks, whole);
    if |chunks| > 1 {
      SplitRest(codec, cap, chunks[1..], whole[|chunks[0]|..]);
      assert whole[|chunks[0]|..][0] == whole[|chunks[0]|];
    }
  }

  /** A tight split of any tail needs no more chunks than any split of the whole: the fill is optimal. */
  lemma {:induction false} TightIsFewest(codec: Codec, cap: nat, whole: seq<Bundle>, from: nat, chunks: seq<seq<Bundle>>, other: seq<seq<Bundle>>)
    requires from <= |whole|
    requires Split(codec, cap, chunks, whole[from..]) && Tight(codec, cap, chunks) && Split(codec, cap, other, whole)
    ensures |chunks| <= |other|
    decreases |other|, |chunks|
  {
    if chunks != [] {
      SplitRest(codec, cap, chunks, whole[from..]);
      if other != [] {
        var j, k := |other[0]|, |chunks[0]|;
        SplitRest(codec, cap, other, whole);
        if from >= j {
          assert whole[j..][from - j..] == whole[from..];
          TightIsFewest(codec, cap, whole[j..], from - j, chunks, other[1..]);
        } else {
          TightReaches(codec, cap, whole, from, chunks, other);
          assert whole[j..][from + k - j..] == whole[from..][k..];
          TightIsFewest(codec, cap, whole[j..], from + k - j, chunks[1..], other[1..]);
        }
      }
    }
  }

  function Chunks(codec: Codec, cap: nat, winners: seq<Bundle>): seq<seq<Bundle>> {
    Fill(codec, cap, [], Sort(winners, AddressLess))
  }

  lemma WinnersAreSorted(winners: seq<Bundle>)
    requires DistinctWallets(winners)
    ensures var sorted := Sort(winners, AddressLess);
            SameElements(sorted, winners) && |sorted| == |winners| && Ascending(sorted, AddressLess) && InAddressOrder(sorted)
  {
    SortElements(winners, AddressLess);
    AddressOrder();
    WalletsDoNotTie(winners);
    SortAscending(winners, AddressLess);
    AscendingAddresses(Sort(winners, AddressLess));
  }

  /**
   The chunks put together are the winners in address order; none is empty; only a lone oversized
   bundle exceeds the cap; and no split into consecutive chunks that keeps to this uses fewer.
   */
  lemma ChunksAreFewest(codec: Codec, cap: nat, winners: seq<Bundle>, other: seq<seq<Bundle>>)
    requires DistinctWallets(winners)
    ensures var sorted, chunks := Flatten(Chunks(codec, cap, winners)), Chunks(codec, cap, winners);
            && SameElements(sorted, winners) && |sorted| == |winners| && Ascending(sorted, AddressLess) && InAddressOrder(sorted)
            && (forall chunk <- chunks :: chunk != [] && (Bytesize(codec, chunk) <= cap || |chunk| == 1))
            && (Split(codec, cap, other, sorted) ==> |chunks| <= |other|)
  {
    var sorted := Sort(winners, AddressLess);
    FillSplits(codec, cap, [], sorted);
    assert [] + sorted == sorted;
    WinnersAreSorted(winners);
    if Split(codec, cap, other, sorted) {
      assert sorted[0..] == sorted;
      TightIsFewest(codec, cap, sorted, 0, Chunks(codec, cap, winners), other);
    }
  }

  // ---- blocks ----

  datatype Block = Block(cid: Cid, bytes: Bytes)

  datatype Encoded = Encoded(root: Cid, chunks: seq<Cid>, blocks: seq<Block>)

  function BlockFor(codec: Codec, bytes: Bytes): Block {
    Block(codec.hash(bytes), bytes)
  }

  function ChunkBlocks(codec: Codec, chunks: seq<seq<Bundle>>): seq<Block> {
    seq(|chunks|, i requires 0 <= i < |chunks| => BlockFor(codec, codec.packChunk(chunks[i])))
  }

  function Cids(blocks: seq<Block>): seq<Cid> {
    seq(|blocks|, i requires 0 <= i < |blocks| => blocks[i].cid)
  }

  function Encode(codec: Codec, cap: nat, winners: seq<Bundle>): Encoded {
    var blocks := ChunkBlocks(codec, Chunks(codec, cap, winners));
    var root := BlockFor(codec, codec.packRoot(Cids(blocks)));
    Encoded(root.cid, Cids(blocks), blocks + [root])
  }

  datatype Decoded = Ok(bundles: seq<Bundle>) | RootUnavailable | BadRoot | ChunkUnavailable(cid: Cid) | BadChunk(cid: Cid)

  type Fetch = Cid -> Option<Bytes>

  function DecodeChunks(codec: Codec, chunks: seq<Cid>, getBlock: Fetch): Decoded {
    if chunks == [] then Ok([])
    else
      var bytes := getBlock(chunks[0]);
      if bytes.None? then ChunkUnavailable(chunks[0])
      else
        var bundles := codec.unpackChunk(bytes.value);
        if bundles.None? then BadChunk(chunks[0])
        else
          var more := DecodeChunks(codec, chunks[1..], getBlock);
          if more.Ok? then Ok(bundles.value + more.bundles) else more
  }

  /** A supplied chunk index is used only if it hashes to the root; otherwise the manifest is fetched. */
  function Decode(codec: Codec, root: Cid, getBlock: Fetch, known: Option<seq<Cid>>): Decoded {
    if known.Some? && codec.hash(codec.packRoot(known.value)) == root then DecodeChunks(codec, known.value, getBlock)
    else
      var bytes := getBlock(root);
      if bytes.None? then RootUnavailable
      else
        var chunks := codec.unpackRoot(bytes.value);
        if chunks.None? then BadRoot else DecodeChunks(codec, chunks.value, getBlock)
  }

  // ---- what decoding answers, for any blocks ----

  /** The chunk is served, and unpacks. */
  predicate Reads(codec: Codec, cid: Cid, getBlock: Fetch) {
    getBlock(cid).Some? && codec.unpackChunk(getBlock(cid).value).Some?
  }

  /** The bundles of each chunk, taken from its own block. */
  predicate AreParts(codec: Codec, cids: seq<Cid>, getBlock: Fetch, parts: seq<seq<Bundle>>) {
    |parts| == |cids| && forall i | 0 <= i < |cids| :: getBlock(cids[i]).Some? && codec.unpackChunk(getBlock(cids[i]).value) == Some(parts[i])
  }

  /** The first chunk that does not read, and which way it fails. */
  predicate FailsFirst(codec: Codec, cids: seq<Cid>, getBlock: Fetch, i: nat, decoded: Decoded) {
    && i < |cids| && (forall k | 0 <= k < i :: Reads(codec, cids[k], getBlock))
    && (|| (getBlock(cids[i]).None? && decoded == ChunkUnavailable(cids[i]))
        || (getBlock(cids[i]).Some? && codec.unpackChunk(getBlock(cids[i]).value).None? && decoded == BadChunk(cids[i])))
  }

  lemma {:induction false} PartsDecode(codec: Codec, cids: seq<Cid>, getBlock: Fetch, parts: seq<seq<Bundle>>)
    requires AreParts(codec, cids, getBlock, parts)
    ensures DecodeChunks(codec, cids, getBlock) == Ok(Flatten(parts))
  {
    if cids != [] {
      PartsDecode(codec, cids[1..], getBlock, parts[1..]);
    }
  }

  lemma {:induction false} DecodeFromParts(codec: Codec, cids: seq<Cid>, getBlock: Fetch)
    ensures var decoded := DecodeChunks(codec, cids, getBlock);
            if decoded.Ok? then exists parts :: AreParts(codec, cids, getBlock, parts)
            else exists i: nat :: FailsFirst(codec, cids, getBlock, i, decoded)
  {
    var decoded := DecodeChunks(codec, cids, getBlock);
    if cids == [] {
      assert AreParts(codec, cids, getBlock, []);
    } else if !Reads(codec, cids[0], getBlock) {
      assert FailsFirst(codec, cids, getBlock, 0, decoded);
    } else {
      DecodeFromParts(codec, cids[1..], getBlock);
      if decoded.Ok? {
        var parts :| AreParts(codec, cids[1..], getBlock, parts);
        assert AreParts(codec, cids, getBlock, [codec.unpackChunk(getBlock(cids[0]).value).value] + parts);
      } else {
        var i: nat :| FailsFirst(codec, cids[1..], getBlock, i, decoded);
        var next := i + 1;
        forall k | 0 <= k < next ensures Reads(codec, cids[k], getBlock) {
          assert k > 0 ==> cids[1..][k - 1] == cids[k];
        }
        assert FailsFirst(codec, cids, getBlock, next, decoded);
      }
    }
  }

  /** What an answer means, when `cids` is the index gone by. */
  ghost predicate DecodedFrom(codec: Codec, cids: seq<Cid>, getBlock: Fetch, decoded: Decoded) {
    && (forall bundles :: decoded == Ok(bundles) <==> exists parts :: AreParts(codec, cids, getBlock, parts) && bundles == Flatten(parts))
    && (decoded.Ok? || exists i: nat :: FailsFirst(codec, cids, getBlock, i, decoded))
  }

  /**
   Whatever blocks are served: the chunks decode to some bundles if and only if every chunk is served and
   unpacks, and they are all of theirs in order; otherwise the error is the first failing chunk's own.
   */
  lemma DecodeChunksExactly(codec: Codec, cids: seq<Cid>, getBlock: Fetch)
    ensures DecodedFrom(codec, cids, getBlock, DecodeChunks(codec, cids, getBlock))
  {
    DecodeFromParts(codec, cids, getBlock);
    forall parts | AreParts(codec, cids, getBlock, parts) ensures DecodeChunks(codec, cids, getBlock) == Ok(Flatten(parts)) {
      PartsDecode(codec, cids, getBlock, parts);
    }
  }

  /**
   A supplied index is gone by if and only if it hashes to the root; else the manifest's, and a manifest that
   is not served, or does not unpack, is an error of its own.
   */
  lemma DecodeExactly(codec: Codec, root: Cid, getBlock: Fetch, known: Option<seq<Cid>>)
    ensures var decoded := Decode(codec, root, getBlock, known);
            if known.Some? && codec.hash(codec.packRoot(known.value)) == root then DecodedFrom(codec, known.value, getBlock, decoded)
            else if getBlock(root).None? then decoded == RootUnavailable
            else if codec.unpackRoot(getBlock(root).value).None? then decoded == BadRoot
            else DecodedFrom(codec, codec.unpackRoot(getBlock(root).value).value, getBlock, decoded)
  {
    if known.Some? { DecodeChunksExactly(codec, known.value, getBlock); }
    if getBlock(root).Some? && codec.unpackRoot(getBlock(root).value).Some? {
      DecodeChunksExactly(codec, codec.unpackRoot(getBlock(root).value).value, getBlock);
    }
  }

  // ---- round trip ----

  ghost predicate Serves(getBlock: Fetch, blocks: seq<Block>) {
    forall b <- blocks :: getBlock(b.cid) == Some(b.bytes)
  }

  lemma WiredConcat(a: seq<Bundle>, b: seq<Bundle>)
    ensures WiredAll(a + b) == WiredAll(a) + WiredAll(b)
  {
  }

  lemma RestOfBlocks(codec: Codec, chunks: seq<seq<Bundle>>, getBlock: Fetch)
    requires chunks != [] && Serves(getBlock, ChunkBlocks(codec, chunks))
    ensures Serves(getBlock, ChunkBlocks(codec, chunks[1..]))
    ensures Cids(ChunkBlocks(codec, chunks))[1..] == Cids(ChunkBlocks(codec, chunks[1..]))
    ensures getBlock(Cids(ChunkBlocks(codec, chunks))[0]) == Some(codec.packChunk(chunks[0]))
  {
    var blocks, rest := ChunkBlocks(codec, chunks), ChunkBlocks(codec, chunks[1..]);
    assert rest == blocks[1..];
    assert blocks[0] in blocks;
    forall b <- rest ensures getBlock(b.cid) == Some(b.bytes) {
      assert b in blocks;
    }
  }

  lemma {:induction false} DecodeChunkBlocks(codec: Codec, chunks: seq<seq<Bundle>>, getBlock: Fetch)
    requires Lawful(codec) && Serves(getBlock, ChunkBlocks(codec, chunks))
    ensures DecodeChunks(codec, Cids(ChunkBlocks(codec, chunks)), getBlock) == Ok(WiredAll(Flatten(chunks)))
  {
    if chunks != [] {
      RestOfBlocks(codec, chunks, getBlock);
      DecodeChunkBlocks(codec, chunks[1..], getBlock);
      WiredConcat(chunks[0], Flatten(chunks[1..]));
    }
  }

  /** What was encoded decodes to the winners in address order, with any chunk index or none. */
  lemma DecodeReturnsTheWinners(codec: Codec, cap: nat, winners: seq<Bundle>, getBlock: Fetch, known: Option<seq<Cid>>)
    requires Lawful(codec) && Serves(getBlock, Encode(codec, cap, winners).blocks)
    ensures Decode(codec, Encode(codec, cap, winners).root, getBlock, known) == Ok(WiredAll(Sort(winners, AddressLess)))
  {
    var encoded, chunks := Encode(codec, cap, winners), Chunks(codec, cap, winners);
    var blocks := ChunkBlocks(codec, chunks);
    var root := encoded.blocks[|blocks|];
    assert root in encoded.blocks && root.cid == encoded.root;
    forall b <- blocks ensures getBlock(b.cid) == Some(b.bytes) {
      assert b in encoded.blocks;
    }
    DecodeChunkBlocks(codec, chunks, getBlock);
    FillSplits(codec, cap, [], Sort(winners, AddressLess));
    assert [] + Sort(winners, AddressLess) == Sort(winners, AddressLess);
    KnownIndexIsHarmless(codec, encoded.root, getBlock, known);
  }

  /**
   With the manifest available, a supplied chunk index never changes the result, whether it is the right
   one, a lie, or malformed.
   */
  lemma KnownIndexIsHarmless(codec: Codec, root: Cid, getBlock: Fetch, known: Option<seq<Cid>>)
    requires Lawful(codec)
    requires getBlock(root).Some? && codec.hash(getBlock(root).value) == root
    ensures Decode(codec, root, getBlock, known) == Decode(codec, root, getBlock, None)
  {
    if known.Some? && codec.hash(codec.packRoot(known.value)) == root {
      assert codec.packRoot(known.value) == getBlock(root).value;
    }
  }

  /** Without the manifest, an index decodes at all only if it is the very one the root was cut from. */
  lemma OnlyTheTrueIndexReplacesTheManifest(codec: Codec, cap: nat, winners: seq<Bundle>, getBlock: Fetch, known: Option<seq<Cid>>)
    requires Lawful(codec) && Serves(getBlock, ChunkBlocks(codec, Chunks(codec, cap, winners)))
    requires getBlock(Encode(codec, cap, winners).root).None?
    ensures var encoded := Encode(codec, cap, winners);
            Decode(codec, encoded.root, getBlock, known)
            == if known == Some(encoded.chunks) then Ok(WiredAll(Sort(winners, AddressLess))) else RootUnavailable
  {
    var encoded, chunks := Encode(codec, cap, winners), Chunks(codec, cap, winners);
    if known.Some? && codec.hash(codec.packRoot(known.value)) == encoded.root {
      assert codec.packRoot(known.value) == codec.packRoot(encoded.chunks);
      assert codec.unpackRoot(codec.packRoot(known.value)) == Some(known.value);
      assert codec.unpackRoot(codec.packRoot(encoded.chunks)) == Some(encoded.chunks);
    }
    DecodeChunkBlocks(codec, chunks, getBlock);
    FillSplits(codec, cap, [], Sort(winners, AddressLess));
    assert [] + Sort(winners, AddressLess) == Sort(winners, AddressLess);
  }

  // ---- one winner set, one root ----

  /** The bundles of a view, listed in some order. */
  ghost predicate Lists(winners: seq<Bundle>, view: map<Cid, Bundle>) {
    && DistinctWallets(winners)
    && (forall b :: b in winners <==> b in view.Values)
  }

  /** Two nodes serving the same winners cut the same checkpoint, whatever order their maps iterate in. */
  lemma SameWinnersSameCheckpoint(codec: Codec, cap: nat, mine: seq<Bundle>, yours: seq<Bundle>, view: map<Cid, Bundle>)
    requires Lists(mine, view) && Lists(yours, view)
    ensures Encode(codec, cap, mine) == Encode(codec, cap, yours)
  {
    AddressOrder();
    WalletsDoNotTie(mine);
    WalletsDoNotTie(yours);
    SortIgnoresOrder(mine, yours, AddressLess);
  }

  /**
   Replicas that admitted and evicted to the same bundles, in any order and under any prune schedules, and
   have settled the same ones cut the identical checkpoint root.
   */
  lemma ConvergedReplicasCutOneRoot(clock: Clock, codec: Codec, cap: nat, now: nat,
                                    myOps: seq<Pruning.Op>, yourOps: seq<Pruning.Op>, mine: seq<Bundle>, yours: seq<Bundle>)
    requires Pruning.AllowedRun(clock, myOps) && Pruning.AllowedRun(clock, yourOps)
    requires Pruning.ContentAddressed(myOps + yourOps)
    requires Convergence.Kept(clock, myOps).Keys == Convergence.Kept(clock, yourOps).Keys
    requires Pruning.Run(clock, myOps).bucket <= now && Pruning.Run(clock, yourOps).bucket <= now
    requires WinnerSet.SettledIn(Convergence.Kept(clock, myOps)) == WinnerSet.SettledIn(Convergence.Kept(clock, yourOps))
    requires Lists(mine, WinnerSet.CheckpointView(clock, Pruning.Run(clock, myOps).members, now))
    requires Lists(yours, WinnerSet.CheckpointView(clock, Pruning.Run(clock, yourOps).members, now))
    ensures Encode(codec, cap, mine) == Encode(codec, cap, yours)
  {
    Convergence.ReplicasConverge(clock, myOps, yourOps, now);
    SameWinnersSameCheckpoint(codec, cap, mine, yours, WinnerSet.CheckpointView(clock, Pruning.Run(clock, myOps).members, now));
  }

  /** Different winner sets have different roots. */
  lemma RootsTellWinnersApart(codec: Codec, cap: nat, mine: seq<Bundle>, yours: seq<Bundle>)
    requires Lawful(codec)
    requires Encode(codec, cap, mine).root == Encode(codec, cap, yours).root
    ensures WiredAll(Sort(mine, AddressLess)) == WiredAll(Sort(yours, AddressLess))
  {
    var m, y := Encode(codec, cap, mine), Encode(codec, cap, yours);
    var mc, yc := Chunks(codec, cap, mine), Chunks(codec, cap, yours);
    assert codec.packRoot(m.chunks) == codec.packRoot(y.chunks);
    assert m.chunks == y.chunks by {
      assert codec.unpackRoot(codec.packRoot(m.chunks)) == codec.unpackRoot(codec.packRoot(y.chunks));
    }
    forall i | 0 <= i < |mc| ensures WiredAll(mc[i]) == WiredAll(yc[i]) {
      assert m.chunks[i] == y.chunks[i];
      assert codec.unpackChunk(codec.packChunk(mc[i])) == codec.unpackChunk(codec.packChunk(yc[i]));
    }
    WiredFlatten(mc, yc);
    FillSplits(codec, cap, [], Sort(mine, AddressLess));
    FillSplits(codec, cap, [], Sort(yours, AddressLess));
    assert [] + Sort(mine, AddressLess) == Sort(mine, AddressLess) && [] + Sort(yours, AddressLess) == Sort(yours, AddressLess);
  }

  lemma {:induction false} WiredFlatten(a: seq<seq<Bundle>>, b: seq<seq<Bundle>>)
    requires |a| == |b| && forall i :: 0 <= i < |a| ==> WiredAll(a[i]) == WiredAll(b[i])
    ensures WiredAll(Flatten(a)) == WiredAll(Flatten(b))
  {
    if a != [] {
      WiredFlatten(a[1..], b[1..]);
      assert WiredAll(Flatten(a)) == WiredAll(a[0]) + WiredAll(Flatten(a[1..]));
      assert WiredAll(Flatten(b)) == WiredAll(b[0]) + WiredAll(Flatten(b[1..]));
    }
  }
}
