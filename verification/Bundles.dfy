/** Vote bundles, their content addresses and the per-wallet order that decides which one counts. */
module Bundles {
  import opened Wrappers

  type Byte = b: int | 0 <= b < 256

  /** A content identifier, by its bytes. Equal CIDs address equal bundles. */
  type Cid = seq<Byte>

  datatype Vote = Vote(publicKey: string, name: Option<string>, vote: int)

  datatype Bundle = Bundle(address: string, votes: seq<Vote>, blockNumber: nat, signature: seq<Byte>)

  /** A bundle together with its CID. */
  datatype Entry = Entry(cid: Cid, bundle: Bundle)

  predicate CarriesName(bundle: Bundle) {
    exists i :: 0 <= i < |bundle.votes| && bundle.votes[i].name.Some?
  }

  type Positive = n: int | 0 < n witness 1

  /** The two numbers of the criteria document that decide expiry. */
  datatype Clock = Clock(blocksPerBucket: Positive, voteExpiryBuckets: nat)
  {
    function BucketForBlock(block: nat): nat {
      block / blocksPerBucket
    }

    function SampleBlockForBucket(bucket: nat): nat {
      bucket * blocksPerBucket
    }

    predicate IsExpired(bundle: Bundle, currentBucket: nat) {
      currentBucket > BucketForBlock(bundle.blockNumber) + voteExpiryBuckets
    }
  }

  function LowerChar(c: char): char {
    if 'A' <= c <= 'Z' then (c as int + 32) as char else c
  }

  function ToLower(s: string): string {
    seq(|s|, i requires 0 <= i < |s| => LowerChar(s[i]))
  }

  /** The key bundles are reduced by: addresses differing only in case are one wallet. */
  function WalletOf(bundle: Bundle): string {
    ToLower(bundle.address)
  }

  /**
   One wallet is one address up to case: letter by letter the same, or the upper and the lower case of one
   letter, which are 32 code points apart.
   */
  lemma OneWalletUpToCase(a: Bundle, b: Bundle)
    ensures WalletOf(a) == WalletOf(b) <==>
              && |a.address| == |b.address|
              && forall i | 0 <= i < |a.address| ::
                   var x, y := a.address[i], b.address[i];
                   || x == y
                   || ('A' <= x <= 'Z' && y as int == x as int + 32)
                   || ('A' <= y <= 'Z' && x as int == y as int + 32)
  {
    var u, v := WalletOf(a), WalletOf(b);
    assert |u| == |a.address| && |v| == |b.address|;
    if u == v {
      forall i | 0 <= i < |a.address| ensures LowerChar(a.address[i]) == LowerChar(b.address[i]) {
        assert u[i] == v[i];
      }
    }
  }

  /** Byte-lexicographic order, a proper prefix coming first. */
  predicate CidLess(a: Cid, b: Cid) {
    if b == [] then false
    else if a == [] then true
    else a[0] < b[0] || (a[0] == b[0] && CidLess(a[1..], b[1..]))
  }

  /** `a` comes first where the two part: it ends there, or has the lower byte. */
  predicate PartsBelow(a: Cid, b: Cid, i: nat) {
    && i <= |a| && i <= |b| && a[..i] == b[..i]
    && ((i == |a| && |a| < |b|) || (i < |a| && i < |b| && a[i] < b[i]))
  }

  lemma {:induction false} CidLessByIndex(a: Cid, b: Cid)
    ensures CidLess(a, b) <==> exists i: nat :: PartsBelow(a, b, i)
  {
    if b == [] {
      assert forall i: nat :: !PartsBelow(a, b, i);
    } else if a == [] {
      assert PartsBelow(a, b, 0);
    } else if a[0] == b[0] {
      CidLessByIndex(a[1..], b[1..]);
      if i: nat :| PartsBelow(a[1..], b[1..], i) {
        assert a[..i + 1] == [a[0]] + a[1..][..i] && b[..i + 1] == [b[0]] + b[1..][..i];
        assert PartsBelow(a, b, i + 1);
      }
      if i: nat :| PartsBelow(a, b, i) {
        assert i > 0;
        var k: nat := i - 1;
        assert a[1..][..k] == a[..i][1..] && b[1..][..k] == b[..i][1..];
        assert PartsBelow(a[1..], b[1..], k);
      }
    } else if a[0] < b[0] {
      assert PartsBelow(a, b, 0);
    } else {
      forall i: nat ensures !PartsBelow(a, b, i) {
        if 0 < i <= |a| && i <= |b| {
          assert a[..i][0] == a[0] && b[..i][0] == b[0];
        }
      }
    }
  }

  /** Negative exactly if `x` ends, or has a lower byte, where the two part; zero exactly if they are equal. */
  method CompareCid(x: Cid, y: Cid) returns (r: int)
    ensures r < 0 <==> exists i: nat :: i <= |x| && i <= |y| && x[..i] == y[..i]
                                        && (i == |x| < |y| || (i < |x| && i < |y| && x[i] < y[i]))
    ensures r < 0 <==> CidLess(x, y)
    ensures r == 0 <==> x == y
  {
    CidLessByIndex(x, y);
    assert forall i: nat :: PartsBelow(x, y, i) <==> i <= |x| && i <= |y| && x[..i] == y[..i]
                                                     && (i == |x| < |y| || (i < |x| && i < |y| && x[i] < y[i]));
    var n := if |x| <= |y| then |x| else |y|;
    var i := 0;
    while i < n
      invariant 0 <= i <= n
      invariant x[..i] == y[..i]
      invariant CidLess(x, y) <==> CidLess(x[i..], y[i..])
    {
      var xi: int, yi: int := x[i], y[i];
      if xi != yi {
        return xi - yi;
      }
      assert x[i..][1..] == x[i + 1..] && y[i..][1..] == y[i + 1..];
      i := i + 1;
    }
    assert x == x[..i] + x[i..] && y == y[..i] + y[i..];
    return |x| - |y|;
  }

  lemma {:induction false} CidLessTotal(a: Cid, b: Cid)
    ensures CidLess(a, b) || CidLess(b, a) || a == b
    ensures !(CidLess(a, b) && CidLess(b, a))
    ensures !CidLess(a, a)
  {
    if a != [] {
      CidLessTotal(a[1..], a[1..]);
      if b != [] {
        CidLessTotal(a[1..], b[1..]);
        assert a == [a[0]] + a[1..] && b == [b[0]] + b[1..];
      }
    }
  }

  lemma {:induction false} CidLessTransitive(a: Cid, b: Cid, c: Cid)
    requires CidLess(a, b) && CidLess(b, c)
    ensures CidLess(a, c)
  {
    if a != [] && a[0] == b[0] && b[0] == c[0] {
      CidLessTransitive(a[1..], b[1..], c[1..]);
    }
  }

  /** Highest block number wins; a tie goes to the lowest CID. */
  function LwwResolve(a: Entry, b: Entry): Cid {
    if a.bundle.blockNumber != b.bundle.blockNumber then
      if a.bundle.blockNumber > b.bundle.blockNumber then a.cid else b.cid
    else if CidLess(a.cid, b.cid) || a.cid == b.cid then a.cid
    else b.cid
  }

  /** `a` beats `b`: the order `LwwResolve` maximises. */
  predicate Above(a: Entry, b: Entry) {
    a.bundle.blockNumber > b.bundle.blockNumber
    || (a.bundle.blockNumber == b.bundle.blockNumber && CidLess(a.cid, b.cid))
  }

  /** `Above` is a strict total order on distinct CIDs and `LwwResolve` is its maximum. */
  lemma LwwIsMaximum(a: Entry, b: Entry)
    ensures !(Above(a, b) && Above(b, a))
    ensures a.cid != b.cid ==> Above(a, b) || Above(b, a)
    ensures LwwResolve(a, b) == a.cid <==> a.cid == b.cid || Above(a, b)
    ensures a.cid != b.cid ==> LwwResolve(a, b) == LwwResolve(b, a)
  {
    CidLessTotal(a.cid, b.cid);
  }

  lemma AboveTransitive(a: Entry, b: Entry, c: Entry)
    requires Above(a, b) && Above(b, c)
    ensures Above(a, c)
  {
    if a.bundle.blockNumber == c.bundle.blockNumber {
      CidLessTransitive(a.cid, b.cid, c.cid);
    }
  }

  /** Expiry only moves one way: a bundle still fresh later keeps every bundle above it fresh now. */
  lemma FreshMonotone(clock: Clock, a: Entry, b: Entry, bucket: nat, later: nat)
    requires a == b || Above(a, b)
    requires bucket <= later
    requires !clock.IsExpired(b.bundle, later)
    ensures !clock.IsExpired(a.bundle, bucket)
  {
    DivMonotone(b.bundle.blockNumber, a.bundle.blockNumber, clock.blocksPerBucket);
  }

  /**
   For how long a ballot counts, in blocks: in a bucket exactly if it was cast no earlier than the start of the
   bucket `voteExpiryBuckets` before.
   */
  lemma CountsByBlock(clock: Clock, bundle: Bundle, bucket: nat)
    ensures !clock.IsExpired(bundle, bucket)
            <==> bundle.blockNumber >= (bucket - clock.voteExpiryBuckets) * clock.blocksPerBucket
  {
    var d, n, since := clock.blocksPerBucket, bundle.blockNumber, bucket - clock.voteExpiryBuckets;
    assert n == d * (n / d) + n % d;
    if since <= 0 {
      assert since * d <= 0;
    } else if n / d >= since {
      MulMonotone(d, since, n / d);
    } else {
      MulMonotone(d, n / d + 1, since);
      assert d * (n / d + 1) == d * (n / d) + d;
    }
  }

  lemma DivMonotone(x: nat, y: nat, d: Positive)
    requires x <= y
    ensures x / d <= y / d
  {
    if x / d > y / d {
      assert x == d * (x / d) + x % d && y == d * (y / d) + y % d;
      assert d * (x / d) >= d * (y / d + 1) by { MulMonotone(d, y / d + 1, x / d); }
    }
  }

  lemma MulMonotone(d: nat, a: nat, b: nat)
    requires a <= b
    ensures d * a <= d * b
  {
    assert d * (b - a) >= 0;
    assert d * b == d * a + d * (b - a);
  }

  /** A bundle's sample block is the start of its own bucket: at most its block, and of the same bucket. */
  lemma SampleBlockIsBucketFloor(clock: Clock, block: nat)
    ensures var sample := clock.SampleBlockForBucket(clock.BucketForBlock(block));
            sample <= block < sample + clock.blocksPerBucket
            && clock.BucketForBlock(sample) == clock.BucketForBlock(block)
  {
    var d, q := clock.blocksPerBucket, block / clock.blocksPerBucket;
    assert block == d * q + block % d;
    DivMonotone(q * d, block, d);
    if q * d / d < q {
      assert q * d == d * (q * d / d) + (q * d) % d;
      MulMonotone(d, q * d / d + 1, q);
    }
  }
}
