/**
 The last-write-wins winner set with the engine's per-bundle check flags, on values.

 A contest's state maps every admitted CID to its bundle and to the state of its two deferred
 network checks. The tally reads the winner of each wallet; the checkpoint reads the winner
 among the settled bundles. Pruning drops bundles, and the results here say that neither
 reader can tell.
 */
module WinnerSet {
  import opened Wrappers
  import opened Bundles

  /** `nameResolved` is absent for a bundle that carries no name. */
  datatype Checks = Checks(chainVerified: bool, nameResolved: Option<bool>)
  {
    predicate Settled() {
      chainVerified && nameResolved != Some(false)
    }

    function Flip(check: CheckKind): Checks {
      match check
      case Chain => this.(chainVerified := true)
      case Name => this.(nameResolved := Some(true))
    }
  }

  datatype CheckKind = Chain | Name

  /** The checks recorded at admission. */
  function InitialChecks(bundle: Bundle, settled: bool, nameSettled: bool): Checks {
    Checks(settled, if CarriesName(bundle) then Some(nameSettled) else None)
  }

  datatype Record = Record(bundle: Bundle, checks: Checks)

  type Members = map<Cid, Record>

  function At(s: Members, c: Cid): Entry
    requires c in s
  {
    Entry(c, s[c].bundle)
  }

  predicate SameWallet(a: Bundle, b: Bundle) {
    WalletOf(a) == WalletOf(b)
  }

  function SettledIn(s: Members): set<Cid> {
    set c | c in s && s[c].checks.Settled()
  }

  /** No eligible bundle of the same wallet beats `c`. */
  ghost predicate IsWinner(s: Members, eligible: set<Cid>, c: Cid) {
    && c in s && c in eligible
    && forall d :: d in s && d in eligible && SameWallet(s[d].bundle, s[c].bundle) ==> !Above(At(s, d), At(s, c))
  }

  /** What `currentEntries` returns: each wallet's winner, unless that winner has expired. */
  ghost function CurrentEntries(clock: Clock, s: Members, bucket: nat, eligible: set<Cid>): map<Cid, Bundle> {
    map c | c in s && IsWinner(s, eligible, c) && !clock.IsExpired(s[c].bundle, bucket) :: s[c].bundle
  }

  ghost function TallyView(clock: Clock, s: Members, bucket: nat): map<Cid, Bundle> {
    CurrentEntries(clock, s, bucket, s.Keys)
  }

  ghost function CheckpointView(clock: Clock, s: Members, bucket: nat): map<Cid, Bundle> {
    CurrentEntries(clock, s, bucket, SettledIn(s))
  }

  // ---- winners exist and are unique ----

  lemma {:induction false} BestOf(s: Members, among: set<Cid>, c: Cid) returns (best: Cid)
    requires c in among && among <= s.Keys
    ensures best in among && SameWallet(s[best].bundle, s[c].bundle)
    ensures best == c || Above(At(s, best), At(s, c))
    ensures forall d :: d in among && SameWallet(s[d].bundle, s[c].bundle) ==> !Above(At(s, d), At(s, best))
    decreases among
  {
    LwwIsMaximum(At(s, c), At(s, c));
    if d :| d in among && SameWallet(s[d].bundle, s[c].bundle) && Above(At(s, d), At(s, c)) {
      best := BestOf(s, among - {c}, d);
      if best != d {
        AboveTransitive(At(s, best), At(s, d), At(s, c));
      }
      LwwIsMaximum(At(s, c), At(s, best));
    } else {
      best := c;
    }
  }

  /**
   What winning means, address by address, block by block and byte by byte: no eligible bundle of the wallet has
   a higher block, and none of the same block has a CID that ends, or has a lower byte, where the two part.
   */
  lemma WinnerIsNewest(s: Members, eligible: set<Cid>, c: Cid)
    requires c in s && c in eligible
    ensures IsWinner(s, eligible, c) <==>
              forall d | d in s && d in eligible && ToLower(s[d].bundle.address) == ToLower(s[c].bundle.address) ::
                && s[d].bundle.blockNumber <= s[c].bundle.blockNumber
                && (s[d].bundle.blockNumber == s[c].bundle.blockNumber ==> forall i: nat :: !PartsBelow(d, c, i))
  {
    forall d | d in s ensures CidLess(d, c) <==> exists i: nat :: PartsBelow(d, c, i) {
      CidLessByIndex(d, c);
    }
  }

  /**
   What the two readers list: a wallet's newest bundle, while it counts; for the checkpoint the newest of those
   whose gate was confirmed and whose names, if it carries any, were resolved.
   */
  lemma ViewsMean(clock: Clock, s: Members, bucket: nat, c: Cid)
    ensures c in TallyView(clock, s, bucket) <==> c in s && IsWinner(s, s.Keys, c) && CountsIn(clock, s[c].bundle, bucket)
    ensures c in CheckpointView(clock, s, bucket) <==>
              && c in s && s[c].checks.chainVerified && s[c].checks.nameResolved != Some(false)
              && (forall d | d in s && s[d].checks.chainVerified && s[d].checks.nameResolved != Some(false)
                             && ToLower(s[d].bundle.address) == ToLower(s[c].bundle.address) :: !Above(At(s, d), At(s, c)))
              && CountsIn(clock, s[c].bundle, bucket)
    ensures c in CheckpointView(clock, s, bucket) ==> CheckpointView(clock, s, bucket)[c] == s[c].bundle
    ensures c in TallyView(clock, s, bucket) ==> TallyView(clock, s, bucket)[c] == s[c].bundle
  {
    if c in s { CountsByBlock(clock, s[c].bundle, bucket); }
  }

  predicate CountsIn(clock: Clock, bundle: Bundle, bucket: nat) {
    bundle.blockNumber >= (bucket - clock.voteExpiryBuckets) * clock.blocksPerBucket
  }

  lemma WinnerOf(s: Members, eligible: set<Cid>, c: Cid) returns (w: Cid)
    requires c in s && c in eligible
    ensures IsWinner(s, eligible, w) && SameWallet(s[w].bundle, s[c].bundle)
    ensures w == c || Above(At(s, w), At(s, c))
  {
    w := BestOf(s, s.Keys * eligible, c);
  }

  /** A wallet never has two current bundles. */
  lemma OneWinnerPerWallet(s: Members, eligible: set<Cid>, c: Cid, d: Cid)
    requires IsWinner(s, eligible, c) && IsWinner(s, eligible, d)
    requires SameWallet(s[c].bundle, s[d].bundle)
    ensures c == d
  {
    LwwIsMaximum(At(s, c), At(s, d));
  }

  // ---- the observable core ----

  /** A settled bundle of the same wallet beats `e`: nothing can make `e` current again. */
  ghost predicate Beats(s: Members, d: Cid, e: Entry) {
    d in s && s[d].checks.Settled() && SameWallet(s[d].bundle, e.bundle) && Above(At(s, d), e)
  }

  ghost predicate Dead(clock: Clock, s: Members, bucket: nat, e: Entry) {
    clock.IsExpired(e.bundle, bucket) || exists d :: Beats(s, d, e)
  }

  /** The bundles that can still become current at `bucket` or later. */
  ghost function Core(clock: Clock, s: Members, bucket: nat): Members {
    map c | c in s && !Dead(clock, s, bucket, At(s, c)) :: s[c]
  }

  /** What a settled bundle beats is also beaten by the wallet's best settled bundle, which the core keeps. */
  lemma BeatenByCore(clock: Clock, s: Members, bucket: nat, d: Cid, e: Entry) returns (w: Cid)
    requires Beats(s, d, e)
    requires !clock.IsExpired(e.bundle, bucket)
    ensures Beats(s, w, e) && IsWinner(s, SettledIn(s), w)
    ensures w in Core(clock, s, bucket)
  {
    w := WinnerOf(s, SettledIn(s), d);
    if w != d {
      AboveTransitive(At(s, w), At(s, d), e);
    }
    SettledWinnerInCore(clock, s, bucket, w, e);
  }

  lemma SettledWinnerInCore(clock: Clock, s: Members, bucket: nat, w: Cid, e: Entry)
    requires IsWinner(s, SettledIn(s), w)
    requires e == At(s, w) || Above(At(s, w), e)
    requires !clock.IsExpired(e.bundle, bucket)
    ensures w in Core(clock, s, bucket)
  {
    FreshMonotone(clock, At(s, w), e, bucket, bucket);
  }

  lemma WinnerInCore(clock: Clock, s: Members, bucket: nat, w: Cid, e: Entry)
    requires IsWinner(s, s.Keys, w)
    requires e == At(s, w) || Above(At(s, w), e)
    requires !clock.IsExpired(e.bundle, bucket)
    ensures w in Core(clock, s, bucket)
  {
    FreshMonotone(clock, At(s, w), e, bucket, bucket);
  }

  lemma CoreOfCore(clock: Clock, s: Members, bucket: nat, later: nat)
    requires bucket <= later
    ensures Core(clock, Core(clock, s, bucket), later) == Core(clock, s, later)
  {
    var k := Core(clock, s, bucket);
    forall c | c in s && !clock.IsExpired(s[c].bundle, later)
      ensures c in Core(clock, k, later) <==> c in Core(clock, s, later)
    {
      if d :| Beats(s, d, At(s, c)) {
        var w := BeatenByCore(clock, s, bucket, d, At(s, c));
        assert Beats(k, w, At(s, c));
      } else {
        assert forall d :: Beats(k, d, At(s, c)) ==> Beats(s, d, At(s, c));
      }
    }
  }

  /** Both readers see nothing but the core, at its own bucket and at every later one. */
  lemma ReadersSeeOnlyTheCore(clock: Clock, s: Members, bucket: nat, later: nat)
    requires bucket <= later
    ensures TallyView(clock, s, later) == TallyView(clock, Core(clock, s, bucket), later)
    ensures CheckpointView(clock, s, later) == CheckpointView(clock, Core(clock, s, bucket), later)
  {
    var k := Core(clock, s, bucket);
    forall c | c in s && !clock.IsExpired(s[c].bundle, later)
      ensures IsWinner(s, s.Keys, c) <==> IsWinner(k, k.Keys, c)
      ensures IsWinner(s, SettledIn(s), c) <==> IsWinner(k, SettledIn(k), c)
    {
      TallyWinnerInCore(clock, s, bucket, later, c);
      CheckpointWinnerInCore(clock, s, bucket, later, c);
    }
  }

  lemma TallyWinnerInCore(clock: Clock, s: Members, bucket: nat, later: nat, c: Cid)
    requires bucket <= later
    requires c in s && !clock.IsExpired(s[c].bundle, later)
    ensures var k := Core(clock, s, bucket); IsWinner(s, s.Keys, c) <==> IsWinner(k, k.Keys, c)
  {
    var w := WinnerOf(s, s.Keys, c);
    WinnerInCore(clock, s, bucket, w, At(s, c));
  }

  lemma CheckpointWinnerInCore(clock: Clock, s: Members, bucket: nat, later: nat, c: Cid)
    requires bucket <= later
    requires c in s && !clock.IsExpired(s[c].bundle, later)
    ensures var k := Core(clock, s, bucket); IsWinner(s, SettledIn(s), c) <==> IsWinner(k, SettledIn(k), c)
  {
    if c in SettledIn(s) {
      var w := WinnerOf(s, SettledIn(s), c);
      SettledWinnerInCore(clock, s, bucket, w, At(s, c));
    }
  }
}
