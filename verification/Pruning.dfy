/**
 Pruning is unobservable. Every operation of the engine acts on the observable core alone, and
 a prune leaves the core unchanged; so the pruned set and a set that is never pruned answer both
 readers alike, on every run that keeps the two rules stated by `Allowed`.
 */
module Pruning {
  import opened Wrappers
  import opened Bundles
  import opened WinnerSet

  // ---- the operations ----

  /** The winner of `e`'s wallet has checks still pending. */
  ghost predicate ProvisionalWinner(s: Members, e: Bundle) {
    exists w :: IsWinner(s, s.Keys, w) && SameWallet(s[w].bundle, e) && !s[w].checks.Settled()
  }

  /** `prune` drops what is superseded or expired, except what a provisional winner supersedes. */
  ghost predicate Dropped(clock: Clock, s: Members, bucket: nat, c: Cid)
    requires c in s
  {
    var isWinner := IsWinner(s, s.Keys, c);
    var expired := clock.IsExpired(s[c].bundle, bucket);
    var shielded := !isWinner && !expired && ProvisionalWinner(s, s[c].bundle);
    (!isWinner || expired) && !shielded
  }

  ghost function Pruned(clock: Clock, s: Members, bucket: nat): Members {
    map c | c in s && !Dropped(clock, s, bucket, c) :: s[c]
  }

  /**
   What a prune keeps: of the bundles that still count, each wallet's winner, and all of them while their winner
   has a check pending.
   */
  lemma PruneKeepsExactly(clock: Clock, s: Members, bucket: nat, c: Cid)
    requires c in s
    ensures c in Pruned(clock, s, bucket) <==>
              && CountsIn(clock, s[c].bundle, bucket)
              && (IsWinner(s, s.Keys, c)
                  || exists w :: IsWinner(s, s.Keys, w) && ToLower(s[w].bundle.address) == ToLower(s[c].bundle.address)
                                 && (!s[w].checks.chainVerified || s[w].checks.nameResolved == Some(false)))
    ensures c in Pruned(clock, s, bucket) ==> Pruned(clock, s, bucket)[c] == s[c]
  {
    CountsByBlock(clock, s[c].bundle, bucket);
    if w :| IsWinner(s, s.Keys, w) && ToLower(s[w].bundle.address) == ToLower(s[c].bundle.address)
            && (!s[w].checks.chainVerified || s[w].checks.nameResolved == Some(false)) {
      assert SameWallet(s[w].bundle, s[c].bundle);
    }
  }

  datatype Op =
    | Admit(cid: Cid, rec: Record)
    | Settle(cid: Cid, check: CheckKind)
    | Evict(cid: Cid)
    | Prune(bucket: nat)

  /** The engine's state: the members, and the newest bucket anything was pruned at. */
  datatype State = State(members: Members, bucket: nat)

  ghost function Step(clock: Clock, s: State, op: Op): State {
    match op
    case Admit(c, rec) => s.(members := s.members[c := rec])
    case Settle(c, check) =>
      if c in s.members then
        s.(members := s.members[c := s.members[c].(checks := s.members[c].checks.Flip(check))])
      else s
    case Evict(c) => s.(members := s.members - {c})
    case Prune(b) => State(Pruned(clock, s.members, b), b)
  }

  /**
   What a run must respect. CIDs address content; a settled bundle neither goes back to pending
   nor is evicted; and buckets do not go backwards.
   */
  predicate Allowed(s: State, op: Op) {
    match op
    case Admit(c, rec) => c in s.members ==> s.members[c].bundle == rec.bundle
                                             && (s.members[c].checks.Settled() ==> rec.checks.Settled())
    case Settle(c, check) => true
    case Evict(c) => c in s.members ==> !s.members[c].checks.Settled()
    case Prune(b) => s.bucket <= b
  }

  // ---- one step on the core ----

  lemma AdmitOnCore(clock: Clock, s: Members, bucket: nat, c: Cid, rec: Record)
    requires c in s ==> s[c].bundle == rec.bundle
    requires c in Core(clock, s, bucket) && s[c].checks.Settled() ==> rec.checks.Settled()
    ensures Core(clock, s[c := rec], bucket) == Core(clock, Core(clock, s, bucket)[c := rec], bucket)
  {
    var k := Core(clock, s, bucket);
    var s', k' := s[c := rec], k[c := rec];
    forall g | g in s' && !clock.IsExpired(s'[g].bundle, bucket)
      ensures g in Core(clock, s', bucket) <==> g in Core(clock, k', bucket)
    {
      var e := At(s', g);
      if d :| Beats(s, d, e) {
        var w := BeatenByCore(clock, s, bucket, d, e);
        assert Beats(s', w, e) && Beats(k', w, e) by { LwwIsMaximum(At(s, w), At(s, w)); }
      } else {
        assert forall d :: d != c && Beats(s', d, e) ==> Beats(s, d, e);
        assert forall d :: d != c && Beats(k', d, e) ==> Beats(s, d, e);
        assert Beats(s', c, e) <==> Beats(k', c, e);
      }
    }
  }

  lemma RemoveOnCore(clock: Clock, s: Members, bucket: nat, c: Cid)
    requires c in Core(clock, s, bucket) ==> !s[c].checks.Settled()
    ensures Core(clock, s - {c}, bucket) == Core(clock, Core(clock, s, bucket) - {c}, bucket)
  {
    var k := Core(clock, s, bucket);
    var s', k' := s - {c}, k - {c};
    forall g | g in s' && !clock.IsExpired(s'[g].bundle, bucket)
      ensures g in Core(clock, s', bucket) <==> g in Core(clock, k', bucket)
    {
      var e := At(s', g);
      if d :| Beats(s, d, e) {
        var w := BeatenByCore(clock, s, bucket, d, e);
        assert Beats(s', w, e) && w in k;
      } else {
        assert forall d :: Beats(k', d, e) ==> Beats(s, d, e);
        assert forall d :: Beats(s', d, e) ==> Beats(s, d, e);
      }
    }
  }

  /** A dead bundle's flags do not matter. */
  lemma DeadIsInert(clock: Clock, s: Members, bucket: nat, c: Cid, checks: Checks)
    requires c in s && c !in Core(clock, s, bucket)
    ensures Core(clock, s[c := s[c].(checks := checks)], bucket) == Core(clock, s, bucket)
  {
    var s' := s[c := s[c].(checks := checks)];
    forall g | g in s && !clock.IsExpired(s[g].bundle, bucket)
      ensures Dead(clock, s, bucket, At(s, g)) <==> Dead(clock, s', bucket, At(s, g))
    {
      var e := At(s, g);
      if d :| Beats(s, d, e) {
        var w := BeatenByCore(clock, s, bucket, d, e);
        assert Beats(s', w, e);
      }
      if d :| Beats(s', d, e) {
        if d == c {
          FreshMonotone(clock, At(s, c), e, bucket, bucket);
          var f :| Beats(s, f, At(s, c));
          AboveTransitive(At(s, f), At(s, c), e);
          assert Beats(s, f, e);
        } else {
          assert Beats(s, d, e);
        }
      }
    }
  }

  lemma PruneKeepsTheCore(clock: Clock, s: Members, bucket: nat)
    ensures Core(clock, Pruned(clock, s, bucket), bucket) == Core(clock, s, bucket)
  {
    var p := Pruned(clock, s, bucket);
    forall c | c in s && !clock.IsExpired(s[c].bundle, bucket)
      ensures c in Core(clock, p, bucket) <==> c in Core(clock, s, bucket)
    {
      var e := At(s, c);
      if d :| Beats(s, d, e) {
        var w := BeatenByCore(clock, s, bucket, d, e);
        CoreIsKept(clock, s, bucket, w);
        assert Beats(p, w, e);
      } else {
        CoreIsKept(clock, s, bucket, c);
        assert forall d :: Beats(p, d, e) ==> Beats(s, d, e);
      }
    }
  }

  lemma CoreIsKept(clock: Clock, s: Members, bucket: nat, c: Cid)
    requires c in Core(clock, s, bucket)
    ensures c in Pruned(clock, s, bucket)
  {
    var w := WinnerOf(s, s.Keys, c);
    if w != c {
      assert !Beats(s, w, At(s, c));
    }
  }

  /** Equal cores stay equal: on the core, a prune is nothing and every other step is itself. */
  lemma StepOnCore(clock: Clock, s: State, u: Members, op: Op)
    requires Allowed(s, op)
    requires Core(clock, s.members, s.bucket) == Core(clock, u, s.bucket)
    requires op.Admit? && op.cid in u ==> u[op.cid].bundle == op.rec.bundle
    ensures var s' := Step(clock, s, op);
            Core(clock, s'.members, s'.bucket)
            == Core(clock, if op.Prune? then u else Step(clock, State(u, s.bucket), op).members, s'.bucket)
  {
    var p, b := s.members, s.bucket;
    match op
    case Admit(c, rec) =>
      AdmitOnCore(clock, p, b, c, rec);
      AdmitOnCore(clock, u, b, c, rec);
    case Evict(c) =>
      RemoveOnCore(clock, p, b, c);
      RemoveOnCore(clock, u, b, c);
    case Settle(c, check) =>
      if c in Core(clock, p, b) {
        var rec := p[c].(checks := p[c].checks.Flip(check));
        AdmitOnCore(clock, p, b, c, rec);
        AdmitOnCore(clock, u, b, c, rec);
      } else {
        if c in p { DeadIsInert(clock, p, b, c, p[c].checks.Flip(check)); }
        if c in u { DeadIsInert(clock, u, b, c, u[c].checks.Flip(check)); }
      }
    case Prune(later) =>
      PruneKeepsTheCore(clock, p, later);
      CoreOfCore(clock, p, b, later);
      CoreOfCore(clock, u, b, later);
  }

  // ---- whole runs ----

  ghost function Run(clock: Clock, ops: seq<Op>): State {
    if ops == [] then State(map[], 0)
    else Step(clock, Run(clock, ops[..|ops| - 1]), ops[|ops| - 1])
  }

  ghost predicate AllowedRun(clock: Clock, ops: seq<Op>) {
    ops != [] ==>
      && AllowedRun(clock, ops[..|ops| - 1])
      && Allowed(Run(clock, ops[..|ops| - 1]), ops[|ops| - 1])
  }

  /** Content addressing over a whole run: one CID never names two bundles. */
  ghost predicate ContentAddressed(ops: seq<Op>) {
    forall i, j :: 0 <= i < |ops| && 0 <= j < |ops| && ops[i].Admit? && ops[j].Admit? && ops[i].cid == ops[j].cid
      ==> ops[i].rec.bundle == ops[j].rec.bundle
  }

  function WithoutPrunes(ops: seq<Op>): seq<Op> {
    if ops == [] then []
    else
      var last := ops[|ops| - 1];
      WithoutPrunes(ops[..|ops| - 1]) + if last.Prune? then [] else [last]
  }

  lemma {:induction false} NeverPrunedStep(clock: Clock, ops: seq<Op>, op: Op)
    ensures Run(clock, ops + [op]) == Step(clock, Run(clock, ops), op)
  {
    assert (ops + [op])[..|ops|] == ops;
  }

  lemma {:induction false} MembersWereAdmitted(clock: Clock, ops: seq<Op>, c: Cid)
    requires c in Run(clock, ops).members
    ensures exists i :: 0 <= i < |ops| && ops[i].Admit? && ops[i].cid == c
                        && ops[i].rec.bundle == Run(clock, ops).members[c].bundle
  {
    var n := |ops| - 1;
    if !(ops[n].Admit? && ops[n].cid == c) {
      MembersWereAdmitted(clock, ops[..n], c);
      var i :| 0 <= i < n && ops[..n][i].Admit? && ops[..n][i].cid == c
               && ops[..n][i].rec.bundle == Run(clock, ops[..n]).members[c].bundle;
      assert ops[i] == ops[..n][i];
    } else {
      assert ops[n].cid == c;
    }
  }

  lemma {:induction false} WithoutPrunesAdmits(ops: seq<Op>, i: nat) returns (j: nat)
    requires i < |WithoutPrunes(ops)|
    ensures j < |ops| && ops[j] == WithoutPrunes(ops)[i]
  {
    var n := |ops| - 1;
    if i < |WithoutPrunes(ops[..n])| {
      j := WithoutPrunesAdmits(ops[..n], i);
    } else {
      j := n;
    }
  }

  lemma {:induction false} CoreOfRun(clock: Clock, ops: seq<Op>)
    requires AllowedRun(clock, ops) && ContentAddressed(ops)
    ensures var s := Run(clock, ops);
            Core(clock, s.members, s.bucket) == Core(clock, Run(clock, WithoutPrunes(ops)).members, s.bucket)
  {
    if ops != [] {
      var n := |ops| - 1;
      var prefix, op := ops[..n], ops[n];
      CoreOfRun(clock, prefix);
      var u := Run(clock, WithoutPrunes(prefix));
      if op.Admit? && op.cid in u.members {
        MembersWereAdmitted(clock, WithoutPrunes(prefix), op.cid);
        var i :| 0 <= i < |WithoutPrunes(prefix)| && WithoutPrunes(prefix)[i].Admit?
                 && WithoutPrunes(prefix)[i].cid == op.cid
                 && WithoutPrunes(prefix)[i].rec.bundle == u.members[op.cid].bundle;
        var j := WithoutPrunesAdmits(prefix, i);
        assert ops[j] == prefix[j];
      }
      StepOnCore(clock, Run(clock, prefix), u.members, op);
      assert WithoutPrunes(ops) == WithoutPrunes(prefix) + if op.Prune? then [] else [op];
      if op.Prune? {
        assert WithoutPrunes(ops) == WithoutPrunes(prefix);
      } else {
        NeverPrunedStep(clock, WithoutPrunes(prefix), op);
        StepIgnoresBucket(clock, u, State(u.members, Run(clock, prefix).bucket), op);
      }
    }
  }

  lemma StepIgnoresBucket(clock: Clock, s: State, t: State, op: Op)
    requires s.members == t.members && !op.Prune?
    ensures Step(clock, s, op).members == Step(clock, t, op).members
  {
  }

  /**
   Main result. After any allowed run, at the current bucket and at every later one, the tally
   and the checkpoint read from the pruned set exactly what they would read had nothing ever
   been pruned. A run's prefixes are runs, so this holds at every step, evictions included.
   */
  lemma PruningIsUnobservable(clock: Clock, ops: seq<Op>, now: nat)
    requires AllowedRun(clock, ops) && ContentAddressed(ops)
    requires Run(clock, ops).bucket <= now
    ensures var pruned, never := Run(clock, ops).members, Run(clock, WithoutPrunes(ops)).members;
            && TallyView(clock, pruned, now) == TallyView(clock, never, now)
            && CheckpointView(clock, pruned, now) == CheckpointView(clock, never, now)
  {
    var s, u := Run(clock, ops), Run(clock, WithoutPrunes(ops));
    CoreOfRun(clock, ops);
    ReadersSeeOnlyTheCore(clock, s.members, s.bucket, now);
    ReadersSeeOnlyTheCore(clock, u.members, s.bucket, now);
  }
}
