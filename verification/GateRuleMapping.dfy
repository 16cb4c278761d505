/**
 The rule called for one wallet after another through one cache, against the batch: each call finds what the
 earlier ones left, and may have pushed out.
 */
module GateRuleMapping {
  import opened Wrappers
  import opened Bundles
  import opened RuleCaches
  import opened Sequences
  import opened GateRules

  // ---- what a leg and a call leave of the cache ----

  lemma BalancesAreFresh(world: World, c: Memo, maxEntries: nat, leg: LegKind, epoch: nat, block: nat, wallets: seq<string>)
    ensures ReadFresh(world, c, AfterBalances(world, c, maxEntries, leg, epoch, block, wallets), leg, epoch, block)
  {
    var keys := Facts(leg, wallets);
    var asked := Missing(FirstSeen(keys), epoch, c.byKey);
    var d := AfterBalances(world, c, maxEntries, leg, epoch, block, wallets);
    FirstSeenElements(keys);
    MissingElements(FirstSeen(keys), epoch, c.byKey);
    PutAllElements(c, asked, epoch, Truths(world, asked, block), maxEntries);
    forall s <- d.byKey | !(s in c.byKey && d.byKey[s] == c.byKey[s])
      ensures s.key.leg == leg && s.epoch == epoch && d.byKey[s] == Truth(world, s.key.fact, block)
    {
      var m :| 0 <= m < |asked| && asked[m] == s.key && Truths(world, asked, block)[m] == d.byKey[s];
      assert s.key in asked && s.key in keys;
    }
  }

  lemma BalancesLeave(world: World, c: Memo, maxEntries: nat, leg: LegKind, epoch: nat, block: nat, wallets: seq<string>)
    requires WellKept(c, maxEntries)
    ensures var d := AfterBalances(world, c, maxEntries, leg, epoch, block, wallets);
            && WellKept(d, maxEntries) && ReadFresh(world, c, d, leg, epoch, block) && Outlasts(c, d, |wallets|, maxEntries)
  {
    var keys := Facts(leg, wallets);
    var asked := Missing(FirstSeen(keys), epoch, c.byKey);
    BalancesAreFresh(world, c, maxEntries, leg, epoch, block, wallets);
    MissingAreFewer(keys, epoch, c.byKey);
    PutAllOutlasts(c, asked, epoch, Truths(world, asked, block), maxEntries);
    OutlastsMore(c, AfterBalances(world, c, maxEntries, leg, epoch, block, wallets), |asked|, |wallets|, maxEntries);
  }

  lemma LockLeaves(world: World, c: Memo, maxEntries: nat, leg: LegKind, epoch: nat, block: nat)
    requires WellKept(c, maxEntries)
    ensures var d := AfterLock(world, c, maxEntries, leg, epoch, block);
            && WellKept(d, maxEntries) && ReadFresh(world, c, d, leg, epoch, block) && Outlasts(c, d, 1, maxEntries)
  {
    PutOutlasts(c, Slot(Key(leg, Lock), epoch), Recall(world, c, Key(leg, Lock), epoch, block), maxEntries);
  }

  lemma LegLeaves(world: World, c: Memo, maxEntries: nat, leg: LegKind, epoch: nat, block: nat, wallets: seq<string>)
    requires WellKept(c, maxEntries)
    ensures var d := AfterLeg(world, c, maxEntries, leg, epoch, block, wallets);
            && WellKept(d, maxEntries) && ReadFresh(world, c, d, leg, epoch, block) && Outlasts(c, d, 1 + |wallets|, maxEntries)
  {
    var locked, d := AfterLock(world, c, maxEntries, leg, epoch, block), AfterLeg(world, c, maxEntries, leg, epoch, block, wallets);
    LockLeaves(world, c, maxEntries, leg, epoch, block);
    BalancesLeave(world, locked, maxEntries, leg, epoch, block, wallets);
    PutAllOutlasts(c, [], epoch, [], maxEntries);
    OutlastsMore(c, c, 0, 1 + |wallets|, maxEntries);
    OutlastsMore(c, locked, 1, 1 + |wallets|, maxEntries);
    OutlastsOn(c, locked, AfterBalances(world, locked, maxEntries, leg, epoch, block, wallets), 1, |wallets|, maxEntries);
  }

  /** Two legs for a wallet, at the head and at its own block. */
  lemma TwoLegsLeave(world: World, c: Memo, maxEntries: nat, w: RuleWallet, head: nat)
    requires WellKept(c, maxEntries)
    ensures var scored := AfterLeg(world, c, maxEntries, Head, Epoch(head), head, [w.address]);
            var fallen := AfterLeg(world, scored, maxEntries, Pinned, w.sampleBlock, w.sampleBlock, [w.address]);
            && WellKept(fallen, maxEntries) && HeadFresh(world, c, fallen, head) && Outlasts(c, fallen, 4, maxEntries)
  {
    var scored := AfterLeg(world, c, maxEntries, Head, Epoch(head), head, [w.address]);
    var fallen := AfterLeg(world, scored, maxEntries, Pinned, w.sampleBlock, w.sampleBlock, [w.address]);
    LegLeaves(world, c, maxEntries, Head, Epoch(head), head, [w.address]);
    LegLeaves(world, scored, maxEntries, Pinned, w.sampleBlock, w.sampleBlock, [w.address]);
    OutlastsOn(c, scored, fallen, 2, 2, maxEntries);
  }

  /** A call leaves current entries and what it read at the head, and pushes out no more than four entries can. */
  lemma CallLeaves(world: World, min: Positive, c: Memo, maxEntries: nat, w: RuleWallet, head: nat)
    requires WellKept(c, maxEntries)
    ensures var d := AfterCall(world, min, c, maxEntries, w, head);
            && WellKept(d, maxEntries) && HeadFresh(world, Current(c, head), d, head)
            && Outlasts(Current(c, head), d, 4, maxEntries)
  {
    var current := Current(c, head);
    var scored := AfterLeg(world, current, maxEntries, Head, Epoch(head), head, [w.address]);
    PurgedWellKept(c, Epoch(head), IsHead, maxEntries);
    LegLeaves(world, current, maxEntries, Head, Epoch(head), head, [w.address]);
    OutlastsMore(current, scored, 2, 4, maxEntries);
    TwoLegsLeave(world, current, maxEntries, w, head);
  }

  /** After calls at this head there is nothing old for the next one to purge. */
  lemma NothingToPurge(world: World, first: Memo, d: Memo, maxEntries: nat, head: nat)
    requires WellKept(d, maxEntries) && HeadFresh(world, Current(first, head), d, head)
    ensures Current(d, head) == d
  {
    CurrentKeeps(first, head);
    PurgedSame(d, Epoch(head), IsHead, maxEntries);
  }

  lemma HeadFreshOn(world: World, a: Memo, b: Memo, c: Memo, head: nat)
    requires HeadFresh(world, a, b, head) && HeadFresh(world, b, c, head)
    ensures HeadFresh(world, a, c, head)
  {
  }

  /** What `n` entries coming in, by calls at this head, leave of the current memo `first`. */
  ghost predicate LeftBy(world: World, first: Memo, c: Memo, n: nat, maxEntries: nat, head: nat) {
    && WellKept(c, maxEntries) && HeadFresh(world, first, Current(c, head), head)
    && Outlasts(first, Current(c, head), n, maxEntries)
  }

  lemma AnotherCall(world: World, min: Positive, first: Memo, c: Memo, n: nat, maxEntries: nat, w: RuleWallet, head: nat)
    requires LeftBy(world, first, c, n, maxEntries, head)
    ensures LeftBy(world, first, AfterCall(world, min, c, maxEntries, w, head), n + 4, maxEntries, head)
  {
    var d := AfterCall(world, min, c, maxEntries, w, head);
    CallLeaves(world, min, c, maxEntries, w, head);
    NothingToPurge(world, c, d, maxEntries, head);
    HeadFreshOn(world, first, Current(c, head), d, head);
    OutlastsOn(first, Current(c, head), d, n, 4, maxEntries);
  }

  lemma NoCallYet(world: World, c: Memo, maxEntries: nat, head: nat)
    requires WellKept(c, maxEntries)
    ensures LeftBy(world, Current(c, head), c, 0, maxEntries, head)
  {
    PurgedWellKept(c, Epoch(head), IsHead, maxEntries);
    PutAllOutlasts(Current(c, head), [], 0, [], maxEntries);
  }

  lemma {:induction false} InTurnKeeps(c: Memo, wallets: seq<RuleWallet>, call: (Memo, RuleWallet) -> Memo, kept: (Memo, nat) -> bool)
    requires kept(c, 0) && forall m, w, n: nat | kept(m, n) :: kept(call(m, w), n + 4)
    ensures kept(InTurn(c, wallets, call), 4 * |wallets|)
  {
    if wallets != [] {
      InTurnKeeps(c, wallets[..|wallets| - 1], call, kept);
    }
  }

  lemma CallsLeave(world: World, min: Positive, c: Memo, maxEntries: nat, wallets: seq<RuleWallet>, head: nat)
    requires WellKept(c, maxEntries)
    ensures LeftBy(world, Current(c, head), AfterCalls(world, min, c, maxEntries, wallets, head), 4 * |wallets|, maxEntries, head)
  {
    var first := Current(c, head);
    var call := (m: Memo, w: RuleWallet) => AfterCall(world, min, m, maxEntries, w, head);
    var kept := (m: Memo, n: nat) => LeftBy(world, first, m, n, maxEntries, head);
    NoCallYet(world, c, maxEntries, head);
    forall m, w, n: nat | kept(m, n) ensures kept(call(m, w), n + 4) {
      AnotherCall(world, min, first, m, n, maxEntries, w, head);
    }
    InTurnKeeps(c, wallets, call, kept);
  }

  // ---- what a call with room remembers ----

  function BalanceKey(leg: LegKind, address: string): Key {
    Key(leg, BalanceOf(ToLower(address)))
  }

  predicate Remembers(c: Memo, key: Key, epoch: nat, value: nat) {
    Slot(key, epoch) in c.byKey && c.byKey[Slot(key, epoch)] == value
  }

  /** The balances of one wallet are one entry. */
  lemma OneBalance(world: World, c: Memo, maxEntries: nat, leg: LegKind, epoch: nat, block: nat, address: string)
    ensures AfterBalances(world, c, maxEntries, leg, epoch, block, [address])
            == var key := BalanceKey(leg, address);
               Put(c, Slot(key, epoch), Recall(world, c, key, epoch, block), maxEntries)
  {
    var key := BalanceKey(leg, address);
    var asked := Missing([key], epoch, c.byKey);
    OneKey(c, key, epoch, Truth(world, key.fact, block), maxEntries);
    assert Facts(leg, [address]) == [key];
    assert asked == [key] ==> Truths(world, asked, block) == [Truth(world, key.fact, block)];
  }

  /** What a leg for one wallet went by is stored after it. */
  ghost predicate Remembered(world: World, was: Memo, now: Memo, maxEntries: nat, leg: LegKind, epoch: nat, block: nat, address: string) {
    var lock, locked := Recall(world, was, Key(leg, Lock), epoch, block), AfterLock(world, was, maxEntries, leg, epoch, block);
    && Remembers(now, Key(leg, Lock), epoch, lock)
    && (lock == 1 ==> Remembers(now, BalanceKey(leg, address), epoch, Recall(world, locked, BalanceKey(leg, address), epoch, block)))
  }

  lemma LegRemembers(world: World, was: Memo, maxEntries: nat, leg: LegKind, epoch: nat, block: nat, address: string)
    requires |was.order| + 2 <= maxEntries
    ensures Remembered(world, was, AfterLeg(world, was, maxEntries, leg, epoch, block, [address]), maxEntries, leg, epoch, block, address)
    ensures |AfterLeg(world, was, maxEntries, leg, epoch, block, [address]).order| <= |was.order| + 2
  {
    OneBalance(world, AfterLock(world, was, maxEntries, leg, epoch, block), maxEntries, leg, epoch, block, address);
  }

  lemma StillRemembers(c: Memo, d: Memo, key: Key, epoch: nat, value: nat, n: nat, maxEntries: nat)
    requires WellKept(c, maxEntries) && Outlasts(c, d, n, maxEntries) && |c.order| + n <= maxEntries && Remembers(c, key, epoch, value)
    ensures Remembers(d, key, epoch, value)
  {
    assert Slot(key, epoch) in c.order;
    var p: nat :| p < |c.order| && c.order[p] == Slot(key, epoch);
    assert StillAt(c, d, p, n);
  }

  /** With room for four more entries, a call remembers what its head leg went by. */
  lemma CallRemembers(world: World, min: Positive, c: Memo, maxEntries: nat, w: RuleWallet, head: nat)
    requires WellKept(c, maxEntries) && |c.order| + 4 <= maxEntries
    ensures Remembered(world, Current(c, head), AfterCall(world, min, c, maxEntries, w, head), maxEntries, Head, Epoch(head), head, w.address)
  {
    var current, address, key := Current(c, head), w.address, BalanceKey(Head, w.address);
    var scored := AfterLeg(world, current, maxEntries, Head, Epoch(head), head, [address]);
    var fallen := AfterLeg(world, scored, maxEntries, Pinned, w.sampleBlock, w.sampleBlock, [address]);
    var lock, locked := Recall(world, current, Key(Head, Lock), Epoch(head), head), AfterLock(world, current, maxEntries, Head, Epoch(head), head);
    PurgedWellKept(c, Epoch(head), IsHead, maxEntries);
    PurgedShorter(c, Epoch(head), IsHead);
    LegRemembers(world, current, maxEntries, Head, Epoch(head), head, address);
    LegLeaves(world, current, maxEntries, Head, Epoch(head), head, [address]);
    LegLeaves(world, scored, maxEntries, Pinned, w.sampleBlock, w.sampleBlock, [address]);
    StillRemembers(scored, fallen, Key(Head, Lock), Epoch(head), lock, 2, maxEntries);
    if lock == 1 {
      StillRemembers(scored, fallen, key, Epoch(head), Recall(world, locked, key, Epoch(head), head), 2, maxEntries);
    }
  }

  // ---- when the answers are the batch's ----

  /** A head entry of this window that the head no longer bears out. */
  predicate Stale(world: World, c: Memo, head: nat, s: Slot<Key>) {
    s.key.leg == Head && s.epoch == Epoch(head) && s in c.byKey && c.byKey[s] != Truth(world, s.key.fact, head)
  }

  /** Every head entry that `n` more entries can push out agrees with the head. */
  ghost predicate StaleOutlasts(world: World, c: Memo, n: nat, maxEntries: nat, head: nat) {
    forall p: nat | p < |c.order| && Stale(world, c, head, c.order[p]) :: |c.order| - p + n <= maxEntries
  }

  /** What is looked up is the same, whatever calls have come between, if no stale entry has been pushed out. */
  lemma SameRecall(world: World, c: Memo, d: Memo, m: nat, n: nat, maxEntries: nat, head: nat, fact: Fact)
    requires WellKept(c, maxEntries) && HeadFresh(world, c, d, head) && Outlasts(c, d, m, maxEntries)
    requires StaleOutlasts(world, c, n, maxEntries, head) && m <= n
    ensures Recall(world, d, Key(Head, fact), Epoch(head), head) == Recall(world, c, Key(Head, fact), Epoch(head), head)
  {
    var s := Slot(Key(Head, fact), Epoch(head));
    if Stale(world, c, head, s) {
      assert s in c.order;
      var p: nat :| p < |c.order| && c.order[p] == s;
      assert StillAt(c, d, p, m);
    }
  }

  lemma LockedLeaves(world: World, c: Memo, d: Memo, n: nat, maxEntries: nat, head: nat)
    requires WellKept(d, maxEntries) && HeadFresh(world, c, d, head) && Outlasts(c, d, n, maxEntries)
    ensures var locked := AfterLock(world, d, maxEntries, Head, Epoch(head), head);
            HeadFresh(world, c, locked, head) && Outlasts(c, locked, n + 1, maxEntries)
  {
    LockLeaves(world, d, maxEntries, Head, Epoch(head), head);
    OutlastsOn(c, d, AfterLock(world, d, maxEntries, Head, Epoch(head), head), n, 1, maxEntries);
  }

  lemma SameUse(world: World, first: Memo, c: Memo, m: nat, n: nat, maxEntries: nat, w: RuleWallet, head: nat)
    requires WellKept(first, maxEntries) && WellKept(c, maxEntries)
    requires HeadFresh(world, Current(first, head), Current(c, head), head)
    requires Outlasts(Current(first, head), Current(c, head), m, maxEntries) && m < n
    requires StaleOutlasts(world, Current(first, head), n, maxEntries, head)
    ensures LockUsed(world, c, head) == LockUsed(world, first, head)
    ensures BalanceUsed(world, c, maxEntries, w, head) == BalanceUsed(world, first, maxEntries, w, head)
  {
    var p, q, balance := Current(first, head), Current(c, head), BalanceOf(ToLower(w.address));
    PurgedWellKept(first, Epoch(head), IsHead, maxEntries);
    PurgedWellKept(c, Epoch(head), IsHead, maxEntries);
    SameRecall(world, p, q, m, n, maxEntries, head, Lock);
    LockedLeaves(world, p, q, m, maxEntries, head);
    SameRecall(world, p, AfterLock(world, q, maxEntries, Head, Epoch(head), head), m + 1, n, maxEntries, head, balance);
    PutAllOutlasts(p, [], 0, [], maxEntries);
    LockedLeaves(world, p, p, 0, maxEntries, head);
    SameRecall(world, p, AfterLock(world, p, maxEntries, Head, Epoch(head), head), 1, n, maxEntries, head, balance);
  }

  /** Two memos answer a wallet alike: by the declaration and the balance that the call finds in each. */
  predicate AnswerAlike(world: World, min: Positive, c: Memo, d: Memo, maxEntries: nat, w: RuleWallet, head: nat) {
    var lock, balance := LockUsed(world, c, head), BalanceUsed(world, c, maxEntries, w, head);
    var lock', balance' := LockUsed(world, d, head), BalanceUsed(world, d, maxEntries, w, head);
    var lockThen, balanceThen := Truth(world, Lock, w.sampleBlock), world.balance(ToLower(w.address), w.sampleBlock);
    if Admits(lock, balance, min) then
      if Admits(lock', balance', min) then balance == balance' else Admits(lockThen, balanceThen, min) && balance == balanceThen
    else
      Admits(lock', balance', min) ==> Admits(lockThen, balanceThen, min) && balance' == balanceThen
  }

  lemma SameAnswerExactly(world: World, min: Positive, c: Memo, d: Memo, maxEntries: nat, w: RuleWallet, head: nat)
    ensures AnswerFrom(world, min, c, maxEntries, w, head) == AnswerFrom(world, min, d, maxEntries, w, head)
            <==> AnswerAlike(world, min, c, d, maxEntries, w, head)
  {
  }

  /** What mapping the single rule over the wallets answers: each from what the calls before it left. */
  function Mapped(world: World, min: Positive, c: Memo, maxEntries: nat, wallets: seq<RuleWallet>, head: nat): seq<RuleResult> {
    seq(|wallets|, i requires 0 <= i < |wallets| =>
      AnswerFrom(world, min, AfterCalls(world, min, c, maxEntries, wallets[..i], head), maxEntries, wallets[i], head))
  }

  /** What the batch answers: each from the cache as it was. */
  function Batched(world: World, min: Positive, c: Memo, maxEntries: nat, wallets: seq<RuleWallet>, head: nat): seq<RuleResult> {
    seq(|wallets|, i requires 0 <= i < |wallets| => AnswerFrom(world, min, c, maxEntries, wallets[i], head))
  }

  predicate FindsAlike(world: World, min: Positive, c: Memo, maxEntries: nat, wallets: seq<RuleWallet>, head: nat, i: nat)
    requires i < |wallets|
  {
    AnswerAlike(world, min, AfterCalls(world, min, c, maxEntries, wallets[..i], head), c, maxEntries, wallets[i], head)
  }

  /**
   Main result on mapping, for any cache, full or not: it equals the batch if and only if each call finds a
   declaration and a balance that decide as those at the start do; and so it does whenever every head entry
   that the calls can push out agrees with the head.
   */
  lemma MappingIsTheBatchExactly(world: World, min: Positive, c: Memo, maxEntries: nat, wallets: seq<RuleWallet>, head: nat)
    requires WellKept(c, maxEntries)
    ensures Mapped(world, min, c, maxEntries, wallets, head) == Batched(world, min, c, maxEntries, wallets, head)
            <==> forall i: nat | i < |wallets| :: FindsAlike(world, min, c, maxEntries, wallets, head, i)
    ensures StaleOutlasts(world, Current(c, head), 4 * |wallets|, maxEntries, head) ==>
              Mapped(world, min, c, maxEntries, wallets, head) == Batched(world, min, c, maxEntries, wallets, head)
  {
    var mapped, batched := Mapped(world, min, c, maxEntries, wallets, head), Batched(world, min, c, maxEntries, wallets, head);
    forall i: nat | i < |wallets|
      ensures mapped[i] == batched[i] <==> FindsAlike(world, min, c, maxEntries, wallets, head, i)
      ensures StaleOutlasts(world, Current(c, head), 4 * |wallets|, maxEntries, head) ==> mapped[i] == batched[i]
    {
      var d := AfterCalls(world, min, c, maxEntries, wallets[..i], head);
      SameAnswerExactly(world, min, d, c, maxEntries, wallets[i], head);
      if StaleOutlasts(world, Current(c, head), 4 * |wallets|, maxEntries, head) {
        CallsLeave(world, min, c, maxEntries, wallets[..i], head);
        SameUse(world, c, d, 4 * i, 4 * |wallets|, maxEntries, wallets[i], head);
      }
    }
    if forall i: nat | i < |wallets| :: FindsAlike(world, min, c, maxEntries, wallets, head, i) {
      assert mapped == batched;
    }
  }

  /** The answers, and what is left, of one call more. */
  lemma MapsOn(world: World, min: Positive, c: Memo, maxEntries: nat, wallets: seq<RuleWallet>, w: RuleWallet, head: nat)
    ensures var d := AfterCalls(world, min, c, maxEntries, wallets, head);
            && AfterCalls(world, min, c, maxEntries, wallets + [w], head) == AfterCall(world, min, d, maxEntries, w, head)
            && Mapped(world, min, c, maxEntries, wallets + [w], head)
               == Mapped(world, min, c, maxEntries, wallets, head) + [AnswerFrom(world, min, d, maxEntries, w, head)]
  {
    var all := wallets + [w];
    assert all[..|wallets|] == wallets;
    assert forall i | 0 <= i < |wallets| :: all[..i] == wallets[..i];
  }

  // ---- when they are not ----

  /** A full cache with nothing to purge, about to forget the declaration and then a stale balance of `b`. */
  predicate AboutToForget(world: World, min: Positive, c: Memo, maxEntries: nat, b: RuleWallet, head: nat) {
    && |c.order| == maxEntries >= 2 && Current(c, head) == c
    && c.order[0] == Slot(Key(Head, Lock), Epoch(head)) && Remembers(c, Key(Head, Lock), Epoch(head), 1)
    && c.order[1] == Slot(BalanceKey(Head, b.address), Epoch(head)) && c.order[1] in c.byKey && c.byKey[c.order[1]] < min
  }

  /** Admitted by the head now. */
  predicate AdmittedAt(world: World, min: Positive, w: RuleWallet, head: nat) {
    world.declares(head) && world.balance(ToLower(w.address), head) >= min
  }

  /** A call for another wallet pushes out the declaration; reading that again pushes out the stale balance. */
  lemma ForgottenInBetween(world: World, min: Positive, c: Memo, maxEntries: nat, a: RuleWallet, b: RuleWallet, head: nat)
    requires WellKept(c, maxEntries) && AboutToForget(world, min, c, maxEntries, b, head)
    requires Slot(BalanceKey(Head, a.address), Epoch(head)) !in c.byKey
    requires AdmittedAt(world, min, a, head) && AdmittedAt(world, min, b, head) && PinnedLeg(world, min, b).Short?
    ensures AnswerFrom(world, min, AfterCall(world, min, c, maxEntries, a, head), maxEntries, b, head).Qualifies?
    ensures AnswerFrom(world, min, c, maxEntries, b, head).Fails?
  {
    var d := AfterCall(world, min, c, maxEntries, a, head);
    var key := Slot(BalanceKey(Head, a.address), Epoch(head));
    OneBalance(world, c, maxEntries, Head, Epoch(head), head, a.address);
    assert AfterLock(world, c, maxEntries, Head, Epoch(head), head) == c;
    assert LegFrom(world, min, c, maxEntries, Head, Epoch(head), head, a.address).Scored?;
    assert d == Put(c, key, Truth(world, key.key.fact, head), maxEntries);
    CallLeaves(world, min, c, maxEntries, a, head);
    NothingToPurge(world, c, d, maxEntries, head);
    assert d.order[0] == c.order[1];
    assert Slot(Key(Head, Lock), Epoch(head)) !in d.byKey;
    assert Slot(BalanceKey(Head, b.address), Epoch(head)) !in AfterLock(world, d, maxEntries, Head, Epoch(head), head).byKey;
  }
}
