/** The two token gate rules, scored one wallet at a time and in batches through a cache. */
module GateRules {
  import opened Wrappers
  import opened Bundles
  import opened RuleCaches

  const HEAD_EPOCH_BLOCKS := 30

  datatype RuleWallet = RuleWallet(address: string, sampleBlock: nat)

  /** The gate contract on the chain, by block; a block that cannot be read fails every read at it. */
  datatype World = World(
    balance: (string, nat) -> nat,
    declares: nat -> bool,
    reachable: nat -> bool)

  datatype Why = Undeclared | HoldsNone | HoldsTooFew(balance: nat, min: Positive)

  /** One block's view of a wallet. */
  datatype Leg = Scored(score: nat) | Short(why: Why)

  datatype RuleResult = Qualifies(score: nat) | Fails(why: Why, penalize: Option<bool>)

  function ScoreOf(balance: nat, min: Positive): nat {
    if balance >= min then balance else 0
  }

  function Shortfall(balance: nat, min: Positive): Why {
    if balance == 0 then HoldsNone else HoldsTooFew(balance, min)
  }

  function LegOf(declares: bool, balance: nat, min: Positive): Leg {
    if !declares then Short(Undeclared)
    else if ScoreOf(balance, min) > 0 then Scored(ScoreOf(balance, min))
    else Short(Shortfall(balance, min))
  }

  // ---- the rules for one wallet ----

  /** `erc721-min-balance`: the ballot's own block decides, and a failure can be blamed. */
  function PinnedRule(world: World, min: Positive, w: RuleWallet): RuleResult {
    var balance := world.balance(ToLower(w.address), w.sampleBlock);
    if ScoreOf(balance, min) > 0 then Qualifies(ScoreOf(balance, min)) else Fails(Shortfall(balance, min), None)
  }

  function LegAt(world: World, min: Positive, address: string, lockBlock: nat, balanceBlock: nat): Leg {
    LegOf(world.declares(lockBlock), world.balance(ToLower(address), balanceBlock), min)
  }

  /** `erc5192-min-balance`: the head decides, and failing that the ballot's own block; nobody is blamed. */
  function HeadRule(world: World, min: Positive, w: RuleWallet, lockBlock: nat, balanceBlock: nat): RuleResult {
    var head := LegAt(world, min, w.address, lockBlock, balanceBlock);
    if head.Scored? then Qualifies(head.score)
    else
      var pinned := LegAt(world, min, w.address, w.sampleBlock, w.sampleBlock);
      if pinned.Scored? then Qualifies(pinned.score) else Fails(pinned.why, Some(false))
  }

  /** Holding enough at the ballot's own block qualifies, with the whole balance; a failure says what was short, and may be blamed. */
  lemma PinnedRuleMeans(world: World, min: Positive, w: RuleWallet)
    ensures var balance, result := world.balance(ToLower(w.address), w.sampleBlock), PinnedRule(world, min, w);
            && (balance >= min ==> result == Qualifies(balance))
            && (balance == 0 ==> result == Fails(HoldsNone, None))
            && (0 < balance < min ==> result == Fails(HoldsTooFew(balance, min), None))
  {
  }

  /**
   Declared and held at the head qualifies; else declared and held at the ballot's own block does. A failure is
   blamed on nobody, and gives the ballot's own block's reason: undeclared there, nothing held there, or too few.
   */
  lemma HeadRuleMeans(world: World, min: Positive, w: RuleWallet, lockBlock: nat, balanceBlock: nat)
    ensures var now, own := world.balance(ToLower(w.address), balanceBlock), world.balance(ToLower(w.address), w.sampleBlock);
            var result := HeadRule(world, min, w, lockBlock, balanceBlock);
            && (world.declares(lockBlock) && now >= min ==> result == Qualifies(now))
            && (!(world.declares(lockBlock) && now >= min) ==>
                  && (world.declares(w.sampleBlock) && own >= min ==> result == Qualifies(own))
                  && (!world.declares(w.sampleBlock) ==> result == Fails(Undeclared, Some(false)))
                  && (world.declares(w.sampleBlock) && own == 0 ==> result == Fails(HoldsNone, Some(false)))
                  && (world.declares(w.sampleBlock) && 0 < own < min ==> result == Fails(HoldsTooFew(own, min), Some(false))))
  {
  }

  // ---- what the cache may hold ----

  datatype LegKind = Head | Pinned

  datatype Fact = Lock | BalanceOf(wallet: string)

  datatype Key = Key(leg: LegKind, fact: Fact)

  function Epoch(head: nat): nat {
    head / HEAD_EPOCH_BLOCKS * HEAD_EPOCH_BLOCKS
  }

  /** Two heads share their memo exactly if they are in one window of 30 blocks. */
  lemma EpochMeans(a: nat, b: nat)
    ensures Epoch(a) == Epoch(b) <==> a / 30 == b / 30
    ensures Epoch(a) <= a < Epoch(a) + 30
  {
  }

  /** The blocks an entry of this epoch may have been read at: the head's window, or the pinned block itself. */
  predicate Within(leg: LegKind, epoch: nat, block: nat) {
    if leg == Head then Epoch(block) == epoch else block == epoch
  }

  function Truth(world: World, fact: Fact, block: nat): nat {
    match fact
    case Lock => if world.declares(block) then 1 else 0
    case BalanceOf(wallet) => world.balance(wallet, block)
  }

  ghost predicate ReadWithin(world: World, leg: LegKind, epoch: nat, fact: Fact, value: nat) {
    exists block: nat :: Within(leg, epoch, block) && value == Truth(world, fact, block)
  }

  /** Every entry is what the chain answered at some block its epoch allows. */
  ghost predicate Sound(world: World, stored: map<Slot<Key>, nat>) {
    forall s <- stored :: ReadWithin(world, s.key.leg, s.epoch, s.key.fact, stored[s])
  }

  /** A memoised head answer was read at most 29 blocks from the current head. */
  lemma HeadAnswersAreRecent(world: World, stored: map<Slot<Key>, nat>, head: nat, fact: Fact)
    requires Sound(world, stored) && Slot(Key(Head, fact), Epoch(head)) in stored
    ensures exists block: nat :: stored[Slot(Key(Head, fact), Epoch(head))] == Truth(world, fact, block) && -29 <= block - head <= 29
  {
    var s := Slot(Key(Head, fact), Epoch(head));
    var block: nat :| Within(Head, s.epoch, block) && stored[s] == Truth(world, fact, block);
    assert Epoch(block) == Epoch(head);
    assert -29 <= block - head <= 29;
  }

  // ---- a leg, batched and memoised ----

  function Facts(leg: LegKind, wallets: seq<string>): seq<Key> {
    seq(|wallets|, i requires 0 <= i < |wallets| => Key(leg, BalanceOf(ToLower(wallets[i]))))
  }

  /** The chain answers every key asked for, at one block, or none. */
  function ReadAt(world: World, block: nat): Reader<Key, nat> {
    (keys: seq<Key>) =>
      if world.reachable(block) then Some(seq(|keys|, i requires 0 <= i < |keys| => Truth(world, keys[i].fact, block))) else None
  }

  lemma AnsweredTruly(world: World, leg: LegKind, epoch: nat, block: nat, key: Key, value: nat,
                      stored: map<Slot<Key>, nat>, asked: seq<Key>)
    requires Sound(world, stored) && Within(leg, epoch, block) && key.leg == leg
    requires Answers(ReadAt(world, block), asked) && ValueAt(key, value, epoch, stored, asked, ReadAt(world, block))
    ensures ReadWithin(world, leg, epoch, key.fact, value)
    ensures Slot(key, epoch) !in stored ==> value == Truth(world, key.fact, block)
  {
    if Slot(key, epoch) in stored {
      assert ReadWithin(world, leg, epoch, key.fact, stored[Slot(key, epoch)]);
    }
  }

  lemma GrewSoundly(world: World, leg: LegKind, epoch: nat, block: nat, before: map<Slot<Key>, nat>, after: map<Slot<Key>, nat>, asked: seq<Key>)
    requires Sound(world, before) && Within(leg, epoch, block) && forall k <- asked :: k.leg == leg
    requires Answers(ReadAt(world, block), asked) && Grew(before, after, epoch, asked, ReadAt(world, block))
    ensures Sound(world, after)
  {
    forall s <- after ensures ReadWithin(world, s.key.leg, s.epoch, s.key.fact, after[s]) {
      if s !in before {
        var m :| 0 <= m < |asked| && asked[m] == s.key && after[s] == ReadAt(world, block)(asked).value[m];
        assert s.key in asked && after[s] == Truth(world, s.key.fact, block);
      }
    }
  }

  /** What one leg answers a wallet: from a balance read within the epoch, given the contract's declaration. */
  ghost predicate LegAnswer(world: World, min: Positive, leg: LegKind, epoch: nat, lockBlock: nat, address: string, answer: Leg) {
    exists block: nat :: Within(leg, epoch, block) && answer == LegAt(world, min, address, lockBlock, block)
  }

  predicate NothingStored(stored: map<Slot<Key>, nat>, leg: LegKind, epoch: nat) {
    forall s <- stored :: !(s.key.leg == leg && s.epoch == epoch)
  }

  ghost predicate LegsAnswer(world: World, min: Positive, leg: LegKind, epoch: nat, lockBlock: nat, wallets: seq<string>, legs: seq<Leg>) {
    && |legs| == |wallets|
    && (forall i :: 0 <= i < |wallets| ==> LegAnswer(world, min, leg, epoch, lockBlock, wallets[i], legs[i]))
  }

  // ---- what a call answers, from what the cache holds ----

  type Memo = Contents<Key, nat>

  /** The stored value where there is one, what the chain says at `block` where there is none. */
  function Recall(world: World, c: Memo, key: Key, epoch: nat, block: nat): nat {
    if Slot(key, epoch) in c.byKey then c.byKey[Slot(key, epoch)] else Truth(world, key.fact, block)
  }

  /** The cache once the contract's declaration has been looked up: a full one has forgotten its oldest entry. */
  function AfterLock(world: World, c: Memo, maxEntries: nat, leg: LegKind, epoch: nat, block: nat): Memo {
    var key := Key(leg, Lock);
    Put(c, Slot(key, epoch), Recall(world, c, key, epoch, block), maxEntries)
  }

  function LegFrom(world: World, min: Positive, c: Memo, maxEntries: nat, leg: LegKind, epoch: nat, block: nat, address: string): Leg {
    var locked := AfterLock(world, c, maxEntries, leg, epoch, block);
    LegOf(Recall(world, c, Key(leg, Lock), epoch, block) == 1,
          Recall(world, locked, Key(leg, BalanceOf(ToLower(address))), epoch, block), min)
  }

  predicate IsHead(k: Key) {
    k.leg == Head
  }

  function Current(c: Memo, head: nat): Memo {
    Purged(c, Epoch(head), IsHead)
  }

  function PinnedLeg(world: World, min: Positive, w: RuleWallet): Leg {
    LegAt(world, min, w.address, w.sampleBlock, w.sampleBlock)
  }

  function ResultOf(leg: Leg): RuleResult {
    if leg.Scored? then Qualifies(leg.score) else Fails(leg.why, Some(false))
  }

  /** The head leg where it admits, the ballot's own block elsewhere. */
  function Settled(world: World, min: Positive, w: RuleWallet, head: Leg): Leg {
    if head.Scored? then head else PinnedLeg(world, min, w)
  }

  /** What a call at `head` answers a wallet when the cache holds `c`. */
  function AnswerFrom(world: World, min: Positive, c: Memo, maxEntries: nat, w: RuleWallet, head: nat): RuleResult {
    ResultOf(Settled(world, min, w, LegFrom(world, min, Current(c, head), maxEntries, Head, Epoch(head), head, w.address)))
  }

  function Truths(world: World, keys: seq<Key>, block: nat): seq<nat> {
    seq(|keys|, i requires 0 <= i < |keys| => Truth(world, keys[i].fact, block))
  }

  /** The cache once the balances have been looked up as well. */
  function AfterBalances(world: World, c: Memo, maxEntries: nat, leg: LegKind, epoch: nat, block: nat, wallets: seq<string>): Memo {
    var asked := Missing(FirstSeen(Facts(leg, wallets)), epoch, c.byKey);
    PutAll(c, asked, epoch, Truths(world, asked, block), maxEntries)
  }

  function AfterLeg(world: World, c: Memo, maxEntries: nat, leg: LegKind, epoch: nat, block: nat, wallets: seq<string>): Memo {
    var locked := AfterLock(world, c, maxEntries, leg, epoch, block);
    if wallets == [] then c
    else if Recall(world, c, Key(leg, Lock), epoch, block) != 1 then locked
    else AfterBalances(world, locked, maxEntries, leg, epoch, block, wallets)
  }

  /** The cache after a call for one wallet: the head leg, and the ballot's own block if the head refused. */
  function AfterCall(world: World, min: Positive, c: Memo, maxEntries: nat, w: RuleWallet, head: nat): Memo {
    var scored := AfterLeg(world, Current(c, head), maxEntries, Head, Epoch(head), head, [w.address]);
    if LegFrom(world, min, Current(c, head), maxEntries, Head, Epoch(head), head, w.address).Scored? then scored
    else AfterLeg(world, scored, maxEntries, Pinned, w.sampleBlock, w.sampleBlock, [w.address])
  }

  /** One call after another, each on what the one before it left. */
  function InTurn(c: Memo, wallets: seq<RuleWallet>, call: (Memo, RuleWallet) -> Memo): Memo {
    if wallets == [] then c
    else
      var n := |wallets| - 1;
      call(InTurn(c, wallets[..n], call), wallets[n])
  }

  function AfterCalls(world: World, min: Positive, c: Memo, maxEntries: nat, wallets: seq<RuleWallet>, head: nat): Memo {
    InTurn(c, wallets, (m: Memo, w: RuleWallet) => AfterCall(world, min, m, maxEntries, w, head))
  }

  /** The declaration and the balance such a call goes by. */
  function LockUsed(world: World, c: Memo, head: nat): nat {
    Recall(world, Current(c, head), Key(Head, Lock), Epoch(head), head)
  }

  function BalanceUsed(world: World, c: Memo, maxEntries: nat, w: RuleWallet, head: nat): nat {
    Recall(world, AfterLock(world, Current(c, head), maxEntries, Head, Epoch(head), head),
           Key(Head, BalanceOf(ToLower(w.address))), Epoch(head), head)
  }

  predicate Admits(lock: nat, balance: nat, min: Positive) {
    lock == 1 && balance >= min
  }

  /**
   A memoised answer is the head's own exactly if: both admit, with the same balance; or neither admits; or
   one admits, with the very balance that the ballot's own block admits as well.
   */
  lemma MemoisedAnswerExactly(world: World, min: Positive, c: Memo, maxEntries: nat, w: RuleWallet, head: nat)
    ensures var lock, balance := LockUsed(world, c, head), BalanceUsed(world, c, maxEntries, w, head);
            var lockNow, balanceNow := Truth(world, Lock, head), world.balance(ToLower(w.address), head);
            var lockThen, balanceThen := Truth(world, Lock, w.sampleBlock), world.balance(ToLower(w.address), w.sampleBlock);
            AnswerFrom(world, min, c, maxEntries, w, head) == HeadRule(world, min, w, head, head)
            <==>
            if Admits(lock, balance, min) then
              if Admits(lockNow, balanceNow, min) then balance == balanceNow
              else Admits(lockThen, balanceThen, min) && balance == balanceThen
            else
              Admits(lockNow, balanceNow, min) ==> Admits(lockThen, balanceThen, min) && balanceNow == balanceThen
  {
  }

  /** Every entry was there before, or was read for this leg, in this epoch, at `block`. */
  ghost predicate ReadFresh(world: World, was: Memo, now: Memo, leg: LegKind, epoch: nat, block: nat) {
    forall s <- now.byKey ::
      || (s in was.byKey && now.byKey[s] == was.byKey[s])
      || (s.key.leg == leg && s.epoch == epoch && now.byKey[s] == Truth(world, s.key.fact, block))
  }

  lemma GrewIsFresh(world: World, was: Memo, now: Memo, leg: LegKind, epoch: nat, block: nat, asked: seq<Key>)
    requires (forall k <- asked :: k.leg == leg) && Answers(ReadAt(world, block), asked)
    requires Grew(was.byKey, now.byKey, epoch, asked, ReadAt(world, block))
    ensures ReadFresh(world, was, now, leg, epoch, block)
  {
    forall s <- now.byKey | s !in was.byKey
      ensures s.key.leg == leg && s.epoch == epoch && now.byKey[s] == Truth(world, s.key.fact, block)
    {
      var m :| 0 <= m < |asked| && asked[m] == s.key && now.byKey[s] == ReadAt(world, block)(asked).value[m];
      assert s.key in asked;
    }
  }

  /** The head's entries after a call: those that were current, and what it read at the head. */
  ghost predicate HeadFresh(world: World, was: Memo, now: Memo, head: nat) {
    forall s <- now.byKey ::
      || (s in was.byKey && now.byKey[s] == was.byKey[s])
      || s.key.leg == Pinned
      || (s.epoch == Epoch(head) && now.byKey[s] == Truth(world, s.key.fact, head))
  }

  /** What a call purges first: the head's entries of earlier windows, and no pinned one. */
  lemma CurrentKeeps(c: Memo, head: nat)
    ensures forall s :: s in Current(c, head).byKey <==> s in c.byKey && !(IsHead(s.key) && s.epoch < Epoch(head))
    ensures forall s <- Current(c, head).byKey :: Current(c, head).byKey[s] == c.byKey[s]
    ensures forall s :: s in Current(c, head).byKey <==> s in c.byKey && (s.key.leg == Pinned || s.epoch >= head / 30 * 30)
    ensures |Current(c, head).order| <= |c.order|
  {
    PurgedShorter(c, Epoch(head), IsHead);
  }

  lemma NothingStoredAnswersTheHead(world: World, min: Positive, c: Memo, maxEntries: nat, w: RuleWallet, head: nat)
    requires NothingStored(c.byKey, Head, Epoch(head))
    ensures AnswerFrom(world, min, c, maxEntries, w, head) == HeadRule(world, min, w, head, head)
  {
  }
}
