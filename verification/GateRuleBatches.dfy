/** The batched forms of the gate rules, as they run, against the rules for one wallet. */
module GateRuleBatches {
  import opened Wrappers
  import opened Bundles
  import opened RuleCaches
  import opened Sequences
  import opened GateRules
  import opened GateRuleMapping

  predicate SameForDuplicates(wallets: seq<string>, legs: seq<Leg>)
    requires |legs| == |wallets|
  {
    forall i, j :: 0 <= i < |wallets| && 0 <= j < |wallets| && ToLower(wallets[i]) == ToLower(wallets[j]) ==> legs[i] == legs[j]
  }

  /** Score wallets at one block, through the cache: the contract's declaration first, then the balances. */
  method ScoreAt(world: World, min: Positive, wallets: seq<string>, block: nat, epoch: nat, leg: LegKind, cache: RuleCache<Key, nat>)
    returns (legs: Option<seq<Leg>>, ghost lockBlock: nat)
    requires cache.Valid() && Sound(world, cache.byKey) && Within(leg, epoch, block)
    modifies cache
    ensures cache.Valid() && Sound(world, cache.byKey)
    ensures forall s <- cache.byKey :: s in old(cache.byKey) || (s.key.leg == leg && s.epoch == epoch)
    ensures Within(leg, epoch, lockBlock)
    ensures legs.Some? ==> LegsAnswer(world, min, leg, epoch, lockBlock, wallets, legs.value) && SameForDuplicates(wallets, legs.value)
    ensures legs.None? ==> !world.reachable(block)
    ensures legs.Some? && NothingStored(old(cache.byKey), leg, epoch)
            ==> forall i :: 0 <= i < |wallets| ==> legs.value[i] == LegAt(world, min, wallets[i], block, block)
    ensures legs.Some? ==> |legs.value| == |wallets| && forall i :: 0 <= i < |wallets| ==>
              legs.value[i] == LegFrom(world, min, old(cache.Held()), cache.maxEntries, leg, epoch, block, wallets[i])
    ensures ReadFresh(world, old(cache.Held()), cache.Held(), leg, epoch, block)
    ensures legs.Some? ==> cache.Held() == AfterLeg(world, old(cache.Held()), cache.maxEntries, leg, epoch, block, wallets)
  {
    lockBlock := block;
    if |wallets| == 0 { return Some([]), block; }
    var declared: Option<bool>;
    ghost var probes;
    declared, lockBlock, probes := Declared(world, block, epoch, leg, cache);
    if declared.None? { return None, lockBlock; }
    if !declared.value {
      legs := Some(seq(|wallets|, _ => Short(Undeclared)));
      NobodyQualifies(world, min, leg, epoch, lockBlock, block, wallets);
      return;
    }
    legs := ScoreBalances(world, min, wallets, block, epoch, leg, cache, lockBlock);
  }

  /** Whether the contract declares its tokens locked: one probe, memoised per contract. */
  method Declared(world: World, block: nat, epoch: nat, leg: LegKind, cache: RuleCache<Key, nat>)
    returns (declared: Option<bool>, ghost lockBlock: nat, ghost probes: seq<seq<Key>>)
    requires cache.Valid() && Sound(world, cache.byKey) && Within(leg, epoch, block)
    modifies cache
    ensures cache.Valid() && Sound(world, cache.byKey)
    ensures forall s <- cache.byKey :: s in old(cache.byKey) || s == Slot(Key(leg, Lock), epoch)
    ensures Within(leg, epoch, lockBlock) && (declared.Some? ==> declared.value == world.declares(lockBlock))
    ensures Slot(Key(leg, Lock), epoch) !in old(cache.byKey) ==> lockBlock == block
    ensures declared.None? ==> !world.reachable(block)
    ensures declared.None? ==> cache.Held() == old(cache.Held())
    ensures probes == if Slot(Key(leg, Lock), epoch) in old(cache.byKey) then [] else [[Key(leg, Lock)]]
    ensures ReadFresh(world, old(cache.Held()), cache.Held(), leg, epoch, block)
    ensures declared.Some? ==> declared.value == (Recall(world, old(cache.Held()), Key(leg, Lock), epoch, block) == 1)
    ensures declared.Some? ==> cache.Held() == AfterLock(world, old(cache.Held()), cache.maxEntries, leg, epoch, block)
  {
    var lock := [Key(leg, Lock)];
    ghost var was := cache.Held();
    OneKey(was, lock[0], epoch, Truth(world, Lock, block), cache.maxEntries);
    var values;
    values, probes := cache.MemoMany(lock, epoch, ReadAt(world, block));
    if values.None? { return None, block, probes; }
    lockBlock := LockLookedUp(world, was, cache.Held(), values.value[0], cache.maxEntries, leg, epoch, block);
    declared := Some(values.value[0] == 1);
  }

  /** What looking up the declaration leaves, and where its answer was read. */
  lemma LockLookedUp(world: World, was: Memo, now: Memo, value: nat, maxEntries: nat, leg: LegKind, epoch: nat, block: nat)
    returns (lockBlock: nat)
    requires Sound(world, was.byKey) && Within(leg, epoch, block)
    requires var asked := Missing(FirstSeen([Key(leg, Lock)]), epoch, was.byKey);
             && Answers(ReadAt(world, block), asked) && ValueAt(Key(leg, Lock), value, epoch, was.byKey, asked, ReadAt(world, block))
             && Grew(was.byKey, now.byKey, epoch, asked, ReadAt(world, block))
             && now == if asked == [] then was else PutAll(was, asked, epoch, ReadAt(world, block)(asked).value, maxEntries)
    ensures Within(leg, epoch, lockBlock) && value == Truth(world, Lock, lockBlock)
    ensures Slot(Key(leg, Lock), epoch) !in was.byKey ==> lockBlock == block
    ensures value == Recall(world, was, Key(leg, Lock), epoch, block)
    ensures Sound(world, now.byKey) && ReadFresh(world, was, now, leg, epoch, block)
    ensures now == AfterLock(world, was, maxEntries, leg, epoch, block)
    ensures forall s <- now.byKey :: s in was.byKey || s == Slot(Key(leg, Lock), epoch)
  {
    var key := Key(leg, Lock);
    var asked := Missing(FirstSeen([key]), epoch, was.byKey);
    OneKey(was, key, epoch, Truth(world, Lock, block), maxEntries);
    AnsweredTruly(world, leg, epoch, block, key, value, was.byKey, asked);
    RecallsValue(world, was, key, epoch, block, value, asked);
    assert asked != [] ==> ReadAt(world, block)(asked).value == [Truth(world, Lock, block)];
    GrewSoundly(world, leg, epoch, block, was.byKey, now.byKey, asked);
    GrewIsFresh(world, was, now, leg, epoch, block, asked);
    lockBlock :| Within(leg, epoch, lockBlock) && value == Truth(world, Lock, lockBlock)
                 && (Slot(key, epoch) !in was.byKey ==> lockBlock == block);
  }

  lemma RecallsValue(world: World, c: Memo, key: Key, epoch: nat, block: nat, value: nat, asked: seq<Key>)
    requires Answers(ReadAt(world, block), asked) && ValueAt(key, value, epoch, c.byKey, asked, ReadAt(world, block))
    ensures value == Recall(world, c, key, epoch, block)
  {
  }

  lemma NobodyQualifies(world: World, min: Positive, leg: LegKind, epoch: nat, lockBlock: nat, block: nat, wallets: seq<string>)
    requires !world.declares(lockBlock) && Within(leg, epoch, block)
    ensures LegsAnswer(world, min, leg, epoch, lockBlock, wallets, seq(|wallets|, _ => Short(Undeclared)))
    ensures forall i :: 0 <= i < |wallets| ==> Short(Undeclared) == LegAt(world, min, wallets[i], lockBlock, block)
  {
    forall i | 0 <= i < |wallets| ensures LegAnswer(world, min, leg, epoch, lockBlock, wallets[i], Short(Undeclared)) {
      assert Short(Undeclared) == LegAt(world, min, wallets[i], lockBlock, block);
    }
  }

  lemma AsksOnly(keys: seq<Key>, epoch: nat, stored: map<Slot<Key>, nat>)
    ensures forall k <- Missing(FirstSeen(keys), epoch, stored) :: k in keys && Slot(k, epoch) !in stored
    ensures Distinct(Missing(FirstSeen(keys), epoch, stored))
  {
    FirstSeenElements(keys);
    MissingElements(FirstSeen(keys), epoch, stored);
  }

  lemma BalanceAnswers(world: World, min: Positive, leg: LegKind, epoch: nat, block: nat, lockBlock: nat, address: string,
                       value: nat, stored: map<Slot<Key>, nat>, asked: seq<Key>)
    requires Sound(world, stored) && Within(leg, epoch, block) && world.declares(lockBlock) && Answers(ReadAt(world, block), asked)
    requires ValueAt(Key(leg, BalanceOf(ToLower(address))), value, epoch, stored, asked, ReadAt(world, block))
    ensures LegAnswer(world, min, leg, epoch, lockBlock, address, LegOf(true, value, min))
    ensures Slot(Key(leg, BalanceOf(ToLower(address))), epoch) !in stored
            ==> LegOf(true, value, min) == LegAt(world, min, address, lockBlock, block)
  {
    var fact := BalanceOf(ToLower(address));
    AnsweredTruly(world, leg, epoch, block, Key(leg, fact), value, stored, asked);
    var b: nat :| Within(leg, epoch, b) && value == Truth(world, fact, b);
    assert LegOf(true, value, min) == LegAt(world, min, address, lockBlock, b);
  }

  lemma OneValuePerKey(key: Key, a: nat, b: nat, epoch: nat, stored: map<Slot<Key>, nat>, asked: seq<Key>, read: Reader<Key, nat>)
    requires Distinct(asked) && Answers(read, asked)
    requires ValueAt(key, a, epoch, stored, asked, read) && ValueAt(key, b, epoch, stored, asked, read)
    ensures a == b
  {
  }

  method ScoreBalances(world: World, min: Positive, wallets: seq<string>, block: nat, epoch: nat, leg: LegKind,
                       cache: RuleCache<Key, nat>, ghost lockBlock: nat) returns (legs: Option<seq<Leg>>)
    requires cache.Valid() && Sound(world, cache.byKey) && Within(leg, epoch, block) && world.declares(lockBlock)
    modifies cache
    ensures cache.Valid() && Sound(world, cache.byKey)
    ensures forall s <- cache.byKey :: s in old(cache.byKey) || (s.key.leg == leg && s.epoch == epoch)
    ensures legs.Some? ==> LegsAnswer(world, min, leg, epoch, lockBlock, wallets, legs.value) && SameForDuplicates(wallets, legs.value)
    ensures legs.None? ==> !world.reachable(block)
    ensures legs.Some? ==> FreshBalances(world, min, leg, epoch, lockBlock, block, wallets, old(cache.byKey), legs.value)
    ensures legs.Some? ==> |legs.value| == |wallets| && forall i :: 0 <= i < |wallets| ==>
              legs.value[i] == LegOf(true, Recall(world, old(cache.Held()), BalanceKey(leg, wallets[i]), epoch, block), min)
    ensures ReadFresh(world, old(cache.Held()), cache.Held(), leg, epoch, block)
    ensures legs.Some? ==> cache.Held() == AfterBalances(world, old(cache.Held()), cache.maxEntries, leg, epoch, block, wallets)
  {
    var keys := Facts(leg, wallets);
    ghost var was := cache.Held();
    ghost var before := cache.byKey;
    ghost var asked := Missing(FirstSeen(keys), epoch, before);
    AsksOnly(keys, epoch, before);
    var values, _ := cache.MemoMany(keys, epoch, ReadAt(world, block));
    if values.None? { return None; }
    GrewSoundly(world, leg, epoch, block, before, cache.byKey, asked);
    GrewIsFresh(world, was, cache.Held(), leg, epoch, block, asked);
    BalancesRecalled(world, was, leg, epoch, block, wallets, values.value, asked);
    ReadIsTruths(world, asked, block);
    legs := Some(ScoredAll(values.value, min));
    BalancesAnswer(world, min, leg, epoch, block, lockBlock, wallets, values.value, before, asked);
  }

  lemma ReadIsTruths(world: World, asked: seq<Key>, block: nat)
    requires Answers(ReadAt(world, block), asked)
    ensures asked != [] ==> ReadAt(world, block)(asked) == Some(Truths(world, asked, block))
  {
    if asked != [] {
      assert ReadAt(world, block)(asked).value == Truths(world, asked, block);
    }
  }

  lemma BalancesRecalled(world: World, c: Memo, leg: LegKind, epoch: nat, block: nat, wallets: seq<string>, values: seq<nat>, asked: seq<Key>)
    requires Answers(ReadAt(world, block), asked) && |values| == |wallets|
    requires forall i :: 0 <= i < |wallets| ==> ValueAt(Facts(leg, wallets)[i], values[i], epoch, c.byKey, asked, ReadAt(world, block))
    ensures forall i :: 0 <= i < |wallets| ==> values[i] == Recall(world, c, BalanceKey(leg, wallets[i]), epoch, block)
  {
    forall i | 0 <= i < |wallets| ensures values[i] == Recall(world, c, BalanceKey(leg, wallets[i]), epoch, block) {
      RecallsValue(world, c, Facts(leg, wallets)[i], epoch, block, values[i], asked);
    }
  }

  function ScoredAll(values: seq<nat>, min: Positive): seq<Leg> {
    seq(|values|, i requires 0 <= i < |values| => LegOf(true, values[i], min))
  }

  /** A balance that was not stored is read at the leg's own block. */
  ghost predicate FreshBalances(world: World, min: Positive, leg: LegKind, epoch: nat, lockBlock: nat, block: nat,
                                wallets: seq<string>, stored: map<Slot<Key>, nat>, legs: seq<Leg>)
    requires |legs| == |wallets|
  {
    forall i :: 0 <= i < |wallets| ==>
      Slot(Key(leg, BalanceOf(ToLower(wallets[i]))), epoch) in stored || legs[i] == LegAt(world, min, wallets[i], lockBlock, block)
  }

  lemma BalancesAnswer(world: World, min: Positive, leg: LegKind, epoch: nat, block: nat, lockBlock: nat, wallets: seq<string>,
                       values: seq<nat>, stored: map<Slot<Key>, nat>, asked: seq<Key>)
    requires Sound(world, stored) && Within(leg, epoch, block) && world.declares(lockBlock)
    requires Distinct(asked) && Answers(ReadAt(world, block), asked) && |values| == |wallets|
    requires forall i :: 0 <= i < |wallets| ==> ValueAt(Facts(leg, wallets)[i], values[i], epoch, stored, asked, ReadAt(world, block))
    ensures LegsAnswer(world, min, leg, epoch, lockBlock, wallets, ScoredAll(values, min))
    ensures SameForDuplicates(wallets, ScoredAll(values, min))
    ensures FreshBalances(world, min, leg, epoch, lockBlock, block, wallets, stored, ScoredAll(values, min))
  {
    var keys, legs := Facts(leg, wallets), ScoredAll(values, min);
    forall i | 0 <= i < |wallets|
      ensures LegAnswer(world, min, leg, epoch, lockBlock, wallets[i], legs[i])
      ensures Slot(keys[i], epoch) !in stored ==> legs[i] == LegAt(world, min, wallets[i], lockBlock, block)
    {
      BalanceAnswers(world, min, leg, epoch, block, lockBlock, wallets[i], values[i], stored, asked);
    }
    forall i, j | 0 <= i < |wallets| && 0 <= j < |wallets| && ToLower(wallets[i]) == ToLower(wallets[j]) ensures legs[i] == legs[j] {
      OneValuePerKey(keys[i], values[i], values[j], epoch, stored, asked, ReadAt(world, block));
    }
  }

  // ---- grouping by sample block ----

  ghost predicate Grouped(groups: map<nat, seq<nat>>, wallets: seq<RuleWallet>, chosen: nat -> bool, upTo: nat)
    requires upTo <= |wallets|
  {
    && (forall i: nat :: i < upTo && chosen(i) ==> wallets[i].sampleBlock in groups && i in groups[wallets[i].sampleBlock])
    && (forall b <- groups :: groups[b] != [] && forall i <- groups[b] :: i < upTo && chosen(i) && wallets[i].sampleBlock == b)
    && (forall b <- groups :: Distinct(groups[b]))
  }

  lemma OnlyZero(s: seq<nat>)
    requires forall i :: 0 <= i < |s| ==> s[i] == 0
    ensures Distinct(s) ==> |s| <= 1
  {
    if |s| > 1 {
      assert s[0] == s[1];
    }
  }

  lemma OneWalletOneGroup(groups: map<nat, seq<nat>>, wallets: seq<RuleWallet>, chosen: nat -> bool)
    requires Grouped(groups, wallets, chosen, |wallets|) && |wallets| == 1
    ensures groups.Keys == if chosen(0) then {wallets[0].sampleBlock} else {}
    ensures forall b <- groups :: b == wallets[0].sampleBlock && groups[b] == [0]
  {
    forall b <- groups ensures chosen(0) && b == wallets[0].sampleBlock && groups[b] == [0] {
      assert groups[b][0] in groups[b];
      forall i | 0 <= i < |groups[b]| ensures groups[b][i] == 0 {
        assert groups[b][i] in groups[b];
      }
      OnlyZero(groups[b]);
    }
  }

  method GroupByBlock(wallets: seq<RuleWallet>, chosen: nat -> bool) returns (groups: map<nat, seq<nat>>)
    ensures Grouped(groups, wallets, chosen, |wallets|)
  {
    groups := map[];
    for i := 0 to |wallets|
      invariant Grouped(groups, wallets, chosen, i)
    {
      if chosen(i) {
        var b := wallets[i].sampleBlock;
        groups := groups[b := (if b in groups then groups[b] else []) + [i]];
      }
    }
  }

  lemma GroupHasAWallet(groups: map<nat, seq<nat>>, wallets: seq<RuleWallet>, chosen: nat -> bool, block: nat)
    requires Grouped(groups, wallets, chosen, |wallets|) && block in groups
    ensures exists w <- wallets :: w.sampleBlock == block
  {
    assert groups[block][0] in groups[block];
    assert wallets[groups[block][0]] in wallets;
  }

  function Addresses(wallets: seq<RuleWallet>): seq<string> {
    seq(|wallets|, i requires 0 <= i < |wallets| => wallets[i].address)
  }

  function AddressesAt(wallets: seq<RuleWallet>, indexes: seq<nat>): seq<string>
    requires forall i <- indexes :: i < |wallets|
  {
    seq(|indexes|, k requires 0 <= k < |indexes| => assert indexes[k] in indexes; wallets[indexes[k]].address)
  }

  /** The legs of one group replace those at its positions. */
  method Overwrite(before: seq<Leg>, at: seq<nat>, legs: seq<Leg>, wallets: seq<RuleWallet>, answer: nat -> Leg) returns (after: seq<Leg>)
    requires |at| == |legs| && (forall i <- at :: i < |before|) && forall k :: 0 <= k < |at| ==> legs[k] == answer(at[k])
    ensures |after| == |before|
    ensures forall i :: 0 <= i < |before| ==> after[i] == if i in at then answer(i) else before[i]
  {
    after := before;
    for k := 0 to |at|
      invariant |after| == |before|
      invariant forall i :: 0 <= i < |before| ==> after[i] == if i in at[..k] then answer(i) else before[i]
    {
      assert at[..k + 1] == at[..k] + [at[k]] && at[k] in at;
      after := after[at[k] := legs[k]];
    }
    assert at[..|at|] == at;
  }

  // ---- erc721-min-balance ----

  /** Grouped by sample block, each group read in one batch: the results are the single rule's, in order. */
  method EvaluateManyPinned(world: World, min: Positive, wallets: seq<RuleWallet>) returns (results: Option<seq<RuleResult>>)
    ensures results.Some? <==> forall w <- wallets :: world.reachable(w.sampleBlock)
    ensures results.Some? ==> results.value == seq(|wallets|, i requires 0 <= i < |wallets| => PinnedRule(world, min, wallets[i]))
    ensures results.Some? ==> forall i :: 0 <= i < |wallets| ==>
              var balance := world.balance(ToLower(wallets[i].address), wallets[i].sampleBlock);
              && (results.value[i] == Qualifies(balance) <==> balance >= min)
              && (results.value[i].Fails? <==> balance < min)
              && (results.value[i].Fails? ==> results.value[i].penalize.None?)
  {
    var all := (_: nat) => true;
    var groups := GroupByBlock(wallets, all);
    var answers: seq<Option<RuleResult>> := seq(|wallets|, _ => None);
    var todo := groups.Keys;
    while todo != {}
      invariant todo <= groups.Keys && |answers| == |wallets|
      invariant forall i :: 0 <= i < |wallets| && wallets[i].sampleBlock !in todo ==>
                  world.reachable(wallets[i].sampleBlock) && answers[i] == Some(PinnedRule(world, min, wallets[i]))
      decreases todo
    {
      var block :| block in todo;
      todo := todo - {block};
      if !world.reachable(block) {
        GroupHasAWallet(groups, wallets, all, block);
        return None;
      }
      answers := WritePinned(world, min, wallets, block, groups[block], answers);
    }
    forall w <- wallets ensures world.reachable(w.sampleBlock) {
      var i :| 0 <= i < |wallets| && wallets[i] == w;
    }
    results := Some(seq(|wallets|, i requires 0 <= i < |wallets| && answers[i].Some? => answers[i].value));
  }

  method WritePinned(world: World, min: Positive, wallets: seq<RuleWallet>, block: nat, at: seq<nat>, before: seq<Option<RuleResult>>)
    returns (after: seq<Option<RuleResult>>)
    requires |before| == |wallets| && forall i <- at :: i < |wallets| && wallets[i].sampleBlock == block
    ensures |after| == |wallets|
    ensures forall i :: 0 <= i < |wallets| ==> after[i] == if i in at then Some(PinnedRule(world, min, wallets[i])) else before[i]
  {
    after := before;
    for k := 0 to |at|
      invariant |after| == |wallets|
      invariant forall i :: 0 <= i < |wallets| ==> after[i] == if i in at[..k] then Some(PinnedRule(world, min, wallets[i])) else before[i]
    {
      assert at[..k + 1] == at[..k] + [at[k]] && at[k] in at;
      var balance := world.balance(ToLower(wallets[at[k]].address), block);
      var score := ScoreOf(balance, min);
      after := after[at[k] := Some(if score > 0 then Qualifies(score) else Fails(Shortfall(balance, min), None))];
    }
    assert at[..|at|] == at;
  }

  // ---- erc5192-min-balance ----

  /** Each wallet has the single rule's result, for blocks of the head's window; duplicates have the same one. */
  ghost predicate BatchAnswers(world: World, min: Positive, wallets: seq<RuleWallet>, head: nat, lockBlock: nat, results: seq<RuleResult>) {
    && |results| == |wallets| && Within(Head, Epoch(head), lockBlock)
    && (forall i :: 0 <= i < |wallets| ==> HeadAnswer(world, min, wallets[i], head, lockBlock, results[i]))
    && (forall i, j :: 0 <= i < |wallets| && 0 <= j < |wallets| && SameWallets(wallets[i], wallets[j]) ==> results[i] == results[j])
  }

  predicate SameWallets(a: RuleWallet, b: RuleWallet) {
    ToLower(a.address) == ToLower(b.address) && a.sampleBlock == b.sampleBlock
  }

  ghost predicate HeadAnswer(world: World, min: Positive, w: RuleWallet, head: nat, lockBlock: nat, result: RuleResult) {
    exists block: nat :: Within(Head, Epoch(head), block) && result == HeadRule(world, min, w, lockBlock, block)
  }

  /** What each wallet gets is what the rule answers it from the cache as it was, whatever else is in the batch. */
  ghost predicate AnsweredFrom(world: World, min: Positive, c: Memo, maxEntries: nat, wallets: seq<RuleWallet>, head: nat, results: seq<RuleResult>) {
    |results| == |wallets| && forall i :: 0 <= i < |wallets| ==> results[i] == AnswerFrom(world, min, c, maxEntries, wallets[i], head)
  }

  /** The head leg's answers, those it refused replaced by the pinned leg's. */
  predicate FellBack(world: World, min: Positive, wallets: seq<RuleWallet>, first: seq<Leg>, legs: seq<Leg>) {
    |wallets| == |first| == |legs| && forall i :: 0 <= i < |wallets| ==> legs[i] == Settled(world, min, wallets[i], first[i])
  }

  function ResultsOf(legs: seq<Leg>): seq<RuleResult> {
    seq(|legs|, i requires 0 <= i < |legs| => ResultOf(legs[i]))
  }

  lemma BatchIsAnswered(world: World, min: Positive, wallets: seq<RuleWallet>, head: nat, lockBlock: nat, first: seq<Leg>, legs: seq<Leg>)
    requires |first| == |wallets| && LegsAnswer(world, min, Head, Epoch(head), lockBlock, Addresses(wallets), first)
    requires SameForDuplicates(Addresses(wallets), first) && Within(Head, Epoch(head), lockBlock)
    requires FellBack(world, min, wallets, first, legs)
    ensures BatchAnswers(world, min, wallets, head, lockBlock, ResultsOf(legs))
  {
    forall i | 0 <= i < |wallets| ensures HeadAnswer(world, min, wallets[i], head, lockBlock, ResultsOf(legs)[i]) {
      assert LegAnswer(world, min, Head, Epoch(head), lockBlock, Addresses(wallets)[i], first[i]);
    }
  }

  lemma BatchIsAnsweredFrom(world: World, min: Positive, c: Memo, maxEntries: nat, wallets: seq<RuleWallet>, head: nat, first: seq<Leg>, legs: seq<Leg>)
    requires FellBack(world, min, wallets, first, legs)
    requires forall i :: 0 <= i < |wallets| ==>
               first[i] == LegFrom(world, min, Current(c, head), maxEntries, Head, Epoch(head), head, Addresses(wallets)[i])
    ensures AnsweredFrom(world, min, c, maxEntries, wallets, head, ResultsOf(legs))
    ensures NothingStored(c.byKey, Head, Epoch(head)) ==>
              ResultsOf(legs) == seq(|wallets|, i requires 0 <= i < |wallets| => HeadRule(world, min, wallets[i], head, head))
  {
    forall i | 0 <= i < |wallets|
      ensures ResultsOf(legs)[i] == AnswerFrom(world, min, c, maxEntries, wallets[i], head)
      ensures NothingStored(c.byKey, Head, Epoch(head)) ==> ResultsOf(legs)[i] == HeadRule(world, min, wallets[i], head, head)
    {
      assert Addresses(wallets)[i] == wallets[i].address;
      if NothingStored(c.byKey, Head, Epoch(head)) {
        NothingStoredAnswersTheHead(world, min, c, maxEntries, wallets[i], head);
      }
    }
  }

  ghost predicate OnlyPinned(was: Memo, now: Memo) {
    forall s <- now.byKey :: (s in was.byKey && now.byKey[s] == was.byKey[s]) || s.key.leg == Pinned
  }

  function AfterFallBack(world: World, c: Memo, maxEntries: nat, w: RuleWallet, first: Leg): Memo {
    if first.Scored? then c else AfterLeg(world, c, maxEntries, Pinned, w.sampleBlock, w.sampleBlock, [w.address])
  }

  /** What a whole call leaves of the head's entries, from what its two legs leave. */
  lemma BatchLeaves(world: World, was: Memo, scored: Memo, now: Memo, head: nat)
    requires ReadFresh(world, was, scored, Head, Epoch(head), head) && OnlyPinned(scored, now)
    ensures HeadFresh(world, was, now, head)
  {
  }

  /** One block's group, at that block: what is remembered of a pinned block is what it holds. */
  method ScoreGroup(world: World, min: Positive, wallets: seq<RuleWallet>, indexes: seq<nat>, block: nat, cache: RuleCache<Key, nat>)
    returns (legs: Option<seq<Leg>>)
    requires cache.Valid() && Sound(world, cache.byKey)
    requires forall i <- indexes :: i < |wallets| && wallets[i].sampleBlock == block
    modifies cache
    ensures cache.Valid() && Sound(world, cache.byKey)
    ensures legs.Some? ==> |legs.value| == |indexes|
    ensures legs.Some? ==> forall k :: 0 <= k < |indexes| ==>
              indexes[k] in indexes && legs.value[k] == PinnedLeg(world, min, wallets[indexes[k]])
    ensures legs.Some? ==>
              cache.Held() == AfterLeg(world, old(cache.Held()), cache.maxEntries, Pinned, block, block, AddressesAt(wallets, indexes))
    ensures OnlyPinned(old(cache.Held()), cache.Held())
    ensures legs.None? ==> !world.reachable(block)
  {
    ghost var lockBlock;
    legs, lockBlock := ScoreAt(world, min, AddressesAt(wallets, indexes), block, block, Pinned, cache);
    if legs.Some? {
      forall k | 0 <= k < |indexes|
        ensures indexes[k] in indexes && legs.value[k] == PinnedLeg(world, min, wallets[indexes[k]])
      {
        assert LegAnswer(world, min, Pinned, block, lockBlock, AddressesAt(wallets, indexes)[k], legs.value[k]);
      }
    }
  }

  /** The legs once the blocks in `todo` are all that is left to score again. */
  ghost predicate FallenBack(world: World, min: Positive, wallets: seq<RuleWallet>, first: seq<Leg>, todo: set<nat>, legs: seq<Leg>) {
    && |wallets| == |first| == |legs|
    && forall i :: 0 <= i < |wallets| ==>
         legs[i] == if first[i].Short? && wallets[i].sampleBlock !in todo then PinnedLeg(world, min, wallets[i]) else first[i]
  }

  /** One block's group, in its places. */
  method FallBackAt(world: World, min: Positive, wallets: seq<RuleWallet>, first: seq<Leg>, block: nat, indexes: seq<nat>,
                    ghost todo: set<nat>, before: seq<Leg>, cache: RuleCache<Key, nat>) returns (legs: Option<seq<Leg>>)
    requires cache.Valid() && Sound(world, cache.byKey) && FallenBack(world, min, wallets, first, todo, before) && block in todo
    requires forall i <- indexes :: i < |wallets| && wallets[i].sampleBlock == block && first[i].Short?
    requires forall i: nat :: i < |wallets| && first[i].Short? && wallets[i].sampleBlock == block ==> i in indexes
    modifies cache
    ensures cache.Valid() && Sound(world, cache.byKey) && OnlyPinned(old(cache.Held()), cache.Held())
    ensures legs.Some? ==> FallenBack(world, min, wallets, first, todo - {block}, legs.value)
    ensures legs.Some? ==>
              cache.Held() == AfterLeg(world, old(cache.Held()), cache.maxEntries, Pinned, block, block, AddressesAt(wallets, indexes))
    ensures legs.None? ==> !world.reachable(block)
  {
    var fallback := ScoreGroup(world, min, wallets, indexes, block, cache);
    if fallback.None? { return None; }
    var after := Overwrite(before, indexes, fallback.value, wallets,
                           (i: nat) => if i < |wallets| then PinnedLeg(world, min, wallets[i]) else Short(HoldsNone));
    legs := Some(after);
  }

  /** What falling back leaves of the cache for one wallet, while its block may still be to do. */
  predicate OneFellBack(world: World, was: Memo, now: Memo, maxEntries: nat, wallets: seq<RuleWallet>, first: seq<Leg>, todo: set<nat>)
    requires |wallets| == |first|
  {
    |wallets| == 1 ==> now == if todo == {} then AfterFallBack(world, was, maxEntries, wallets[0], first[0]) else was
  }

  /** The only group of one wallet is its own. */
  lemma OnlyItsOwn(world: World, was: Memo, before: Memo, now: Memo, maxEntries: nat, wallets: seq<RuleWallet>, first: seq<Leg>,
                   refused: nat -> bool, groups: map<nat, seq<nat>>, todo: set<nat>, block: nat)
    requires Grouped(groups, wallets, refused, |wallets|) && todo <= groups.Keys && block in todo && |wallets| == |first|
    requires forall i :: 0 <= i < |first| ==> refused(i) == first[i].Short?
    requires forall i <- groups[block] :: i < |wallets|
    requires OneFellBack(world, was, before, maxEntries, wallets, first, todo)
    requires now == AfterLeg(world, before, maxEntries, Pinned, block, block, AddressesAt(wallets, groups[block]))
    ensures OneFellBack(world, was, now, maxEntries, wallets, first, todo - {block})
  {
    if |wallets| == 1 {
      OneWalletOneGroup(groups, wallets, refused);
      assert AddressesAt(wallets, groups[block]) == [wallets[0].address];
      assert todo - {block} == {};
    }
  }

  /** The wallets the head leg refused are scored again, each at its own block; that leg has the last word. */
  method FallBack(world: World, min: Positive, wallets: seq<RuleWallet>, first: seq<Leg>, cache: RuleCache<Key, nat>)
    returns (legs: Option<seq<Leg>>)
    requires cache.Valid() && Sound(world, cache.byKey) && |first| == |wallets|
    modifies cache
    ensures cache.Valid() && Sound(world, cache.byKey)
    ensures legs.Some? ==> FellBack(world, min, wallets, first, legs.value)
    ensures legs.Some? && |wallets| == 1 ==>
              cache.Held() == AfterFallBack(world, old(cache.Held()), cache.maxEntries, wallets[0], first[0])
    ensures OnlyPinned(old(cache.Held()), cache.Held())
    ensures legs.None? ==> exists w <- wallets :: !world.reachable(w.sampleBlock)
  {
    var refused := (i: nat) => i < |first| && first[i].Short?;
    var groups := GroupByBlock(wallets, refused);
    var final, todo := first, groups.Keys;
    ghost var was := cache.Held();
    if |wallets| == 1 { OneWalletOneGroup(groups, wallets, refused); }
    while todo != {}
      invariant cache.Valid() && Sound(world, cache.byKey) && todo <= groups.Keys
      invariant FallenBack(world, min, wallets, first, todo, final)
      invariant OnlyPinned(was, cache.Held()) && OneFellBack(world, was, cache.Held(), cache.maxEntries, wallets, first, todo)
      decreases todo
    {
      var block :| block in todo;
      ghost var before := cache.Held();
      var next := FallBackAt(world, min, wallets, first, block, groups[block], todo, final, cache);
      if next.None? {
        GroupHasAWallet(groups, wallets, refused, block);
        return None;
      }
      OnlyItsOwn(world, was, before, cache.Held(), cache.maxEntries, wallets, first, refused, groups, todo, block);
      final, todo := next.value, todo - {block};
    }
    legs := Some(final);
  }

  method EvaluateMany(world: World, min: Positive, wallets: seq<RuleWallet>, head: nat, cache: RuleCache<Key, nat>)
    returns (results: Option<seq<RuleResult>>, ghost lockBlock: nat)
    requires cache.Valid() && Sound(world, cache.byKey)
    modifies cache
    ensures cache.Valid() && Sound(world, cache.byKey)
    ensures results.Some? ==> AnsweredFrom(world, min, old(cache.Held()), cache.maxEntries, wallets, head, results.value)
    ensures results.Some? ==> results.value == Batched(world, min, old(cache.Held()), cache.maxEntries, wallets, head)
    ensures results.Some? ==> BatchAnswers(world, min, wallets, head, lockBlock, results.value)
    ensures results.Some? && NothingStored(old(cache.byKey), Head, Epoch(head))
            ==> results.value == seq(|wallets|, i requires 0 <= i < |wallets| => HeadRule(world, min, wallets[i], head, head))
    ensures results.None? ==> !world.reachable(head) || exists w <- wallets :: !world.reachable(w.sampleBlock)
    ensures HeadFresh(world, Current(old(cache.Held()), head), cache.Held(), head)
    ensures results.Some? && |wallets| == 1 ==>
              cache.Held() == AfterCall(world, min, old(cache.Held()), cache.maxEntries, wallets[0], head)
  {
    var epoch := Epoch(head);
    ghost var was := cache.Held();
    cache.PurgeBelow(epoch, IsHead);
    var first;
    first, lockBlock := ScoreAt(world, min, Addresses(wallets), head, epoch, Head, cache);
    if first.None? { return None, lockBlock; }
    ghost var current, scored := Current(was, head), cache.Held();
    var legs := FallBack(world, min, wallets, first.value, cache);
    BatchLeaves(world, current, scored, cache.Held(), head);
    if legs.None? { return None, lockBlock; }
    results := Some(ResultsOf(legs.value));
    BatchIsAnswered(world, min, wallets, head, lockBlock, first.value, legs.value);
    BatchIsAnsweredFrom(world, min, was, cache.maxEntries, wallets, head, first.value, legs.value);
    AnsweredIsBatched(world, min, was, cache.maxEntries, wallets, head, results.value);
    if |wallets| == 1 { OneCallLeaves(world, min, was, scored, cache.Held(), cache.maxEntries, wallets, first.value, head); }
  }

  lemma AnsweredIsBatched(world: World, min: Positive, c: Memo, maxEntries: nat, wallets: seq<RuleWallet>, head: nat, results: seq<RuleResult>)
    requires AnsweredFrom(world, min, c, maxEntries, wallets, head, results)
    ensures results == Batched(world, min, c, maxEntries, wallets, head)
  {
  }

  /** What the two legs of one wallet leave is what its call leaves. */
  lemma OneCallLeaves(world: World, min: Positive, was: Memo, scored: Memo, now: Memo, maxEntries: nat, wallets: seq<RuleWallet>, first: seq<Leg>, head: nat)
    requires |wallets| == |first| == 1
    requires first[0] == LegFrom(world, min, Current(was, head), maxEntries, Head, Epoch(head), head, Addresses(wallets)[0])
    requires scored == AfterLeg(world, Current(was, head), maxEntries, Head, Epoch(head), head, Addresses(wallets))
    requires now == AfterFallBack(world, scored, maxEntries, wallets[0], first[0])
    ensures now == AfterCall(world, min, was, maxEntries, wallets[0], head)
  {
    assert Addresses(wallets) == [wallets[0].address];
  }

  /** One wallet is the batch of one. */
  method Evaluate(world: World, min: Positive, wallet: RuleWallet, head: nat, cache: RuleCache<Key, nat>)
    returns (result: Option<RuleResult>, ghost lockBlock: nat)
    requires cache.Valid() && Sound(world, cache.byKey)
    modifies cache
    ensures cache.Valid() && Sound(world, cache.byKey)
    ensures result.Some? ==> HeadAnswer(world, min, wallet, head, lockBlock, result.value)
    ensures result.None? ==> !world.reachable(head) || !world.reachable(wallet.sampleBlock)
    ensures result.Some? ==> result.value == AnswerFrom(world, min, old(cache.Held()), cache.maxEntries, wallet, head)
    ensures HeadFresh(world, Current(old(cache.Held()), head), cache.Held(), head)
    ensures result.Some? ==> cache.Held() == AfterCall(world, min, old(cache.Held()), cache.maxEntries, wallet, head)
  {
    var results;
    results, lockBlock := EvaluateMany(world, min, [wallet], head, cache);
    result := if results.Some? then Some(results.value[0]) else None;
    assert Addresses([wallet]) == [wallet.address];
  }

  // ---- batching and memoising change no answer ----

  /**
   The single rule called for one wallet after another, each call finding what the earlier ones left: for any
   cache, full or not, the batch's answers if and only if every call finds what decides alike; and so whenever
   the head bears out every entry that the calls can push out.
   */
  method EvaluateEach(world: World, min: Positive, wallets: seq<RuleWallet>, head: nat, cache: RuleCache<Key, nat>)
    returns (results: Option<seq<RuleResult>>)
    requires cache.Valid() && Sound(world, cache.byKey)
    modifies cache
    ensures cache.Valid() && Sound(world, cache.byKey)
    ensures results.Some? ==> cache.Held() == AfterCalls(world, min, old(cache.Held()), cache.maxEntries, wallets, head)
    ensures results.Some? ==> results.value == Mapped(world, min, old(cache.Held()), cache.maxEntries, wallets, head)
    ensures results.Some? ==>
              (results.value == Batched(world, min, old(cache.Held()), cache.maxEntries, wallets, head)
               <==> forall i: nat | i < |wallets| :: FindsAlike(world, min, old(cache.Held()), cache.maxEntries, wallets, head, i))
    ensures results.Some? && StaleOutlasts(world, Current(old(cache.Held()), head), 4 * |wallets|, cache.maxEntries, head) ==>
              AnsweredFrom(world, min, old(cache.Held()), cache.maxEntries, wallets, head, results.value)
    ensures results.None? ==> !world.reachable(head) || exists w <- wallets :: !world.reachable(w.sampleBlock)
  {
    var answers: seq<RuleResult> := [];
    ghost var was := cache.Held();
    for i := 0 to |wallets|
      invariant cache.Valid() && Sound(world, cache.byKey) && |answers| == i
      invariant cache.Held() == AfterCalls(world, min, was, cache.maxEntries, wallets[..i], head)
      invariant answers == Mapped(world, min, was, cache.maxEntries, wallets[..i], head)
    {
      MapsOn(world, min, was, cache.maxEntries, wallets[..i], wallets[i], head);
      assert wallets[..i + 1] == wallets[..i] + [wallets[i]] && wallets[i] in wallets;
      var answer, _ := Evaluate(world, min, wallets[i], head, cache);
      if answer.None? { return None; }
      answers := answers + [answer.value];
    }
    assert wallets[..|wallets|] == wallets;
    MappingIsTheBatchExactly(world, min, was, cache.maxEntries, wallets, head);
    results := Some(answers);
  }

  /** Nothing the rule looks at changes within the head's window. */
  ghost predicate Steady(world: World, wallets: seq<RuleWallet>, head: nat) {
    forall block: nat | Within(Head, Epoch(head), block) ::
      world.declares(block) == world.declares(head)
      && forall w <- wallets :: world.balance(ToLower(w.address), block) == world.balance(ToLower(w.address), head)
  }

  /** Over a steady window, whatever was cached, evicted or duplicated, the batch is the single rule at the head. */
  lemma SteadyBatchIsTheSingleRule(world: World, min: Positive, wallets: seq<RuleWallet>, head: nat, lockBlock: nat, results: seq<RuleResult>)
    requires BatchAnswers(world, min, wallets, head, lockBlock, results) && Steady(world, wallets, head)
    ensures results == seq(|wallets|, i requires 0 <= i < |wallets| => HeadRule(world, min, wallets[i], head, head))
  {
    forall i | 0 <= i < |wallets| ensures results[i] == HeadRule(world, min, wallets[i], head, head) {
      assert HeadAnswer(world, min, wallets[i], head, lockBlock, results[i]);
      assert wallets[i] in wallets;
    }
  }

  lemma StoredRefusalStands(world: World, min: Positive, was: Memo, c: Memo, maxEntries: nat, w: RuleWallet, earlier: nat, head: nat)
    requires Epoch(earlier) == Epoch(head) && NothingStored(was.byKey, Head, Epoch(head))
    requires WellKept(was, maxEntries) && |was.order| + 4 <= maxEntries && c == AfterCall(world, min, was, maxEntries, w, earlier)
    requires HeadRule(world, min, w, earlier, earlier).Fails?
    ensures AnswerFrom(world, min, c, maxEntries, w, head) == HeadRule(world, min, w, earlier, earlier)
  {
    var fact := BalanceOf(ToLower(w.address));
    CallRemembers(world, min, was, maxEntries, w, earlier);
    assert Key(Head, fact) == BalanceKey(Head, w.address);
    assert LockUsed(world, c, head) == Truth(world, Lock, earlier);
    if LockUsed(world, c, head) == 1 {
      assert BalanceUsed(world, c, maxEntries, w, head) == Truth(world, fact, earlier);
    }
  }

  /**
   A memoised answer may trail the head, by up to 29 blocks: asked again in the same window, after the
   purchase that cures it, the rule still returns the refusal it returned before.
   */
  method StaleRefusalWithinTheWindow(world: World, min: Positive, w: RuleWallet, before: nat, after: nat, cache: RuleCache<Key, nat>)
    returns (first: Option<RuleResult>, second: Option<RuleResult>)
    requires cache.Valid() && cache.byKey == map[] && cache.order == [] && cache.maxEntries >= 4
    requires Epoch(before) == Epoch(after) && world.reachable(before) && world.reachable(after) && world.reachable(w.sampleBlock)
    requires HeadRule(world, min, w, before, before).Fails? && HeadRule(world, min, w, after, after).Qualifies?
    modifies cache
    ensures first == second == Some(HeadRule(world, min, w, before, before))
    ensures second != Some(HeadRule(world, min, w, after, after))
  {
    ghost var lockBlock;
    ghost var was := cache.Held();
    first, lockBlock := Evaluate(world, min, w, before, cache);
    NothingStoredAnswersTheHead(world, min, was, cache.maxEntries, w, before);
    ghost var held := cache.Held();
    second, lockBlock := Evaluate(world, min, w, after, cache);
    StoredRefusalStands(world, min, was, held, cache.maxEntries, w, before, after);
  }

  // ---- a full cache ----

  /** What a leg that nothing is stored for adds. */
  function Added(world: World, c: Memo, leg: LegKind, epoch: nat, block: nat, address: string): Memo {
    var lock, balance := Slot(Key(leg, Lock), epoch), Slot(BalanceKey(leg, address), epoch);
    Contents(c.byKey[lock := 1][balance := Truth(world, balance.key.fact, block)], c.order + [lock, balance])
  }

  lemma LegAdds(world: World, c: Memo, maxEntries: nat, leg: LegKind, epoch: nat, block: nat, address: string)
    requires Slot(Key(leg, Lock), epoch) !in c.byKey && Slot(BalanceKey(leg, address), epoch) !in c.byKey
    requires world.declares(block) && |c.order| + 2 <= maxEntries
    ensures AfterLeg(world, c, maxEntries, leg, epoch, block, [address]) == Added(world, c, leg, epoch, block, address)
  {
    OneBalance(world, AfterLock(world, c, maxEntries, leg, epoch, block), maxEntries, leg, epoch, block, address);
  }

  /** What a call that both legs refuse leaves of an empty cache. */
  lemma RefusalAdds(world: World, min: Positive, b: RuleWallet, head: nat)
    requires world.declares(head) && LegAt(world, min, b.address, head, head).Short? && world.declares(b.sampleBlock)
    ensures AfterCall(world, min, Contents(map[], []), 4, b, head)
            == Added(world, Added(world, Contents(map[], []), Head, Epoch(head), head, b.address),
                     Pinned, b.sampleBlock, b.sampleBlock, b.address)
  {
    var empty: Memo := Contents(map[], []);
    assert Current(empty, head) == empty;
    LegAdds(world, empty, 4, Head, Epoch(head), head, b.address);
    LegAdds(world, Added(world, empty, Head, Epoch(head), head, b.address), 4, Pinned, b.sampleBlock, b.sampleBlock, b.address);
  }

  /** Refused once by both legs: a cache for four entries is full, the declaration next to go and the balance after it. */
  lemma RefusalFillsFour(world: World, min: Positive, a: RuleWallet, b: RuleWallet, before: nat, after: nat)
    requires Epoch(before) == Epoch(after) && ToLower(a.address) != ToLower(b.address)
    requires world.declares(before) && LegAt(world, min, b.address, before, before).Short? && world.declares(b.sampleBlock)
    ensures var d := AfterCall(world, min, Contents(map[], []), 4, b, before);
            && WellKept(d, 4) && AboutToForget(world, min, d, 4, b, after)
            && Slot(BalanceKey(Head, a.address), Epoch(after)) !in d.byKey
  {
    var empty: Memo := Contents(map[], []);
    RefusalAdds(world, min, b, before);
    CallLeaves(world, min, empty, 4, b, before);
    NothingToPurge(world, empty, AfterCall(world, min, empty, 4, b, before), 4, before);
  }

  /** What the two ways answer `b`, after `a`, from such a cache. */
  lemma MappedAndBatched(world: World, min: Positive, c: Memo, maxEntries: nat, a: RuleWallet, b: RuleWallet, head: nat)
    ensures Mapped(world, min, c, maxEntries, [a, b], head)[1]
            == AnswerFrom(world, min, AfterCall(world, min, c, maxEntries, a, head), maxEntries, b, head)
    ensures Batched(world, min, c, maxEntries, [a, b], head)[1] == AnswerFrom(world, min, c, maxEntries, b, head)
  {
    MapsOn(world, min, c, maxEntries, [], a, head);
    assert [a, b][..1] == [] + [a];
  }

  /** A new cache for four entries, after one call. */
  method CalledOnce(world: World, min: Positive, w: RuleWallet, head: nat) returns (cache: RuleCache<Key, nat>)
    requires world.reachable(head) && world.reachable(w.sampleBlock)
    ensures fresh(cache) && cache.Valid() && Sound(world, cache.byKey) && cache.maxEntries == 4
    ensures cache.Held() == AfterCall(world, min, Contents(map[], []), 4, w, head)
  {
    cache := new RuleCache<Key, nat>(4);
    var _, _ := Evaluate(world, min, w, head, cache);
  }

  /** Refused by both legs at `before`; the head admits it, and another wallet, at `after` in the same window. */
  predicate RefusedThenCured(world: World, min: Positive, a: RuleWallet, b: RuleWallet, before: nat, after: nat) {
    && Epoch(before) == Epoch(after) && ToLower(a.address) != ToLower(b.address)
    && world.declares(before) && LegAt(world, min, b.address, before, before).Short?
    && world.declares(b.sampleBlock) && PinnedLeg(world, min, b).Short?
    && AdmittedAt(world, min, a, after) && AdmittedAt(world, min, b, after)
  }

  predicate AllReachable(world: World, a: RuleWallet, b: RuleWallet, before: nat, after: nat) {
    world.reachable(before) && world.reachable(after) && world.reachable(a.sampleBlock) && world.reachable(b.sampleBlock)
  }

  method MappedAfterRefusal(world: World, min: Positive, a: RuleWallet, b: RuleWallet, before: nat, after: nat)
    returns (mapped: Option<seq<RuleResult>>)
    requires RefusedThenCured(world, min, a, b, before, after) && AllReachable(world, a, b, before, after)
    ensures mapped.Some? && |mapped.value| == 2 && mapped.value[1].Qualifies?
  {
    var cache := CalledOnce(world, min, b, before);
    ghost var full := cache.Held();
    RefusalFillsFour(world, min, a, b, before, after);
    ForgottenInBetween(world, min, full, 4, a, b, after);
    MappedAndBatched(world, min, full, 4, a, b, after);
    mapped := EvaluateEach(world, min, [a, b], after, cache);
  }

  method BatchedAfterRefusal(world: World, min: Positive, a: RuleWallet, b: RuleWallet, before: nat, after: nat)
    returns (batched: Option<seq<RuleResult>>)
    requires RefusedThenCured(world, min, a, b, before, after) && AllReachable(world, a, b, before, after)
    ensures batched.Some? && |batched.value| == 2 && batched.value[1].Fails?
  {
    var cache := CalledOnce(world, min, b, before);
    ghost var full := cache.Held();
    RefusalFillsFour(world, min, a, b, before, after);
    ForgottenInBetween(world, min, full, 4, a, b, after);
    MappedAndBatched(world, min, full, 4, a, b, after);
    ghost var lockBlock;
    batched, lockBlock := EvaluateMany(world, min, [a, b], after, cache);
  }

  /**
   In a full cache, mapping may answer differently from the batch. `b` is refused, and the refusal remembered;
   then the head admits it. Mapped over `a` and `b`, the call for `a` pushes out the declaration, reading that
   again pushes out the remembered balance, and `b` qualifies; the batch looks everything up first and refuses `b`.
   */
  method MappingForgetsWhatTheBatchFinds(world: World, min: Positive, a: RuleWallet, b: RuleWallet, before: nat, after: nat)
    returns (mapped: Option<seq<RuleResult>>, batched: Option<seq<RuleResult>>)
    requires RefusedThenCured(world, min, a, b, before, after) && AllReachable(world, a, b, before, after)
    ensures mapped.Some? && batched.Some? && |mapped.value| == |batched.value| == 2
    ensures mapped.value[1].Qualifies? && batched.value[1].Fails?
  {
    mapped := MappedAfterRefusal(world, min, a, b, before, after);
    batched := BatchedAfterRefusal(world, min, a, b, before, after);
  }
}
