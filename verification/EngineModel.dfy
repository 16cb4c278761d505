/**
 The engine's on-demand checkpoint: a cached cut of the settled winners, a dirty flag consumed in
 the same window as the winners are read, and an encode that finishes later.
 */
module EngineModel {
  import opened Wrappers
  import opened Bundles
  import opened WinnerSet
  import opened Pruning

  /** The winners one encode captured, and the bucket it filtered them by. */
  datatype Cut = Cut(winners: map<Cid, Bundle>, bucket: nat)

  datatype Engine = Engine(state: State, dirty: bool, cache: Option<Cut>, encoding: seq<Cut>)

  datatype Action =
    | Change(op: Op)
    | BeginRecord(bucket: nat)
    | FinishRecord(which: nat)
    | FailRecord(which: nat)
    | Rejoin

  /** A prune is not announced, nor is a check settling for a bundle that is gone. */
  ghost predicate Announced(s: State, op: Op) {
    match op
    case Prune(_) => false
    case Settle(c, _) => c in s.members
    case _ => true
  }

  predicate ServedFromCache(e: Engine, bucket: nat) {
    !e.dirty && e.cache.Some? && e.cache.value.bucket == bucket
  }

  ghost function Act(clock: Clock, e: Engine, a: Action): Engine {
    match a
    case Change(op) => e.(state := Step(clock, e.state, op), dirty := e.dirty || Announced(e.state, op))
    case BeginRecord(b) =>
      if ServedFromCache(e, b) then e
      else e.(dirty := false, encoding := e.encoding + [Cut(CheckpointView(clock, e.state.members, b), b)])
    case FinishRecord(i) =>
      if i < |e.encoding| then
        e.(cache := Some(e.encoding[i]), encoding := Dropping(e.encoding, i))
      else e
    case FailRecord(i) =>
      if i < |e.encoding| then e.(encoding := Dropping(e.encoding, i)) else e
    case Rejoin => e.(dirty := true, cache := None)
  }

  function Dropping<T>(s: seq<T>, i: nat): seq<T>
    requires i < |s|
  {
    s[..i] + s[i + 1..]
  }

  /** Record calls do not overlap, and no encode fails. */
  predicate Orderly(e: Engine, a: Action) {
    match a
    case Change(op) => Allowed(e.state, op)
    case BeginRecord(b) => e.encoding == []
    case FailRecord(_) => false
    case _ => true
  }

  const INITIAL := Engine(State(map[], 0), true, None, [])

  ghost function ActAll(clock: Clock, actions: seq<Action>): Engine {
    if actions == [] then INITIAL
    else Act(clock, ActAll(clock, actions[..|actions| - 1]), actions[|actions| - 1])
  }

  ghost predicate OrderlyRun(clock: Clock, actions: seq<Action>) {
    actions != [] ==>
      && OrderlyRun(clock, actions[..|actions| - 1])
      && Orderly(ActAll(clock, actions[..|actions| - 1]), actions[|actions| - 1])
  }

  /** Any run of allowed changes, with encodes begun, finished and failing in any order. */
  ghost predicate AnyRun(clock: Clock, actions: seq<Action>) {
    actions != [] ==>
      && AnyRun(clock, actions[..|actions| - 1])
      && var a := actions[|actions| - 1];
         a.Change? ==> Allowed(ActAll(clock, actions[..|actions| - 1]).state, a.op)
  }

  ghost predicate IsFresh(clock: Clock, s: State, cut: Cut) {
    s.bucket <= cut.bucket ==> cut.winners == CheckpointView(clock, s.members, cut.bucket)
  }

  ghost predicate Inv(clock: Clock, e: Engine) {
    && |e.encoding| <= 1
    && (!e.dirty && e.encoding == [] && e.cache.Some? ==> IsFresh(clock, e.state, e.cache.value))
    && (!e.dirty && e.encoding != [] ==> IsFresh(clock, e.state, e.encoding[0]))
  }

  /** A prune cannot alter what either reader sees from its bucket on, so it invalidates nothing. */
  lemma PruneKeepsReaders(clock: Clock, s: Members, bucket: nat, now: nat)
    requires bucket <= now
    ensures TallyView(clock, Pruned(clock, s, bucket), now) == TallyView(clock, s, now)
    ensures CheckpointView(clock, Pruned(clock, s, bucket), now) == CheckpointView(clock, s, now)
  {
    PruneKeepsTheCore(clock, s, bucket);
    ReadersSeeOnlyTheCore(clock, s, bucket, now);
    ReadersSeeOnlyTheCore(clock, Pruned(clock, s, bucket), bucket, now);
  }

  lemma ActKeepsInv(clock: Clock, e: Engine, a: Action)
    requires Inv(clock, e) && Orderly(e, a)
    ensures Inv(clock, Act(clock, e, a))
  {
    if a.Change? && a.op.Prune? {
      if e.cache.Some? && a.op.bucket <= e.cache.value.bucket {
        PruneKeepsReaders(clock, e.state.members, a.op.bucket, e.cache.value.bucket);
      }
      if e.encoding != [] && a.op.bucket <= e.encoding[0].bucket {
        PruneKeepsReaders(clock, e.state.members, a.op.bucket, e.encoding[0].bucket);
      }
    }
  }

  lemma {:induction false} RunKeepsInv(clock: Clock, actions: seq<Action>)
    requires OrderlyRun(clock, actions)
    ensures Inv(clock, ActAll(clock, actions))
  {
    if actions != [] {
      var n := |actions| - 1;
      RunKeepsInv(clock, actions[..n]);
      ActKeepsInv(clock, ActAll(clock, actions[..n]), actions[n]);
    }
  }

  /** The membership changes of a run, in order. */
  function Changes(actions: seq<Action>): seq<Op> {
    if actions == [] then []
    else
      var last := actions[|actions| - 1];
      Changes(actions[..|actions| - 1]) + if last.Change? then [last.op] else []
  }

  lemma {:induction false} StateIsARun(clock: Clock, actions: seq<Action>)
    requires AnyRun(clock, actions)
    ensures ActAll(clock, actions).state == Run(clock, Changes(actions))
    ensures AllowedRun(clock, Changes(actions))
  {
    if actions != [] {
      var n := |actions| - 1;
      StateIsARun(clock, actions[..n]);
      if actions[n].Change? {
        NeverPrunedStep(clock, Changes(actions[..n]), actions[n].op);
        var ops := Changes(actions[..n]) + [actions[n].op];
        assert ops[..|ops| - 1] == Changes(actions[..n]);
      } else {
        assert Changes(actions) == Changes(actions[..n]);
      }
    }
  }

  // ---- every run, overlaps and failures included ----

  /** Where the cached cut and those being encoded were begun. */
  datatype Begun = Begun(cached: Option<nat>, encoding: seq<nat>, last: Option<nat>)

  ghost function BegunAt(clock: Clock, actions: seq<Action>): Begun {
    if actions == [] then Begun(None, [], None)
    else
      var n := |actions| - 1;
      var e, o := ActAll(clock, actions[..n]), BegunAt(clock, actions[..n]);
      match actions[n]
      case BeginRecord(b) => if ServedFromCache(e, b) then o else o.(encoding := o.encoding + [n], last := Some(n))
      case FinishRecord(i) =>
        if i < |o.encoding| then o.(cached := Some(o.encoding[i]), encoding := Dropping(o.encoding, i)) else o
      case FailRecord(i) => if i < |o.encoding| then o.(encoding := Dropping(o.encoding, i)) else o
      case Rejoin => o.(cached := None)
      case Change(_) => o
  }

  /** What a fresh encode begun by action `i` would cut at `bucket`. */
  ghost function WinnersAt(clock: Clock, actions: seq<Action>, i: nat, bucket: nat): map<Cid, Bundle>
    requires i <= |actions|
  {
    CheckpointView(clock, ActAll(clock, actions[..i]).state.members, bucket)
  }

  ghost predicate CutAt(clock: Clock, actions: seq<Action>, i: nat, cut: Cut) {
    i < |actions| && actions[i] == BeginRecord(cut.bucket) && cut.winners == WinnersAt(clock, actions, i, cut.bucket)
  }

  /** The last encode begun, if nothing was announced since, is still what the members say. */
  ghost predicate LastIsCurrent(clock: Clock, actions: seq<Action>) {
    var e, o := ActAll(clock, actions), BegunAt(clock, actions);
    !e.dirty && o.last.Some? ==>
      o.last.value < |actions|
      && forall bucket: nat | e.state.bucket <= bucket ::
           WinnersAt(clock, actions, o.last.value, bucket) == CheckpointView(clock, e.state.members, bucket)
  }

  ghost predicate CutsAt(clock: Clock, actions: seq<Action>, from: seq<nat>, cuts: seq<Cut>) {
    |from| == |cuts| && forall k :: 0 <= k < |cuts| ==> CutAt(clock, actions, from[k], cuts[k])
  }

  ghost predicate Traced(clock: Clock, actions: seq<Action>) {
    var e, o := ActAll(clock, actions), BegunAt(clock, actions);
    && CutsAt(clock, actions, o.encoding, e.encoding) && o.cached.Some? == e.cache.Some?
    && (o.cached.Some? ==> CutAt(clock, actions, o.cached.value, e.cache.value))
    && (!e.dirty ==> o.last.Some?)
  }

  lemma CutStays(clock: Clock, actions: seq<Action>, i: nat, cut: Cut)
    requires actions != [] && CutAt(clock, actions[..|actions| - 1], i, cut)
    ensures CutAt(clock, actions, i, cut)
  {
    assert actions[..|actions| - 1][..i] == actions[..i];
  }

  lemma CutsDrop(clock: Clock, actions: seq<Action>, from: seq<nat>, cuts: seq<Cut>, i: nat)
    requires CutsAt(clock, actions, from, cuts) && i < |cuts|
    ensures CutsAt(clock, actions, Dropping(from, i), Dropping(cuts, i))
  {
    var f, c := Dropping(from, i), Dropping(cuts, i);
    forall k | 0 <= k < |c| ensures CutAt(clock, actions, f[k], c[k]) {
      var j := if k < i then k else k + 1;
      assert f[k] == from[j] && c[k] == cuts[j];
    }
  }

  lemma CutsGrow(clock: Clock, actions: seq<Action>, from: seq<nat>, cuts: seq<Cut>, i: nat, cut: Cut)
    requires CutsAt(clock, actions, from, cuts) && CutAt(clock, actions, i, cut)
    ensures CutsAt(clock, actions, from + [i], cuts + [cut])
  {
  }

  lemma CutsStay(clock: Clock, actions: seq<Action>, from: seq<nat>, cuts: seq<Cut>)
    requires actions != [] && CutsAt(clock, actions[..|actions| - 1], from, cuts)
    ensures CutsAt(clock, actions, from, cuts)
  {
    forall k | 0 <= k < |cuts| ensures CutAt(clock, actions, from[k], cuts[k]) {
      CutStays(clock, actions, from[k], cuts[k]);
    }
  }

  lemma {:induction false} RunIsTraced(clock: Clock, actions: seq<Action>)
    ensures Traced(clock, actions)
  {
    if actions != [] {
      var n := |actions| - 1;
      RunIsTraced(clock, actions[..n]);
      var e, o := ActAll(clock, actions[..n]), BegunAt(clock, actions[..n]);
      CutsStay(clock, actions, o.encoding, e.encoding);
      if o.cached.Some? { CutStays(clock, actions, o.cached.value, e.cache.value); }
      match actions[n]
      case BeginRecord(b) =>
        if !ServedFromCache(e, b) {
          CutsGrow(clock, actions, o.encoding, e.encoding, n, Cut(CheckpointView(clock, e.state.members, b), b));
        }
      case FinishRecord(i) => if i < |e.encoding| { CutsDrop(clock, actions, o.encoding, e.encoding, i); }
      case FailRecord(i) => if i < |e.encoding| { CutsDrop(clock, actions, o.encoding, e.encoding, i); }
      case _ =>
    }
  }

  /** What leaves the record clean leaves the cut as it was. */
  lemma SilentChangeKeepsCut(clock: Clock, e: Engine, a: Action, bucket: nat)
    requires a.Change? ==> Allowed(e.state, a.op) && !Announced(e.state, a.op)
    requires Act(clock, e, a).state.bucket <= bucket
    ensures CheckpointView(clock, Act(clock, e, a).state.members, bucket) == CheckpointView(clock, e.state.members, bucket)
  {
    if a.Change? && a.op.Prune? { PruneKeepsReaders(clock, e.state.members, a.op.bucket, bucket); }
  }

  lemma {:induction false} LastStaysCurrent(clock: Clock, actions: seq<Action>)
    requires AnyRun(clock, actions)
    ensures LastIsCurrent(clock, actions)
  {
    if actions != [] {
      var n := |actions| - 1;
      var before, a := actions[..n], actions[n];
      LastStaysCurrent(clock, before);
      RunIsTraced(clock, before);
      var e, o, t := ActAll(clock, before), BegunAt(clock, before), ActAll(clock, actions);
      if !t.dirty && BegunAt(clock, actions).last != Some(n) {
        var i := o.last.value;
        assert before[..i] == actions[..i];
        forall bucket: nat | t.state.bucket <= bucket
          ensures WinnersAt(clock, actions, i, bucket) == CheckpointView(clock, t.state.members, bucket)
        {
          assert WinnersAt(clock, before, i, bucket) == CheckpointView(clock, e.state.members, bucket);
          SilentChangeKeepsCut(clock, e, a, bucket);
        }
      }
    }
  }

  /**
   Main result on the record cache, for every run, with overlapping and failing encodes. A record served
   as clean was cut by some encode begun earlier. It is fresh if and only if the last encode begun cut the
   same winners: so always when that one was the last begun, and otherwise, whether encodes overlapped or
   the last one failed, exactly when the settled winners did not change in between.
   */
  lemma CachedRecordExactly(clock: Clock, actions: seq<Action>, bucket: nat)
    requires AnyRun(clock, actions)
    requires ServedFromCache(ActAll(clock, actions), bucket) && ActAll(clock, actions).state.bucket <= bucket
    ensures var e, o := ActAll(clock, actions), BegunAt(clock, actions);
            && o.cached.Some? && o.last.Some? && CutAt(clock, actions, o.cached.value, e.cache.value)
            && o.last.value < |actions|
            && (e.cache.value.winners == CheckpointView(clock, e.state.members, bucket)
                <==> WinnersAt(clock, actions, o.cached.value, bucket) == WinnersAt(clock, actions, o.last.value, bucket))
            && (o.cached == o.last ==> e.cache.value.winners == CheckpointView(clock, e.state.members, bucket))
  {
    RunIsTraced(clock, actions);
    LastStaysCurrent(clock, actions);
  }

  lemma {:induction false} OrderlyIsAny(clock: Clock, actions: seq<Action>)
    requires OrderlyRun(clock, actions)
    ensures AnyRun(clock, actions)
  {
    if actions != [] {
      OrderlyIsAny(clock, actions[..|actions| - 1]);
    }
  }

  /**
   So without overlaps or failures a record answered from the cache holds what a fresh encode would,
   which is also what an engine that never pruned would encode.
   */
  lemma CachedRecordIsFresh(clock: Clock, actions: seq<Action>, bucket: nat)
    requires OrderlyRun(clock, actions) && ContentAddressed(Changes(actions))
    ensures var e := ActAll(clock, actions);
            ServedFromCache(e, bucket) && e.encoding == [] && e.state.bucket <= bucket
            ==> && e.cache.value.winners == CheckpointView(clock, e.state.members, bucket)
                && e.cache.value.winners == CheckpointView(clock, Run(clock, WithoutPrunes(Changes(actions))).members, bucket)
  {
    RunKeepsInv(clock, actions);
    OrderlyIsAny(clock, actions);
    StateIsARun(clock, actions);
    if ActAll(clock, actions).state.bucket <= bucket {
      PruningIsUnobservable(clock, Changes(actions), bucket);
    }
  }

  predicate NoneBegun(actions: seq<Action>) {
    forall a <- actions :: !a.BeginRecord?
  }

  ghost function ActOn(clock: Clock, e: Engine, actions: seq<Action>): Engine {
    if actions == [] then e else Act(clock, ActOn(clock, e, actions[..|actions| - 1]), actions[|actions| - 1])
  }

  lemma {:induction false} StaysDirty(clock: Clock, e: Engine, actions: seq<Action>)
    requires e.dirty && NoneBegun(actions)
    ensures ActOn(clock, e, actions).dirty
  {
    if actions != [] {
      assert actions[|actions| - 1] in actions && forall a <- actions[..|actions| - 1] :: a in actions;
      StaysDirty(clock, e, actions[..|actions| - 1]);
    }
  }

  /**
   An announced change, whatever encodes are under way and however they then finish or fail, and whatever
   else happens short of another request: the next request is not answered from the cache, and cuts the
   winners of that moment.
   */
  lemma MidEncodeChangeForcesAnother(clock: Clock, e: Engine, op: Op, rest: seq<Action>, next: nat)
    requires Announced(e.state, op) && NoneBegun(rest)
    ensures var later := ActOn(clock, Act(clock, e, Change(op)), rest);
            && !ServedFromCache(later, next)
            && Act(clock, later, BeginRecord(next)).encoding
               == later.encoding + [Cut(CheckpointView(clock, later.state.members, next), next)]
  {
    StaysDirty(clock, Act(clock, e, Change(op)), rest);
  }

  /** Leaving and joining again: whatever encodes finish or fail then, the next request is not answered from the cache. */
  lemma RejoinForcesAnother(clock: Clock, e: Engine, rest: seq<Action>, next: nat)
    requires NoneBegun(rest)
    ensures Act(clock, e, Rejoin).cache.None?
    ensures !ServedFromCache(ActOn(clock, Act(clock, e, Rejoin), rest), next)
  {
    StaysDirty(clock, Act(clock, e, Rejoin), rest);
  }

  /** Two overlapping record calls finishing out of order install the older cut under a clean flag. */
  lemma OverlappingEncodesGoStale(clock: Clock, c: Cid, bundle: Bundle)
    requires !clock.IsExpired(bundle, 0)
    ensures var admit := Change(Admit(c, Record(bundle, Checks(true, None))));
            var e := ActAll(clock, [BeginRecord(0), admit, BeginRecord(0), FinishRecord(1), FinishRecord(0)]);
            ServedFromCache(e, 0) && e.encoding == [] && e.cache.value.winners != CheckpointView(clock, e.state.members, 0)
  {
    var rec := Record(bundle, Checks(true, None));
    var actions := [BeginRecord(0), Change(Admit(c, rec)), BeginRecord(0), FinishRecord(1), FinishRecord(0)];
    var e0 := ActAll(clock, actions[..0]);
    assert actions[..1][..0] == actions[..0] && actions[..2][..1] == actions[..1] && actions[..3][..2] == actions[..2];
    assert actions[..4][..3] == actions[..3] && actions[..5][..4] == actions[..4] && actions[..5] == actions;
    var e1 := ActAll(clock, actions[..1]);
    assert e1.encoding == [Cut(map[], 0)] by { assert CheckpointView(clock, map[], 0) == map[]; }
    var e2 := ActAll(clock, actions[..2]);
    assert e2.state.members == map[c := rec];
    LwwIsMaximum(Entry(c, bundle), Entry(c, bundle));
    assert c in CheckpointView(clock, e2.state.members, 0);
    var e3 := ActAll(clock, actions[..3]);
    assert |e3.encoding| == 2 && e3.encoding[0] == Cut(map[], 0);
    var e4 := ActAll(clock, actions[..4]);
    assert e4.encoding == [Cut(map[], 0)];
  }

  /** One encode that fails after it consumed the flag leaves the record before it served as clean. */
  lemma FailedEncodeGoesStale(clock: Clock, c: Cid, bundle: Bundle)
    requires !clock.IsExpired(bundle, 0)
    ensures var admit := Change(Admit(c, Record(bundle, Checks(true, None))));
            var e := ActAll(clock, [BeginRecord(0), FinishRecord(0), admit, BeginRecord(0), FailRecord(0)]);
            ServedFromCache(e, 0) && e.encoding == [] && e.cache.value.winners != CheckpointView(clock, e.state.members, 0)
  {
    var rec := Record(bundle, Checks(true, None));
    var actions := [BeginRecord(0), FinishRecord(0), Change(Admit(c, rec)), BeginRecord(0), FailRecord(0)];
    assert actions[..1][..0] == actions[..0] && actions[..2][..1] == actions[..1] && actions[..3][..2] == actions[..2];
    assert actions[..4][..3] == actions[..3] && actions[..5][..4] == actions[..4] && actions[..5] == actions;
    assert CheckpointView(clock, map[], 0) == map[];
    assert ActAll(clock, actions[..1]).encoding == [Cut(map[], 0)];
    assert ActAll(clock, actions[..2]) == Engine(State(map[], 0), false, Some(Cut(map[], 0)), []);
    var e3 := ActAll(clock, actions[..3]);
    assert e3.state.members == map[c := rec];
    LwwIsMaximum(Entry(c, bundle), Entry(c, bundle));
    assert c in CheckpointView(clock, e3.state.members, 0);
    assert |ActAll(clock, actions[..4]).encoding| == 1;
  }
}
