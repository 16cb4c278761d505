/**
 The persisted checkpoint. Its guard is checked before an await, and the cut it writes is taken after:
 what the guard gives, and exactly what a written blob can lack.
 */
module SnapshotModel {
  import opened Wrappers
  import opened Bundles
  import opened WinnerSet
  import opened Pruning
  import opened EngineModel

  predicate AllSettled(s: Members) {
    forall c <- s :: s[c].checks.Settled()
  }

  /** The one action that brings a pending check into a settled view. */
  predicate BringsPending(a: Action) {
    a.Change? && a.op.Admit? && !a.op.rec.checks.Settled()
  }

  /** A cut serves exactly those current bundles that are settled; it is the whole tally exactly if all of them are. */
  lemma CutOmitsExactly(clock: Clock, s: Members, bucket: nat)
    ensures forall c <- TallyView(clock, s, bucket) :: c in CheckpointView(clock, s, bucket) <==> s[c].checks.Settled()
    ensures CheckpointView(clock, s, bucket) == TallyView(clock, s, bucket)
            <==> forall c <- TallyView(clock, s, bucket) :: s[c].checks.Settled()
  {
    if forall c <- TallyView(clock, s, bucket) :: s[c].checks.Settled() {
      forall c | c in s && !clock.IsExpired(s[c].bundle, bucket)
        ensures c in CheckpointView(clock, s, bucket) <==> c in TallyView(clock, s, bucket)
      {
        var w := WinnerOf(s, s.Keys, c);
        FreshMonotone(clock, At(s, w), At(s, c), bucket, bucket);
        assert w in TallyView(clock, s, bucket);
      }
    }
  }

  /** Asking for the root record with nothing else going on. */
  ghost function Encoded(clock: Clock, e: Engine, bucket: nat): Engine {
    if ServedFromCache(e, bucket) then e
    else Act(clock, Act(clock, e, BeginRecord(bucket)), FinishRecord(|e.encoding|))
  }

  lemma SettledRecordIsTheTally(clock: Clock, e: Engine, bucket: nat)
    requires Inv(clock, e) && e.encoding == [] && AllSettled(e.state.members) && e.state.bucket <= bucket
    ensures Encoded(clock, e, bucket).cache == Some(Cut(TallyView(clock, e.state.members, bucket), bucket))
    ensures Encoded(clock, e, bucket).encoding == []
    ensures Encoded(clock, e, bucket).state == e.state
  {
    CutOmitsExactly(clock, e.state.members, bucket);
  }

  lemma OneActSettles(clock: Clock, e: Engine, a: Action)
    requires AllSettled(e.state.members) && !BringsPending(a)
    ensures AllSettled(Act(clock, e, a).state.members)
  {
  }

  /** Nothing but a pending admit unsettles a settled view. */
  lemma {:induction false} SettledLasts(clock: Clock, actions: seq<Action>, from: nat, until: nat)
    requires from <= until <= |actions|
    requires AllSettled(ActAll(clock, actions[..from]).state.members)
    requires forall k :: from <= k < until ==> !BringsPending(actions[k])
    ensures AllSettled(ActAll(clock, actions[..until]).state.members)
    decreases until
  {
    if from < until {
      SettledLasts(clock, actions, from, until - 1);
      assert actions[..until][..until - 1] == actions[..until - 1] && actions[..until][until - 1] == actions[until - 1];
      OneActSettles(clock, ActAll(clock, actions[..until - 1]), actions[until - 1]);
    }
  }

  /**
   The blob written is the cached cut, begun by some action `i`. It lacks a bundle that was current at `i`
   exactly if that bundle's checks were pending at `i`. If the guard held at `from`, no later than `i`, and
   no pending bundle was admitted between the two, it is the whole tally of that moment.
   */
  lemma SnapshotOmitsExactly(clock: Clock, actions: seq<Action>, from: nat)
    requires ActAll(clock, actions).cache.Some?
    ensures var blob, i := ActAll(clock, actions).cache.value, BegunAt(clock, actions).cached;
            && i.Some? && i.value < |actions|
            && var at := ActAll(clock, actions[..i.value]).state.members;
               && (forall c <- TallyView(clock, at, blob.bucket) :: c !in blob.winners <==> !at[c].checks.Settled())
               && (blob.winners == TallyView(clock, at, blob.bucket)
                   <==> forall c <- TallyView(clock, at, blob.bucket) :: at[c].checks.Settled())
               && (from <= i.value && AllSettled(ActAll(clock, actions[..from]).state.members)
                   && (forall k :: from <= k < i.value ==> !BringsPending(actions[k]))
                   ==> blob.winners == TallyView(clock, at, blob.bucket))
  {
    RunIsTraced(clock, actions);
    var blob, i := ActAll(clock, actions).cache.value, BegunAt(clock, actions).cached.value;
    CutOmitsExactly(clock, ActAll(clock, actions[..i]).state.members, blob.bucket);
    if from <= i && AllSettled(ActAll(clock, actions[..from]).state.members)
       && forall k :: from <= k < i ==> !BringsPending(actions[k]) {
      SettledLasts(clock, actions, from, i);
    }
  }

  /** A pending bundle admitted between the guard and the cut is current, and missing from the blob. */
  lemma PendingSlipsIn(clock: Clock, c: Cid, bundle: Bundle)
    requires !clock.IsExpired(bundle, 0)
    ensures var rec := Record(bundle, Checks(false, None));
            var actions := [Change(Admit(c, rec)), BeginRecord(0), FinishRecord(0)];
            var e := ActAll(clock, actions);
            && AllSettled(ActAll(clock, actions[..0]).state.members)
            && e.cache.Some? && c in TallyView(clock, e.state.members, 0) && c !in e.cache.value.winners
  {
    var rec := Record(bundle, Checks(false, None));
    var actions := [Change(Admit(c, rec)), BeginRecord(0), FinishRecord(0)];
    assert actions[..3] == actions && actions[..3][..2] == actions[..2] && actions[..2][..1] == actions[..1] && actions[..1][..0] == [];
    var members: Members := map[c := rec];
    assert ActAll(clock, actions[..1]).state.members == members;
    LwwIsMaximum(Entry(c, bundle), Entry(c, bundle));
    assert IsWinner(members, members.Keys, c);
    CutOmitsExactly(clock, members, 0);
    var one := ActAll(clock, actions[..1]);
    assert ActAll(clock, actions[..0]) == EngineModel.INITIAL;
    assert one == Act(clock, EngineModel.INITIAL, Change(Admit(c, rec)));
    assert one == Engine(State(members, 0), true, None, []);
    assert ActAll(clock, actions[..2]) == Act(clock, one, BeginRecord(0));
    assert ActAll(clock, actions) == Encoded(clock, one, 0);
  }
}
