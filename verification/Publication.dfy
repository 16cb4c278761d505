/** The publication object itself, each method running from one await of `publish` to the next. */
module Publications {
  import opened Wrappers
  import opened PublicationModel

  class ContestVotePublication {
    var state: PublishingState
    var attempt: nat
    var evicted: bool
    ghost var calls: map<nat, Await>
    ghost var registered: set<nat>

    constructor ()
      ensures Snapshot() == INITIAL
    {
      state, attempt, evicted := Stopped, 0, false;
      calls, registered := map[], {};
    }

    ghost function Snapshot(): State
      reads this
    {
      State(attempt, evicted, state, calls, registered)
    }

    /** The synchronous top of `publish`: the attempt is claimed before the first await. */
    method Publish() returns (mine: nat)
      modifies this
      ensures Snapshot() == Step(old(Snapshot()), PublicationModel.Publish) && mine == attempt
    {
      attempt := attempt + 1;
      mine := attempt;
      evicted := false;
      calls := calls[mine := OnPreflight];
    }

    /** The names passed and the topic is joined: sign. */
    method Joined(mine: nat)
      requires Enabled(Snapshot(), PublicationModel.Joined(mine))
      modifies this
      ensures Snapshot() == Step(old(Snapshot()), PublicationModel.Joined(mine))
    {
      state := Signing;
      calls, registered := calls[mine := OnSignature], registered + {mine};
    }

    /** The signature is back. A check may have settled before this, and is not walked back. */
    method Signed(mine: nat)
      requires Enabled(Snapshot(), PublicationModel.Signed(mine))
      modifies this
      ensures Snapshot() == Step(old(Snapshot()), PublicationModel.Signed(mine))
    {
      if state == Signing { state := Publishing; }
      calls := calls[mine := OnBroadcast];
    }

    method Sent(mine: nat)
      requires Enabled(Snapshot(), PublicationModel.Sent(mine))
      modifies this
      ensures Snapshot() == Step(old(Snapshot()), PublicationModel.Sent(mine))
    {
      if !evicted && state == Publishing { state := Published; }
      calls := calls - {mine};
    }

    /** Any await of `publish` rejected. */
    method Throws(mine: nat)
      requires Enabled(Snapshot(), PublicationModel.Throws(mine))
      modifies this
      ensures Snapshot() == Step(old(Snapshot()), PublicationModel.Throws(mine))
    {
      if mine == attempt { state := Failed; }
      calls := calls - {mine};
    }

    method Settle(mine: nat, to: PublishingState)
      modifies `state
      ensures Snapshot() == PublicationModel.Settle(old(Snapshot()), mine, to)
    {
      if mine != attempt { return; }
      if evicted || state == Failed || state == VerifiedByPeer { return; }
      if to == VerifiedLocally && state == VerifiedLocally { return; }
      state := to;
    }

    method OnVerified(mine: nat)
      requires mine in registered
      modifies `state
      ensures Snapshot() == Step(old(Snapshot()), Verified(mine))
    {
      Settle(mine, VerifiedLocally);
    }

    method OnCheckpointedByPeer(mine: nat)
      requires mine in registered
      modifies `state
      ensures Snapshot() == Step(old(Snapshot()), ServedByPeer(mine))
    {
      Settle(mine, VerifiedByPeer);
    }

    method OnEvicted(mine: nat)
      requires mine in registered
      modifies `state, `evicted
      ensures Snapshot() == Step(old(Snapshot()), Evict(mine))
    {
      if mine != attempt { return; }
      evicted := true;
      state := Failed;
    }
  }
}
