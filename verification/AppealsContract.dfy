/** Appeals as the contract runs them, on top of the escrow contract whose records they change. */
module AppealsContract {
  import opened Common
  import opened Lifecycle
  import LifecycleContract
  import LifecycleLaws
  import opened Settlement
  import opened Appeals

  /** This appeal is closed and its escrow's round final; every other appeal and round is what it was. */
  predicate Closes(s: Court, s': Court, i: nat) {
    && i in s.appeals && !s.appeals[i].resolved && s.appeals[i].escrowId in s.core.escrows && s'.count == s.count
    && s'.appeals == s.appeals[i := s.appeals[i].(resolved := true)] && s'.rounds == s.rounds[s.appeals[i].escrowId := FinalRound]
  }

  /** Filing succeeds exactly for a party of an escrow without an appeal up to three days after the dispute
      began; the appeal gets the next number and three days, and the round moves on. */
  lemma FilingEffect(s: Court, appellant: Address, id: nat)
    requires Appeals.Inv(s)
    ensures var (s', r) := File(s, appellant, id);
            && (r.Ok? <==>
                  && id in s.core.escrows && (appellant == s.core.escrows[id].customer || appellant == s.core.escrows[id].merchant)
                  && RoundOf(s, id) == InitialRound && s.core.now <= s.core.escrows[id].disputeStartedAt + 259200)
            && (r.Err? ==> s' == s)
            && (r.Ok? ==> (r.value == s.count && s'.core == s.core && s'.count == s.count + 1 && s'.rounds == s.rounds[id := AppealRound]
                           && s'.appeals == s.appeals[s.count := Appeal(id, appellant, s.core.now, SaturatingAdd(s.core.now, 259200), false)]))
  {
    OpenIffRound(s, id);
    hide Appeals.Inv, OpenAmong, RoundOf;
  }

  /** Resolving an appeal succeeds exactly for an open one in favour of a party whose transfer is not
      refused; the escrow becomes resolved and the favoured party is paid the amount on top of what was
      paid before. */
  lemma ResolvingEffect(s: Court, i: nat, favour: Address, net: Net)
    requires Appeals.Inv(s)
    ensures var (s', r) := ResolveAppeal(s, i, favour, net);
            && (r.Ok? <==>
                  && i in s.appeals && !s.appeals[i].resolved && s.appeals[i].escrowId in s.core.escrows
                  && var id := s.appeals[i].escrowId;
                  && (favour == s.core.escrows[id].customer || favour == s.core.escrows[id].merchant) && !net(id, Principal).Refused?)
            && (r.Err? ==> s' == s)
            && (r.Ok? ==> (Closes(s, s', i) && OthersUntouched(s.core, s'.core, s.appeals[i].escrowId)
                           && PaysFavoured(s.core, s'.core, s.appeals[i].escrowId, favour, net)))
  {
    if i in s.appeals && s.appeals[i].escrowId in s.core.escrows {
      var id := s.appeals[i].escrowId;
      LifecycleContract.PayOne(PaidFor(s.core, id), Payment(Principal, favour, s.core.escrows[id].amount), id, net);
    }
    hide Appeals.Inv, Pay;
  }

  /** The escrow is resolved, and the favoured address paid its amount if the token moves. */
  ghost predicate PaysFavoured(core: Lifecycle.State, core': Lifecycle.State, id: nat, favour: Address, net: Net) {
    && id in core.escrows && id in core'.escrows
    && core'.escrows[id] == core.escrows[id].(status := Resolved, lastActivityAt := core.now)
    && PaidFor(core', id) == PaidFor(core, id) + if net(id, Principal).Moved? then [Payment(Principal, favour, core.escrows[id].amount)] else []
  }

  /** Expiring an appeal succeeds exactly for an open one past its deadline; the escrow's status and
      payments stay. */
  lemma ExpiryEffect(s: Court, i: nat)
    requires Appeals.Inv(s)
    ensures var (s', r) := ExpireAppeal(s, i);
            && (r.Ok? <==>
                  i in s.appeals && !s.appeals[i].resolved && s.appeals[i].deadline < s.core.now && s.appeals[i].escrowId in s.core.escrows)
            && (r.Err? ==> s' == s)
            && (r.Ok? ==> (Closes(s, s', i) && s'.core == s.core.(escrows := s.core.escrows[s.appeals[i].escrowId :=
                             s.core.escrows[s.appeals[i].escrowId].(lastActivityAt := s.core.now)])))
  {}

  class AppealsContract {
    const core: LifecycleContract.EscrowContract
    var appeals: map<nat, Appeal>
    var count: nat
    var rounds: map<nat, Round>

    constructor ()
      ensures Valid() && fresh(core) && fresh(core.queue) && State() == OPENED
    {
      core := new LifecycleContract.EscrowContract();
      appeals, count, rounds := map[], 0, map[];
      new;
      OpenedInv();
    }

    function State(): Court
      reads this, core, core.queue
    {
      Court(core.State(), appeals, count, rounds)
    }

    ghost predicate Valid()
      reads this, core, core.queue
    {
      Appeals.Inv(State()) && core.Valid()
    }

    method GetDisputeRound(id: nat) returns (round: Round)
      ensures round == RoundOf(State(), id)
    {
      round := if id in rounds then rounds[id] else InitialRound;
    }

    /** The linear scan over all appeals ever filed. */
    method HasOpenAppeal(id: nat) returns (open: bool)
      ensures open <==> OpenAmong(appeals, count, id)
    {
      for i := 0 to count
        invariant !OpenAmong(appeals, i, id)
      {
        if i in appeals {
          var appeal := appeals[i];
          if appeal.escrowId == id && !appeal.resolved {
            return true;
          }
        }
      }
      open := false;
    }

    method FileDisputeAppeal(appellant: Address, id: nat) returns (r: Result<nat>)
      requires Valid()
      modifies this
      ensures Valid() && (State(), r) == File(old(State()), appellant, id)
      ensures r.Ok? <==> id in core.escrows && (appellant == core.escrows[id].customer || appellant == core.escrows[id].merchant)
                         && RoundOf(old(State()), id) == InitialRound && core.now <= core.escrows[id].disputeStartedAt + 259200
      ensures r.Ok? ==> r.value == old(count) && count == old(count) + 1 && rounds == old(rounds)[id := AppealRound]
                        && appeals == old(appeals)[old(count) := Appeal(id, appellant, core.now, SaturatingAdd(core.now, 259200), false)]
    {
      hide LifecycleLaws.Inv, Appeals.Inv, OpenAmong;
      FilingEffect(State(), appellant, id);
      FileKeeps(State(), appellant, id);
      if id !in core.escrows {
        return Err(NotFound);
      }
      var escrow := core.escrows[id];
      if appellant != escrow.customer && appellant != escrow.merchant {
        return Err(Unauthorized);
      }
      var round := GetDisputeRound(id);
      if round == FinalRound {
        return Err(InvalidStatus);
      }
      if SaturatingSub(core.now, escrow.disputeStartedAt) > APPEAL_WINDOW {
        return Err(InvalidStatus);
      }
      var open := HasOpenAppeal(id);
      if open {
        return Err(InvalidStatus);
      }
      var appealId := count;
      appeals := appeals[appealId := Appeal(id, appellant, core.now, SaturatingAdd(core.now, APPEAL_WINDOW), false)];
      count := appealId + 1;
      rounds := rounds[id := AppealRound];
      r := Ok(appealId);
    }

    method ResolveAppealBy(appealId: nat, inFavourOf: Address, net: Net) returns (r: Result<()>)
      requires Valid()
      modifies this, core, core.queue
      ensures Valid() && (State(), r) == ResolveAppeal(old(State()), appealId, inFavourOf, net)
      ensures r.Err? ==> State() == old(State())
      ensures r.Ok? ==> Closes(old(State()), State(), appealId)
      ensures r.Ok? ==> var id := old(appeals)[appealId].escrowId;
                        OthersUntouched(old(core.State()), core.State(), id) && PaysFavoured(old(core.State()), core.State(), id, inFavourOf, net)
    {
      hide LifecycleLaws.Inv, Appeals.Inv, Pay, Closes, PaysFavoured, OthersUntouched;
      ResolvingEffect(State(), appealId, inFavourOf, net);
      ResolveKeeps(State(), appealId, inFavourOf, net);
      if appealId !in appeals {
        return Err(NotFound);
      }
      var appeal := appeals[appealId];
      if appeal.resolved {
        return Err(AlreadyProcessed);
      }
      var id := appeal.escrowId;
      if id !in core.escrows {
        return Err(NotFound);
      }
      var escrow := core.escrows[id];
      if inFavourOf != escrow.customer && inFavourOf != escrow.merchant {
        return Err(Unauthorized);
      }
      CoreRecords(State(), id);
      var saved, savedAppeals, savedRounds := core.State(), appeals, rounds;
      appeals := appeals[appealId := appeal.(resolved := true)];
      rounds := rounds[id := FinalRound];
      escrow := escrow.(status := Resolved, lastActivityAt := core.now);
      core.escrows := core.escrows[id := escrow];
      r := core.PayPrincipal(id, inFavourOf, net);
      if r.Err? {
        core.Restore(saved);
        appeals, rounds := savedAppeals, savedRounds;
        return;
      }
      CoreOf(State());
    }

    method ExpireAppealBy(appealId: nat) returns (r: Result<()>)
      requires Valid()
      modifies this, core
      ensures Valid() && (State(), r) == ExpireAppeal(old(State()), appealId)
      ensures r.Ok? ==> Closes(old(State()), State(), appealId) && old(appeals)[appealId].deadline < old(core.now)
      ensures r.Ok? ==> core.paid == old(core.paid) && OthersUntouched(old(core.State()), core.State(), old(appeals)[appealId].escrowId)
    {
      hide LifecycleLaws.Inv, Appeals.Inv;
      ExpiryEffect(State(), appealId);
      ExpireKeeps(State(), appealId);
      if appealId !in appeals {
        return Err(NotFound);
      }
      var appeal := appeals[appealId];
      if appeal.resolved {
        return Err(AlreadyProcessed);
      }
      if core.now <= appeal.deadline {
        return Err(TimeoutNotReached);
      }
      var id := appeal.escrowId;
      if id !in core.escrows {
        return Err(NotFound);
      }
      appeals := appeals[appealId := appeal.(resolved := true)];
      rounds := rounds[id := FinalRound];
      var escrow := core.escrows[id];
      escrow := escrow.(lastActivityAt := core.now);
      core.escrows := core.escrows[id := escrow];
      CoreOf(State());
      r := Ok(());
    }
  }

  lemma CoreOf(s: Court)
    requires Appeals.Inv(s)
    ensures LifecycleLaws.Inv(s.core)
  {}

  lemma CoreRecords(s: Court, id: nat)
    requires Appeals.Inv(s) && id in s.core.escrows
    ensures id in s.core.paid && PaidFor(s.core, id) == s.core.paid[id]
  {
    assert id in s.core.paid.Keys;
  }
}
