/** Who stands behind a proposal when it is executed: approvals are counted, not the admins who are
    still there. */
module AdminBackers {
  import opened Common
  import opened Codec
  import opened Lifecycle
  import LifecycleLaws
  import opened AdminCouncil
  import opened AdminLaws

  predicate IsAdmin(s: Council, a: Address) {
    s.config.Some? && a in s.config.value.admins
  }

  // ----- Current and former approvers -----

  /** As many current admins as signatures are required, all different, have approved. */
  ghost predicate Backed(s: Council, id: string)
    requires s.config.Some? && id in s.proposals
  {
    exists backers: seq<Address> :: Backing(s, id, backers)
  }

  ghost predicate Backing(s: Council, id: string, backers: seq<Address>)
    requires s.config.Some? && id in s.proposals
  {
    && Distinct(backers) && |backers| == s.config.value.required
    && forall a :: a in backers ==> IsAdmin(s, a) && a in s.proposals[id].approvals
  }

  function Current(s: Council, approvals: seq<Address>): set<Address> {
    set a | a in approvals && IsAdmin(s, a)
  }

  function Former(s: Council, approvals: seq<Address>): set<Address> {
    set a | a in approvals && !IsAdmin(s, a)
  }

  function SetOf(s: seq<Address>): set<Address> {
    set a | a in s
  }

  lemma {:induction false} DistinctSize(s: seq<Address>)
    requires Distinct(s)
    ensures |SetOf(s)| == |s|
  {
    if s != [] {
      var n := |s| - 1;
      DistinctSize(s[..n]);
      assert SetOf(s) == SetOf(s[..n]) + {s[n]};
      assert s[n] !in SetOf(s[..n]);
    }
  }

  lemma {:induction false} Listing(all: set<Address>, k: nat) returns (some: seq<Address>)
    requires k <= |all|
    ensures Distinct(some) && |some| == k && forall a :: a in some ==> a in all
    decreases k
  {
    if k == 0 {
      some := [];
    } else {
      var a :| a in all;
      var rest := Listing(all - {a}, k - 1);
      DistinctAppend(rest, a);
      some := rest + [a];
    }
  }

  lemma {:induction false} SubsetSize(a: set<Address>, b: set<Address>)
    requires a <= b
    ensures |a| <= |b|
  {
    assert b == a + (b - a);
  }

  lemma SplitApprovers(s: Council, approvals: seq<Address>)
    requires Distinct(approvals)
    ensures |Current(s, approvals)| + |Former(s, approvals)| == |approvals|
  {
    DistinctSize(approvals);
    assert SetOf(approvals) == Current(s, approvals) + Former(s, approvals);
  }

  lemma BackedIffEnough(s: Council, id: string)
    requires s.config.Some? && id in s.proposals
    ensures Backed(s, id) <==> |Current(s, s.proposals[id].approvals)| >= s.config.value.required
  {
    var current := Current(s, s.proposals[id].approvals);
    if Backed(s, id) {
      var backers :| Backing(s, id, backers);
      DistinctSize(backers);
      SubsetSize(SetOf(backers), current);
    }
    if |current| >= s.config.value.required {
      var backers := Listing(current, s.config.value.required);
      assert Backing(s, id, backers);
    }
  }

  // ----- Who is an admin -----

  /** What this call says about the membership of `a`: it adds them, removes them, or says nothing. */
  function Word(s: Council, op: Op, a: Address): Option<bool> {
    match op
    case Initializing(x) => if x == a && Initialize(s, x).1.Ok? then Some(true) else None
    case AddingAdmin(caller, x) => if x == a && AddAdminDirectly(s, caller, x).1.Ok? then Some(true) else None
    case RemovingAdmin(caller, x) => if x == a && RemoveAdminDirectly(s, caller, x).1.Ok? then Some(false) else None
    case Activating(x) => if x == a && Activate(s, x).1.Ok? then Some(true) else None
    case Executing(id, fr, net) =>
      if id in s.proposals && s.proposals[id].target == a && Execute(s, id, fr, net).1.Ok? then
        if s.proposals[id].action.AddAdmin? then Some(true)
        else if s.proposals[id].action.RemoveAdmin? then Some(false)
        else None
      else None
    case _ => None
  }

  /** The last thing that was said about the membership of `a` in the run. */
  function LastWord(s: Council, ops: seq<Op>, a: Address): Option<bool>
    decreases |ops|
  {
    if ops == [] then None
    else
      var later := LastWord(Step(s, ops[0]), ops[1..], a);
      if later.Some? then later else Word(s, ops[0], a)
  }

  lemma DispatchMembers(c: Config, p: Proposal, a: Address)
    requires DispatchConfig(c, p).Ok?
    ensures a in DispatchConfig(c, p).value.admins <==>
            if p.action.AddAdmin? && p.target == a then true
            else if p.action.RemoveAdmin? && p.target == a then false
            else a in c.admins
  {
    hide Window, FromBigEndian;
    WithoutMembers(c.admins, p.target);
  }

  lemma MemberStep(s: Council, op: Op, a: Address)
    ensures IsAdmin(Step(s, op), a) <==> if Word(s, op, a).Some? then Word(s, op, a).value else IsAdmin(s, a)
  {
    hide LifecycleLaws.Step, DispatchConfig, DispatchEscrow, Decimal, Without;
    match op
    case RemovingAdmin(caller, x) => if s.config.Some? { WithoutMembers(s.config.value.admins, x); }
    case Executing(id, fr, net) =>
      if Execute(s, id, fr, net).1.Ok? {
        DispatchMembers(s.config.value, s.proposals[id], a);
      }
    case _ =>
  }

  /** Whoever is an admin is one no more after a run if and only if the last thing the run said about
      their membership was a removal, direct or by an executed proposal. */
  lemma {:induction false} RemovedIffLastWord(s: Council, ops: seq<Op>, a: Address)
    ensures IsAdmin(Run(s, ops), a) <==> if LastWord(s, ops, a).Some? then LastWord(s, ops, a).value else IsAdmin(s, a)
    decreases |ops|
  {
    hide Step, Word, IsAdmin;
    if ops != [] {
      MemberStep(s, ops[0], a);
      RemovedIffLastWord(Step(s, ops[0]), ops[1..], a);
    }
  }

  lemma ApprovedByAdmin(s: Council, op: Op, id: string, a: Address)
    requires id in Step(s, op).proposals && a in Step(s, op).proposals[id].approvals
    ensures (id in s.proposals && a in s.proposals[id].approvals) || IsAdmin(s, a)
  {
    hide LifecycleLaws.Step, DispatchConfig, DispatchEscrow, Decimal;
  }

  lemma {:induction false} ApproversWereAdmins(s: Council, ops: seq<Op>, id: string, a: Address)
    requires id in Run(s, ops).proposals && a in Run(s, ops).proposals[id].approvals
    ensures (id in s.proposals && a in s.proposals[id].approvals) || IsAdmin(s, a) || LastWord(s, ops, a).Some?
    decreases |ops|
  {
    hide Step, Word, IsAdmin;
    if ops != [] {
      var s1 := Step(s, ops[0]);
      ApproversWereAdmins(s1, ops[1..], id, a);
      MemberStep(s, ops[0], a);
      if id in s1.proposals && a in s1.proposals[id].approvals {
        ApprovedByAdmin(s, ops[0], id, a);
      }
    }
  }

  // ----- Executions -----

  /** The approvers whose last word in the run was a removal. Everybody was an admin when approving, so
      these removals came after the approval. */
  function RemovedApprovers(ops: seq<Op>, approvals: seq<Address>): set<Address> {
    set a | a in approvals && LastWord(FOUNDED, ops, a) == Some(false)
  }

  lemma FormerAreRemoved(ops: seq<Op>, id: string)
    requires id in Run(FOUNDED, ops).proposals
    ensures var s := Run(FOUNDED, ops); Former(s, s.proposals[id].approvals) == RemovedApprovers(ops, s.proposals[id].approvals)
  {
    hide Run, LastWord;
    var s := Run(FOUNDED, ops);
    forall a | a in s.proposals[id].approvals ensures !IsAdmin(s, a) <==> LastWord(FOUNDED, ops, a) == Some(false) {
      ApproversWereAdmins(FOUNDED, ops, id, a);
      RemovedIffLastWord(FOUNDED, ops, a);
    }
  }

  /** An execution needs as many approvals as signatures are required, but not of current admins: as many
      current admins stand behind it if and only if at least that many of its approvers are still admins,
      which is the case if and only if no more of them were removed after approving, and not taken back,
      than there are approvals in excess. */
  lemma ExecutionBackedIff(ops: seq<Op>, id: string, fr: Address, net: Net)
    requires Execute(Run(FOUNDED, ops), id, fr, net).1.Ok?
    ensures var s := Run(FOUNDED, ops);
            var p, c := s.proposals[id], s.config.value;
            && p.approvalCount >= c.required
            && (Backed(s, id) <==> |Current(s, p.approvals)| >= c.required)
            && (Backed(s, id) <==> |RemovedApprovers(ops, p.approvals)| <= p.approvalCount - c.required)
  {
    hide Run, DispatchConfig, DispatchEscrow, Decimal, Backed, Current, Former, RemovedApprovers;
    FoundedInv();
    RunKeeps(FOUNDED, ops);
    var s := Run(FOUNDED, ops);
    assert ProposalSound(s.proposals[id]);
    SplitApprovers(s, s.proposals[id].approvals);
    BackedIffEnough(s, id);
    FormerAreRemoved(ops, id);
  }
}
