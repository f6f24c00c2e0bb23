/** The identity registry: a one-time admin and a per-expert status map that
    only the admin may change. */
module IdentityRegistry {
  import opened Host

  datatype ExpertStatus = Unverified | Verified | Banned

  datatype RegistryError = AlreadyInitialized | NotInitialized | AlreadyVerified | AlreadyBanned

  /** What a mutating registry call returns to its caller. */
  type Outcome = Invocation<Result<(), RegistryError>>

  /** The registry's persistent storage: the admin, once set, and one record
      per expert that has ever been written. */
  datatype RegistryState = RegistryState(admin: Option<Address>, experts: map<Address, ExpertStatus>)

  /** The storage of a freshly deployed registry. */
  const Blank := RegistryState(None, map[])

  /** One call: what it returned and the storage it left behind. */
  datatype Step = Step(outcome: Outcome, after: RegistryState)

  /** Reading an expert's status; an expert never written reads `Unverified`. */
  function StatusOf(experts: map<Address, ExpertStatus>, expert: Address): ExpertStatus {
    if expert in experts then experts[expert] else Unverified
  }

  // ---------------------------------------------------------------------
  // The contract functions, as functions of the storage before the call
  // ---------------------------------------------------------------------

  function Initialize(s: RegistryState, admin: Address): Step {
    if s.admin.Some? then Step(Returned(Err(AlreadyInitialized)), s)
    else Step(Returned(Ok(())), s.(admin := Some(admin)))
  }

  /** `signers` are the addresses whose authorisation accompanies the call. */
  function Verify(s: RegistryState, expert: Address, signers: set<Address>): Step {
    match s.admin
    case None => Step(Returned(Err(NotInitialized)), s)
    case Some(admin) =>
      if admin !in signers then Step(Trapped, s)
      else if StatusOf(s.experts, expert) == Verified then Step(Returned(Err(AlreadyVerified)), s)
      else Step(Returned(Ok(())), s.(experts := s.experts[expert := Verified]))
  }

  function Ban(s: RegistryState, expert: Address, signers: set<Address>): Step {
    match s.admin
    case None => Step(Returned(Err(NotInitialized)), s)
    case Some(admin) =>
      if admin !in signers then Step(Trapped, s)
      else if StatusOf(s.experts, expert) == Banned then Step(Returned(Err(AlreadyBanned)), s)
      else Step(Returned(Ok(())), s.(experts := s.experts[expert := Banned]))
  }

  // ---------------------------------------------------------------------
  // The deployed contract, whose storage its functions update in place
  // ---------------------------------------------------------------------

  class Registry {
    var admin: Option<Address>
    var experts: map<Address, ExpertStatus>

    function State(): RegistryState
      reads this
    {
      RegistryState(admin, experts)
    }

    constructor ()
      ensures State() == Blank
    {
      admin := None;
      experts := map[];
    }

    method InitializeRegistry(newAdmin: Address) returns (r: Outcome)
      modifies this
      ensures Step(r, State()) == Initialize(old(State()), newAdmin)
    {
      if admin.Some? {
        return Returned(Err(AlreadyInitialized));
      }
      admin := Some(newAdmin);
      r := Returned(Ok(()));
    }

    method VerifyExpert(expert: Address, signers: set<Address>) returns (r: Outcome)
      modifies this
      ensures Step(r, State()) == Verify(old(State()), expert, signers)
    {
      if admin.None? {
        return Returned(Err(NotInitialized));
      }
      if admin.value !in signers {
        return Trapped;
      }
      var current := GetExpertStatus(expert);
      if current == Verified {
        return Returned(Err(AlreadyVerified));
      }
      experts := experts[expert := Verified];
      r := Returned(Ok(()));
    }

    method BanExpert(expert: Address, signers: set<Address>) returns (r: Outcome)
      modifies this
      ensures Step(r, State()) == Ban(old(State()), expert, signers)
    {
      if admin.None? {
        return Returned(Err(NotInitialized));
      }
      if admin.value !in signers {
        return Trapped;
      }
      var current := GetExpertStatus(expert);
      if current == Banned {
        return Returned(Err(AlreadyBanned));
      }
      experts := experts[expert := Banned];
      r := Returned(Ok(()));
    }

    /** A read-only query: changes nothing and defaults to `Unverified`. */
    method GetExpertStatus(expert: Address) returns (status: ExpertStatus)
      ensures status == StatusOf(experts, expert)
    {
      if expert in experts {
        status := experts[expert];
      } else {
        status := Unverified;
      }
    }
  }

  // ---------------------------------------------------------------------
  // Properties of single calls
  // ---------------------------------------------------------------------

  lemma InitializeOnce(s: RegistryState, admin: Address)
    ensures s.admin.Some? ==> Initialize(s, admin) == Step(Returned(Err(AlreadyInitialized)), s)
    ensures s.admin.None? ==> Initialize(s, admin) == Step(Returned(Ok(())), RegistryState(Some(admin), s.experts))
    ensures Initialize(Initialize(s, admin).after, admin).outcome == Returned(Err(AlreadyInitialized))
  {
  }

  /** The initialisation check comes first: an uninitialised registry answers
      `NotInitialized` whoever signs, and nothing is read or written. */
  lemma NotInitializedPrecedesAuth(s: RegistryState, expert: Address, signers: set<Address>)
    requires s.admin.None?
    ensures Verify(s, expert, signers) == Step(Returned(Err(NotInitialized)), s)
    ensures Ban(s, expert, signers) == Step(Returned(Err(NotInitialized)), s)
  {
  }

  /** Without the stored admin's authorisation both mutators trap, whatever
      the expert's status, and the storage is unchanged. */
  lemma AdminAuthRequired(s: RegistryState, expert: Address, signers: set<Address>)
    requires s.admin.Some? && s.admin.value !in signers
    ensures Verify(s, expert, signers) == Step(Trapped, s)
    ensures Ban(s, expert, signers) == Step(Trapped, s)
  {
  }

  /** `Verify` succeeds exactly when the registry is initialised, the admin
      signs and the expert is not already `Verified`; from `Unverified` and
      from `Banned` alike it then records `Verified`. */
  lemma VerifyTransition(s: RegistryState, expert: Address, signers: set<Address>)
    ensures var st := Verify(s, expert, signers);
      (st.outcome == Returned(Ok(())) <==>
        s.admin.Some? && s.admin.value in signers && StatusOf(s.experts, expert) != Verified)
      && (st.outcome == Returned(Ok(())) ==> StatusOf(st.after.experts, expert) == Verified)
      && (st.outcome != Returned(Ok(())) ==> st.after == s)
      && ((s.admin.Some? && s.admin.value in signers && StatusOf(s.experts, expert) == Verified)
            ==> st.outcome == Returned(Err(AlreadyVerified)))
  {
  }

  /** `Ban` succeeds exactly when the registry is initialised, the admin signs
      and the expert is not already `Banned`; from `Unverified` and from
      `Verified` alike it then records `Banned`. */
  lemma BanTransition(s: RegistryState, expert: Address, signers: set<Address>)
    ensures var st := Ban(s, expert, signers);
      (st.outcome == Returned(Ok(())) <==>
        s.admin.Some? && s.admin.value in signers && StatusOf(s.experts, expert) != Banned)
      && (st.outcome == Returned(Ok(())) ==> StatusOf(st.after.experts, expert) == Banned)
      && (st.outcome != Returned(Ok(())) ==> st.after == s)
      && ((s.admin.Some? && s.admin.value in signers && StatusOf(s.experts, expert) == Banned)
            ==> st.outcome == Returned(Err(AlreadyBanned)))
  {
  }

  /** A banned expert can be verified again: only `Verified` is refused. */
  lemma BannedCanBeVerified(s: RegistryState, expert: Address, signers: set<Address>)
    requires s.admin.Some? && s.admin.value in signers
    requires StatusOf(s.experts, expert) == Banned
    ensures Verify(s, expert, signers).outcome == Returned(Ok(()))
    ensures StatusOf(Verify(s, expert, signers).after.experts, expert) == Verified
  {
  }

  /** Verify and ban touch only the target expert's record and never the admin. */
  lemma OtherExpertsUntouched(s: RegistryState, expert: Address, signers: set<Address>, other: Address)
    requires other != expert
    ensures StatusOf(Verify(s, expert, signers).after.experts, other) == StatusOf(s.experts, other)
    ensures StatusOf(Ban(s, expert, signers).after.experts, other) == StatusOf(s.experts, other)
    ensures Verify(s, expert, signers).after.admin == s.admin
    ensures Ban(s, expert, signers).after.admin == s.admin
  {
  }

  /** Unverified, then Verified, then Banned, by successive admin-signed calls. */
  lemma CompleteLifecycle(admin: Address, expert: Address)
    ensures StatusOf(Blank.experts, expert) == Unverified
    ensures var i := Initialize(Blank, admin);
      var v := Verify(i.after, expert, {admin});
      var b := Ban(v.after, expert, {admin});
      && i.outcome == Returned(Ok(()))
      && v.outcome == Returned(Ok(())) && StatusOf(v.after.experts, expert) == Verified
      && b.outcome == Returned(Ok(())) && StatusOf(b.after.experts, expert) == Banned
  {
  }

  // ---------------------------------------------------------------------
  // Sequences of calls
  // ---------------------------------------------------------------------

  datatype Call =
    | InitCall(admin: Address)
    | VerifyCall(expert: Address, signers: set<Address>)
    | BanCall(expert: Address, signers: set<Address>)

  function Apply(s: RegistryState, c: Call): Step {
    match c
    case InitCall(a) => Initialize(s, a)
    case VerifyCall(e, signers) => Verify(s, e, signers)
    case BanCall(e, signers) => Ban(s, e, signers)
  }

  /** The storage after the calls, made one after the other. */
  function Run(s: RegistryState, calls: seq<Call>): RegistryState
    decreases |calls|
  {
    if calls == [] then s else Run(Apply(s, calls[0]).after, calls[1..])
  }

  predicate Targets(c: Call, expert: Address) {
    !c.InitCall? && c.expert == expert
  }

  predicate SignedBy(c: Call, principal: Address) {
    !c.InitCall? && principal in c.signers
  }

  /** Once an admin is stored, no sequence of calls replaces it. */
  lemma {:induction false} AdminFixedOnceSet(s: RegistryState, calls: seq<Call>)
    requires s.admin.Some?
    ensures Run(s, calls).admin == s.admin
    decreases |calls|
  {
    if calls != [] {
      AdminFixedOnceSet(Apply(s, calls[0]).after, calls[1..]);
    }
  }

  /** An expert that no call names keeps the status it had. */
  lemma {:induction false} UntargetedExpertKeepsStatus(s: RegistryState, calls: seq<Call>, expert: Address)
    requires forall i :: 0 <= i < |calls| ==> !Targets(calls[i], expert)
    ensures StatusOf(Run(s, calls).experts, expert) == StatusOf(s.experts, expert)
    decreases |calls|
  {
    if calls != [] {
      assert !Targets(calls[0], expert);
      var rest := calls[1..];
      assert forall i :: 0 <= i < |rest| ==> rest[i] == calls[i + 1];
      UntargetedExpertKeepsStatus(Apply(s, calls[0]).after, rest, expert);
    }
  }

  /** Once initialised, calls the admin does not sign leave the whole storage
      as it was. */
  lemma {:induction false} UnsignedCallsChangeNothing(s: RegistryState, calls: seq<Call>)
    requires s.admin.Some?
    requires forall i :: 0 <= i < |calls| ==> !SignedBy(calls[i], s.admin.value)
    ensures Run(s, calls) == s
    decreases |calls|
  {
    if calls != [] {
      assert !SignedBy(calls[0], s.admin.value);
      var rest := calls[1..];
      assert forall i :: 0 <= i < |rest| ==> rest[i] == calls[i + 1];
      UnsignedCallsChangeNothing(Apply(s, calls[0]).after, rest);
    }
  }

  /** Before initialisation, verify and ban calls leave the storage as it was. */
  lemma {:induction false} UninitializedRegistryIgnoresMutators(s: RegistryState, calls: seq<Call>)
    requires s.admin.None?
    requires forall i :: 0 <= i < |calls| ==> !calls[i].InitCall?
    ensures Run(s, calls) == s
    decreases |calls|
  {
    if calls != [] {
      assert !calls[0].InitCall?;
      var rest := calls[1..];
      assert forall i :: 0 <= i < |rest| ==> rest[i] == calls[i + 1];
      UninitializedRegistryIgnoresMutators(Apply(s, calls[0]).after, rest);
    }
  }

  /** Only a verify call naming a banned expert can lift the ban. */
  lemma {:induction false} BanHoldsUntilVerified(s: RegistryState, calls: seq<Call>, expert: Address)
    requires StatusOf(s.experts, expert) == Banned
    requires forall i :: 0 <= i < |calls| ==> !(calls[i].VerifyCall? && calls[i].expert == expert)
    ensures StatusOf(Run(s, calls).experts, expert) == Banned
    decreases |calls|
  {
    if calls != [] {
      assert !(calls[0].VerifyCall? && calls[0].expert == expert);
      var rest := calls[1..];
      assert forall i :: 0 <= i < |rest| ==> rest[i] == calls[i + 1];
      BanHoldsUntilVerified(Apply(s, calls[0]).after, rest, expert);
    }
  }

  /** Three experts verified, then two banned one at a time: each ban leaves
      the others' status alone. A repeated ban is refused, and an unsigned
      ban traps. */
  method BanWorkflow(admin: Address, e1: Address, e2: Address, e3: Address)
    requires e1 != e2 && e2 != e3 && e1 != e3
  {
    var registry := new Registry();
    var r := registry.InitializeRegistry(admin);
    r := registry.VerifyExpert(e1, {admin});
    r := registry.VerifyExpert(e2, {admin});
    r := registry.VerifyExpert(e3, {admin});
    r := registry.BanExpert(e2, {admin});
    assert r == Returned(Ok(()));
    var s1 := registry.GetExpertStatus(e1);
    var s2 := registry.GetExpertStatus(e2);
    var s3 := registry.GetExpertStatus(e3);
    assert s1 == Verified && s2 == Banned && s3 == Verified;
    r := registry.BanExpert(e1, {admin});
    assert r == Returned(Ok(()));
    s1 := registry.GetExpertStatus(e1);
    s2 := registry.GetExpertStatus(e2);
    s3 := registry.GetExpertStatus(e3);
    assert s1 == Banned && s2 == Banned && s3 == Verified;
    r := registry.BanExpert(e2, {admin});
    assert r == Returned(Err(AlreadyBanned));
    r := registry.BanExpert(e3, {});
    assert r == Trapped;
  }
}
