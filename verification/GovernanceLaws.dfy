/** Laws of the governance pipeline, over all messages and all collaborators. */
module GovernanceLaws {
  import opened JsonValues
  import opened Strings
  import opened Governance
  import opened GovernanceRules

  // ----- the failure counter -----

  /** One message with the answers its collaborators happen to give. */
  datatype Request = Request(msg: Message, oracles: Oracles)

  function ProcessAll(cfg: Config, requests: seq<Request>, c: Counters): (seq<Outcome>, Counters) {
    if requests == [] then ([], c) else
      var (before, c') := ProcessAll(cfg, requests[..|requests| - 1], c);
      var last := requests[|requests| - 1];
      var outcome := Process(cfg, last.oracles, last.msg, c');
      (before + [outcome], outcome.counters)
  }

  function Rejections(outcomes: seq<Outcome>): nat {
    if outcomes == [] then 0
    else Rejections(outcomes[..|outcomes| - 1]) + if outcomes[|outcomes| - 1].verdict.Rejected? then 1 else 0
  }

  ghost predicate CountsItsRejection(out: Outcome, c: Counters) {
    out.counters.failed == c.failed + if out.verdict.Rejected? then 1 else 0
  }

  lemma WithSwarmCounts(cfg: Config, o: Oracles, input: Input, legacy: Decision, receipt: Receipt, c: Counters)
    ensures CountsItsRejection(WithSwarm(cfg, o, input, legacy, receipt, c), c)
  {
  }

  lemma GovernanceCounts(cfg: Config, o: Oracles, msg: Message, c: Counters)
    ensures CountsItsRejection(RunGovernance(cfg, o, msg, c), c)
  {
    var input := BuildInput(cfg, msg);
    var legacy := LegacyLocal(cfg, input);
    var receipt := BuildReceipt(input, legacy, "legacy", o.legacyAttest);
    if receipt.Ok? {
      WithSwarmCounts(cfg, o, input, legacy, receipt.value, c);
    }
  }

  /** Whichever gate rejects, the failure is counted exactly once. */
  lemma OneRejectionOneCount(cfg: Config, o: Oracles, msg: Message, c: Counters)
    ensures CountsItsRejection(Process(cfg, o, msg, c), c)
  {
    GovernanceCounts(cfg, o, msg, c);
  }

  lemma {:induction false} FailuresAreRejections(cfg: Config, requests: seq<Request>, c: Counters)
    ensures var (outcomes, c') := ProcessAll(cfg, requests, c);
            |outcomes| == |requests| && c'.failed == c.failed + Rejections(outcomes)
  {
    if requests != [] {
      var prefix := requests[..|requests| - 1];
      FailuresAreRejections(cfg, prefix, c);
      var (before, c') := ProcessAll(cfg, prefix, c);
      var last := requests[|requests| - 1];
      OneRejectionOneCount(cfg, last.oracles, last.msg, c');
      var outcome := Process(cfg, last.oracles, last.msg, c');
      assert (before + [outcome])[..|before|] == before;
    }
  }

  // ----- stored decisions -----

  ghost predicate Coherent(d: Decision) {
    d.allowed <==> d.blockingStage == None
  }

  ghost predicate Agrees(r: Receipt, d: Decision) {
    && r.allowed == d.allowed && r.blockingStage == d.blockingStage && r.reasons == d.reasons
    && r.ruleHits == d.ruleHits && r.peerVotes == d.peerVotes && r.trustScore == d.trustScore
  }

  lemma LocalCoherent(cfg: Config, o: Oracles, input: Input)
    ensures Coherent(LegacyLocal(cfg, input))
    ensures var local := SwarmLocal(cfg, o, input);
            local.Ok? ==>
              && Coherent(local.value)
              && (local.value.blockingStage.Some? ==> local.value.blockingStage.value != "")
  {
  }

  lemma ReceiptAgrees(input: Input, d: Decision, engine: string, attest: Option<Attester>)
    ensures var r := BuildReceipt(input, d, engine, attest);
            r.Ok? ==> Agrees(r.value, d) && r.value.messageId == input.messageId
  {
  }

  lemma SwarmDecisionCoherent(cfg: Config, o: Oracles, input: Input)
    ensures var s := SwarmDecide(cfg, o, input);
            s.Ok? ==>
              && Coherent(s.value.0) && Agrees(s.value.1, s.value.0)
              && s.value.1.messageId == input.messageId
              && (s.value.0.blockingStage.Some? ==> s.value.0.blockingStage.value != "")
  {
    LocalCoherent(cfg, o, input);
    var local := SwarmLocal(cfg, o, input);
    if local.Ok? {
      var peer := if local.value.allowed then SwarmPeer(cfg, o, input) else Ok(None);
      if peer.Ok? {
        ReceiptAgrees(input, Combine(local.value, peer.value), "swarm", o.swarmAttest);
      }
    }
  }

  /** A stored decision is blocked by a stage exactly when it is not allowed, its
      receipt says the same, and the caller is told the same. */
  ghost predicate Consistent(out: Outcome, id: string) {
    out.stored.Some? ==>
      var a := out.stored.value;
      && Coherent(a.decision) && Agrees(a.receipt, a.decision) && a.receipt.messageId == id
      && (out.verdict.Passed? <==> a.decision.allowed)
      && (out.verdict.Rejected? ==>
            && out.verdict.rejection.decision == Some(a.decision)
            && out.verdict.rejection.receipt == Some(a.receipt)
            && Some(out.verdict.rejection.reason) == a.decision.blockingStage)
  }

  lemma ConcludeConsistent(d: Decision, r: Receipt, shadow: Option<Shadow>, c: Counters)
    requires Sayable(d, r)
    ensures Consistent(Conclude(d, r, shadow, c), r.messageId)
  {
  }

  /** This holds of every decision the pipeline leaves in a context, attested or not. */
  lemma StoredDecisionsCohere(cfg: Config, o: Oracles, msg: Message, c: Counters)
    ensures Consistent(RunGovernance(cfg, o, msg, c), msg.id)
  {
    var input := BuildInput(cfg, msg);
    var legacy := LegacyLocal(cfg, input);
    var receipt := BuildReceipt(input, legacy, "legacy", o.legacyAttest);
    LocalCoherent(cfg, o, input);
    ReceiptAgrees(input, legacy, "legacy", o.legacyAttest);
    if receipt.Ok? {
      if cfg.mode.Legacy? {
        ConcludeConsistent(legacy, receipt.value, None, c);
      } else if cfg.mode.ShadowMode? && !o.swarmAvailable {
        ConcludeConsistent(legacy, receipt.value,
                           Some(Shadow(Error(UnavailableText(o)), legacy.allowed, None)),
                           c.(errors := c.errors + 1));
      } else {
        WithSwarmConsistent(cfg, o, input, legacy, receipt.value, c);
      }
    }
  }

  lemma WithBothConsistent(cfg: Config, legacy: Decision, receipt: Receipt, swarm: Decision, swarmReceipt: Receipt,
                           c: Counters)
    requires Sayable(legacy, receipt) && Sayable(swarm, swarmReceipt) && receipt.messageId == swarmReceipt.messageId
    ensures Consistent(WithBoth(cfg, legacy, receipt, swarm, swarmReceipt, c), receipt.messageId)
  {
  }

  /** A coherent decision with a stage that has a name, and a receipt that says the same. */
  ghost predicate Sayable(d: Decision, r: Receipt) {
    Coherent(d) && Agrees(r, d) && (d.blockingStage.Some? ==> d.blockingStage.value != "")
  }

  lemma WithSwarmConsistent(cfg: Config, o: Oracles, input: Input, legacy: Decision, receipt: Receipt, c: Counters)
    requires Sayable(legacy, receipt) && receipt.messageId == input.messageId
    ensures Consistent(WithSwarm(cfg, o, input, legacy, receipt, c), input.messageId)
  {
    SwarmDecisionCoherent(cfg, o, input);
    match SwarmDecide(cfg, o, input)
    case Ok((swarm, swarmReceipt)) => WithBothConsistent(cfg, legacy, receipt, swarm, swarmReceipt, c);
    case Throws(Listed(text)) =>
      ConcludeConsistent(legacy, receipt, Some(Shadow(Error(text), legacy.allowed, None)), c.(errors := c.errors + 1));
    case Throws(Unlisted) =>
  }

  // ----- shadow mode -----

  /** What the sender of a message can see of its outcome. */
  datatype Visible = Accepted | Refused(errors: seq<string>, reason: string) | Broke(thrown: Thrown)

  function Seen(v: Verdict): Visible {
    match v
    case Passed => Accepted
    case Rejected(r) => Refused(r.errors, r.reason)
    case Raised(thrown) => Broke(thrown)
  }

  predicate MeshRaises(cfg: Config, o: Oracles, input: Input, thrown: Thrown) {
    var validators := Dedupe(input.validatorIds);
    var quorum := o.quorum(input, |validators|);
    && PeersAsked(cfg, o, input) && quorum.Ok?
    && o.mesh(input, validators, if cfg.enableAdaptiveQuorum then quorum.value else |validators|) == Throws(thrown)
  }

  /** The provider raises on the receipt it is given. */
  predicate AttestationRaises(attest: Option<Attester>, receipt: Receipt, thrown: Thrown) {
    attest.Some? && attest.value(receipt) == Throws(thrown)
  }

  /** Which of the swarm's collaborators raised. */
  predicate CollaboratorRaises(cfg: Config, o: Oracles, input: Input, thrown: Thrown) {
    || (DnaAsked(cfg, o, input) && o.dna(input.content) == Throws(thrown))
    || (PeersAsked(cfg, o, input) && o.quorum(input, |Dedupe(input.validatorIds)|) == Throws(thrown))
    || MeshRaises(cfg, o, input, thrown)
    || (var d := SwarmDecision(cfg, o, input);
        d.Ok? && AttestationRaises(o.swarmAttest, Unattested(input, d.value, "swarm"), thrown))
  }

  /** The swarm raises exactly what one of its collaborators raised when asked. */
  lemma SwarmRaises(cfg: Config, o: Oracles, input: Input, thrown: Thrown)
    ensures SwarmDecide(cfg, o, input) == Throws(thrown) <==> CollaboratorRaises(cfg, o, input, thrown)
  {
    HashMeaning(cfg, input.constitutionalHash);
  }

  /** The provider, if there is one, does not raise on this receipt. */
  predicate Attests(attest: Option<Attester>, receipt: Receipt) {
    attest.None? || attest.value(receipt).Ok?
  }

  predicate LegacyReceiptMade(cfg: Config, o: Oracles, input: Input) {
    Attests(o.legacyAttest, Unattested(input, LegacyLocal(cfg, input), "legacy"))
  }

  /** The message gets as far as the swarm, and one of the swarm's collaborators raises
      something run() does not list. */
  ghost predicate SwarmEscapes(cfg: Config, o: Oracles, msg: Message) {
    && ReachesGovernance(cfg, o, msg) && LegacyReceiptMade(cfg, o, BuildInput(cfg, msg))
    && o.swarmAvailable && CollaboratorRaises(cfg, o, BuildInput(cfg, msg), Unlisted)
  }

  /** No gate has anything to object. */
  ghost predicate ReachesGovernance(cfg: Config, o: Oracles, msg: Message) {
    && TierAllows(cfg, msg) && o.scan(msg) == Ok(None)
    && ValidatorFits(cfg, msg) && o.injection(msg) == Ok(None)
  }

  /** Nothing but the four gates decides whether governance is asked. */
  lemma GatesMeaning(cfg: Config, o: Oracles, msg: Message)
    ensures Gates(cfg, o, msg) == GatesPassed <==> ReachesGovernance(cfg, o, msg)
  {
    TierGateMeaning(cfg, msg);
    ValidatorGateMeaning(cfg, msg);
  }

  /** Shadow mode never interferes: what the sender sees, and the failure count, are
      those of legacy mode, if and only if no unlisted exception escapes the swarm. */
  lemma ShadowNeverInterferes(cfg: Config, o: Oracles, msg: Message, c: Counters, c': Counters)
    requires cfg.mode == ShadowMode && c.failed == c'.failed
    ensures SameForTheSender(Process(cfg, o, msg, c), Process(cfg.(mode := Legacy), o, msg, c'))
            <==> !SwarmEscapes(cfg, o, msg)
  {
    assert Gates(cfg.(mode := Legacy), o, msg) == Gates(cfg, o, msg) by {
      SameGates(cfg, o, msg);
    }
    GatesMeaning(cfg, o, msg);
    if ReachesGovernance(cfg, o, msg) {
      ShadowRun(cfg, o, msg, c, c');
    }
  }

  /** Everything answers well, except a DNA that raises something run() does not list. */
  function DnaThatBreaks(): Oracles {
    Oracles((m: Message) => Ok(None), (m: Message) => Ok(None), true, None, None,
            (content: string) => Throws(Unlisted), (input: Input, n: nat) => Ok(n),
            (input: Input, validators: seq<string>, votes: int) => Ok(MeshViolation("")), None, None)
  }

  /** A message with the expected hash and nothing else to remark. */
  function PlainMessage(cfg: Config): Message {
    Message("m", "t", "a", "event", "", None, None, Str(cfg.constitutionalHash), Null, Null)
  }

  /** Shadow mode then raises where legacy mode accepts. */
  lemma ABrokenDnaInterferes(cfg: Config, c: Counters)
    requires cfg.mode == ShadowMode && !cfg.requireValidator
    ensures SwarmEscapes(cfg, DnaThatBreaks(), PlainMessage(cfg))
    ensures Process(cfg, DnaThatBreaks(), PlainMessage(cfg), c).verdict == Raised(Unlisted)
    ensures Process(cfg.(mode := Legacy), DnaThatBreaks(), PlainMessage(cfg), c).verdict == Passed
  {
    var o, m := DnaThatBreaks(), PlainMessage(cfg);
    assert ReachesGovernance(cfg, o, m) && ReachesGovernance(cfg.(mode := Legacy), o, m);
    HashMeaning(cfg, m.constitutionalHash);
    GatesMeaning(cfg, o, m);
    GatesMeaning(cfg.(mode := Legacy), o, m);
    SwarmRaises(cfg, o, BuildInput(cfg, m), Unlisted);
  }

  ghost predicate SameForTheSender(a: Outcome, b: Outcome) {
    Seen(a.verdict) == Seen(b.verdict) && a.counters.failed == b.counters.failed
  }

  lemma SameGates(cfg: Config, o: Oracles, msg: Message)
    ensures Gates(cfg.(mode := Legacy), o, msg) == Gates(cfg, o, msg)
  {
    assert AutonomyGate(cfg.(mode := Legacy), msg) == AutonomyGate(cfg, msg);
    assert ValidatorGate(cfg.(mode := Legacy), msg) == ValidatorGate(cfg, msg);
  }

  lemma SameLegacyCore(cfg: Config, msg: Message)
    ensures BuildInput(cfg.(mode := Legacy), msg) == BuildInput(cfg, msg)
    ensures forall input :: LegacyLocal(cfg.(mode := Legacy), input) == LegacyLocal(cfg, input)
  {
  }

  lemma ConcludeAlike(d: Decision, r: Receipt, shadow: Option<Shadow>, shadow': Option<Shadow>,
                      c: Counters, c': Counters)
    requires c.failed == c'.failed
    ensures SameForTheSender(Conclude(d, r, shadow, c), Conclude(d, r, shadow', c'))
  {
  }

  lemma ShadowWithSwarm(cfg: Config, o: Oracles, input: Input, legacy: Decision, receipt: Receipt,
                        c: Counters, c': Counters)
    requires cfg.mode == ShadowMode && c.failed == c'.failed
    ensures SameForTheSender(WithSwarm(cfg, o, input, legacy, receipt, c), Conclude(legacy, receipt, None, c'))
            <==> SwarmDecide(cfg, o, input) != Throws(Unlisted)
  {
  }

  lemma ShadowRun(cfg: Config, o: Oracles, msg: Message, c: Counters, c': Counters)
    requires cfg.mode == ShadowMode && c.failed == c'.failed && ReachesGovernance(cfg, o, msg)
    ensures SameForTheSender(RunGovernance(cfg, o, msg, c), RunGovernance(cfg.(mode := Legacy), o, msg, c'))
            <==> !SwarmEscapes(cfg, o, msg)
  {
    SameLegacyCore(cfg, msg);
    var input := BuildInput(cfg, msg);
    var legacy := LegacyLocal(cfg, input);
    var receipt := BuildReceipt(input, legacy, "legacy", o.legacyAttest);
    SwarmRaises(cfg, o, input, Unlisted);
    if receipt.Ok? && o.swarmAvailable {
      ShadowWithSwarm(cfg, o, input, legacy, receipt.value, c, c');
    } else if receipt.Ok? {
      ConcludeAlike(legacy, receipt.value, Some(Shadow(Error(UnavailableText(o)), legacy.allowed, None)), None,
                    c.(errors := c.errors + 1), c');
    }
  }

  /** Each shadow run that returns bumps exactly one of the three shadow counters, the
      mismatch counter exactly when the two cores disagree. */
  lemma OneShadowCount(cfg: Config, o: Oracles, msg: Message, c: Counters)
    requires cfg.mode == ShadowMode
    ensures var out := RunGovernance(cfg, o, msg, c);
            var swarm := SwarmDecide(cfg, o, BuildInput(cfg, msg));
            var legacy := LegacyLocal(cfg, BuildInput(cfg, msg));
            if out.verdict.Raised? then
              out.counters == c && out.stored == None
            else
              && out.counters.matches == c.matches +
                   (if o.swarmAvailable && swarm.Ok? && swarm.value.0.allowed == legacy.allowed then 1 else 0)
              && out.counters.mismatches == c.mismatches +
                   (if o.swarmAvailable && swarm.Ok? && swarm.value.0.allowed != legacy.allowed then 1 else 0)
              && out.counters.errors == c.errors + (if !o.swarmAvailable || swarm.Throws? then 1 else 0)
  {
  }

  /** Over any sequence of messages: the same visible outcomes and the same failure count. */
  lemma {:induction false} ShadowNeverInterferesOverRuns(cfg: Config, requests: seq<Request>, c: Counters, c': Counters)
    requires cfg.mode == ShadowMode && c.failed == c'.failed
    requires forall r :: r in requests ==> !SwarmEscapes(cfg, r.oracles, r.msg)
    ensures var (shadow, sc) := ProcessAll(cfg, requests, c);
            var (legacy, lc) := ProcessAll(cfg.(mode := Legacy), requests, c');
            sc.failed == lc.failed && SameSights(shadow, legacy)
  {
    if requests != [] {
      var prefix, last := requests[..|requests| - 1], requests[|requests| - 1];
      assert forall r :: r in prefix ==> r in requests;
      assert last in requests;
      ShadowNeverInterferesOverRuns(cfg, prefix, c, c');
      ShadowNeverInterferes(cfg, last.oracles, last.msg, ProcessAll(cfg, prefix, c).1,
                            ProcessAll(cfg.(mode := Legacy), prefix, c').1);
    }
  }

  ghost predicate SameSights(a: seq<Outcome>, b: seq<Outcome>) {
    |a| == |b| && forall i :: 0 <= i < |a| ==> Seen(a[i].verdict) == Seen(b[i].verdict)
  }

  // ----- enforced mode, end to end -----

  lemma {:induction false} NonEmptyMembers(values: seq<string>, v: string)
    ensures v in NonEmpty(values) <==> v in values && v != ""
  {
    if values != [] {
      assert values == values[..|values| - 1] + [values[|values| - 1]];
      NonEmptyMembers(values[..|values| - 1], v);
    }
  }

  /** The deduplicated list has the non-empty validators, each once. */
  lemma DedupeMembers(values: seq<string>)
    ensures forall v :: v in Dedupe(values) <==> v in values && v != ""
    ensures forall i, j :: 0 <= i < j < |Dedupe(values)| ==> Dedupe(values)[i] != Dedupe(values)[j]
  {
    forall v {
      NonEmptyMembers(values, v);
    }
  }

  /** The field names this agent, surrounding white space apart. */
  predicate Names(field: Json, agent: string) {
    IsNonBlank(field) && Strip(field.s) == agent
  }

  /** Who the mesh is asked to ask: the agents the two fields name. */
  lemma AskedAreNamed(cfg: Config, msg: Message, agent: string)
    ensures agent in Dedupe(BuildInput(cfg, msg).validatorIds) <==>
            || Names(Field(msg.metadata, "validated_by_agent"), agent)
            || Names(Field(msg.metadata, "independent_validator_id"), agent)
  {
    var a, b := Field(msg.metadata, "validated_by_agent"), Field(msg.metadata, "independent_validator_id");
    DedupeMembers(BuildInput(cfg, msg).validatorIds);
    assert agent in StrippedIfNamed(a) + StrippedIfNamed(b) <==> Names(a, agent) || Names(b, agent);
  }

  /** A message that the independent-validator gate lets through carries the named validator,
      stripped, into the list the mesh is asked with. The name as written is not the sender's. */
  lemma NamedValidatorIsAsked(cfg: Config, msg: Message)
    requires cfg.requireValidator && RequiresIndependentValidation(cfg, msg)
    requires ValidatorGate(cfg, msg) == None
    ensures IsNonBlank(NamedValidator(msg)) && NamedValidator(msg).s != msg.fromAgent
    ensures Strip(NamedValidator(msg).s) in Dedupe(BuildInput(cfg, msg).validatorIds)
  {
    AskedAreNamed(cfg, msg, Strip(NamedValidator(msg).s));
  }

  /** White space around the sender's name, or the sender in the field the gate does not read. */
  predicate NamesSender(msg: Message) {
    || Names(NamedValidator(msg), msg.fromAgent)
    || Names(Field(msg.metadata, "independent_validator_id"), msg.fromAgent)
  }

  predicate NamesOnlySender(msg: Message) {
    var other := Field(msg.metadata, "independent_validator_id");
    Names(NamedValidator(msg), msg.fromAgent) && (IsNonBlank(other) ==> Names(other, msg.fromAgent))
  }

  lemma AnotherIsNamed(cfg: Config, msg: Message, v: string)
    requires v in Dedupe(BuildInput(cfg, msg).validatorIds) && v != msg.fromAgent
    ensures !NamesOnlySender(msg)
  {
    AskedAreNamed(cfg, msg, v);
    NamedOrOther(msg, v);
  }

  lemma NamedIsAnother(cfg: Config, msg: Message) returns (v: string)
    requires IsNonBlank(NamedValidator(msg)) && !NamesOnlySender(msg)
    ensures v in Dedupe(BuildInput(cfg, msg).validatorIds) && v != msg.fromAgent
  {
    v := if Names(NamedValidator(msg), msg.fromAgent) then Strip(Field(msg.metadata, "independent_validator_id").s)
         else Strip(NamedValidator(msg).s);
    AskedAreNamed(cfg, msg, v);
    NamedOrOther(msg, v);
  }

  /** Somebody else is asked unless every field that names anybody names the sender. */
  lemma WhenOthersAreAsked(cfg: Config, msg: Message)
    requires IsNonBlank(NamedValidator(msg))
    ensures AsksAnother(cfg, msg) <==> !NamesOnlySender(msg)
  {
    if AsksAnother(cfg, msg) {
      var v :| v in Dedupe(BuildInput(cfg, msg).validatorIds) && v != msg.fromAgent;
      AnotherIsNamed(cfg, msg, v);
    }
    if !NamesOnlySender(msg) {
      var v := NamedIsAnother(cfg, msg);
    }
  }

  ghost predicate AsksAnother(cfg: Config, msg: Message) {
    exists v :: v in Dedupe(BuildInput(cfg, msg).validatorIds) && v != msg.fromAgent
  }

  lemma NamedOrOther(msg: Message, agent: string)
    ensures Names(NamedValidator(msg), agent) || Names(Field(msg.metadata, "independent_validator_id"), agent) <==>
            Names(Field(msg.metadata, "validated_by_agent"), agent)
            || Names(Field(msg.metadata, "independent_validator_id"), agent)
  {
  }

  /** The gate compares the name as written and reads one of the two fields. So past the gate the
      sender is itself asked if and only if either field still names it, and nobody else is asked
      if and only if every field that names anybody does; then there is white space around the
      name the gate read. */
  lemma WhenTheSenderIsAsked(cfg: Config, msg: Message)
    requires cfg.requireValidator && RequiresIndependentValidation(cfg, msg)
    requires ValidatorGate(cfg, msg) == None
    ensures msg.fromAgent in Dedupe(BuildInput(cfg, msg).validatorIds) <==> NamesSender(msg)
    ensures AsksAnother(cfg, msg) <==> !NamesOnlySender(msg)
    ensures Names(NamedValidator(msg), msg.fromAgent) ==> Strip(NamedValidator(msg).s) != NamedValidator(msg).s
  {
    NamedValidatorIsAsked(cfg, msg);
    AskedAreNamed(cfg, msg, msg.fromAgent);
    NamedOrOther(msg, msg.fromAgent);
    WhenOthersAreAsked(cfg, msg);
  }

  /** A request of agent "a" whose metadata is as given. */
  function RequestOfA(metadata: map<string, Json>): Message {
    Message("m", "t", "a", "governance_request", "", None, None, Null, Obj(metadata), Null)
  }

  lemma StripsToA()
    ensures Strip("a ") == "a" && Strip("a") == "a" && Strip("b") == "b"
  {
    assert "a "[..1] == "a";
    assert StripRight("a ") == StripRight("a");
  }

  lemma PassesTheGate(cfg: Config, metadata: map<string, Json>, named: string)
    requires cfg.requireValidator && "validation_stage" !in metadata
    requires NamedValidator(RequestOfA(metadata)) == Str(named) && named != "a" && Strip(named) != ""
    ensures RequiresIndependentValidation(cfg, RequestOfA(metadata))
    ensures ValidatorGate(cfg, RequestOfA(metadata)) == None
  {
  }

  /** White space around its own name takes a sender past the gate, and it alone is asked. */
  lemma WhiteSpacePassesTheGate(cfg: Config)
    requires cfg.requireValidator
    ensures var m := RequestOfA(map["validated_by_agent" := Str("a ")]);
            && RequiresIndependentValidation(cfg, m) && ValidatorGate(cfg, m) == None
            && NamesOnlySender(m) && m.fromAgent in Dedupe(BuildInput(cfg, m).validatorIds)
  {
    StripsToA();
    var m := RequestOfA(map["validated_by_agent" := Str("a ")]);
    PassesTheGate(cfg, m.metadata.fields, "a ");
    AskedAreNamed(cfg, m, "a");
  }

  /** So does its name in the field the gate does not read. */
  lemma SecondFieldPassesTheGate(cfg: Config)
    requires cfg.requireValidator
    ensures var m := RequestOfA(map["validated_by_agent" := Str("b"), "independent_validator_id" := Str("a")]);
            && RequiresIndependentValidation(cfg, m) && ValidatorGate(cfg, m) == None
            && !NamesOnlySender(m) && m.fromAgent in Dedupe(BuildInput(cfg, m).validatorIds)
  {
    StripsToA();
    var m := RequestOfA(map["validated_by_agent" := Str("b"), "independent_validator_id" := Str("a")]);
    PassesTheGate(cfg, m.metadata.fields, "b");
    AskedAreNamed(cfg, m, "a");
  }

  /** The peers were asked and approved. */
  predicate PeersApprove(cfg: Config, o: Oracles, input: Input) {
    var validators := Dedupe(input.validatorIds);
    o.quorum(input, |validators|).Ok? &&
    var answer := o.mesh(input, validators, VotesAsked(cfg, o, input));
    answer.Ok? && answer.value.MeshResult? && answer.value.accepted && answer.value.quorumMet
  }

  /** The swarm's decision when the peers approve: allowed, with the votes the mesh reported. */
  function ApprovedDecision(cfg: Config, o: Oracles, input: Input): Decision
    requires PeersApprove(cfg, o, input)
  {
    var validators := Dedupe(input.validatorIds);
    var answer := o.mesh(input, validators, VotesAsked(cfg, o, input)).value;
    Decision(true, None, [], [],
             Some(PeerDecision(true, "", answer.votesFor, answer.votesAgainst, true, Some(answer.trustScore))),
             Some(answer.trustScore), cfg.constitutionalHash, o.swarmHash, "swarm")
  }

  lemma EnforcedSwarm(cfg: Config, o: Oracles, input: Input)
    requires cfg.enablePeerValidation && input.needsValidator && Dedupe(input.validatorIds) != []
    ensures var s := SwarmDecide(cfg, o, input);
            (s.Ok? && s.value.0.allowed) <==>
            (&& HashFits(cfg, input.constitutionalHash)
             && o.swarmAvailable && o.dna(input.content) == Ok(DnaValid)
             && PeersApprove(cfg, o, input)
             && Attests(o.swarmAttest, Unattested(input, ApprovedDecision(cfg, o, input), "swarm")))
  {
    HashMeaning(cfg, input.constitutionalHash);
  }

  lemma EnforcedRun(cfg: Config, o: Oracles, msg: Message, c: Counters)
    requires cfg.mode == Enforced && cfg.enablePeerValidation
    requires BuildInput(cfg, msg).needsValidator && Dedupe(BuildInput(cfg, msg).validatorIds) != []
    ensures RunGovernance(cfg, o, msg, c).verdict.Passed? <==> EnforcedAccepts(cfg, o, msg)
  {
    EnforcedSwarm(cfg, o, BuildInput(cfg, msg));
  }

  /** The swarm's side of the bargain: expected hash, acceptable content, and the mesh
      accepting with quorum; and both receipts could be made. */
  ghost predicate EnforcedAccepts(cfg: Config, o: Oracles, msg: Message) {
    var input := BuildInput(cfg, msg);
    && LegacyReceiptMade(cfg, o, input)
    && HashFits(cfg, msg.constitutionalHash)
    && o.swarmAvailable && o.dna(msg.content) == Ok(DnaValid)
    && PeersApprove(cfg, o, input)
    && Attests(o.swarmAttest, Unattested(input, ApprovedDecision(cfg, o, input), "swarm"))
  }

  /** With enforcement on, a message that needs independent validation passes the whole
      pipeline if and only if every gate lets it through and the swarm accepts it; it
      then names a non-blank validator, and the mesh accepted it with quorum over a
      list that holds that validator, and somebody other than the sender unless the
      fields name the sender alone. */
  lemma EnforcedPasses(cfg: Config, o: Oracles, msg: Message, c: Counters)
    requires cfg.mode == Enforced && cfg.requireValidator && cfg.enablePeerValidation
    requires Sensitive(cfg, msg)
    ensures Process(cfg, o, msg, c).verdict.Passed? <==>
            ReachesGovernance(cfg, o, msg) && EnforcedAccepts(cfg, o, msg)
    ensures Process(cfg, o, msg, c).verdict.Passed? ==>
              && IsNonBlank(NamedValidator(msg))
              && Strip(NamedValidator(msg).s) in Dedupe(BuildInput(cfg, msg).validatorIds)
              && (AsksAnother(cfg, msg) <==> !NamesOnlySender(msg))
  {
    GatesMeaning(cfg, o, msg);
    SensitiveMeaning(cfg, msg);
    if ReachesGovernance(cfg, o, msg) {
      ValidatorGateMeaning(cfg, msg);
      NamedValidatorIsAsked(cfg, msg);
      WhenTheSenderIsAsked(cfg, msg);
      EnforcedRun(cfg, o, msg, c);
    }
  }

  /** Unless the quorum is adaptive, the mesh was asked for every validator's vote. */
  lemma EnforcedMeansUnanimity(cfg: Config, o: Oracles, msg: Message, c: Counters)
    requires cfg.mode == Enforced && cfg.requireValidator && cfg.enablePeerValidation
    requires Sensitive(cfg, msg) && !cfg.enableAdaptiveQuorum
    requires Process(cfg, o, msg, c).verdict.Passed?
    ensures var validators := Dedupe(BuildInput(cfg, msg).validatorIds);
            var answer := o.mesh(BuildInput(cfg, msg), validators, |validators|);
            && validators != []
            && answer.Ok? && answer.value.MeshResult? && answer.value.accepted && answer.value.quorumMet
  {
    EnforcedPasses(cfg, o, msg, c);
    assert PeersApprove(cfg, o, BuildInput(cfg, msg));
  }
}
