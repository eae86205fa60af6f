/** The verdict on one message through the whole pipeline, mode by mode. */
module GovernanceVerdicts {
  import opened JsonValues
  import opened Governance
  import opened GovernanceRules
  import opened GovernanceLaws

  // ----- the gates -----

  /** The message is refused at a gate: one more failure, and nothing is stored. */
  ghost predicate RefusedAtGate(out: Outcome, r: Rejection, c: Counters) {
    && out.verdict == Rejected(r) && out.stored == None
    && out.counters == Counters(c.failed + 1, c.matches, c.mismatches, c.errors)
  }

  /** A collaborator's exception goes through: nothing is counted or stored. */
  ghost predicate Broken(out: Outcome, thrown: Thrown, c: Counters) {
    out == Outcome(Raised(thrown), None, c)
  }

  /** The tier is judged first, then the scan, then the validator, then the injection test:
      the first that objects decides, and says why. */
  lemma FirstObjectionDecides(cfg: Config, o: Oracles, msg: Message, c: Counters)
    ensures var out := Process(cfg, o, msg, c);
            if !TierAllows(cfg, msg) then RefusedForItsTier(out, msg, c)
            else match o.scan(msg)
              case Throws(thrown) => Broken(out, thrown, c)
              case Ok(Some(r)) => RefusedAtGate(out, r, c)
              case Ok(None) =>
                if !ValidatorFits(cfg, msg) then RefusedForItsValidator(out, msg, c)
                else match o.injection(msg)
                  case Throws(thrown) => Broken(out, thrown, c)
                  case Ok(Some(r)) => RefusedAtGate(out, r, c)
                  case Ok(None) => out == RunGovernance(cfg, o, msg, c)
  {
    TierGateMeaning(cfg, msg);
    ValidatorGateMeaning(cfg, msg);
    GatesMeaning(cfg, o, msg);
    var out := Process(cfg, o, msg, c);
    if !TierAllows(cfg, msg) {
      assert RefusedAtGate(out, AutonomyGate(cfg, msg).value, c);
    } else if o.scan(msg) == Ok(None) && !ValidatorFits(cfg, msg) {
      assert RefusedAtGate(out, ValidatorGate(cfg, msg).value, c);
    }
  }

  ghost predicate RefusedForItsTier(out: Outcome, msg: Message, c: Counters) {
    exists r :: && RefusedAtGate(out, r, c) && Objects(Some(r), "autonomy_tier_violation")
                && TierComplaint(msg, r.errors[0])
  }

  ghost predicate RefusedForItsValidator(out: Outcome, msg: Message, c: Counters) {
    exists r :: RefusedAtGate(out, r, c) && ValidatorComplaint(msg, Some(r))
  }

  // ----- what follows from a decision -----

  /** The decision and its receipt are stored, and the message passes or is refused on them. */
  ghost predicate Decided(out: Outcome, a: Artifacts, before: Counters, after: Counters) {
    && out.stored == Some(a) && (out.verdict.Passed? <==> a.decision.allowed)
    && out.counters == after.(failed := before.failed + if a.decision.allowed then 0 else 1)
    && (!a.decision.allowed ==> out.verdict.Rejected? && RefusedOn(out.verdict.rejection, a))
  }

  ghost predicate RefusedOn(r: Rejection, a: Artifacts) {
    && r.decision == Some(a.decision) && r.receipt == Some(a.receipt) && r.shadow == a.shadow
    && Some(r.reason) == a.decision.blockingStage
    && r.errors == if a.decision.reasons == [] then ["Governance validation rejected the message"]
                   else a.decision.reasons
  }

  ghost predicate Named(d: Decision) {
    && (d.allowed <==> d.blockingStage == None)
    && (d.blockingStage.Some? ==> d.blockingStage.value != "")
  }

  lemma ConcludeDecides(d: Decision, receipt: Receipt, shadow: Option<Shadow>, c: Counters)
    requires Named(d)
    ensures Decided(Conclude(d, receipt, shadow, c), Artifacts(d, receipt, shadow), c, c)
  {
  }

  // ----- legacy mode -----

  /** The legacy core judges the hash and nothing else. */
  ghost predicate JudgesTheHash(cfg: Config, msg: Message, d: Decision) {
    if HashFits(cfg, msg.constitutionalHash)
    then d == Decision(true, None, [], [], None, None, cfg.constitutionalHash, None, "legacy")
    else && d == Decision(false, Some("constitutional_hash"), d.reasons, [], None, None, cfg.constitutionalHash,
                          None, "legacy")
         && |d.reasons| == 1 && HashComplaint(msg.constitutionalHash, d.reasons[0])
  }

  lemma LegacyMeaning(cfg: Config, msg: Message)
    ensures JudgesTheHash(cfg, msg, LegacyLocal(cfg, BuildInput(cfg, msg)))
    ensures Named(LegacyLocal(cfg, BuildInput(cfg, msg)))
  {
    HashMeaning(cfg, msg.constitutionalHash);
  }

  /** In legacy mode a message passes the whole pipeline if and only if no gate objects, its
      receipt is made, and its hash is the expected one. */
  lemma LegacyPasses(cfg: Config, o: Oracles, msg: Message, c: Counters)
    requires cfg.mode == Legacy
    ensures Process(cfg, o, msg, c).verdict.Passed? <==>
            && ReachesGovernance(cfg, o, msg) && LegacyReceiptMade(cfg, o, BuildInput(cfg, msg))
            && msg.constitutionalHash == Str(cfg.constitutionalHash)
  {
    GatesMeaning(cfg, o, msg);
    LegacyMeaning(cfg, msg);
  }

  /** The receipt is the described one, with the provider's answer added. */
  ghost predicate IsReceipt(r: Receipt, msg: Message, d: Decision, engine: string, attest: Option<Attester>) {
    var bare := r.(attestation := None);
    && Describes(bare, msg, d, engine)
    && match attest
       case None => r == bare
       case Some(provider) => provider(bare) == Ok(r.attestation)
  }

  lemma MadeReceipt(cfg: Config, msg: Message, d: Decision, engine: string, attest: Option<Attester>)
    ensures var made := BuildReceipt(BuildInput(cfg, msg), d, engine, attest);
            made.Ok? ==> IsReceipt(made.value, msg, d, engine, attest)
  {
    ReceiptMeaning(cfg, msg, d, engine, attest);
    var made := BuildReceipt(BuildInput(cfg, msg), d, engine, attest);
    if made.Ok? {
      assert made.value.(attestation := None) == Unattested(BuildInput(cfg, msg), d, engine);
    }
  }

  /** Past the gates and with its receipt, the legacy core's decision is there first. */
  lemma LegacyComesFirst(cfg: Config, o: Oracles, msg: Message, c: Counters)
    returns (legacy: Decision, receipt: Receipt)
    requires ReachesGovernance(cfg, o, msg) && LegacyReceiptMade(cfg, o, BuildInput(cfg, msg))
    ensures Process(cfg, o, msg, c) == WithLegacy(cfg, o, BuildInput(cfg, msg), legacy, receipt, c)
    ensures JudgesTheHash(cfg, msg, legacy) && Named(legacy)
    ensures legacy.allowed <==> HashFits(cfg, msg.constitutionalHash)
    ensures IsReceipt(receipt, msg, legacy, "legacy", o.legacyAttest)
  {
    GatesMeaning(cfg, o, msg);
    LegacyMeaning(cfg, msg);
    legacy := LegacyLocal(cfg, BuildInput(cfg, msg));
    MadeReceipt(cfg, msg, legacy, "legacy", o.legacyAttest);
    receipt := BuildReceipt(BuildInput(cfg, msg), legacy, "legacy", o.legacyAttest).value;
  }

  /** Past the gates: a decision on the hash is stored with its receipt, and the verdict is its. */
  lemma LegacyDecides(cfg: Config, o: Oracles, msg: Message, c: Counters) returns (a: Artifacts)
    requires cfg.mode == Legacy
    requires ReachesGovernance(cfg, o, msg) && LegacyReceiptMade(cfg, o, BuildInput(cfg, msg))
    ensures Decided(Process(cfg, o, msg, c), a, c, c)
    ensures JudgesTheHash(cfg, msg, a.decision) && a.shadow == None
    ensures IsReceipt(a.receipt, msg, a.decision, "legacy", o.legacyAttest)
  {
    var legacy, receipt := LegacyComesFirst(cfg, o, msg, c);
    ConcludeDecides(legacy, receipt, None, c);
    a := Artifacts(legacy, receipt, None);
  }

  // ----- with the swarm -----

  /** Enforced or not, the two decisions are compared and counted. */
  ghost predicate Compared(c: Counters, after: Counters, legacy: bool, swarm: bool) {
    after == if legacy == swarm then c.(matches := c.matches + 1) else c.(mismatches := c.mismatches + 1)
  }

  lemma WithBothDecides(cfg: Config, legacy: Decision, receipt: Receipt, swarm: Decision, swarmReceipt: Receipt,
                        c: Counters) returns (a: Artifacts, after: Counters)
    requires Named(legacy) && Named(swarm)
    ensures Decided(WithBoth(cfg, legacy, receipt, swarm, swarmReceipt, c), a, c, after)
    ensures Compared(c, after, legacy.allowed, swarm.allowed)
    ensures a.shadow == Some(Shadow(if legacy.allowed == swarm.allowed then Match else Mismatch, legacy.allowed,
                                    Some(swarm.allowed)))
    ensures a.decision == (if cfg.mode == Enforced then swarm else legacy)
    ensures a.receipt == (if cfg.mode == Enforced then swarmReceipt else receipt)
  {
    var agree := legacy.allowed == swarm.allowed;
    after := if agree then c.(matches := c.matches + 1) else c.(mismatches := c.mismatches + 1);
    var shadow := Some(Shadow(if agree then Match else Mismatch, legacy.allowed, Some(swarm.allowed)));
    if cfg.mode == Enforced {
      a := Artifacts(swarm, swarmReceipt, shadow);
    } else {
      a := Artifacts(legacy, receipt, shadow);
    }
    ConcludeDecides(a.decision, a.receipt, shadow, after);
  }

  /** The swarm's decision and its receipt. */
  lemma SwarmComesSecond(cfg: Config, o: Oracles, msg: Message) returns (swarm: Decision, receipt: Receipt)
    requires SwarmDecide(cfg, o, BuildInput(cfg, msg)).Ok?
    ensures SwarmDecide(cfg, o, BuildInput(cfg, msg)) == Ok((swarm, receipt))
    ensures SwarmDecision(cfg, o, BuildInput(cfg, msg)) == Ok(swarm) && Named(swarm)
    ensures IsReceipt(receipt, msg, swarm, "swarm", o.swarmAttest)
  {
    SwarmDecisionCoherent(cfg, o, BuildInput(cfg, msg));
    swarm := SwarmDecision(cfg, o, BuildInput(cfg, msg)).value;
    MadeReceipt(cfg, msg, swarm, "swarm", o.swarmAttest);
    receipt := BuildReceipt(BuildInput(cfg, msg), swarm, "swarm", o.swarmAttest).value;
  }

  /** The swarm was asked and its receipt made: who decides is a matter of the mode. */
  lemma BothDecide(cfg: Config, o: Oracles, msg: Message, c: Counters) returns (a: Artifacts, after: Counters)
    requires ReachesGovernance(cfg, o, msg) && LegacyReceiptMade(cfg, o, BuildInput(cfg, msg))
    requires cfg.mode == Enforced || (cfg.mode == ShadowMode && o.swarmAvailable)
    requires SwarmDecide(cfg, o, BuildInput(cfg, msg)).Ok?
    ensures Decided(Process(cfg, o, msg, c), a, c, after)
    ensures var d := SwarmDecision(cfg, o, BuildInput(cfg, msg));
            var fits := HashFits(cfg, msg.constitutionalHash);
            && d.Ok? && Compared(c, after, fits, d.value.allowed)
            && a.shadow == Some(Shadow(if fits == d.value.allowed then Match else Mismatch, fits,
                                       Some(d.value.allowed)))
            && (cfg.mode == Enforced ==>
                  a.decision == d.value && IsReceipt(a.receipt, msg, d.value, "swarm", o.swarmAttest))
            && (cfg.mode == ShadowMode ==>
                  JudgesTheHash(cfg, msg, a.decision)
                  && IsReceipt(a.receipt, msg, a.decision, "legacy", o.legacyAttest))
  {
    var legacy, receipt := LegacyComesFirst(cfg, o, msg, c);
    var swarm, swarmReceipt := SwarmComesSecond(cfg, o, msg);
    a, after := WithBothDecides(cfg, legacy, receipt, swarm, swarmReceipt, c);
  }

  /** The rejection of a message whose swarm broke, with a receipt that says so. */
  ghost predicate RefusedForASwarmError(r: Rejection, cfg: Config, msg: Message, text: string) {
    && r.errors == [text] && r.reason == "swarm_error" && r.shadow == None
    && r.decision == Some(Decision(false, Some("swarm_error"), [text], [], None, None, cfg.constitutionalHash,
                                   None, "swarm"))
    && r.receipt.Some? && Describes(r.receipt.value, msg, r.decision.value, "swarm")
  }

  /** A listed exception of the swarm refuses the message when enforced, and only leaves a note
      in shadow mode, where a swarm that is not there does the same. */
  lemma ListedErrors(cfg: Config, o: Oracles, msg: Message, c: Counters, text: string)
    requires ReachesGovernance(cfg, o, msg) && LegacyReceiptMade(cfg, o, BuildInput(cfg, msg))
    requires SwarmDecide(cfg, o, BuildInput(cfg, msg)) == Throws(Listed(text))
    requires cfg.mode == Enforced
    ensures var out := Process(cfg, o, msg, c);
            && out.stored == None && out.counters == c.(failed := c.failed + 1)
            && out.verdict.Rejected? && RefusedForASwarmError(out.verdict.rejection, cfg, msg, text)
  {
    var legacy, receipt := LegacyComesFirst(cfg, o, msg, c);
    var r := FailureResult(SwarmErrorDecision(cfg, text), SwarmErrorReceipt(BuildInput(cfg, msg), text), None);
    SwarmErrorMeaning(cfg, msg, text);
    assert WithLegacy(cfg, o, BuildInput(cfg, msg), legacy, receipt, c) ==
           Outcome(Rejected(r), None, c.(failed := c.failed + 1));
  }

  lemma SwarmErrorMeaning(cfg: Config, msg: Message, text: string)
    ensures var r := SwarmErrorReceipt(BuildInput(cfg, msg), text);
            RefusedForASwarmError(FailureResult(SwarmErrorDecision(cfg, text), r, None), cfg, msg, text)
  {
    var d, r := SwarmErrorDecision(cfg, text), SwarmErrorReceipt(BuildInput(cfg, msg), text);
    SwarmErrorReceiptMeaning(cfg, msg, text);
    FailureMeaning(d, r);
  }

  lemma SwarmErrorReceiptMeaning(cfg: Config, msg: Message, text: string)
    ensures Describes(SwarmErrorReceipt(BuildInput(cfg, msg), text), msg, SwarmErrorDecision(cfg, text), "swarm")
  {
  }

  lemma FailureMeaning(d: Decision, receipt: Receipt)
    requires d.reasons != [] && d.blockingStage.Some? && d.blockingStage.value != ""
    ensures FailureResult(d, receipt, None) ==
            Rejection(d.reasons, d.blockingStage.value, Some(d), Some(receipt), None)
  {
  }

  /** What a shadow run notes when there is nothing to compare with. */
  ghost predicate Noted(cfg: Config, o: Oracles, msg: Message, text: string) {
    if o.swarmAvailable then SwarmDecide(cfg, o, BuildInput(cfg, msg)) == Throws(Listed(text))
    else NotAvailable(o, text)
  }

  lemma ShadowNotes(cfg: Config, o: Oracles, msg: Message, c: Counters, text: string) returns (a: Artifacts)
    requires ReachesGovernance(cfg, o, msg) && LegacyReceiptMade(cfg, o, BuildInput(cfg, msg))
    requires cfg.mode == ShadowMode && Noted(cfg, o, msg, text)
    ensures Decided(Process(cfg, o, msg, c), a, c, c.(errors := c.errors + 1))
    ensures JudgesTheHash(cfg, msg, a.decision) && IsReceipt(a.receipt, msg, a.decision, "legacy", o.legacyAttest)
    ensures a.shadow == Some(Shadow(Error(text), HashFits(cfg, msg.constitutionalHash), None))
  {
    var legacy, receipt := LegacyComesFirst(cfg, o, msg, c);
    NotedMeaning(cfg, o, msg, text, legacy, receipt, c);
    var shadow := Some(Shadow(Error(text), legacy.allowed, None));
    ConcludeDecides(legacy, receipt, shadow, c.(errors := c.errors + 1));
    a := Artifacts(legacy, receipt, shadow);
  }

  lemma NotedMeaning(cfg: Config, o: Oracles, msg: Message, text: string, legacy: Decision, receipt: Receipt,
                     c: Counters)
    requires cfg.mode == ShadowMode && Noted(cfg, o, msg, text)
    ensures WithLegacy(cfg, o, BuildInput(cfg, msg), legacy, receipt, c) ==
            Conclude(legacy, receipt, Some(Shadow(Error(text), legacy.allowed, None)), c.(errors := c.errors + 1))
  {
  }

  /** The swarm allows and its receipt can be made. */
  ghost predicate SwarmAccepts(cfg: Config, o: Oracles, input: Input) {
    && input.constitutionalHash == Str(cfg.constitutionalHash)
    && o.swarmAvailable && o.dna(input.content) == Ok(DnaValid)
    && (PeersAsked(cfg, o, input) ==> PeersApprove(cfg, o, input))
    && SwarmDecision(cfg, o, input).Ok?
    && Attests(o.swarmAttest, Unattested(input, SwarmDecision(cfg, o, input).value, "swarm"))
  }

  lemma SwarmAllows(cfg: Config, o: Oracles, input: Input)
    ensures var d := SwarmDecision(cfg, o, input);
            d.Ok? && d.value.allowed <==>
            && input.constitutionalHash == Str(cfg.constitutionalHash)
            && o.swarmAvailable && o.dna(input.content) == Ok(DnaValid)
            && (PeersAsked(cfg, o, input) ==> PeersApprove(cfg, o, input))
  {
    if PeersAsked(cfg, o, input) {
      DecidedByThePeers(cfg, o, input);
    } else if DnaAsked(cfg, o, input) {
      DecidedByTheDna(cfg, o, input);
    } else {
      BlockedBeforeTheDna(cfg, o, input);
    }
  }

  lemma SwarmAcceptsMeaning(cfg: Config, o: Oracles, input: Input)
    ensures var s := SwarmDecide(cfg, o, input);
            s.Ok? && s.value.0.allowed <==> SwarmAccepts(cfg, o, input)
  {
    SwarmAllows(cfg, o, input);
  }

  /** Enforced, with or without peers to ask: passing takes the expected hash, content without
      violations, and the peers' approval wherever they are asked. */
  lemma EnforcedPassesOnlyOnTheHash(cfg: Config, o: Oracles, msg: Message, c: Counters)
    requires cfg.mode == Enforced
    ensures Process(cfg, o, msg, c).verdict.Passed? <==>
            && ReachesGovernance(cfg, o, msg) && LegacyReceiptMade(cfg, o, BuildInput(cfg, msg))
            && SwarmAccepts(cfg, o, BuildInput(cfg, msg))
    ensures Process(cfg, o, msg, c).verdict.Passed? ==> msg.constitutionalHash == Str(cfg.constitutionalHash)
  {
    GatesMeaning(cfg, o, msg);
    SwarmAcceptsMeaning(cfg, o, BuildInput(cfg, msg));
  }
}
