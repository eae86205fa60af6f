/** The governance decision of one message: legacy, shadow and enforced cores. */
module Governance {
  import opened JsonValues
  import opened Strings

  // ----- messages and results -----

  datatype Message = Message(
    id: string, tenant: string, fromAgent: string, messageType: string, content: string,
    impactScore: Option<real>, autonomyTier: Option<string>,
    constitutionalHash: Json, metadata: Json, securityContext: Json)

  datatype Decision = Decision(
    allowed: bool, blockingStage: Option<string>, reasons: seq<string>, ruleHits: seq<string>,
    peerVotes: Option<PeerDecision>, trustScore: Option<real>, constitutionalHash: string,
    swarmHash: Option<string>, engine: string)

  datatype PeerDecision = PeerDecision(
    approved: bool, reason: string, votesFor: int, votesAgainst: int, quorumMet: bool,
    trustScore: Option<real>)

  type JsonObject = map<string, Json>

  datatype Receipt = Receipt(
    id: string, engine: string, messageId: string, producerId: string, constitutionalHash: Json,
    allowed: bool, blockingStage: Option<string>, reasons: seq<string>, ruleHits: seq<string>,
    peerVotes: Option<PeerDecision>, trustScore: Option<real>, swarmHash: Option<string>,
    attestation: Option<JsonObject>)

  datatype Input = Input(
    tenant: string, messageId: string, producerId: string, producerRole: Option<string>,
    actionType: string, content: string, constitutionalHash: Json, autonomyTier: Option<string>,
    needsValidator: bool, impactScore: Option<real>, validatorIds: seq<string>)

  datatype Parity = Match | Mismatch | Error(text: string)

  datatype Shadow = Shadow(status: Parity, legacyAllowed: bool, swarmAllowed: Option<bool>)

  /** A ValidationResult that rejects, with the metadata the model keeps. */
  datatype Rejection = Rejection(
    errors: seq<string>, reason: string, decision: Option<Decision>, receipt: Option<Receipt>,
    shadow: Option<Shadow>)

  /** An exception: one of those run() lists, or any other. */
  datatype Thrown = Listed(text: string) | Unlisted

  datatype Try<+T> = Ok(value: T) | Throws(thrown: Thrown)

  // ----- configuration, and the collaborators this model does not contain -----

  datatype Mode = Legacy | ShadowMode | Enforced

  datatype Config = Config(
    mode: Mode, constitutionalHash: string, requireValidator: bool, threshold: real,
    advisoryBlocked: set<string>, enablePeerValidation: bool, enableDangerSignals: bool,
    enableAdaptiveQuorum: bool)

  datatype DnaAnswer = DnaValid | DnaInvalid(violations: seq<string>) | DnaViolation(text: string)

  datatype MeshAnswer =
    | MeshResult(accepted: bool, quorumMet: bool, votesFor: int, votesAgainst: int, trustScore: real)
    | MeshViolation(text: string)

  /** An attestation provider: an object, nothing, or an exception. */
  type Attester = Receipt -> Try<Option<JsonObject>>

  /** One call's worth of answers from the scanner, the DNA, the mesh, the danger-signal
      analyser and the attestation providers; each may answer anything or raise. */
  datatype Oracles = Oracles(
    scan: Message -> Try<Option<Rejection>>,
    injection: Message -> Try<Option<Rejection>>,
    swarmAvailable: bool, swarmError: Option<string>, swarmHash: Option<string>,
    dna: string -> Try<DnaAnswer>,
    quorum: (Input, nat) -> Try<int>,
    mesh: (Input, seq<string>, int) -> Try<MeshAnswer>,
    legacyAttest: Option<Attester>,
    swarmAttest: Option<Attester>)

  // ----- message fields -----

  function Field(j: Json, key: string): Json {
    if j.Obj? && key in j.fields then j.fields[key] else Null
  }

  /** a or b */
  function Or(a: Json, b: Json): Json {
    if Truthy(a) then a else b
  }

  predicate IsNonBlank(j: Json) {
    j.Str? && Strip(j.s) != ""
  }

  /** metadata.get("validated_by_agent") or metadata.get("independent_validator_id") */
  function NamedValidator(msg: Message): Json {
    Or(Field(msg.metadata, "validated_by_agent"), Field(msg.metadata, "independent_validator_id"))
  }

  function RequiresIndependentValidation(cfg: Config, msg: Message): bool {
    var impact := match msg.impactScore case Some(r) => r case None => 0.0;
    impact >= cfg.threshold || msg.messageType in {"constitutional_validation", "governance_request"}
  }

  function ProducerRole(msg: Message): Option<string> {
    var role := Field(msg.metadata, "maci_role");
    if IsNonBlank(role) then Some(role.s) else
      var fallback := Field(msg.securityContext, "maci_role");
      if fallback.Str? then Some(fallback.s) else None
  }

  function StrippedIfNamed(j: Json): seq<string> {
    if IsNonBlank(j) then [Strip(j.s)] else []
  }

  function BuildInput(cfg: Config, msg: Message): Input {
    Input(msg.tenant, msg.id, if msg.fromAgent != "" then msg.fromAgent else "unknown-producer",
          ProducerRole(msg), msg.messageType, msg.content, msg.constitutionalHash, msg.autonomyTier,
          cfg.requireValidator && RequiresIndependentValidation(cfg, msg), msg.impactScore,
          Distincts(StrippedIfNamed(Field(msg.metadata, "validated_by_agent"))
                    + StrippedIfNamed(Field(msg.metadata, "independent_validator_id"))))
  }

  // ----- the cores -----

  /** The errors of validate_constitutional_hash; none when the hash is the expected one. */
  function HashErrors(cfg: Config, hash: Json): seq<string> {
    if !hash.Str? then ["Constitutional hash must be a string"]
    else if hash.s == cfg.constitutionalHash then []
    else ["Constitutional hash mismatch (provided: "
          + (if |hash.s| > 8 then hash.s[..8] + "..." else hash.s) + ")"]
  }

  function Blocked(cfg: Config, stage: string, reasons: seq<string>, hits: seq<string>, engine: string,
                   swarmHash: Option<string>): Decision {
    Decision(false, Some(stage), reasons, hits, None, None, cfg.constitutionalHash, swarmHash, engine)
  }

  function Allowed(cfg: Config, engine: string, swarmHash: Option<string>): Decision {
    Decision(true, None, [], [], None, None, cfg.constitutionalHash, swarmHash, engine)
  }

  function LegacyLocal(cfg: Config, input: Input): Decision {
    var errors := HashErrors(cfg, input.constitutionalHash);
    if errors != [] then Blocked(cfg, "constitutional_hash", errors, [], "legacy", None)
    else Allowed(cfg, "legacy", None)
  }

  function Attach(receipt: Receipt, attest: Option<Attester>): Try<Receipt> {
    match attest
    case None => Ok(receipt)
    case Some(provider) =>
      match provider(receipt)
      case Ok(attestation) => Ok(receipt.(attestation := attestation))
      case Throws(thrown) => Throws(thrown)
  }

  function Unattested(input: Input, d: Decision, engine: string): Receipt {
    Receipt(engine + ":" + input.messageId, engine, input.messageId, input.producerId,
            input.constitutionalHash, d.allowed, d.blockingStage, d.reasons, d.ruleHits,
            d.peerVotes, d.trustScore, d.swarmHash, None)
  }

  function BuildReceipt(input: Input, d: Decision, engine: string, attest: Option<Attester>): Try<Receipt> {
    Attach(Unattested(input, d, engine), attest)
  }

  function UnavailableText(o: Oracles): string {
    match o.swarmError
    case Some(text) => if text != "" then text else "swarm unavailable"
    case None => "swarm unavailable"
  }

  /** The part of each violation before its first colon, stripped, if anything is left. */
  function RuleHits(violations: seq<string>): seq<string> {
    if violations == [] then [] else
      var rule := Strip(BeforeColon(violations[|violations| - 1]));
      RuleHits(violations[..|violations| - 1]) + if rule != "" then [rule] else []
  }

  function BeforeColon(s: string): string {
    if s == "" || s[0] == ':' then "" else [s[0]] + BeforeColon(s[1..])
  }

  function SwarmLocal(cfg: Config, o: Oracles, input: Input): Try<Decision> {
    var errors := HashErrors(cfg, input.constitutionalHash);
    if errors != [] then Ok(Blocked(cfg, "constitutional_hash", errors, [], "swarm", o.swarmHash))
    else if !o.swarmAvailable then
      Ok(Blocked(cfg, "swarm_unavailable", [UnavailableText(o)], [], "swarm", o.swarmHash))
    else match o.dna(input.content)
      case Throws(thrown) => Throws(thrown)
      case Ok(DnaViolation(text)) =>
        Ok(Blocked(cfg, "constitutional_rules", [text], [], "swarm", o.swarmHash))
      case Ok(DnaInvalid(violations)) =>
        Ok(Blocked(cfg, "constitutional_rules", violations, RuleHits(violations), "swarm", o.swarmHash))
      case Ok(DnaValid) => Ok(Allowed(cfg, "swarm", o.swarmHash))
  }

  /** _dedupe_strings: without empty strings and repetitions. */
  function Dedupe(values: seq<string>): seq<string> {
    Distincts(NonEmpty(values))
  }

  function NonEmpty(values: seq<string>): seq<string> {
    if values == [] then [] else
      NonEmpty(values[..|values| - 1]) +
        if values[|values| - 1] != "" then [values[|values| - 1]] else []
  }

  function RequiredVotes(cfg: Config, o: Oracles, input: Input, validators: nat): Try<int> {
    match o.quorum(input, validators)
    case Throws(thrown) => Throws(thrown)
    case Ok(votes) => Ok(if cfg.enableAdaptiveQuorum then votes else validators)
  }

  function SwarmPeer(cfg: Config, o: Oracles, input: Input): Try<Option<PeerDecision>> {
    var validators := Dedupe(input.validatorIds);
    if !input.needsValidator || !cfg.enablePeerValidation || validators == [] then Ok(None)
    else if !o.swarmAvailable then
      Ok(Some(PeerDecision(false, UnavailableText(o), 0, 0, false, None)))
    else match RequiredVotes(cfg, o, input, |validators|)
      case Throws(thrown) => Throws(thrown)
      case Ok(votes) =>
        match o.mesh(input, validators, votes)
        case Throws(thrown) => Throws(thrown)
        case Ok(MeshViolation(text)) => Ok(Some(PeerDecision(false, text, 0, 0, false, None)))
        case Ok(MeshResult(accepted, quorumMet, votesFor, votesAgainst, trust)) =>
          var reason := if !quorumMet then "peer quorum not met"
                        else if !accepted then "peer validation rejected content" else "";
          Ok(Some(PeerDecision(accepted && quorumMet, reason, votesFor, votesAgainst, quorumMet, Some(trust))))
  }

  /** The local decision and the peers' together. */
  function Combine(d: Decision, peer: Option<PeerDecision>): Decision {
    match peer
    case None => d.(peerVotes := None, trustScore := None)
    case Some(p) =>
      d.(allowed := d.allowed && p.approved,
         blockingStage := if d.blockingStage.Some? && d.blockingStage.value != "" then d.blockingStage
                          else if !p.approved then Some("peer_validation") else None,
         reasons := if p.approved then d.reasons
                    else NonEmpty(d.reasons + [p.reason]),
         peerVotes := peer,
         trustScore := p.trustScore)
  }

  /** The local decision and, if it allows, the peers'. */
  function SwarmDecision(cfg: Config, o: Oracles, input: Input): Try<Decision> {
    match SwarmLocal(cfg, o, input)
    case Throws(thrown) => Throws(thrown)
    case Ok(local) =>
      match if local.allowed then SwarmPeer(cfg, o, input) else Ok(None)
      case Throws(thrown) => Throws(thrown)
      case Ok(peer) => Ok(Combine(local, peer))
  }

  /** Everything inside the try block of run(). */
  function SwarmDecide(cfg: Config, o: Oracles, input: Input): Try<(Decision, Receipt)> {
    match SwarmDecision(cfg, o, input)
    case Throws(thrown) => Throws(thrown)
    case Ok(d) =>
      match BuildReceipt(input, d, "swarm", o.swarmAttest)
      case Throws(thrown) => Throws(thrown)
      case Ok(receipt) => Ok((d, receipt))
  }

  // ----- run() -----

  /** Failure and shadow counters. */
  datatype Counters = Counters(failed: nat, matches: nat, mismatches: nat, errors: nat)

  /** What run() leaves in the processing context. */
  datatype Artifacts = Artifacts(decision: Decision, receipt: Receipt, shadow: Option<Shadow>)

  datatype Verdict = Passed | Rejected(rejection: Rejection) | Raised(thrown: Thrown)

  datatype Outcome = Outcome(verdict: Verdict, stored: Option<Artifacts>, counters: Counters)

  function FailureResult(d: Decision, receipt: Receipt, shadow: Option<Shadow>): Rejection {
    Rejection(if d.reasons != [] then d.reasons else ["Governance validation rejected the message"],
              if d.blockingStage.Some? && d.blockingStage.value != "" then d.blockingStage.value
              else "governance_core_rejected",
              Some(d), Some(receipt), shadow)
  }

  /** Store the artifacts, then accept or count and reject. */
  function Conclude(d: Decision, receipt: Receipt, shadow: Option<Shadow>, c: Counters): Outcome {
    if d.allowed then Outcome(Passed, Some(Artifacts(d, receipt, shadow)), c)
    else Outcome(Rejected(FailureResult(d, receipt, shadow)), Some(Artifacts(d, receipt, shadow)),
                 c.(failed := c.failed + 1))
  }

  function SwarmErrorDecision(cfg: Config, text: string): Decision {
    Decision(false, Some("swarm_error"), [text], [], None, None, cfg.constitutionalHash, None, "swarm")
  }

  function SwarmErrorReceipt(input: Input, text: string): Receipt {
    Receipt("swarm:" + input.messageId, "swarm", input.messageId, input.producerId,
            input.constitutionalHash, false, Some("swarm_error"), [text], [], None, None, None, None)
  }

  /** run() once both cores have decided: compare, then select one of them. */
  function WithBoth(cfg: Config, legacy: Decision, receipt: Receipt, swarm: Decision, swarmReceipt: Receipt,
                    c: Counters): Outcome {
    var agree := legacy.allowed == swarm.allowed;
    var c' := if agree then c.(matches := c.matches + 1) else c.(mismatches := c.mismatches + 1);
    var shadow := Some(Shadow(if agree then Match else Mismatch, legacy.allowed, Some(swarm.allowed)));
    if cfg.mode.Enforced? then Conclude(swarm, swarmReceipt, shadow, c')
    else Conclude(legacy, receipt, shadow, c')
  }

  function WithSwarm(cfg: Config, o: Oracles, input: Input, legacy: Decision, receipt: Receipt, c: Counters): Outcome {
    match SwarmDecide(cfg, o, input)
    case Throws(Unlisted) => Outcome(Raised(Unlisted), None, c)
    case Throws(Listed(text)) =>
      if cfg.mode.Enforced? then
        Outcome(Rejected(FailureResult(SwarmErrorDecision(cfg, text), SwarmErrorReceipt(input, text), None)),
                None, c.(failed := c.failed + 1))
      else
        Conclude(legacy, receipt, Some(Shadow(Error(text), legacy.allowed, None)), c.(errors := c.errors + 1))
    case Ok((swarm, swarmReceipt)) => WithBoth(cfg, legacy, receipt, swarm, swarmReceipt, c)
  }

  /** run() once the legacy core has decided and made its receipt. */
  function WithLegacy(cfg: Config, o: Oracles, input: Input, legacy: Decision, receipt: Receipt, c: Counters): Outcome {
    if cfg.mode.Legacy? then Conclude(legacy, receipt, None, c)
    else if cfg.mode.ShadowMode? && !o.swarmAvailable then
      Conclude(legacy, receipt, Some(Shadow(Error(UnavailableText(o)), legacy.allowed, None)),
               c.(errors := c.errors + 1))
    else WithSwarm(cfg, o, input, legacy, receipt, c)
  }

  function RunGovernance(cfg: Config, o: Oracles, msg: Message, c: Counters): Outcome {
    var input := BuildInput(cfg, msg);
    var legacy := LegacyLocal(cfg, input);
    match BuildReceipt(input, legacy, "legacy", o.legacyAttest)
    case Throws(thrown) => Outcome(Raised(thrown), None, c)
    case Ok(receipt) => WithLegacy(cfg, o, input, legacy, receipt, c)
  }

  // ----- gates -----

  function TierViolation(text: string): Option<Rejection> {
    Some(Rejection([text], "autonomy_tier_violation", None, None, None))
  }

  function AutonomyGate(cfg: Config, msg: Message): Option<Rejection> {
    if msg.autonomyTier == None then None
    else if msg.autonomyTier == Some("advisory") then
      if msg.messageType == "command" then TierViolation("Advisory agent cannot execute commands")
      else if msg.messageType in cfg.advisoryBlocked then
        TierViolation("Advisory agent cannot send " + msg.messageType + " messages")
      else None
    else if msg.autonomyTier == Some("human_approved") then
      if !IsNonBlank(NamedValidator(msg))
      then TierViolation("Human-approved tier requires independent validation evidence") else None
    else if msg.autonomyTier == Some("unrestricted") then
      if !IsNonBlank(Field(msg.metadata, "unrestricted_grant_id"))
      then TierViolation("UNRESTRICTED tier requires unrestricted_grant_id in metadata")
      else if !IsNonBlank(Field(msg.metadata, "grant_authority"))
      then TierViolation("UNRESTRICTED tier requires grant_authority in metadata") else None
    else None
  }

  function ValidatorGate(cfg: Config, msg: Message): Option<Rejection> {
    if !cfg.requireValidator || !RequiresIndependentValidation(cfg, msg) then None
    else
      var validator := NamedValidator(msg);
      var stage := Field(msg.metadata, "validation_stage");
      if !IsNonBlank(validator) then
        Some(Rejection(["Independent validator metadata is required for this message"],
                       "independent_validator_missing", None, None, None))
      else if validator.s == msg.fromAgent then
        Some(Rejection(["Independent validator must not be the originating agent"],
                       "independent_validator_self_validation", None, None, None))
      else if stage != Null && stage != Str("independent") then
        Some(Rejection(["validation_stage must be 'independent' when validator evidence is present"],
                       "independent_validator_invalid_stage", None, None, None))
      else None
  }

  function Reject(r: Rejection, c: Counters): Outcome {
    Outcome(Rejected(r), None, c.(failed := c.failed + 1))
  }

  datatype GateVerdict = GatesPassed | GateRejects(rejection: Rejection) | GateRaises(thrown: Thrown)

  function GateAnswer(answer: Try<Option<Rejection>>, otherwise: GateVerdict): GateVerdict {
    match answer
    case Throws(thrown) => GateRaises(thrown)
    case Ok(Some(r)) => GateRejects(r)
    case Ok(None) => otherwise
  }

  /** run_message_validation_gates: four gates in order, the first objection wins. */
  function Gates(cfg: Config, o: Oracles, msg: Message): GateVerdict {
    GateAnswer(Ok(AutonomyGate(cfg, msg)),
      GateAnswer(o.scan(msg),
        GateAnswer(Ok(ValidatorGate(cfg, msg)),
          GateAnswer(o.injection(msg), GatesPassed))))
  }

  /** GateCoordinator.run: the gates, then governance. The security gate counts its own
      failures, governance its own, and the gate runner those of the other three. */
  function Process(cfg: Config, o: Oracles, msg: Message, c: Counters): Outcome {
    match Gates(cfg, o, msg)
    case GateRejects(r) => Reject(r, c)
    case GateRaises(thrown) => Outcome(Raised(thrown), None, c)
    case GatesPassed => RunGovernance(cfg, o, msg, c)
  }
}
