/** The rules the gates and the cores judge a message by, stated on the message itself. */
module GovernanceRules {
  import opened JsonValues
  import opened Strings
  import opened Governance

  // ----- text in a field -----

  /** Something other than white space is written in it. */
  ghost predicate Inked(s: string) {
    exists i :: 0 <= i < |s| && !IsSpace(s[i])
  }

  lemma {:induction false} StripLeftMeaning(s: string) returns (i: nat)
    ensures i <= |s| && StripLeft(s) == s[i..]
    ensures forall k :: 0 <= k < i ==> IsSpace(s[k])
    ensures i < |s| ==> !IsSpace(s[i])
  {
    i := 0;
    if s != "" && IsSpace(s[0]) {
      var j := StripLeftMeaning(s[1..]);
      i := j + 1;
    }
  }

  lemma {:induction false} StripRightMeaning(s: string) returns (j: nat)
    ensures j <= |s| && StripRight(s) == s[..j]
    ensures forall k :: j <= k < |s| ==> IsSpace(s[k])
    ensures j > 0 ==> !IsSpace(s[j - 1])
  {
    j := |s|;
    if s != "" && IsSpace(s[|s| - 1]) {
      j := StripRightMeaning(s[..|s| - 1]);
    }
  }

  /** Stripping drops the white space at both ends and nothing else. */
  lemma StripMeaning(s: string) returns (i: nat, j: nat)
    ensures i <= j <= |s| && Strip(s) == s[i..j]
    ensures forall k :: 0 <= k < i || j <= k < |s| ==> IsSpace(s[k])
    ensures i < j ==> !IsSpace(s[i]) && !IsSpace(s[j - 1])
  {
    i := StripLeftMeaning(s);
    var n := StripRightMeaning(s[i..]);
    j := i + n;
    assert s[i..][..n] == s[i..j];
    forall k | j <= k < |s| ensures IsSpace(s[k]) {
      assert s[i..][k - i] == s[k];
    }
    if n > 0 {
      assert s[i..][n - 1] == s[j - 1];
    }
  }

  lemma BlankMeansNoInk(s: string)
    ensures Strip(s) != "" <==> Inked(s)
  {
    var i, j := StripMeaning(s);
    if Inked(s) {
      var k :| 0 <= k < |s| && !IsSpace(s[k]);
      assert i <= k < j;
    }
  }

  /** The object has this text under the key, and it is not blank. */
  ghost predicate HasText(j: Json, key: string, text: string) {
    j.Obj? && key in j.fields && j.fields[key] == Str(text) && Inked(text)
  }

  ghost predicate HasSomeText(j: Json, key: string) {
    exists text :: HasText(j, key, text)
  }

  /** The object has nothing, or nothing that counts as true, under the key. */
  ghost predicate Lacks(j: Json, key: string) {
    j.Obj? && key in j.fields ==> Falsy(j.fields[key])
  }

  lemma TextMeaning(j: Json, key: string)
    ensures IsNonBlank(Field(j, key)) <==> HasSomeText(j, key)
    ensures forall text :: HasText(j, key, text) <==> IsNonBlank(Field(j, key)) && Field(j, key).s == text
  {
    if Field(j, key).Str? {
      BlankMeansNoInk(Field(j, key).s);
      assert IsNonBlank(Field(j, key)) ==> HasText(j, key, Field(j, key).s);
    }
  }

  /** The message names this validator: in the first field, or in the second when the first
      has nothing that counts as true. */
  ghost predicate NamesValidator(msg: Message, name: string) {
    || HasText(msg.metadata, "validated_by_agent", name)
    || (Lacks(msg.metadata, "validated_by_agent") && HasText(msg.metadata, "independent_validator_id", name))
  }

  ghost predicate NamesAValidator(msg: Message) {
    exists name :: NamesValidator(msg, name)
  }

  lemma ValidatorMeaning(msg: Message)
    ensures IsNonBlank(NamedValidator(msg)) <==> NamesAValidator(msg)
    ensures forall name :: NamesValidator(msg, name) <==>
              IsNonBlank(NamedValidator(msg)) && NamedValidator(msg).s == name
  {
    var first, second := Field(msg.metadata, "validated_by_agent"), Field(msg.metadata, "independent_validator_id");
    FalsyValues(first);
    TextMeaning(msg.metadata, "validated_by_agent");
    TextMeaning(msg.metadata, "independent_validator_id");
    assert Lacks(msg.metadata, "validated_by_agent") <==> !Truthy(first);
    assert IsNonBlank(first) ==> Truthy(first);
    assert IsNonBlank(NamedValidator(msg)) ==> NamesValidator(msg, NamedValidator(msg).s);
  }

  // ----- the tier gate -----

  /** What a message of each tier must be. */
  ghost predicate TierAllows(cfg: Config, msg: Message) {
    && (msg.autonomyTier == Some("advisory") ==>
          msg.messageType != "command" && msg.messageType !in cfg.advisoryBlocked)
    && (msg.autonomyTier == Some("human_approved") ==> NamesAValidator(msg))
    && (msg.autonomyTier == Some("unrestricted") ==>
          HasSomeText(msg.metadata, "unrestricted_grant_id") && HasSomeText(msg.metadata, "grant_authority"))
  }

  /** What the sender of a message its tier does not allow is told. */
  ghost predicate TierComplaint(msg: Message, text: string) {
    && (msg.autonomyTier == Some("advisory") ==>
          text == if msg.messageType == "command" then "Advisory agent cannot execute commands"
                  else "Advisory agent cannot send " + msg.messageType + " messages")
    && (msg.autonomyTier == Some("human_approved") ==>
          text == "Human-approved tier requires independent validation evidence")
    && (msg.autonomyTier == Some("unrestricted") ==>
          text == if HasSomeText(msg.metadata, "unrestricted_grant_id")
                  then "UNRESTRICTED tier requires grant_authority in metadata"
                  else "UNRESTRICTED tier requires unrestricted_grant_id in metadata")
  }

  ghost predicate Objects(answer: Option<Rejection>, reason: string) {
    answer.Some? && answer.value == Rejection(answer.value.errors, reason, None, None, None)
    && |answer.value.errors| == 1
  }

  /** The gate's answer is right about this message. */
  ghost predicate TierJudged(cfg: Config, msg: Message, answer: Option<Rejection>) {
    && (answer == None <==> TierAllows(cfg, msg))
    && (answer.Some? ==>
          Objects(answer, "autonomy_tier_violation") && TierComplaint(msg, answer.value.errors[0]))
  }

  lemma TierGateMeaning(cfg: Config, msg: Message)
    ensures TierJudged(cfg, msg, AutonomyGate(cfg, msg))
  {
    if msg.autonomyTier == Some("human_approved") {
      HumanApprovedJudged(cfg, msg);
    } else if msg.autonomyTier == Some("unrestricted") {
      UnrestrictedJudged(cfg, msg);
    }
  }

  lemma HumanApprovedJudged(cfg: Config, msg: Message)
    requires msg.autonomyTier == Some("human_approved")
    ensures TierJudged(cfg, msg, AutonomyGate(cfg, msg))
  {
    ValidatorMeaning(msg);
  }

  lemma UnrestrictedJudged(cfg: Config, msg: Message)
    requires msg.autonomyTier == Some("unrestricted")
    ensures TierJudged(cfg, msg, AutonomyGate(cfg, msg))
  {
    TextMeaning(msg.metadata, "unrestricted_grant_id");
    TextMeaning(msg.metadata, "grant_authority");
  }

  // ----- the validator gate -----

  /** A message that somebody independent has to validate; no score counts as zero. */
  ghost predicate Sensitive(cfg: Config, msg: Message) {
    || (msg.impactScore.Some? && msg.impactScore.value >= cfg.threshold)
    || (msg.impactScore.None? && cfg.threshold <= 0.0)
    || msg.messageType == "constitutional_validation" || msg.messageType == "governance_request"
  }

  lemma SensitiveMeaning(cfg: Config, msg: Message)
    ensures RequiresIndependentValidation(cfg, msg) <==> Sensitive(cfg, msg)
  {
  }

  /** The stage is left open or is the right one. */
  ghost predicate StageFits(msg: Message) {
    msg.metadata.Obj? && "validation_stage" in msg.metadata.fields ==>
      msg.metadata.fields["validation_stage"] in {Null, Str("independent")}
  }

  ghost predicate ValidatorFits(cfg: Config, msg: Message) {
    cfg.requireValidator && Sensitive(cfg, msg) ==>
      NamesAValidator(msg) && !NamesValidator(msg, msg.fromAgent) && StageFits(msg)
  }

  lemma StageMeaning(msg: Message)
    ensures StageFits(msg) <==>
            var stage := Field(msg.metadata, "validation_stage");
            stage == Null || stage == Str("independent")
  {
  }

  lemma ValidatorGateMeaning(cfg: Config, msg: Message)
    ensures ValidatorGate(cfg, msg) == None <==> ValidatorFits(cfg, msg)
    ensures !ValidatorFits(cfg, msg) ==> ValidatorComplaint(msg, ValidatorGate(cfg, msg))
  {
    SensitiveMeaning(cfg, msg);
    if cfg.requireValidator && Sensitive(cfg, msg) {
      ValidatorMeaning(msg);
      if !NamesAValidator(msg) {
        assert !NamesValidator(msg, msg.fromAgent);
      } else if NamedValidator(msg).s != msg.fromAgent {
        StageMeaning(msg);
      }
    }
  }

  ghost predicate Refuses(answer: Option<Rejection>, reason: string, text: string) {
    answer == Some(Rejection([text], reason, None, None, None))
  }

  /** Nobody is named, or the sender is, or the stage is not the right one. */
  ghost predicate ValidatorComplaint(msg: Message, answer: Option<Rejection>) {
    if !NamesAValidator(msg) then
      Refuses(answer, "independent_validator_missing", "Independent validator metadata is required for this message")
    else if NamesValidator(msg, msg.fromAgent) then
      Refuses(answer, "independent_validator_self_validation",
              "Independent validator must not be the originating agent")
    else
      Refuses(answer, "independent_validator_invalid_stage",
              "validation_stage must be 'independent' when validator evidence is present")
  }

  // ----- the hash -----

  ghost predicate HashFits(cfg: Config, hash: Json) {
    hash == Str(cfg.constitutionalHash)
  }

  /** What is said of another hash: never more than its first eight characters. */
  ghost predicate HashComplaint(hash: Json, text: string) {
    if !hash.Str? then text == "Constitutional hash must be a string"
    else exists shown ::
           && text == "Constitutional hash mismatch (provided: " + shown + ")"
           && shown == if |hash.s| <= 8 then hash.s else hash.s[..8] + "..."
  }

  lemma HashMeaning(cfg: Config, hash: Json)
    ensures HashErrors(cfg, hash) == [] <==> HashFits(cfg, hash)
    ensures !HashFits(cfg, hash) ==>
              |HashErrors(cfg, hash)| == 1 && HashComplaint(hash, HashErrors(cfg, hash)[0])
  {
    if hash.Str? && !HashFits(cfg, hash) {
      var shown := if |hash.s| <= 8 then hash.s else hash.s[..8] + "...";
      assert HashErrors(cfg, hash)[0] == "Constitutional hash mismatch (provided: " + shown + ")";
    }
  }

  // ----- what governance is given, and what it writes down -----

  /** The names of a non-blank field, stripped. */
  ghost predicate Stripped(j: Json, key: string, names: seq<string>) {
    if HasSomeText(j, key) then exists text :: HasText(j, key, text) && names == [Strip(text)]
    else names == []
  }

  lemma StrippedMeaning(j: Json, key: string)
    ensures Stripped(j, key, StrippedIfNamed(Field(j, key)))
  {
    TextMeaning(j, key);
  }

  /** The validators of the two fields in order, a common one once. */
  ghost predicate Merged(first: seq<string>, second: seq<string>, all: seq<string>) {
    all == if first == second then first else first + second
  }

  lemma MergedMeaning(first: seq<string>, second: seq<string>)
    requires |first| <= 1 && |second| <= 1
    ensures Merged(first, second, Distincts(first + second))
  {
    if first == [] || second == [] {
      OneIsEmpty(first, second);
    } else {
      OneEach(first, second, Distincts(first + second), second[0]);
    }
  }

  lemma OneEach(first: seq<string>, second: seq<string>, all: seq<string>, b: string)
    requires |first| == 1 && second == [b] && all == Distincts(first + second)
    ensures Merged(first, second, all)
  {
    TwoDistincts(first, b);
    if b == first[0] {
      assert first == second;
    } else {
      assert first != second;
    }
  }

  lemma OneIsEmpty(first: seq<string>, second: seq<string>)
    requires |first| <= 1 && |second| <= 1 && (first == [] || second == [])
    ensures Merged(first, second, Distincts(first + second))
  {
    var all := first + second;
    assert all == (if first == [] then second else first);
    ShortDistincts(all);
  }

  lemma TwoDistincts(first: seq<string>, b: string)
    requires |first| == 1
    ensures Distincts(first + [b]) == if b == first[0] then first else first + [b]
  {
    ShortDistincts(first);
    assert (first + [b])[..1] == first;
  }

  lemma ShortDistincts(values: seq<string>)
    requires |values| <= 1
    ensures Distincts(values) == values
  {
  }

  /** The validators asked are the stripped names in the two fields. */
  lemma AskedMeaning(cfg: Config, msg: Message) returns (first: seq<string>, second: seq<string>)
    ensures Merged(first, second, BuildInput(cfg, msg).validatorIds)
    ensures Stripped(msg.metadata, "validated_by_agent", first)
    ensures Stripped(msg.metadata, "independent_validator_id", second)
  {
    first := StrippedIfNamed(Field(msg.metadata, "validated_by_agent"));
    second := StrippedIfNamed(Field(msg.metadata, "independent_validator_id"));
    StrippedMeaning(msg.metadata, "validated_by_agent");
    StrippedMeaning(msg.metadata, "independent_validator_id");
    MergedMeaning(first, second);
  }

  lemma InputMeaning(cfg: Config, msg: Message)
    ensures var input := BuildInput(cfg, msg);
            && input.tenant == msg.tenant && input.messageId == msg.id && input.content == msg.content
            && input.actionType == msg.messageType && input.constitutionalHash == msg.constitutionalHash
            && input.autonomyTier == msg.autonomyTier && input.impactScore == msg.impactScore
            && input.producerId == (if msg.fromAgent == "" then "unknown-producer" else msg.fromAgent)
            && (input.needsValidator <==> cfg.requireValidator && Sensitive(cfg, msg))
  {
    SensitiveMeaning(cfg, msg);
  }

  /** The role is the text in the metadata, or else any string in the security context. */
  lemma RoleMeaning(msg: Message, role: string)
    ensures ProducerRole(msg) == Some(role) <==>
            || HasText(msg.metadata, "maci_role", role)
            || (&& !HasSomeText(msg.metadata, "maci_role")
                && msg.securityContext.Obj? && "maci_role" in msg.securityContext.fields
                && msg.securityContext.fields["maci_role"] == Str(role))
  {
    TextMeaning(msg.metadata, "maci_role");
  }

  /** The receipt says who sent what and what was decided, with no attestation yet. */
  ghost predicate Describes(r: Receipt, msg: Message, d: Decision, engine: string) {
    && r.id == engine + ":" + msg.id && r.engine == engine && r.messageId == msg.id
    && r.producerId == (if msg.fromAgent == "" then "unknown-producer" else msg.fromAgent)
    && r.constitutionalHash == msg.constitutionalHash && r.swarmHash == d.swarmHash
    && r.allowed == d.allowed && r.blockingStage == d.blockingStage && r.reasons == d.reasons
    && r.ruleHits == d.ruleHits && r.peerVotes == d.peerVotes && r.trustScore == d.trustScore
    && r.attestation == None
  }

  /** The provider is shown that receipt, and its answer is all that is added. */
  lemma ReceiptMeaning(cfg: Config, msg: Message, d: Decision, engine: string, attest: Option<Attester>)
    ensures var bare := Unattested(BuildInput(cfg, msg), d, engine);
            var made := BuildReceipt(BuildInput(cfg, msg), d, engine, attest);
            && Describes(bare, msg, d, engine)
            && match attest
               case None => made == Ok(bare)
               case Some(provider) =>
                 match provider(bare)
                 case Throws(thrown) => made == Throws(thrown)
                 case Ok(attestation) => made.Ok? && made.value == bare.(attestation := attestation)
  {
  }

  // ----- what the swarm decides -----

  /** The agent DNA is asked about the content. */
  predicate DnaAsked(cfg: Config, o: Oracles, input: Input) {
    input.constitutionalHash == Str(cfg.constitutionalHash) && o.swarmAvailable
  }

  /** The quorum resolver is asked, and after it the mesh. */
  predicate PeersAsked(cfg: Config, o: Oracles, input: Input) {
    && DnaAsked(cfg, o, input) && o.dna(input.content) == Ok(DnaValid)
    && input.needsValidator && cfg.enablePeerValidation && Dedupe(input.validatorIds) != []
  }

  /** The votes the mesh is asked for, once the resolver has answered. */
  function VotesAsked(cfg: Config, o: Oracles, input: Input): int
    requires o.quorum(input, |Dedupe(input.validatorIds)|).Ok?
  {
    if cfg.enableAdaptiveQuorum then o.quorum(input, |Dedupe(input.validatorIds)|).value
    else |Dedupe(input.validatorIds)|
  }

  /** Blocked by the swarm's own rules, before any peer is asked. */
  ghost predicate BlockedAlone(cfg: Config, o: Oracles, d: Decision, stage: string) {
    d == Decision(false, Some(stage), d.reasons, d.ruleHits, None, None, cfg.constitutionalHash,
                  o.swarmHash, "swarm")
  }

  ghost predicate NotAvailable(o: Oracles, text: string) {
    if o.swarmError == None || o.swarmError == Some("") then text == "swarm unavailable"
    else o.swarmError == Some(text)
  }

  /** A hash that does not fit, and then a swarm that is not there, block at once. */
  lemma BlockedBeforeTheDna(cfg: Config, o: Oracles, input: Input)
    requires !DnaAsked(cfg, o, input)
    ensures var d := SwarmDecision(cfg, o, input);
            d.Ok? && |d.value.reasons| == 1 && d.value.ruleHits == [] &&
            if HashFits(cfg, input.constitutionalHash)
            then BlockedAlone(cfg, o, d.value, "swarm_unavailable") && NotAvailable(o, d.value.reasons[0])
            else && BlockedAlone(cfg, o, d.value, "constitutional_hash")
                 && HashComplaint(input.constitutionalHash, d.value.reasons[0])
  {
    HashMeaning(cfg, input.constitutionalHash);
  }

  /** The DNA's own violations block; without any, and without peers to ask, the swarm allows. */
  lemma DecidedByTheDna(cfg: Config, o: Oracles, input: Input)
    requires DnaAsked(cfg, o, input) && !PeersAsked(cfg, o, input)
    ensures var d := SwarmDecision(cfg, o, input);
            match o.dna(input.content)
            case Throws(thrown) => d == Throws(thrown)
            case Ok(DnaViolation(text)) =>
              && d.Ok? && BlockedAlone(cfg, o, d.value, "constitutional_rules")
              && d.value.reasons == [text] && d.value.ruleHits == []
            case Ok(DnaInvalid(violations)) =>
              && d.Ok? && BlockedAlone(cfg, o, d.value, "constitutional_rules")
              && d.value.reasons == violations && d.value.ruleHits == RuleHits(violations)
            case Ok(DnaValid) =>
              && d.Ok? && d.value == Decision(true, None, [], [], None, None, cfg.constitutionalHash,
                                              o.swarmHash, "swarm")
  {
    HashMeaning(cfg, input.constitutionalHash);
  }

  /** What the mesh's answer makes of the decision: its votes are kept either way. */
  ghost predicate PeersDecide(answer: MeshAnswer, d: Decision) {
    match answer
    case MeshViolation(text) =>
      && !d.allowed && d.blockingStage == Some("peer_validation")
      && d.reasons == (if text == "" then [] else [text])
      && d.peerVotes == Some(PeerDecision(false, text, 0, 0, false, None)) && d.trustScore == None
    case MeshResult(accepted, quorumMet, votesFor, votesAgainst, trust) =>
      && (d.allowed <==> accepted && quorumMet)
      && d.blockingStage == (if accepted && quorumMet then None else Some("peer_validation"))
      && (accepted && quorumMet ==> d.reasons == [])
      && (!quorumMet ==> d.reasons == ["peer quorum not met"])
      && (quorumMet && !accepted ==> d.reasons == ["peer validation rejected content"])
      && d.peerVotes == Some(PeerDecision(accepted && quorumMet, if d.reasons == [] then "" else d.reasons[0],
                                          votesFor, votesAgainst, quorumMet, Some(trust)))
      && d.trustScore == Some(trust)
  }

  /** Otherwise the mesh is asked, with the deduplicated validators, and decides. */
  lemma DecidedByThePeers(cfg: Config, o: Oracles, input: Input)
    requires PeersAsked(cfg, o, input)
    ensures var d := SwarmDecision(cfg, o, input);
            var validators := Dedupe(input.validatorIds);
            match o.quorum(input, |validators|)
            case Throws(thrown) => d == Throws(thrown)
            case Ok(_) =>
              match o.mesh(input, validators, VotesAsked(cfg, o, input))
              case Throws(thrown) => d == Throws(thrown)
              case Ok(answer) =>
                && d.Ok? && PeersDecide(answer, d.value) && d.value.ruleHits == []
                && d.value.constitutionalHash == cfg.constitutionalHash
                && d.value.swarmHash == o.swarmHash && d.value.engine == "swarm"
  {
    HashMeaning(cfg, input.constitutionalHash);
    var local := Allowed(cfg, "swarm", o.swarmHash);
    assert SwarmLocal(cfg, o, input) == Ok(local);
    var peer := SwarmPeer(cfg, o, input);
    PeerMeaning(cfg, o, input);
    if peer.Ok? {
      var answer := o.mesh(input, Dedupe(input.validatorIds), VotesAsked(cfg, o, input));
      CombineMeaning(local, peer.value.value, answer.value);
    }
  }

  /** What is made of the mesh's answer. */
  ghost predicate PeerSays(answer: MeshAnswer, p: PeerDecision) {
    match answer
    case MeshViolation(text) => p == PeerDecision(false, text, 0, 0, false, None)
    case MeshResult(accepted, quorumMet, votesFor, votesAgainst, trust) =>
      && p == PeerDecision(accepted && quorumMet, p.reason, votesFor, votesAgainst, quorumMet, Some(trust))
      && (accepted && quorumMet ==> p.reason == "")
      && (!quorumMet ==> p.reason == "peer quorum not met")
      && (quorumMet && !accepted ==> p.reason == "peer validation rejected content")
  }

  lemma PeerMeaning(cfg: Config, o: Oracles, input: Input)
    requires PeersAsked(cfg, o, input)
    ensures var peer := SwarmPeer(cfg, o, input);
            var validators := Dedupe(input.validatorIds);
            match o.quorum(input, |validators|)
            case Throws(thrown) => peer == Throws(thrown)
            case Ok(_) =>
              match o.mesh(input, validators, VotesAsked(cfg, o, input))
              case Throws(thrown) => peer == Throws(thrown)
              case Ok(answer) => peer.Ok? && peer.value.Some? && PeerSays(answer, peer.value.value)
  {
  }

  lemma CombineMeaning(local: Decision, p: PeerDecision, answer: MeshAnswer)
    requires local.allowed && local.blockingStage == None && local.reasons == [] && PeerSays(answer, p)
    ensures var d := Combine(local, Some(p));
            && PeersDecide(answer, d) && d.ruleHits == local.ruleHits && d.swarmHash == local.swarmHash
            && d.constitutionalHash == local.constitutionalHash && d.engine == local.engine
  {
    NonEmptyOne();
  }

  lemma NonEmptyOne()
    ensures forall text: string {:trigger NonEmpty([text])} ::
              NonEmpty([text]) == (if text == "" then [] else [text]) && [] + [text] == [text]
  {
  }

  // ----- rule hits -----

  lemma {:induction false} BeforeColonMeaning(s: string) returns (n: nat)
    ensures n <= |s| && BeforeColon(s) == s[..n]
    ensures forall k :: 0 <= k < n ==> s[k] != ':'
    ensures n < |s| ==> s[n] == ':'
  {
    n := 0;
    if s != "" && s[0] != ':' {
      var m := BeforeColonMeaning(s[1..]);
      n := m + 1;
      assert s[..n] == [s[0]] + s[1..][..m];
    }
  }

  /** The rule that a violation names: the stripped text before its first colon. */
  ghost predicate NamesRule(violation: string, rule: string) {
    exists n :: && 0 <= n <= |violation| && ':' !in violation[..n] && (n < |violation| ==> violation[n] == ':')
                && rule == Strip(violation[..n])
  }

  lemma RuleMeaning(violation: string)
    ensures NamesRule(violation, Strip(BeforeColon(violation)))
  {
    var n := BeforeColonMeaning(violation);
    assert ':' !in violation[..n];
  }

  /** The hits are the named rules, blank ones left out: one violation more adds its own. */
  lemma RuleHitsMeaning(violations: seq<string>, violation: string) returns (rule: string)
    ensures NamesRule(violation, rule) && RuleHits([]) == []
    ensures RuleHits(violations + [violation]) == RuleHits(violations) + if rule == "" then [] else [rule]
  {
    rule := Strip(BeforeColon(violation));
    RuleMeaning(violation);
    assert (violations + [violation])[..|violations|] == violations;
  }
}
