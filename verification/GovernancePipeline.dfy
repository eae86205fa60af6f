/** The coordinator objects: counters and context fields changed in place. */
module GovernancePipeline {
  import opened JsonValues
  import opened Strings
  import opened Governance

  /** _dedupe_strings as the loop it is. */
  method DedupeStrings(values: seq<string>) returns (ordered: seq<string>)
    ensures ordered == Dedupe(values)
  {
    var seen: set<string> := {};
    ordered := [];
    for i := 0 to |values|
      invariant ordered == Dedupe(values[..i])
      invariant forall v :: v in seen <==> v in ordered
    {
      var value := values[i];
      assert values[..i + 1] == values[..i] + [value];
      DedupeSnoc(values[..i], value);
      if value != "" && value !in seen {
        seen := seen + {value};
        ordered := ordered + [value];
      }
    }
    assert values[..|values|] == values;
  }

  lemma DedupeSnoc(values: seq<string>, value: string)
    ensures Dedupe(values + [value]) ==
            if value == "" || value in Dedupe(values) then Dedupe(values) else Dedupe(values) + [value]
  {
    var more := values + [value];
    assert more[..|more| - 1] == values;
    if value != "" {
      var kept := NonEmpty(values) + [value];
      assert NonEmpty(more) == kept;
      assert kept[..|kept| - 1] == NonEmpty(values);
    } else {
      assert NonEmpty(more) == NonEmpty(values);
    }
  }

  /** _extract_rule_hits */
  method ExtractRuleHits(violations: seq<string>) returns (hits: seq<string>)
    ensures hits == RuleHits(violations)
  {
    hits := [];
    for i := 0 to |violations|
      invariant hits == RuleHits(violations[..i])
    {
      assert violations[..i + 1][..|violations[..i + 1]| - 1] == violations[..i];
      var cleaned := Strip(BeforeColon(violations[i]));
      if cleaned != "" {
        hits := hits + [cleaned];
      }
    }
    assert violations[..|violations|] == violations;
  }

  class Pipeline {
    const cfg: Config
    var failed: nat
    var shadowMatches: nat
    var shadowMismatches: nat
    var shadowErrors: nat
    var context: Option<Artifacts>

    constructor (cfg: Config)
      ensures this.cfg == cfg && Counts() == Counters(0, 0, 0, 0) && context == None
    {
      this.cfg := cfg;
      failed, shadowMatches, shadowMismatches, shadowErrors, context := 0, 0, 0, 0, None;
    }

    function Counts(): Counters
      reads this`failed, this`shadowMatches, this`shadowMismatches, this`shadowErrors
    {
      Counters(failed, shadowMatches, shadowMismatches, shadowErrors)
    }

    /** The end of run(): store_governance_artifacts, then accept or count and reject. */
    method Finish(d: Decision, receipt: Receipt, shadow: Option<Shadow>) returns (verdict: Verdict)
      modifies this`failed, this`context
      ensures Outcome(verdict, context, Counts()) == old(Conclude(d, receipt, shadow, Counts()))
    {
      context := Some(Artifacts(d, receipt, shadow));
      if d.allowed {
        return Passed;
      }
      failed := failed + 1;
      verdict := Rejected(FailureResult(d, receipt, shadow));
    }

    /** run() from the try block on. */
    method RunSwarm(o: Oracles, input: Input, legacy: Decision, receipt: Receipt) returns (verdict: Verdict)
      requires context == None
      modifies this`failed, this`shadowMatches, this`shadowMismatches, this`shadowErrors, this`context
      ensures Outcome(verdict, context, Counts()) == old(WithSwarm(cfg, o, input, legacy, receipt, Counts()))
    {
      match SwarmDecide(cfg, o, input)
      case Throws(Unlisted) => return Raised(Unlisted);
      case Throws(Listed(text)) =>
        if cfg.mode.Enforced? {
          failed := failed + 1;
          return Rejected(FailureResult(SwarmErrorDecision(cfg, text), SwarmErrorReceipt(input, text), None));
        }
        shadowErrors := shadowErrors + 1;
        verdict := Finish(legacy, receipt, Some(Shadow(Error(text), legacy.allowed, None)));
      case Ok((swarm, swarmReceipt)) =>
        verdict := Compare(legacy, receipt, swarm, swarmReceipt);
    }

    /** The else block of the try: count parity, then select a decision by mode. */
    method Compare(legacy: Decision, receipt: Receipt, swarm: Decision, swarmReceipt: Receipt)
      returns (verdict: Verdict)
      modifies this`failed, this`shadowMatches, this`shadowMismatches, this`context
      ensures Outcome(verdict, context, Counts()) == old(WithBoth(cfg, legacy, receipt, swarm, swarmReceipt, Counts()))
    {
      var parity := if legacy.allowed == swarm.allowed then Match else Mismatch;
      if parity == Match {
        shadowMatches := shadowMatches + 1;
      } else {
        shadowMismatches := shadowMismatches + 1;
      }
      var shadow := Some(Shadow(parity, legacy.allowed, Some(swarm.allowed)));
      if cfg.mode.Enforced? {
        verdict := Finish(swarm, swarmReceipt, shadow);
      } else {
        verdict := Finish(legacy, receipt, shadow);
      }
    }

    method GovernWith(o: Oracles, input: Input, legacy: Decision, receipt: Receipt) returns (verdict: Verdict)
      requires context == None
      modifies this`failed, this`shadowMatches, this`shadowMismatches, this`shadowErrors, this`context
      ensures Outcome(verdict, context, Counts()) == old(WithLegacy(cfg, o, input, legacy, receipt, Counts()))
    {
      if cfg.mode.Legacy? {
        verdict := Finish(legacy, receipt, None);
      } else if cfg.mode.ShadowMode? && !o.swarmAvailable {
        shadowErrors := shadowErrors + 1;
        verdict := Finish(legacy, receipt, Some(Shadow(Error(UnavailableText(o)), legacy.allowed, None)));
      } else {
        verdict := RunSwarm(o, input, legacy, receipt);
      }
    }

    method Govern(o: Oracles, msg: Message) returns (verdict: Verdict)
      requires context == None
      modifies this`failed, this`shadowMatches, this`shadowMismatches, this`shadowErrors, this`context
      ensures Outcome(verdict, context, Counts()) == old(RunGovernance(cfg, o, msg, Counts()))
    {
      var input := BuildInput(cfg, msg);
      var legacy := LegacyLocal(cfg, input);
      match BuildReceipt(input, legacy, "legacy", o.legacyAttest)
      case Throws(thrown) => verdict := Raised(thrown);
      case Ok(receipt) => verdict := GovernWith(o, input, legacy, receipt);
    }

    method SecurityScan(o: Oracles, msg: Message) returns (answer: Try<Option<Rejection>>)
      modifies this`failed
      ensures answer == o.scan(msg)
      ensures failed == old(failed) + if answer.Ok? && answer.value.Some? then 1 else 0
    {
      answer := o.scan(msg);
      if answer.Ok? && answer.value.Some? {
        failed := failed + 1;
      }
    }

    /** run_message_validation_gates */
    method RunGates(o: Oracles, msg: Message) returns (gates: GateVerdict)
      modifies this`failed
      ensures gates == Gates(cfg, o, msg)
      ensures failed == old(failed) + if gates.GateRejects? then 1 else 0
    {
      var autonomy := AutonomyGate(cfg, msg);
      if autonomy.Some? {
        failed := failed + 1;
        return GateRejects(autonomy.value);
      }
      var scan := SecurityScan(o, msg);
      match scan {
        case Throws(thrown) => return GateRaises(thrown);
        case Ok(Some(r)) => return GateRejects(r);
        case Ok(None) =>
      }
      var independent := ValidatorGate(cfg, msg);
      if independent.Some? {
        failed := failed + 1;
        return GateRejects(independent.value);
      }
      match o.injection(msg)
      case Throws(thrown) => gates := GateRaises(thrown);
      case Ok(Some(r)) =>
        failed := failed + 1;
        gates := GateRejects(r);
      case Ok(None) => gates := GatesPassed;
    }

    /** One message through the gates and, when none objects, through governance. */
    method Run(o: Oracles, msg: Message) returns (verdict: Verdict)
      modifies this
      ensures Outcome(verdict, context, Counts()) == old(Process(cfg, o, msg, Counts()))
    {
      context := None;
      var gates := RunGates(o, msg);
      match gates
      case GateRejects(r) => verdict := Rejected(r);
      case GateRaises(thrown) => verdict := Raised(thrown);
      case GatesPassed => verdict := Govern(o, msg);
    }
  }
}
