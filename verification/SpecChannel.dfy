/** A sender and a receiver of compressed specs joined by a channel. */
module SpecChannel {
  import opened JsonValues
  import opened Dicts
  import opened SpecDelta

  /** A payload in flight, with the spec it was made from for reference. */
  datatype Packet = Packet(id: string, payload: Payload, spec: Spec)

  // ----- first in, first out -----

  datatype Net = Net(sender: Baselines, receiver: Baselines, channel: seq<Packet>)

  datatype Event =
    | Send(now: int, id: string, spec: Spec)
    | ClearSender
    | Deliver(at: int)

  ghost predicate ValidNet(net: Net) {
    && ValidTable(net.sender) && ValidTable(net.receiver)
    && forall i :: 0 <= i < |net.channel| ==>
         ValidPayload(net.channel[i].payload) && net.channel[i].spec.Valid()
  }

  ghost predicate ValidEvent(e: Event) {
    e.Send? ==> e.spec.Valid()
  }

  function Receive(receiver: Baselines, at: int, p: Packet): Received
    requires p.payload.delta.Some? ==> p.payload.delta.value.Valid()
  {
    Decompress(receiver, at, p.id, p.payload)
  }

  function Sent(sender: Baselines, e: Event, cfg: Config): Packet
    requires e.Send? && e.spec.Valid()
    requires forall i :: i in Evict(sender, e.now, cfg).m ==> Evict(sender, e.now, cfg).m[i].data.Valid()
  {
    Packet(e.id, Compress(sender, e.now, e.id, e.spec, cfg).1, e.spec)
  }

  function AfterSend(sender: Baselines, e: Event, cfg: Config): Baselines
    requires e.Send? && e.spec.Valid()
    requires forall i :: i in Evict(sender, e.now, cfg).m ==> Evict(sender, e.now, cfg).m[i].data.Valid()
  {
    Compress(sender, e.now, e.id, e.spec, cfg).0
  }

  ghost function Step(net: Net, e: Event, cfg: Config): Net
    requires ValidNet(net) && ValidEvent(e)
  {
    match e
    case Send(now, id, spec) =>
      EvictKeeps(net.sender, now, cfg);
      net.(sender := AfterSend(net.sender, e, cfg), channel := net.channel + [Sent(net.sender, e, cfg)])
    case ClearSender => net.(sender := Empty())
    case Deliver(at) =>
      if net.channel == [] then net
      else net.(receiver := Receive(net.receiver, at, net.channel[0]).table,
                channel := net.channel[1..])
  }

  /** The sent spec brings no new or changed key with the removal marker; a full
      send is always clean. */
  ghost predicate CleanSend(net: Net, e: Event, cfg: Config)
    requires ValidNet(net) && e.Send?
  {
    var kept := Evict(net.sender, e.now, cfg);
    e.id in kept.m ==> Clean(e.spec, kept.m[e.id].data)
  }

  /** The receiver holds what the sender holds, for every id the sender holds. */
  ghost predicate Agree(receiver: Baselines, sender: Baselines) {
    forall id :: AgreeAt(receiver, sender, id)
  }

  ghost predicate AgreeAt(receiver: Baselines, sender: Baselines, id: string) {
    id in sender.m ==>
      && id in receiver.m
      && SameFields(receiver.m[id].data.m, sender.m[id].data.m)
      && receiver.m[id].checksum == sender.m[id].checksum
      && receiver.m[id].version == sender.m[id].version
  }

  /** Draining the channel delivers every packet's own spec and ends in agreement,
      whenever the deliveries happen. */
  ghost predicate InStep(receiver: Baselines, channel: seq<Packet>, sender: Baselines)
    decreases |channel|
  {
    if channel == [] then Agree(receiver, sender)
    else
      && ValidPayload(channel[0].payload)
      && forall at: int {:trigger Receive(receiver, at, channel[0])} ::
           && Receive(receiver, at, channel[0]).success
           && SameFields(Receive(receiver, at, channel[0]).spec.m, channel[0].spec.m)
           && InStep(Receive(receiver, at, channel[0]).table, channel[1..], sender)
  }

  lemma ReceiveKeepsTables(receiver: Baselines, at: int, p: Packet)
    requires ValidTable(receiver) && ValidPayload(p.payload)
    ensures ValidTable(Receive(receiver, at, p).table)
  {
    if GetOr(p.payload.full, true) {
      var spec := GetOr(p.payload.spec, Empty());
      StoreKeeps(receiver, p.id, Baseline(spec, Digest(spec.m), at, 1));
    } else if p.id in receiver.m {
      var b := receiver.m[p.id];
      var d: Spec := GetOr(p.payload.delta, Empty());
      AppliedValid(b.data, d, |d.keys|);
      var rebuilt := Apply(b.data, d);
      StoreKeeps(receiver, p.id, Baseline(rebuilt, GetOr(p.payload.checksum, Digest(rebuilt.m)),
                                          b.createdAt, GetOr(p.payload.version, b.version + 1)));
    }
  }

  lemma StepKeepsTables(net: Net, e: Event, cfg: Config)
    requires ValidNet(net) && ValidEvent(e)
    ensures ValidNet(Step(net, e, cfg))
  {
    match e
    case Send(now, id, spec) =>
      EvictKeeps(net.sender, now, cfg);
      CompressHolds(net.sender, now, id, spec, cfg);
    case ClearSender =>
    case Deliver(at) =>
      if net.channel != [] {
        ReceiveKeepsTables(net.receiver, at, net.channel[0]);
      }
  }

  /** The delivery of one packet returns the packet's spec and leaves both sides agreeing. */
  ghost predicate Arrives(receiver: Baselines, at: int, p: Packet, sender: Baselines)
    requires ValidPayload(p.payload)
  {
    && SameFields(Receive(receiver, at, p).spec.m, p.spec.m)
    && Agree(Receive(receiver, at, p).table, sender)
  }

  /** A clean packet arrives; an unclean one is accepted but yields another spec. */
  ghost predicate Lands(receiver: Baselines, at: int, p: Packet, sender: Baselines, clean: bool)
    requires ValidPayload(p.payload)
  {
    && Receive(receiver, at, p).success
    && (clean ==> Arrives(receiver, at, p, sender))
    && (!clean ==> !SameFields(Receive(receiver, at, p).spec.m, p.spec.m))
  }

  lemma AgreeAfter(receiver: Baselines, kept: Baselines, id: string, held: Baseline, b: Baseline)
    requires Agree(receiver, kept)
    requires SameFields(held.data.m, b.data.m) && held.checksum == b.checksum && held.version == b.version
    ensures Agree(receiver.Put(id, held), kept.Put(id, b).MoveToEnd(id))
  {
    forall i ensures AgreeAt(receiver.Put(id, held), kept.Put(id, b).MoveToEnd(id), i) {
      assert AgreeAt(receiver, kept, i);
    }
  }

  lemma FullLands(receiver: Baselines, kept: Baselines, id: string, spec: Spec, now: int, at: int)
    requires ValidTable(receiver) && ValidTable(kept) && spec.Valid()
    requires Agree(receiver, kept) && id !in kept.m
    ensures ValidPayload(CompressKept(kept, now, id, spec).1)
    ensures Lands(receiver, at, Packet(id, CompressKept(kept, now, id, spec).1, spec),
                  CompressKept(kept, now, id, spec).0,
                  true)
  {
    AgreeAfter(receiver, kept, id, Baseline(spec, Digest(spec.m), at, 1), Baseline(spec, Digest(spec.m), now, 1));
  }

  lemma LandsByResult(receiver: Baselines, at: int, p: Packet, sender: Baselines, table: Baselines, got: Spec,
                      clean: bool)
    requires ValidPayload(p.payload) && Receive(receiver, at, p) == Received(table, got, true)
    requires SameFields(got.m, p.spec.m) <==> clean
    requires clean ==> Agree(table, sender)
    ensures Lands(receiver, at, p, sender, clean)
  {
  }

  /** What a receiver holding the sender's baseline makes of a changed payload. */
  ghost function Rebuild(held: Baseline, b: Baseline, spec: Spec): Baseline
    requires held.data.Valid() && b.data.Valid() && spec.Valid()
  {
    DeltaMeaning(spec, b.data);
    Baseline(Apply(held.data, Delta(spec, b.data)), Digest(spec.m), held.createdAt, b.version + 1)
  }

  lemma DeltaReceived(receiver: Baselines, b: Baseline, id: string, spec: Spec, at: int)
    requires ValidTable(receiver) && id in receiver.m && receiver.m[id].checksum == b.checksum
    requires spec.Valid() && b.data.Valid()
    ensures Delta(spec, b.data).Valid()
    ensures var rebuilt := Rebuild(receiver.m[id], b, spec);
            Receive(receiver, at, Packet(id, DeltaPayload(spec, b), spec)) ==
            Received(receiver.Put(id, rebuilt), rebuilt.data, true)
  {
    DeltaMeaning(spec, b.data);
  }

  lemma RebuildAgrees(receiver: Baselines, kept: Baselines, id: string, spec: Spec, now: int)
    requires ValidTable(receiver) && ValidTable(kept) && spec.Valid()
    requires Agree(receiver, kept) && AgreeAt(receiver, kept, id) && id in kept.m
    ensures var b := kept.m[id];
            var rebuilt := Rebuild(receiver.m[id], b, spec);
            && (SameFields(rebuilt.data.m, spec.m) <==> Clean(spec, b.data))
            && (Clean(spec, b.data) ==>
                  Agree(receiver.Put(id, rebuilt),
                        kept.Put(id, Baseline(spec, Digest(spec.m), now, b.version + 1)).MoveToEnd(id)))
  {
    var b := kept.m[id];
    var rebuilt := Rebuild(receiver.m[id], b, spec);
    RoundTrip(receiver.m[id].data, spec, b.data);
    if Clean(spec, b.data) {
      AgreeAfter(receiver, kept, id, rebuilt, Baseline(spec, Digest(spec.m), now, b.version + 1));
    }
  }

  lemma ChangedPayloadLands(receiver: Baselines, kept: Baselines, id: string, spec: Spec, now: int, at: int,
                            sender: Baselines, payload: Payload)
    requires ValidTable(receiver) && ValidTable(kept) && spec.Valid()
    requires Agree(receiver, kept) && AgreeAt(receiver, kept, id) && id in kept.m
    requires payload == DeltaPayload(spec, kept.m[id])
    requires sender == kept.Put(id, Baseline(spec, Digest(spec.m), now, kept.m[id].version + 1)).MoveToEnd(id)
    ensures ValidPayload(payload)
    ensures Lands(receiver, at, Packet(id, payload, spec), sender, Clean(spec, kept.m[id].data))
  {
    var b := kept.m[id];
    var rebuilt := Rebuild(receiver.m[id], b, spec);
    DeltaReceived(receiver, b, id, spec, at);
    RebuildAgrees(receiver, kept, id, spec, now);
    LandsByResult(receiver, at, Packet(id, payload, spec), sender,
                  receiver.Put(id, rebuilt), rebuilt.data, Clean(spec, b.data));
  }

  lemma DeltaLands(receiver: Baselines, kept: Baselines, id: string, spec: Spec, now: int, at: int)
    requires ValidTable(receiver) && ValidTable(kept) && spec.Valid()
    requires Agree(receiver, kept) && id in kept.m && Delta(spec, kept.m[id].data).keys != []
    ensures ValidPayload(CompressKept(kept, now, id, spec).1)
    ensures Lands(receiver, at, Packet(id, CompressKept(kept, now, id, spec).1, spec),
                  CompressKept(kept, now, id, spec).0, Clean(spec, kept.m[id].data))
  {
    assert AgreeAt(receiver, kept, id);
    ChangedPayloadLands(receiver, kept, id, spec, now, at,
                        CompressKept(kept, now, id, spec).0, CompressKept(kept, now, id, spec).1);
  }

  lemma UnchangedLands(receiver: Baselines, kept: Baselines, id: string, spec: Spec, now: int, at: int)
    requires ValidTable(receiver) && ValidTable(kept) && spec.Valid()
    requires Agree(receiver, kept) && id in kept.m && Delta(spec, kept.m[id].data).keys == []
    ensures ValidPayload(CompressKept(kept, now, id, spec).1)
    ensures Lands(receiver, at, Packet(id, CompressKept(kept, now, id, spec).1, spec),
                  CompressKept(kept, now, id, spec).0,
                  id in kept.m ==> Clean(spec, kept.m[id].data))
  {
    assert AgreeAt(receiver, kept, id);
    var b, held := kept.m[id], receiver.m[id];
    EmptyDelta(spec, b.data);
    assert Apply(held.data, Empty()) == held.data;
    assert SameFields(held.data.m, spec.m) by {
      SameFieldsTransitive(spec.m, b.data.m, b.data.m);
      SameFieldsTransitive(held.data.m, b.data.m, spec.m);
    }
    var after := Receive(receiver, at, Packet(id, UnchangedPayload(b), spec)).table;
    forall i ensures AgreeAt(after, kept, i) {
      assert AgreeAt(receiver, kept, i);
    }
  }

  /** With an empty channel, one compressed spec arrives intact if and only if
      the send is clean, and the two sides then agree again. */
  lemma KeptSend(receiver: Baselines, kept: Baselines, id: string, spec: Spec, now: int, at: int)
    requires ValidTable(kept) && ValidTable(receiver) && spec.Valid() && Agree(receiver, kept)
    ensures ValidPayload(CompressKept(kept, now, id, spec).1)
    ensures Lands(receiver, at, Packet(id, CompressKept(kept, now, id, spec).1, spec),
                  CompressKept(kept, now, id, spec).0,
                  id in kept.m ==> Clean(spec, kept.m[id].data))
  {
    if id !in kept.m {
      FullLands(receiver, kept, id, spec, now, at);
    } else if Delta(spec, kept.m[id].data).keys == [] {
      UnchangedLands(receiver, kept, id, spec, now, at);
    } else {
      DeltaLands(receiver, kept, id, spec, now, at);
    }
  }

  lemma OneSend(receiver: Baselines, sender: Baselines, e: Event, at: int, cfg: Config)
    requires ValidTable(sender) && ValidTable(receiver) && e.Send? && e.spec.Valid()
    requires Agree(receiver, sender)
    ensures ValidTable(Evict(sender, e.now, cfg))
    ensures ValidPayload(Sent(sender, e, cfg).payload)
    ensures Lands(receiver, at, Sent(sender, e, cfg), AfterSend(sender, e, cfg),
                  CleanSend(Net(sender, receiver, []), e, cfg))
  {
    EvictKeeps(sender, e.now, cfg);
    forall i ensures AgreeAt(receiver, Evict(sender, e.now, cfg), i) {
      assert AgreeAt(receiver, sender, i);
    }
    KeptSend(receiver, Evict(sender, e.now, cfg), e.id, e.spec, e.now, at);
  }

  lemma SendWhenDrained(receiver: Baselines, sender: Baselines, e: Event, cfg: Config)
    requires ValidTable(sender) && ValidTable(receiver) && e.Send? && e.spec.Valid()
    requires Agree(receiver, sender)
    ensures ValidTable(Evict(sender, e.now, cfg))
    ensures InStep(receiver, [Sent(sender, e, cfg)], AfterSend(sender, e, cfg)) <==>
            CleanSend(Net(sender, receiver, []), e, cfg)
  {
    OneSend(receiver, sender, e, 0, cfg);
    var p, sender' := Sent(sender, e, cfg), AfterSend(sender, e, cfg);
    assert [p][1..] == [];
    if CleanSend(Net(sender, receiver, []), e, cfg) {
      forall at: int ensures Receive(receiver, at, p).success && Arrives(receiver, at, p, sender') {
        OneSend(receiver, sender, e, at, cfg);
      }
    } else {
      assert !SameFields(Receive(receiver, 0, [p][0]).spec.m, [p][0].spec.m);
    }
  }

  lemma {:induction false} SendAtTheEnd(receiver: Baselines, channel: seq<Packet>, sender: Baselines,
                                        e: Event, cfg: Config)
    requires ValidNet(Net(sender, receiver, channel)) && e.Send? && e.spec.Valid()
    requires InStep(receiver, channel, sender)
    ensures ValidTable(Evict(sender, e.now, cfg))
    ensures InStep(receiver, channel + [Sent(sender, e, cfg)], AfterSend(sender, e, cfg)) <==>
            CleanSend(Net(sender, receiver, channel), e, cfg)
    decreases |channel|
  {
    EvictKeeps(sender, e.now, cfg);
    var p, sender' := Sent(sender, e, cfg), AfterSend(sender, e, cfg);
    var longer := channel + [p];
    if channel == [] {
      assert longer == [p];
      SendWhenDrained(receiver, sender, e, cfg);
    } else {
      assert longer[0] == channel[0] && longer[1..] == channel[1..] + [p];
      forall at: int ensures
          InStep(Receive(receiver, at, channel[0]).table, longer[1..], sender') <==>
          CleanSend(Net(sender, receiver, channel), e, cfg) {
        assert Receive(receiver, at, channel[0]).success;
        ReceiveKeepsTables(receiver, at, channel[0]);
        SendAtTheEnd(Receive(receiver, at, channel[0]).table, channel[1..], sender, e, cfg);
      }
      assert Receive(receiver, 0, longer[0]).success;
    }
  }

  lemma {:induction false} ForgetfulSender(receiver: Baselines, channel: seq<Packet>, sender: Baselines)
    requires InStep(receiver, channel, sender)
    ensures InStep(receiver, channel, Empty())
    decreases |channel|
  {
    if channel != [] {
      forall at: int ensures InStep(Receive(receiver, at, channel[0]).table, channel[1..], Empty()) {
        assert Receive(receiver, at, channel[0]).success;
        ForgetfulSender(Receive(receiver, at, channel[0]).table, channel[1..], sender);
      }
    }
  }

  /** Every event keeps the two sides in step, except an unclean send, which
      never does. */
  lemma StepInStep(net: Net, e: Event, cfg: Config)
    requires ValidNet(net) && ValidEvent(e) && InStep(net.receiver, net.channel, net.sender)
    ensures var next := Step(net, e, cfg);
            InStep(next.receiver, next.channel, next.sender) <==>
            (e.Send? ==> CleanSend(net, e, cfg))
  {
    match e
    case Send(_, _, _) => SendAtTheEnd(net.receiver, net.channel, net.sender, e, cfg);
    case ClearSender => ForgetfulSender(net.receiver, net.channel, net.sender);
    case Deliver(at) =>
      if net.channel != [] {
        assert Receive(net.receiver, at, net.channel[0]).success;
      }
  }

  // Whole runs.

  ghost function Run(net: Net, events: seq<Event>, cfg: Config): Net
    requires ValidNet(net) && forall e :: e in events ==> ValidEvent(e)
    decreases |events|
  {
    if events == [] then net else
      StepKeepsTables(net, events[0], cfg);
      Run(Step(net, events[0], cfg), events[1..], cfg)
  }

  ghost predicate AllSendsClean(net: Net, events: seq<Event>, cfg: Config)
    requires ValidNet(net) && forall e :: e in events ==> ValidEvent(e)
    decreases |events|
  {
    events == [] ||
      (StepKeepsTables(net, events[0], cfg);
       && (events[0].Send? ==> CleanSend(net, events[0], cfg))
       && AllSendsClean(Step(net, events[0], cfg), events[1..], cfg))
  }

  /** Every delivery of the run succeeds and returns the spec its packet was made from. */
  ghost predicate AllDeliveriesExact(net: Net, events: seq<Event>, cfg: Config)
    requires ValidNet(net) && forall e :: e in events ==> ValidEvent(e)
    decreases |events|
  {
    events == [] ||
      (StepKeepsTables(net, events[0], cfg);
       && (events[0].Deliver? && net.channel != [] ==>
             var r := Receive(net.receiver, events[0].at, net.channel[0]);
             r.success && SameFields(r.spec.m, net.channel[0].spec.m))
       && AllDeliveriesExact(Step(net, events[0], cfg), events[1..], cfg))
  }

  /** Over a first-in-first-out channel with any delay and any interleaving of
      sends, evictions and deliveries, every delivery is exact, and whenever the
      channel is empty the receiver agrees with everything the sender holds. */
  lemma {:induction false} FifoTheorem(net: Net, events: seq<Event>, cfg: Config)
    requires ValidNet(net) && forall e :: e in events ==> ValidEvent(e)
    requires InStep(net.receiver, net.channel, net.sender)
    requires AllSendsClean(net, events, cfg)
    ensures AllDeliveriesExact(net, events, cfg)
    ensures var end := Run(net, events, cfg);
            && InStep(end.receiver, end.channel, end.sender)
            && (end.channel == [] ==> Agree(end.receiver, end.sender))
    decreases |events|
  {
    if events != [] {
      StepKeepsTables(net, events[0], cfg);
      StepInStep(net, events[0], cfg);
      if events[0].Deliver? && net.channel != [] {
        assert Receive(net.receiver, events[0].at, net.channel[0]).success;
      }
      FifoTheorem(Step(net, events[0], cfg), events[1..], cfg);
    }
  }

  // ----- a channel that drops, duplicates and reorders -----

  /** Everything ever sent may be delivered any number of times, in any order, or never. */
  datatype LossyNet = LossyNet(sender: Baselines, receiver: Baselines, sent: seq<Packet>)

  datatype LossyEvent =
    | LossySend(now: int, id: string, spec: Spec)
    | LossyDeliver(at: int, index: nat)

  predicate IsUnchanged(p: Payload) {
    p.full == Some(false) && p.baselineChecksum == None
  }

  /** A full payload, or a changed or empty delta together with the baseline it was computed from. */
  ghost predicate Genuine(p: Packet) {
    && p.spec.Valid() && ValidPayload(p.payload)
    && (|| p.payload == FullPayload(p.spec)
        || (exists b: Baseline :: MadeFrom(p, b))
        || (exists b: Baseline :: SaysUnchanged(p, b)))
  }

  /** The payload says that the spec is what the baseline b holds. */
  ghost predicate SaysUnchanged(p: Packet, b: Baseline) {
    && p.payload == UnchangedPayload(b)
    && b.checksum == Digest(b.data.m) && SameFields(b.data.m, p.spec.m)
  }

  ghost predicate MadeFrom(p: Packet, b: Baseline)
    requires p.spec.Valid()
  {
    && b.data.Valid() && b.checksum == Digest(b.data.m)
    && Clean(p.spec, b.data)
    && p.payload == DeltaPayload(p.spec, b)
  }

  /** Each held spec is the one its checksum was computed from. */
  ghost predicate Honest(receiver: Baselines) {
    && ValidTable(receiver)
    && forall id :: id in receiver.m ==>
         SameFields(receiver.m[id].data.m, receiver.m[id].checksum.content)
  }

  /** Each of the sender's checksums is that of its baseline, spelling and all. */
  ghost predicate OwnSums(sender: Baselines) {
    forall id :: id in sender.m ==> sender.m[id].checksum == Digest(sender.m[id].data.m)
  }

  ghost predicate LossyInv(net: LossyNet) {
    && ValidTable(net.sender) && OwnSums(net.sender)
    && Honest(net.receiver)
    && forall i :: 0 <= i < |net.sent| ==> Genuine(net.sent[i])
  }

  ghost function LossyStep(net: LossyNet, e: LossyEvent, cfg: Config): LossyNet
    requires LossyInv(net) && (e.LossySend? ==> e.spec.Valid())
  {
    match e
    case LossySend(now, id, spec) =>
      EvictKeeps(net.sender, now, cfg);
      var (sender, payload) := Compress(net.sender, now, id, spec, cfg);
      net.(sender := sender, sent := net.sent + [Packet(id, payload, spec)])
    case LossyDeliver(at, i) =>
      if i < |net.sent| then
        assert Genuine(net.sent[i]);
        net.(receiver := Receive(net.receiver, at, net.sent[i]).table)
      else net
  }

  lemma UnchangedReceived(receiver: Baselines, at: int, p: Packet, b: Baseline)
    requires ValidTable(receiver) && SaysUnchanged(p, b) && p.id in receiver.m
    ensures var held := receiver.m[p.id];
            Receive(receiver, at, p) ==
            Received(receiver.Put(p.id, Baseline(held.data, b.checksum, held.createdAt, b.version)), held.data, true)
  {
    assert Apply(receiver.m[p.id].data, Empty()) == receiver.m[p.id].data;
  }

  lemma HonestPut(receiver: Baselines, id: string, b: Baseline)
    requires Honest(receiver) && b.data.Valid()
    ensures Honest(receiver.Put(id, b)) <==> SameFields(b.data.m, b.checksum.content)
  {
    StoreKeeps(receiver, id, b);
    assert receiver.Put(id, b).m[id] == b;
  }

  /** An "unchanged" payload is accepted whatever the receiver holds for its id, and is right
      if and only if the checksum held and the payload's are of equal specs; only then does
      the receiver still hold its specs under their own checksums. */
  lemma UnchangedReceive(receiver: Baselines, at: int, p: Packet, b: Baseline)
    requires Honest(receiver) && SaysUnchanged(p, b)
    ensures Receive(receiver, at, p).success <==> p.id in receiver.m
    ensures p.id in receiver.m ==>
              var r := Receive(receiver, at, p);
              var same := SameFields(receiver.m[p.id].checksum.content, b.checksum.content);
              (SameFields(r.spec.m, p.spec.m) <==> same) && (Honest(r.table) <==> same)
  {
    if p.id in receiver.m {
      var held := receiver.m[p.id];
      UnchangedReceived(receiver, at, p, b);
      SameFieldsAlong(held.data.m, held.checksum.content, b.data.m, p.spec.m);
      HonestPut(receiver, p.id, Baseline(held.data, b.checksum, held.createdAt, b.version));
    }
  }

  lemma SameFieldsAlong(held: map<string, Json>, sum: map<string, Json>,
                        base: map<string, Json>, spec: map<string, Json>)
    requires SameFields(held, sum) && SameFields(base, spec)
    ensures SameFields(held, spec) <==> SameFields(sum, base)
    ensures SameFields(held, base) <==> SameFields(sum, base)
  {
  }

  /** An "unchanged" payload meets the checksum it stands for, or no baseline at all. */
  predicate Deliverable(receiver: Baselines, p: Packet) {
    IsUnchanged(p.payload) && p.id in receiver.m && p.payload.checksum.Some? ==>
      SameFields(receiver.m[p.id].checksum.content, p.payload.checksum.value.content)
  }

  /** The sends must be clean, and "unchanged" payloads deliverable. */
  ghost predicate Allowed(net: LossyNet, e: LossyEvent, cfg: Config)
    requires LossyInv(net)
  {
    match e
    case LossySend(now, id, spec) =>
      spec.Valid() &&
      CleanSend(Net(net.sender, Empty(), []), Send(now, id, spec), cfg)
    case LossyDeliver(at, i) => i < |net.sent| ==> Deliverable(net.receiver, net.sent[i])
  }

  lemma ChangedReceive(receiver: Baselines, at: int, p: Packet, b: Baseline)
    requires Honest(receiver) && p.spec.Valid() && ValidPayload(p.payload) && MadeFrom(p, b)
    ensures var r := Receive(receiver, at, p);
            && Honest(r.table)
            && (r.success ==> SameFields(r.spec.m, p.spec.m))
            && (!r.success ==> r.table == receiver)
  {
    var r := Receive(receiver, at, p);
    if r.success {
      var held := receiver.m[p.id];
      assert held.checksum == b.checksum;
      RoundTrip(held.data, p.spec, b.data);
      HonestPut(receiver, p.id, r.table.m[p.id]);
    }
  }

  lemma FullReceive(receiver: Baselines, at: int, p: Packet)
    requires Honest(receiver) && p.spec.Valid() && p.payload == FullPayload(p.spec)
    ensures var r := Receive(receiver, at, p);
            Honest(r.table) && r.success && SameFields(r.spec.m, p.spec.m)
  {
    HonestPut(receiver, p.id, Baseline(p.spec, Digest(p.spec.m), at, 1));
  }

  /** What one delivery from an unreliable channel does: a refused payload changes nothing;
      an accepted one yields its own spec, leaving the receiver's checksums true, if and
      only if it is deliverable. */
  lemma LossyReceive(receiver: Baselines, at: int, p: Packet)
    requires Honest(receiver) && Genuine(p)
    ensures var r := Receive(receiver, at, p);
            && (Honest(r.table) && (r.success ==> SameFields(r.spec.m, p.spec.m)) <==> Deliverable(receiver, p))
            && (!r.success ==> r.table == receiver)
  {
    if p.payload == FullPayload(p.spec) {
      FullReceive(receiver, at, p);
    } else if exists b: Baseline :: MadeFrom(p, b) {
      var b: Baseline :| MadeFrom(p, b);
      ChangedReceive(receiver, at, p, b);
    } else {
      var b: Baseline :| SaysUnchanged(p, b);
      UnchangedReceive(receiver, at, p, b);
    }
  }

  lemma SentIsGenuine(kept: Baselines, now: int, id: string, spec: Spec)
    requires ValidTable(kept) && spec.Valid()
    requires id in kept.m ==> kept.m[id].checksum == Digest(kept.m[id].data.m) && Clean(spec, kept.m[id].data)
    ensures Genuine(Packet(id, CompressKept(kept, now, id, spec).1, spec))
  {
    CompressKeptKeeps(kept, now, id, spec);
    var p := Packet(id, CompressKept(kept, now, id, spec).1, spec);
    if id in kept.m {
      var b := kept.m[id];
      if Delta(spec, b.data).keys == [] {
        EmptyDelta(spec, b.data);
        SameFieldsTransitive(spec.m, b.data.m, b.data.m);
        assert SaysUnchanged(p, b);
      } else {
        assert MadeFrom(p, b);
      }
    }
  }

  lemma CompressedSums(kept: Baselines, now: int, id: string, spec: Spec)
    requires ValidTable(kept) && OwnSums(kept) && spec.Valid()
    ensures OwnSums(CompressKept(kept, now, id, spec).0)
  {
  }

  lemma LossySendKeeps(net: LossyNet, e: LossyEvent, cfg: Config)
    requires LossyInv(net) && e.LossySend? && Allowed(net, e, cfg)
    ensures LossyInv(LossyStep(net, e, cfg))
  {
    EvictKeeps(net.sender, e.now, cfg);
    CompressKeptKeeps(Evict(net.sender, e.now, cfg), e.now, e.id, e.spec);
    CompressedSums(Evict(net.sender, e.now, cfg), e.now, e.id, e.spec);
    SentIsGenuine(Evict(net.sender, e.now, cfg), e.now, e.id, e.spec);
  }

  ghost predicate LossyRunAllowed(net: LossyNet, events: seq<LossyEvent>, cfg: Config)
    requires LossyInv(net)
    decreases |events|
  {
    events == [] ||
      (&& Allowed(net, events[0], cfg)
       && (LossyStepKeeps(net, events[0], cfg);
           LossyRunAllowed(LossyStep(net, events[0], cfg), events[1..], cfg)))
  }

  lemma LossyStepKeeps(net: LossyNet, e: LossyEvent, cfg: Config)
    requires LossyInv(net) && Allowed(net, e, cfg)
    ensures LossyInv(LossyStep(net, e, cfg))
  {
    if e.LossySend? {
      LossySendKeeps(net, e, cfg);
    } else if e.index < |net.sent| {
      LossyReceive(net.receiver, e.at, net.sent[e.index]);
    }
  }

  /** The guarantee for each delivery of a run. */
  ghost predicate NeverWrong(net: LossyNet, events: seq<LossyEvent>, cfg: Config)
    requires LossyInv(net) && LossyRunAllowed(net, events, cfg)
    decreases |events|
  {
    events == [] ||
      (LossyStepKeeps(net, events[0], cfg);
       && (events[0].LossyDeliver? && events[0].index < |net.sent| ==>
             var p := net.sent[events[0].index];
             assert Genuine(p);
             var r := Receive(net.receiver, events[0].at, p);
             && (r.success ==> SameFields(r.spec.m, p.spec.m))
             && (!r.success ==> LossyStep(net, events[0], cfg).receiver == net.receiver))
       && NeverWrong(LossyStep(net, events[0], cfg), events[1..], cfg))
  }

  /** Over any run of an unreliable channel, every accepted payload yields exactly its own
      spec, and every refused one changes nothing. */
  lemma {:induction false} LossyTheorem(net: LossyNet, events: seq<LossyEvent>, cfg: Config)
    requires LossyInv(net) && LossyRunAllowed(net, events, cfg)
    ensures NeverWrong(net, events, cfg)
    decreases |events|
  {
    if events != [] {
      LossyStepKeeps(net, events[0], cfg);
      if events[0].LossyDeliver? && events[0].index < |net.sent| {
        LossyReceive(net.receiver, events[0].at, net.sent[events[0].index]);
      }
      LossyTheorem(LossyStep(net, events[0], cfg), events[1..], cfg);
    }
  }

  // ----- from the beginning -----

  /** Two parties that hold nothing yet, and nothing sent, meet what both theorems ask. */
  lemma NothingSentYet()
    ensures ValidNet(Net(Empty(), Empty(), [])) && InStep(Empty(), [], Empty())
    ensures LossyInv(LossyNet(Empty(), Empty(), []))
  {
  }

  /** So from there every run of clean sends is exact over the first channel, and every run of
      clean sends and deliverable payloads is never wrong over the second. */
  lemma RunsFromTheBeginning(events: seq<Event>, lossy: seq<LossyEvent>, cfg: Config)
    requires forall e :: e in events ==> ValidEvent(e)
    requires AllSendsClean(Net(Empty(), Empty(), []), events, cfg)
    requires LossyRunAllowed(LossyNet(Empty(), Empty(), []), lossy, cfg)
    ensures AllDeliveriesExact(Net(Empty(), Empty(), []), events, cfg)
    ensures var end := Run(Net(Empty(), Empty(), []), events, cfg);
            end.channel == [] ==> Agree(end.receiver, end.sender)
    ensures NeverWrong(LossyNet(Empty(), Empty(), []), lossy, cfg)
  {
    NothingSentYet();
    FifoTheorem(Net(Empty(), Empty(), []), events, cfg);
    LossyTheorem(LossyNet(Empty(), Empty(), []), lossy, cfg);
  }

  // ----- an "unchanged" payload that comes late -----

  ghost function LossyRun(net: LossyNet, events: seq<LossyEvent>, cfg: Config): (end: LossyNet)
    requires LossyInv(net) && LossyRunAllowed(net, events, cfg)
    ensures LossyInv(end)
    decreases |events|
  {
    if events == [] then net else
      LossyStepKeeps(net, events[0], cfg);
      LossyRun(LossyStep(net, events[0], cfg), events[1..], cfg)
  }

  lemma {:induction false} OneMoreEvent(net: LossyNet, events: seq<LossyEvent>, e: LossyEvent, cfg: Config)
    requires LossyInv(net) && LossyRunAllowed(net, events, cfg)
    requires Allowed(LossyRun(net, events, cfg), e, cfg)
    ensures LossyRunAllowed(net, events + [e], cfg)
    ensures LossyRun(net, events + [e], cfg) == LossyStep(LossyRun(net, events, cfg), e, cfg)
    decreases |events|
  {
    if events == [] {
      assert [] + [e] == [e] && [e][1..] == [];
      LossyStepKeeps(net, e, cfg);
      assert LossyRunAllowed(LossyStep(net, e, cfg), [], cfg);
    } else {
      LossyStepKeeps(net, events[0], cfg);
      OneMoreEvent(LossyStep(net, events[0], cfg), events[1..], e, cfg);
      assert (events + [e])[1..] == events[1..] + [e];
    }
  }

  /** A table that holds one baseline, made at time 0. */
  function Holding(spec: Spec, version: int): Baselines {
    Dict(["s"], map["s" := Baseline(spec, Digest(spec.m), 0, version)])
  }

  predicate Roomy(cfg: Config) {
    cfg.maxBaselines >= 1 && cfg.ttl >= 0
  }

  lemma HoldingStays(spec: Spec, version: int, cfg: Config)
    requires Roomy(cfg) && spec.Valid()
    ensures ValidTable(Holding(spec, version)) && Evict(Holding(spec, version), 0, cfg) == Holding(spec, version)
  {
    var bs := Holding(spec, version);
    assert bs.keys[..|bs.keys| - 1] == [];
    assert DropStale(bs, [], 0, cfg.ttl) == bs;
  }

  lemma OneEntry(x: Baseline, y: Baseline)
    ensures Empty().Put("s", x).MoveToEnd("s") == Dict(["s"], map["s" := x])
    ensures Dict(["s"], map["s" := y]).Put("s", x).MoveToEnd("s") == Dict(["s"], map["s" := x])
  {
    assert Without(["s"], "s") == [];
    assert [] + ["s"] == ["s"];
  }

  lemma FirstSend(a: Spec, cfg: Config)
    requires Roomy(cfg) && a.Valid()
    ensures Evict(Empty(), 0, cfg) == Empty()
    ensures Compress(Empty(), 0, "s", a, cfg) == (Holding(a, 1), FullPayload(a))
  {
    assert Empty<string, Baseline>().keys == [];
    OneEntry(Baseline(a, Digest(a.m), 0, 1), Baseline(a, Digest(a.m), 0, 1));
  }

  lemma SecondSend(a: Spec, cfg: Config)
    requires Roomy(cfg) && a.Valid()
    ensures ValidTable(Evict(Holding(a, 1), 0, cfg)) && Clean(a, a)
    ensures Compress(Holding(a, 1), 0, "s", a, cfg) == (Holding(a, 1), UnchangedPayload(Holding(a, 1).m["s"]))
  {
    HoldingStays(a, 1, cfg);
    EmptyDelta(a, a);
  }

  lemma ThirdSend(a: Spec, b: Spec, cfg: Config)
    requires Roomy(cfg) && a.Valid() && b.Valid() && !SameFields(b.m, a.m)
    ensures ValidTable(Evict(Holding(a, 1), 0, cfg))
    ensures Compress(Holding(a, 1), 0, "s", b, cfg) == (Holding(b, 2), DeltaPayload(b, Holding(a, 1).m["s"]))
  {
    HoldingStays(a, 1, cfg);
    EmptyDelta(b, a);
    OneEntry(Baseline(b, Digest(b.m), 0, 2), Baseline(a, Digest(a.m), 0, 1));
  }

  /** The packets that sending a, and a again, makes. */
  function TwoPackets(a: Spec): seq<Packet> {
    [Packet("s", FullPayload(a), a), Packet("s", UnchangedPayload(Holding(a, 1).m["s"]), a)]
  }

  /** And b after them. */
  function ThreePackets(a: Spec, b: Spec): seq<Packet>
    requires a.Valid() && b.Valid()
  {
    TwoPackets(a) + [Packet("s", DeltaPayload(b, Holding(a, 1).m["s"]), b)]
  }

  function ThreeSends(a: Spec, b: Spec): seq<LossyEvent> {
    [LossySend(0, "s", a)] + [LossySend(0, "s", a)] + [LossySend(0, "s", b)]
  }

  lemma AfterTwoSends(a: Spec, cfg: Config)
    requires Roomy(cfg) && a.Valid()
    ensures LossyInv(LossyNet(Empty(), Empty(), []))
    ensures var events := [LossySend(0, "s", a)] + [LossySend(0, "s", a)];
            LossyRunAllowed(LossyNet(Empty(), Empty(), []), events, cfg) &&
            LossyRun(LossyNet(Empty(), Empty(), []), events, cfg) ==
            LossyNet(Holding(a, 1), Empty(), TwoPackets(a))
  {
    var net := LossyNet(Empty(), Empty(), []);
    FirstSend(a, cfg);
    SecondSend(a, cfg);
    OneMoreEvent(net, [], LossySend(0, "s", a), cfg);
    OneMoreEvent(net, [LossySend(0, "s", a)], LossySend(0, "s", a), cfg);
  }

  lemma ThirdStep(a: Spec, b: Spec, net: LossyNet, cfg: Config)
    requires Roomy(cfg) && a.Valid() && b.Valid() && Clean(b, a) && !SameFields(b.m, a.m)
    requires LossyInv(net) && net == LossyNet(Holding(a, 1), Empty(), TwoPackets(a))
    ensures Allowed(net, LossySend(0, "s", b), cfg)
    ensures LossyStep(net, LossySend(0, "s", b), cfg) == LossyNet(Holding(b, 2), Empty(), ThreePackets(a, b))
  {
    HoldingStays(a, 1, cfg);
    ThirdSend(a, b, cfg);
  }

  lemma AfterThreeSends(a: Spec, b: Spec, cfg: Config)
    requires Roomy(cfg) && a.Valid() && b.Valid() && Clean(b, a) && !SameFields(b.m, a.m)
    ensures LossyInv(LossyNet(Empty(), Empty(), []))
    ensures LossyRunAllowed(LossyNet(Empty(), Empty(), []), ThreeSends(a, b), cfg)
    ensures LossyRun(LossyNet(Empty(), Empty(), []), ThreeSends(a, b), cfg) ==
            LossyNet(Holding(b, 2), Empty(), ThreePackets(a, b))
  {
    var net, two := LossyNet(Empty(), Empty(), []), [LossySend(0, "s", a)] + [LossySend(0, "s", a)];
    AfterTwoSends(a, cfg);
    ThirdStep(a, b, LossyRun(net, two, cfg), cfg);
    OneMoreEvent(net, two, LossySend(0, "s", b), cfg);
  }

  /** The receiver gets the first packet, and then the third. */
  lemma FirstAndThird(a: Spec, b: Spec)
    requires a.Valid() && b.Valid() && Clean(b, a)
    ensures Receive(Empty(), 0, ThreePackets(a, b)[0]).table == Holding(a, 1)
    ensures ValidPayload(ThreePackets(a, b)[2].payload)
    ensures var next := Receive(Holding(a, 1), 0, ThreePackets(a, b)[2]).table;
            "s" in next.m && next.m["s"].checksum == Digest(b.m)
  {
    DeltaMeaning(b, a);
    assert Empty<string, Baseline>().Put("s", Baseline(a, Digest(a.m), 0, 1)) == Holding(a, 1);
  }

  function FiveEvents(a: Spec, b: Spec): seq<LossyEvent> {
    ThreeSends(a, b) + [LossyDeliver(0, 0)] + [LossyDeliver(0, 2)]
  }

  lemma AfterFiveEvents(a: Spec, b: Spec, cfg: Config)
    requires Roomy(cfg) && a.Valid() && b.Valid() && Clean(b, a) && !SameFields(b.m, a.m)
    ensures LossyInv(LossyNet(Empty(), Empty(), []))
    ensures LossyRunAllowed(LossyNet(Empty(), Empty(), []), FiveEvents(a, b), cfg)
    ensures var end := LossyRun(LossyNet(Empty(), Empty(), []), FiveEvents(a, b), cfg);
            && end.sent == ThreePackets(a, b)
            && "s" in end.receiver.m && end.receiver.m["s"].checksum == Digest(b.m)
  {
    var net := LossyNet(Empty(), Empty(), []);
    AfterThreeSends(a, b, cfg);
    FirstAndThird(a, b);
    OneMoreEvent(net, ThreeSends(a, b), LossyDeliver(0, 0), cfg);
    OneMoreEvent(net, ThreeSends(a, b) + [LossyDeliver(0, 0)], LossyDeliver(0, 2), cfg);
  }

  /** An "unchanged" payload carries no baseline checksum. Send a spec, send it again, and send
      another; let the packets arrive in the order first, third, second. Everything up to
      there is allowed, and exact; then the second is accepted, returns another spec than its
      own, and leaves the receiver holding a spec under a checksum of a different one. */
  lemma LateUnchangedPayloadIsWrong(a: Spec, b: Spec, cfg: Config)
    requires Roomy(cfg) && a.Valid() && b.Valid() && Clean(b, a) && !SameFields(b.m, a.m)
    ensures LossyInv(LossyNet(Empty(), Empty(), []))
    ensures LossyRunAllowed(LossyNet(Empty(), Empty(), []), FiveEvents(a, b), cfg)
    ensures var end := LossyRun(LossyNet(Empty(), Empty(), []), FiveEvents(a, b), cfg);
            && |end.sent| == 3 && end.sent[1].spec == a && Genuine(end.sent[1])
            && !Deliverable(end.receiver, end.sent[1])
            && var r := Receive(end.receiver, 0, end.sent[1]);
               r.success && !SameFields(r.spec.m, a.m) && !Honest(r.table)
  {
    AfterFiveEvents(a, b, cfg);
    var end := LossyRun(LossyNet(Empty(), Empty(), []), FiveEvents(a, b), cfg);
    LateUnchangedReceive(end.receiver, a, b);
  }

  lemma LateUnchangedReceive(receiver: Baselines, a: Spec, b: Spec)
    requires a.Valid() && b.Valid() && !SameFields(b.m, a.m) && Honest(receiver)
    requires "s" in receiver.m && receiver.m["s"].checksum == Digest(b.m)
    ensures var p := ThreePackets(a, b)[1];
            && Genuine(p) && !Deliverable(receiver, p)
            && var r := Receive(receiver, 0, p);
               r.success && !SameFields(r.spec.m, a.m) && !Honest(r.table)
  {
    var p := ThreePackets(a, b)[1];
    assert SaysUnchanged(p, Holding(a, 1).m["s"]);
    assert Genuine(p);
    UnchangedReceive(receiver, 0, p, Holding(a, 1).m["s"]);
  }

  /** There are such specs. */
  lemma TwoSuchSpecs() returns (a: Spec, b: Spec)
    ensures a.Valid() && b.Valid() && Clean(b, a) && !SameFields(b.m, a.m)
  {
    a, b := Empty().Put("a", Int(1)), Empty();
    assert "a" in a.m && "a" !in b.m;
  }
}
