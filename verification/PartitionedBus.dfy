/** The partitioned bus: topics made on demand, hash routing and bounded partition buffers.
    Each publish takes effect when its partition's lock is held; the subscribers are
    notified outside the lock, and only then is the publish counted by the bus. */
module PartitionedBus {
  import opened JsonValues
  import opened Dicts

  datatype Message = Message(topic: string, key: string, payload: Json)

  /** One partition. */
  datatype Broker = Broker(buffer: seq<Message>, published: nat, dropped: nat)

  datatype Config = Config(
    defaultPartitions: int,
    topicPartitions: map<string, int>,  // DEFAULT_TOPIC_PARTITIONS
    maxBuffer: nat,
    hash: string -> int)

  /** partitions holds what the topic's configuration says, brokers the partitions it has. */
  datatype Bus = Bus(partitions: map<string, int>, brokers: Dict<string, seq<Broker>>,
                     totalPublished: nat, notifying: nat, abandoned: nat)

  datatype Event =
    | CreateTopic(name: string, count: int)
    | Publish(message: Message)
    | Notified   // some publish finishes notifying its subscribers
    | Abandoned  // some publish is cancelled while notifying

  datatype Outcome = Accepted | Dropped | Raised

  function NewBrokers(n: int): seq<Broker> {
    if n <= 0 then [] else seq(n, i => Broker([], 0, 0))
  }

  function Created(bus: Bus, name: string, count: int): Bus {
    if name in bus.brokers.m then bus
    else bus.(partitions := bus.partitions[name := count], brokers := bus.brokers.Put(name, NewBrokers(count)))
  }

  function DefaultCount(cfg: Config, topic: string): int {
    if topic in cfg.topicPartitions then cfg.topicPartitions[topic] else cfg.defaultPartitions
  }

  function Received(b: Broker, m: Message, max: nat): Broker {
    if |b.buffer| >= max then b.(dropped := b.dropped + 1)
    else b.(buffer := b.buffer + [m], published := b.published + 1)
  }

  /** hash(key) % n, for a topic with partitions; other topics raise. */
  function Partition(cfg: Config, key: string, n: int): nat
    requires n > 0
  {
    cfg.hash(key) % n
  }

  ghost predicate Valid(bus: Bus) {
    && bus.brokers.Valid() && bus.partitions.Keys == bus.brokers.m.Keys
    && forall t :: t in bus.partitions ==>
         |bus.brokers.m[t]| == if bus.partitions[t] > 0 then bus.partitions[t] else 0
  }

  lemma CreatedValid(bus: Bus, name: string, count: int)
    requires Valid(bus)
    ensures Valid(Created(bus, name, count)) && name in Created(bus, name, count).partitions
  {
    PutValid(bus.brokers, name, NewBrokers(count));
  }

  function Appended(bus: Bus, m: Message, cfg: Config): (Bus, Outcome)
    requires m.topic in bus.partitions && m.topic in bus.brokers.m
    requires bus.partitions[m.topic] > 0 ==> |bus.brokers.m[m.topic]| == bus.partitions[m.topic]
  {
    var n := bus.partitions[m.topic];
    if n <= 0 then (bus, Raised)
    else
      var p := Partition(cfg, m.key, n);
      var old_ := bus.brokers.m[m.topic];
      var brokers := bus.brokers.Put(m.topic, old_[p := Received(old_[p], m, cfg.maxBuffer)]);
      if |old_[p].buffer| >= cfg.maxBuffer then (bus.(brokers := brokers), Dropped)
      else (bus.(brokers := brokers, notifying := bus.notifying + 1), Accepted)
  }

  function Published(bus: Bus, m: Message, cfg: Config): (Bus, Outcome)
    requires Valid(bus)
  {
    CreatedValid(bus, m.topic, DefaultCount(cfg, m.topic));
    Appended(Created(bus, m.topic, DefaultCount(cfg, m.topic)), m, cfg)
  }

  ghost function Step(bus: Bus, e: Event, cfg: Config): Bus
    requires Valid(bus)
  {
    match e
    case CreateTopic(name, count) => Created(bus, name, count)
    case Publish(m) => Published(bus, m, cfg).0
    case Notified =>
      if bus.notifying == 0 then bus
      else bus.(notifying := bus.notifying - 1, totalPublished := bus.totalPublished + 1)
    case Abandoned =>
      if bus.notifying == 0 then bus
      else bus.(notifying := bus.notifying - 1, abandoned := bus.abandoned + 1)
  }

  lemma AppendedValid(bus: Bus, m: Message, cfg: Config)
    requires Valid(bus) && m.topic in bus.partitions
    ensures Valid(Appended(bus, m, cfg).0)
    ensures Appended(bus, m, cfg).0.partitions == bus.partitions
  {
    var n := bus.partitions[m.topic];
    if n > 0 {
      var p, was := Partition(cfg, m.key, n), bus.brokers.m[m.topic];
      PutValid(bus.brokers, m.topic, was[p := Received(was[p], m, cfg.maxBuffer)]);
    }
  }

  lemma PublishedValid(bus: Bus, m: Message, cfg: Config)
    requires Valid(bus)
    ensures Valid(Published(bus, m, cfg).0)
  {
    CreatedValid(bus, m.topic, DefaultCount(cfg, m.topic));
    AppendedValid(Created(bus, m.topic, DefaultCount(cfg, m.topic)), m, cfg);
  }

  lemma StepValid(bus: Bus, e: Event, cfg: Config)
    requires Valid(bus)
    ensures Valid(Step(bus, e, cfg))
  {
    match e {
      case CreateTopic(name, count) => CreatedValid(bus, name, count);
      case Publish(m) => PublishedValid(bus, m, cfg);
      case Notified =>
      case Abandoned =>
    }
  }

  function Start(): Bus {
    Bus(map[], Empty(), 0, 0, 0)
  }

  ghost function Run(events: seq<Event>, cfg: Config): (bus: Bus)
    ensures Valid(bus)
  {
    if events == [] then Start()
    else
      StepValid(Run(events[..|events| - 1], cfg), events[|events| - 1], cfg);
      Step(Run(events[..|events| - 1], cfg), events[|events| - 1], cfg)
  }

  // ----- what each partition holds -----

  /** p is what remains of a when multiples of n are taken away. */
  ghost predicate Remains(a: int, n: int, p: nat) {
    p < n && exists q :: a == q * n + p
  }

  ghost predicate RoutedTo(m: Message, topic: string, n: int, p: nat, cfg: Config) {
    m.topic == topic && Remains(cfg.hash(m.key), n, p)
  }

  /** Each key has one partition of a topic: the remainder of its hash. */
  lemma PartitionMeaning(key: string, n: int, p: nat, cfg: Config)
    requires n > 0
    ensures Partition(cfg, key, n) < n
    ensures Remains(cfg.hash(key), n, p) <==> Partition(cfg, key, n) == p
  {
    var a := cfg.hash(key);
    if a % n == p {
      assert a == a / n * n + p;
    }
    if Remains(a, n, p) {
      var q :| a == q * n + p;
      SameQuotient(a, n, p, q, a / n, a % n);
    }
  }

  lemma SameQuotient(a: int, n: int, p: int, q: int, q': int, p': int)
    requires 0 <= p < n && 0 <= p' < n && q * n + p == q' * n + p'
    ensures p == p'
  {
    Difference(q, q', n);
    if q > q' {
      AtLeastOnce(q - q', n);
    } else if q < q' {
      AtLeastOnce(q' - q, n);
      Difference(q', q, n);
    }
  }

  lemma Difference(q: int, q': int, n: int)
    ensures (q - q') * n == q * n - q' * n
  {
  }

  lemma AtLeastOnce(d: int, n: int)
    requires d >= 1 && n > 0
    ensures d * n >= n
  {
  }

  /** Everything published to the topic whose key hashes to partition p of n, in order. */
  ghost function Routed(events: seq<Event>, topic: string, n: int, p: nat, cfg: Config): seq<Message>
    requires n > 0
  {
    if events == [] then [] else
      var e := events[|events| - 1];
      Routed(events[..|events| - 1], topic, n, p, cfg) +
        if e.Publish? && RoutedTo(e.message, topic, n, p, cfg) then [e.message] else []
  }

  function First(messages: seq<Message>, n: nat): seq<Message> {
    if |messages| <= n then messages else messages[..n]
  }

  /** A partition keeps the first maxBuffer of its messages and drops the rest. */
  ghost predicate Exact(b: Broker, routed: seq<Message>, max: nat) {
    && b.buffer == First(routed, max)
    && b.published == |b.buffer|
    && b.published + b.dropped == |routed|
  }

  lemma ReceivedExact(b: Broker, routed: seq<Message>, m: Message, max: nat)
    requires Exact(b, routed, max)
    ensures Exact(Received(b, m, max), routed + [m], max)
  {
    if |routed| >= max {
      assert (routed + [m])[..max] == routed[..max];
    }
  }

  ghost predicate TopicExact(bus: Bus, events: seq<Event>, topic: string, cfg: Config)
    requires Valid(bus)
  {
    topic in bus.partitions && bus.partitions[topic] > 0 ==>
      forall p :: 0 <= p < bus.partitions[topic] ==>
        Exact(bus.brokers.m[topic][p], Routed(events, topic, bus.partitions[topic], p, cfg), cfg.maxBuffer)
  }

  /** A topic that does not exist has had nothing published to it. */
  lemma {:induction false} NothingBeforeCreation(events: seq<Event>, topic: string, n: int, p: nat, cfg: Config)
    requires n > 0 && topic !in Run(events, cfg).partitions
    ensures Routed(events, topic, n, p, cfg) == []
  {
    if events != [] {
      var front, e := events[..|events| - 1], events[|events| - 1];
      StepKeepsTopics(Run(front, cfg), e, topic, cfg);
      NothingBeforeCreation(front, topic, n, p, cfg);
    }
  }

  lemma StepKeepsTopics(bus: Bus, e: Event, topic: string, cfg: Config)
    requires Valid(bus)
    ensures topic in bus.partitions ==>
              topic in Step(bus, e, cfg).partitions && Step(bus, e, cfg).partitions[topic] == bus.partitions[topic]
    ensures e.Publish? && e.message.topic == topic ==> topic in Step(bus, e, cfg).partitions
  {
    if e.Publish? {
      var m := e.message;
      CreatedValid(bus, m.topic, DefaultCount(cfg, m.topic));
      AppendedValid(Created(bus, m.topic, DefaultCount(cfg, m.topic)), m, cfg);
    }
  }

  lemma CreatedExact(events: seq<Event>, name: string, count: int, topic: string, cfg: Config)
    requires TopicExact(Run(events, cfg), events, topic, cfg)
    ensures Valid(Created(Run(events, cfg), name, count))
    ensures TopicExact(Created(Run(events, cfg), name, count), events, topic, cfg)
  {
    CreatedValid(Run(events, cfg), name, count);
    if topic == name && topic !in Run(events, cfg).partitions && count > 0 {
      forall p | 0 <= p < count
        ensures Exact(NewBrokers(count)[p], Routed(events, topic, count, p, cfg), cfg.maxBuffer)
      {
        NothingBeforeCreation(events, topic, count, p, cfg);
      }
    }
  }

  lemma AppendedExact(bus: Bus, events: seq<Event>, m: Message, topic: string, cfg: Config)
    requires Valid(bus) && m.topic in bus.partitions && TopicExact(bus, events, topic, cfg)
    ensures Valid(Appended(bus, m, cfg).0)
    ensures TopicExact(Appended(bus, m, cfg).0, events + [Publish(m)], topic, cfg)
  {
    AppendedValid(bus, m, cfg);
    if topic in bus.partitions && bus.partitions[topic] > 0 {
      var n, after := bus.partitions[topic], Appended(bus, m, cfg).0;
      assert (events + [Publish(m)])[..|events|] == events;
      forall p | 0 <= p < n
        ensures Exact(after.brokers.m[topic][p], Routed(events + [Publish(m)], topic, n, p, cfg), cfg.maxBuffer)
      {
        PartitionMeaning(m.key, n, p, cfg);
        ReceivedExact(bus.brokers.m[topic][p], Routed(events, topic, n, p, cfg), m, cfg.maxBuffer);
      }
    }
  }

  lemma PublishedExact(events: seq<Event>, m: Message, topic: string, cfg: Config)
    requires TopicExact(Run(events, cfg), events, topic, cfg)
    ensures Valid(Published(Run(events, cfg), m, cfg).0)
    ensures TopicExact(Published(Run(events, cfg), m, cfg).0, events + [Publish(m)], topic, cfg)
  {
    var count := DefaultCount(cfg, m.topic);
    CreatedExact(events, m.topic, count, topic, cfg);
    CreatedValid(Run(events, cfg), m.topic, count);
    AppendedExact(Created(Run(events, cfg), m.topic, count), events, m, topic, cfg);
  }

  lemma OtherEventExact(bus: Bus, events: seq<Event>, e: Event, topic: string, cfg: Config)
    requires Valid(bus) && TopicExact(bus, events, topic, cfg) && !e.Publish?
    ensures TopicExact(bus, events + [e], topic, cfg)
  {
    assert (events + [e])[..|events|] == events;
    if topic in bus.partitions && bus.partitions[topic] > 0 {
      forall p | 0 <= p < bus.partitions[topic]
        ensures Routed(events + [e], topic, bus.partitions[topic], p, cfg)
             == Routed(events, topic, bus.partitions[topic], p, cfg)
      {
      }
    }
  }

  lemma StepExact(events: seq<Event>, e: Event, longer: seq<Event>, topic: string, cfg: Config)
    requires TopicExact(Run(events, cfg), events, topic, cfg) && longer == events + [e]
    ensures TopicExact(Run(longer, cfg), longer, topic, cfg)
  {
    var bus := Run(events, cfg);
    assert longer[..|longer| - 1] == events;
    StepValid(bus, e, cfg);
    match e {
      case CreateTopic(name, count) =>
        CreatedExact(events, name, count, topic, cfg);
        OtherEventExact(Created(bus, name, count), events, e, topic, cfg);
      case Publish(m) => PublishedExact(events, m, topic, cfg);
      case Notified => OtherEventExact(bus, events, e, topic, cfg);
      case Abandoned => OtherEventExact(bus, events, e, topic, cfg);
    }
  }

  lemma LastOf(events: seq<Event>)
    requires events != []
    ensures events == events[..|events| - 1] + [events[|events| - 1]]
  {
  }

  /** In every interleaving, every partition holds exactly the first maxBuffer messages
      routed to it, in order; it counts those as published and all later ones as dropped. */
  lemma {:induction false} EveryPartitionIsExact(events: seq<Event>, topic: string, cfg: Config)
    ensures TopicExact(Run(events, cfg), events, topic, cfg)
  {
    if events != [] {
      var front, e := events[..|events| - 1], events[|events| - 1];
      EveryPartitionIsExact(front, topic, cfg);
      LastOf(events);
      StepExact(front, e, events, topic, cfg);
    }
  }

  function WithKey(messages: seq<Message>, key: string): seq<Message> {
    if messages == [] then [] else
      var m := messages[|messages| - 1];
      WithKey(messages[..|messages| - 1], key) + if m.key == key then [m] else []
  }

  function PublishedWithKey(events: seq<Event>, topic: string, key: string): seq<Message> {
    if events == [] then [] else
      var e := events[|events| - 1];
      PublishedWithKey(events[..|events| - 1], topic, key) +
        if e.Publish? && e.message.topic == topic && e.message.key == key then [e.message] else []
  }

  lemma WithKeyAppend(messages: seq<Message>, m: Message, key: string)
    ensures WithKey(messages + [m], key) == WithKey(messages, key) + if m.key == key then [m] else []
  {
    assert (messages + [m])[..|messages|] == messages;
  }

  /** All messages of one key go to one partition, in the order published. */
  lemma {:induction false} KeysStayTogether(events: seq<Event>, topic: string, n: int, p: nat, key: string, cfg: Config)
    requires n > 0
    ensures WithKey(Routed(events, topic, n, p, cfg), key) ==
            if Remains(cfg.hash(key), n, p) then PublishedWithKey(events, topic, key) else []
  {
    if events != [] {
      var front, e := events[..|events| - 1], events[|events| - 1];
      KeysStayTogether(front, topic, n, p, key, cfg);
      var routed := Routed(front, topic, n, p, cfg);
      if e.Publish? && RoutedTo(e.message, topic, n, p, cfg) {
        WithKeyAppend(routed, e.message, key);
      } else {
        assert routed + [] == routed;
      }
    }
  }

  // ----- conservation -----

  function BufferedIn(brokers: seq<Broker>): nat {
    if brokers == [] then 0 else BufferedIn(brokers[..|brokers| - 1]) + |brokers[|brokers| - 1].buffer|
  }

  function Buffered(keys: seq<string>, m: map<string, seq<Broker>>): nat
    requires forall k :: k in keys ==> k in m
  {
    if keys == [] then 0 else Buffered(keys[..|keys| - 1], m) + BufferedIn(m[keys[|keys| - 1]])
  }

  lemma {:induction false} BufferedInUpdate(brokers: seq<Broker>, p: nat, b: Broker)
    requires p < |brokers|
    ensures BufferedIn(brokers[p := b]) + |brokers[p].buffer| == BufferedIn(brokers) + |b.buffer|
  {
    var last := |brokers| - 1;
    if p == last {
      assert brokers[p := b][..last] == brokers[..last];
    } else {
      BufferedInUpdate(brokers[..last], p, b);
      assert brokers[p := b][..last] == brokers[..last][p := b];
    }
  }

  lemma {:induction false} BufferedElsewhere(keys: seq<string>, m: map<string, seq<Broker>>, k: string, v: seq<Broker>)
    requires (forall x :: x in keys ==> x in m) && k !in keys
    ensures Buffered(keys, m[k := v]) == Buffered(keys, m)
  {
    if keys != [] {
      BufferedElsewhere(keys[..|keys| - 1], m, k, v);
    }
  }

  lemma {:induction false} BufferedUpdate(keys: seq<string>, m: map<string, seq<Broker>>, k: string, v: seq<Broker>)
    requires (forall x :: x in keys ==> x in m) && Distinct(keys) && k in keys
    ensures Buffered(keys, m[k := v]) + BufferedIn(m[k]) == Buffered(keys, m) + BufferedIn(v)
  {
    var front, last := keys[..|keys| - 1], keys[|keys| - 1];
    if k == last {
      assert k !in front;
      BufferedElsewhere(front, m, k, v);
    } else {
      assert k in front;
      BufferedUpdate(front, m, k, v);
    }
  }

  lemma {:induction false} NewBrokersHoldNothing(brokers: seq<Broker>)
    requires forall i :: 0 <= i < |brokers| ==> brokers[i].buffer == []
    ensures BufferedIn(brokers) == 0
  {
    if brokers != [] {
      NewBrokersHoldNothing(brokers[..|brokers| - 1]);
    }
  }

  ghost predicate Conserved(bus: Bus)
    requires Valid(bus)
  {
    bus.totalPublished + bus.notifying + bus.abandoned == Buffered(bus.brokers.keys, bus.brokers.m)
  }

  lemma CreatedConserves(bus: Bus, name: string, count: int)
    requires Valid(bus) && Conserved(bus)
    ensures Valid(Created(bus, name, count)) && Conserved(Created(bus, name, count))
  {
    CreatedValid(bus, name, count);
    if name !in bus.brokers.m {
      NewBrokersHoldNothing(NewBrokers(count));
      BufferedElsewhere(bus.brokers.keys, bus.brokers.m, name, NewBrokers(count));
      assert (bus.brokers.keys + [name])[..|bus.brokers.keys|] == bus.brokers.keys;
    }
  }

  lemma AppendedConserves(bus: Bus, m: Message, cfg: Config)
    requires Valid(bus) && Conserved(bus) && m.topic in bus.partitions
    ensures Valid(Appended(bus, m, cfg).0) && Conserved(Appended(bus, m, cfg).0)
  {
    AppendedValid(bus, m, cfg);
    var n := bus.partitions[m.topic];
    if n > 0 {
      var p, was := Partition(cfg, m.key, n), bus.brokers.m[m.topic];
      var b := Received(was[p], m, cfg.maxBuffer);
      BufferedInUpdate(was, p, b);
      BufferedUpdate(bus.brokers.keys, bus.brokers.m, m.topic, was[p := b]);
    }
  }

  lemma PublishedConserves(bus: Bus, m: Message, cfg: Config)
    requires Valid(bus) && Conserved(bus)
    ensures Valid(Published(bus, m, cfg).0) && Conserved(Published(bus, m, cfg).0)
  {
    var count := DefaultCount(cfg, m.topic);
    CreatedConserves(bus, m.topic, count);
    CreatedValid(bus, m.topic, count);
    AppendedConserves(Created(bus, m.topic, count), m, cfg);
  }

  lemma StepConserves(bus: Bus, e: Event, cfg: Config)
    requires Valid(bus) && Conserved(bus)
    ensures Valid(Step(bus, e, cfg)) && Conserved(Step(bus, e, cfg))
  {
    match e {
      case CreateTopic(name, count) => CreatedConserves(bus, name, count);
      case Publish(m) => PublishedConserves(bus, m, cfg);
      case Notified =>
      case Abandoned =>
    }
  }

  /** In every interleaving, what the bus counts as published, what is still notifying and
      what was cancelled there add up to what all the partitions hold. */
  lemma {:induction false} PublishedIsBuffered(events: seq<Event>, cfg: Config)
    ensures Conserved(Run(events, cfg))
  {
    if events != [] {
      PublishedIsBuffered(events[..|events| - 1], cfg);
      StepConserves(Run(events[..|events| - 1], cfg), events[|events| - 1], cfg);
    }
  }

  // ----- the bus object -----

  class OptimizedAgentBus {
    const cfg: Config
    var partitions: map<string, int>
    var brokers: Dict<string, seq<Broker>>
    var totalPublished: nat
    ghost var notifying: nat
    ghost var abandoned: nat

    ghost function View(): Bus
      reads this
    {
      Bus(partitions, brokers, totalPublished, notifying, abandoned)
    }

    constructor (cfg: Config)
      ensures this.cfg == cfg && View() == Start()
    {
      this.cfg := cfg;
      partitions, brokers, totalPublished := map[], Empty(), 0;
      notifying, abandoned := 0, 0;
    }

    method CreateTopic(name: string, count: int)
      requires Valid(View())
      modifies this`partitions, this`brokers
      ensures Valid(View()) && View() == Created(old(View()), name, count)
    {
      CreatedValid(View(), name, count);
      if name in brokers.m {
        return;
      }
      partitions := partitions[name := count];
      brokers := brokers.Put(name, NewBrokers(count));
    }

    /** publish up to the release of the partition's lock. */
    method BeginPublish(m: Message) returns (outcome: Outcome)
      requires Valid(View())
      modifies this
      ensures Valid(View()) && (View(), outcome) == Published(old(View()), m, cfg)
    {
      if m.topic !in brokers.m {
        CreateTopic(m.topic, if m.topic in cfg.topicPartitions then cfg.topicPartitions[m.topic]
                             else cfg.defaultPartitions);
      }
      outcome := Route(m);
    }

    method Route(m: Message) returns (outcome: Outcome)
      requires Valid(View()) && m.topic in partitions
      modifies this`brokers, this`notifying
      ensures Valid(View()) && (View(), outcome) == Appended(old(View()), m, cfg)
    {
      AppendedValid(View(), m, cfg);
      var n := partitions[m.topic];
      if n <= 0 {
        return Raised;
      }
      var accepted := Offer(m, Partition(cfg, m.key, n));
      if !accepted {
        return Dropped;
      }
      notifying := notifying + 1;
      outcome := Accepted;
    }

    /** The partition's own publish, under its lock. */
    method Offer(m: Message, p: nat) returns (accepted: bool)
      requires m.topic in brokers.m && p < |brokers.m[m.topic]|
      modifies this`brokers
      ensures accepted == (|old(brokers).m[m.topic][p].buffer| < cfg.maxBuffer)
      ensures var topicBrokers := old(brokers).m[m.topic];
              brokers == old(brokers).Put(m.topic, topicBrokers[p := Received(topicBrokers[p], m, cfg.maxBuffer)])
    {
      var b := brokers.m[m.topic][p];
      accepted := |b.buffer| < cfg.maxBuffer;
      if accepted {
        b := b.(buffer := b.buffer + [m], published := b.published + 1);
      } else {
        b := b.(dropped := b.dropped + 1);
      }
      brokers := brokers.Put(m.topic, brokers.m[m.topic][p := b]);
    }

    /** publish once the subscribers have been notified. */
    method EndPublish()
      requires Valid(View()) && notifying > 0
      modifies this`totalPublished, this`notifying
      ensures Valid(View()) && View() == Step(old(View()), Notified, cfg)
    {
      notifying := notifying - 1;
      totalPublished := totalPublished + 1;
    }
  }
}
