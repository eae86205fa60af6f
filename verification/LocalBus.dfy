/** The local event bus: one queue per subscription and message type. */
module LocalBus {
  import opened JsonValues

  /** What is put on the bus: by send_message, for its tenant and for "all", or by one of the
      publishing methods, for its tenant alone. */
  datatype Message = Message(tenant: string, messageType: string, body: Json, broadcast: bool)

  /** A subscription to one type: its queue, what its handler has been given, and for
      reference every message put on the bus since it subscribed. */
  datatype Subscription = Subscription(
    tenant: string, messageType: string, queue: seq<Json>, handled: seq<Json>, since: seq<Message>)

  /** message.tenant_id or "default" */
  function SenderTenant(m: Message): string {
    if m.tenant == "" then "default" else m.tenant
  }

  /** How many times the subscriber list of a message holds this subscription: once for
      its tenant's queues and, when it is sent, once for those of "all". */
  function Copies(s: Subscription, m: Message): nat {
    if s.messageType != m.messageType then 0 else
      (if s.tenant == SenderTenant(m) then 1 else 0) + (if m.broadcast && s.tenant == "all" then 1 else 0)
  }

  function Times(body: Json, n: nat): seq<Json> {
    if n == 0 then [] else Times(body, n - 1) + [body]
  }

  /** What a subscription is due: its copies of each message, in the order sent. */
  function Due(s: Subscription, sent: seq<Message>): seq<Json> {
    if sent == [] then [] else
      Due(s, sent[..|sent| - 1]) + Times(sent[|sent| - 1].body, Copies(s, sent[|sent| - 1]))
  }

  /** The message comes from this tenant; one without a tenant counts as the default tenant's. */
  predicate IsFrom(tenant: string, m: Message) {
    (m.tenant == tenant && tenant != "") || (m.tenant == "" && tenant == "default")
  }

  function Matches(s: Subscription, m: Message): seq<Json> {
    if m.messageType == s.messageType && ((m.broadcast && s.tenant == "all") || IsFrom(s.tenant, m))
    then [m.body] else []
  }

  /** The messages for the subscription's tenant, or sent by anybody if it listens to "all". */
  function Matching(s: Subscription, sent: seq<Message>): seq<Json> {
    if sent == [] then [] else
      Matching(s, sent[..|sent| - 1]) + Matches(s, sent[|sent| - 1])
  }

  datatype Event =
    | Subscribe(tenant: string, types: seq<string>)
    | Put(message: Message)
    | Consume(index: nat)   // the consumer task of one subscription takes one message

  function Subscribed(tenant: string, types: seq<string>): seq<Subscription> {
    if types == [] then [] else
      Subscribed(tenant, types[..|types| - 1]) + [Subscription(tenant, types[|types| - 1], [], [], [])]
  }

  function Deliver(s: Subscription, m: Message): Subscription {
    s.(queue := s.queue + Times(m.body, Copies(s, m)), since := s.since + [m])
  }

  function TakeOne(s: Subscription): Subscription {
    if s.queue == [] then s else s.(queue := s.queue[1..], handled := s.handled + [s.queue[0]])
  }

  function Step(subs: seq<Subscription>, e: Event): seq<Subscription> {
    match e
    case Subscribe(tenant, types) => subs + Subscribed(tenant, types)
    case Put(m) => seq(|subs|, i requires 0 <= i < |subs| => Deliver(subs[i], m))
    case Consume(i) => if i < |subs| then subs[i := TakeOne(subs[i])] else subs
  }

  function Run(events: seq<Event>): seq<Subscription> {
    if events == [] then [] else Step(Run(events[..|events| - 1]), events[|events| - 1])
  }

  /** Handled and waiting messages together are exactly what is due. */
  ghost predicate Exact(s: Subscription) {
    s.handled + s.queue == Due(s, s.since)
  }

  lemma DueIgnoresQueues(s: Subscription, t: Subscription, sent: seq<Message>)
    requires s.tenant == t.tenant && s.messageType == t.messageType
    ensures Due(s, sent) == Due(t, sent)
  {
    if sent != [] {
      DueIgnoresQueues(s, t, sent[..|sent| - 1]);
    }
  }

  lemma DeliverExact(s: Subscription, m: Message)
    requires Exact(s)
    ensures Exact(Deliver(s, m))
  {
    var t := Deliver(s, m);
    assert t.since[..|t.since| - 1] == s.since;
    DueIgnoresQueues(s, t, s.since);
    assert t.handled + t.queue == (s.handled + s.queue) + Times(m.body, Copies(s, m));
  }

  lemma TakeOneExact(s: Subscription)
    requires Exact(s)
    ensures Exact(TakeOne(s))
  {
    DueIgnoresQueues(s, TakeOne(s), s.since);
    if s.queue != [] {
      assert s.queue == [s.queue[0]] + s.queue[1..];
      assert TakeOne(s).handled + TakeOne(s).queue == s.handled + s.queue;
    }
  }

  lemma {:induction false} SubscribedExact(tenant: string, types: seq<string>)
    ensures |Subscribed(tenant, types)| == |types|
    ensures forall i :: 0 <= i < |types| ==>
              Subscribed(tenant, types)[i] == Subscription(tenant, types[i], [], [], [])
  {
    if types != [] {
      SubscribedExact(tenant, types[..|types| - 1]);
    }
  }

  lemma {:induction false} AllExact(events: seq<Event>)
    ensures forall i :: 0 <= i < |Run(events)| ==> Exact(Run(events)[i])
  {
    if events != [] {
      var before, e := Run(events[..|events| - 1]), events[|events| - 1];
      AllExact(events[..|events| - 1]);
      forall i | 0 <= i < |Run(events)| ensures Exact(Run(events)[i]) {
        match e {
          case Subscribe(tenant, types) => SubscribedExact(tenant, types);
          case Put(m) => DeliverExact(before[i], m);
          case Consume(j) => TakeOneExact(before[i]);
        }
      }
    }
  }

  // ----- the messages since a subscription, read off the run -----

  /** The position of the event that made subscription i. */
  function SubscribedAt(events: seq<Event>, i: nat): nat
    requires i < |Run(events)|
  {
    var front := events[..|events| - 1];
    if i < |Run(front)| then SubscribedAt(front, i) else |events| - 1
  }

  /** The messages put on the bus from position n on, in order. */
  function PutSince(events: seq<Event>, n: nat): seq<Message> {
    if |events| <= n then [] else
      var e := events[|events| - 1];
      PutSince(events[..|events| - 1], n) + if e.Put? then [e.message] else []
  }

  lemma StepKeepsSubscription(subs: seq<Subscription>, e: Event, i: nat)
    requires i < |subs|
    ensures i < |Step(subs, e)|
    ensures var s := Step(subs, e)[i];
            && s.tenant == subs[i].tenant && s.messageType == subs[i].messageType
            && s.since == subs[i].since + if e.Put? then [e.message] else []
  {
  }

  /** The history of a subscription is what was put on the bus after the event that made it. */
  lemma {:induction false} SinceSubscribing(events: seq<Event>, i: nat)
    requires i < |Run(events)|
    ensures var at, s := SubscribedAt(events, i), Run(events)[i];
            && at < |events| && events[at].Subscribe?
            && s.tenant == events[at].tenant && s.messageType in events[at].types
            && s.since == PutSince(events, at + 1)
  {
    var front, e := events[..|events| - 1], events[|events| - 1];
    if i < |Run(front)| {
      SinceSubscribing(front, i);
      StepKeepsSubscription(Run(front), e, i);
    } else {
      SubscribedExact(e.tenant, e.types);
    }
  }

  /** In every run, each subscription's handled messages followed by its queue are what it is
      due of the messages put on the bus since it subscribed, in order. */
  lemma EverySubscriptionIsExact(events: seq<Event>, i: nat)
    requires i < |Run(events)|
    ensures var s := Run(events)[i];
            s.handled + s.queue == Due(s, PutSince(events, SubscribedAt(events, i) + 1))
  {
    AllExact(events);
    SinceSubscribing(events, i);
  }

  predicate Twice(s: Subscription, m: Message) {
    m.broadcast && s.tenant == "all" && m.tenant == "all" && s.messageType == m.messageType
  }

  predicate NoneTwice(s: Subscription, sent: seq<Message>) {
    forall i :: 0 <= i < |sent| ==> !Twice(s, sent[i])
  }

  lemma OneMessage(s: Subscription, m: Message)
    ensures |Times(m.body, Copies(s, m))| >= |Matches(s, m)|
    ensures Times(m.body, Copies(s, m)) == Matches(s, m) <==> !Twice(s, m)
  {
    assert Times(m.body, 0) == [] && Times(m.body, 1) == [m.body];
    assert |Times(m.body, 2)| == 2;
  }

  lemma EqualInParts(a: seq<Json>, b: seq<Json>, x: seq<Json>, y: seq<Json>)
    requires |a| >= |b| && |x| >= |y|
    ensures a + x == b + y <==> a == b && x == y
  {
    if a + x == b + y {
      assert |a| == |b|;
      assert (a + x)[..|a|] == a && (b + y)[..|b|] == b;
      assert (a + x)[|a|..] == x && (b + y)[|b|..] == y;
    }
  }

  lemma NoneTwiceSplits(s: Subscription, prefix: seq<Message>, m: Message)
    ensures NoneTwice(s, prefix + [m]) <==> NoneTwice(s, prefix) && !Twice(s, m)
  {
    var sent := prefix + [m];
    assert sent[|prefix|] == m && forall i :: 0 <= i < |prefix| ==> sent[i] == prefix[i];
  }

  /** Each matching message exactly once: this is what is due if no matching message
      comes from a sender whose tenant is itself "all" to a subscriber of "all", and
      only then. */
  lemma {:induction false} OnceEach(s: Subscription, sent: seq<Message>)
    ensures |Due(s, sent)| >= |Matching(s, sent)|
    ensures Due(s, sent) == Matching(s, sent) <==> NoneTwice(s, sent)
  {
    if sent != [] {
      var prefix, m := sent[..|sent| - 1], sent[|sent| - 1];
      OnceEach(s, prefix);
      OneMessage(s, m);
      EqualInParts(Due(s, prefix), Matching(s, prefix), Times(m.body, Copies(s, m)), Matches(s, m));
      assert sent == prefix + [m];
      NoneTwiceSplits(s, prefix, m);
    }
  }

  /** A message from a sender whose tenant is "all" reaches a subscription of "all" twice. */
  lemma AllToAllArrivesTwice(body: Json)
    ensures var subs := Run([Subscribe("all", ["t"]), Put(Message("all", "t", body, true))]);
            && |subs| == 1 && subs[0].queue == [body, body]
            && Due(subs[0], subs[0].since) != Matching(subs[0], subs[0].since)
  {
    var m := Message("all", "t", body, true);
    var first := [Subscribe("all", ["t"])];
    var events := first + [Put(m)];
    assert events == [Subscribe("all", ["t"]), Put(m)] && events[..1] == first;
    SubscribedExact("all", ["t"]);
    assert Run(first) == [Subscription("all", "t", [], [], [])];
    var s := Run(events)[0];
    assert Times(body, 2) == Times(body, 1) + [body] && Times(body, 1) == [body];
    assert s.since == [m];
    assert Twice(s, s.since[0]);
    OnceEach(s, s.since);
  }
}
