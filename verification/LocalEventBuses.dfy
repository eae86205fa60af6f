/** The bus object: queue tables by tenant and type, filled by loops. */
module LocalEventBuses {
  import opened JsonValues
  import opened Dicts
  import opened LocalBus

  function Count(ids: seq<nat>, q: nat): nat {
    if ids == [] then 0 else Count(ids[..|ids| - 1], q) + if ids[|ids| - 1] == q then 1 else 0
  }

  lemma {:induction false} CountConcat(a: seq<nat>, b: seq<nat>, q: nat)
    ensures Count(a + b, q) == Count(a, q) + Count(b, q)
  {
    if b == [] {
      assert a + b == a;
    } else {
      CountConcat(a, b[..|b| - 1], q);
      assert (a + b)[..|a + b| - 1] == a + b[..|b| - 1];
    }
  }

  lemma {:induction false} CountDistinct(ids: seq<nat>, q: nat)
    requires Distinct(ids)
    ensures Count(ids, q) == if q in ids then 1 else 0
  {
    if ids != [] {
      CountDistinct(ids[..|ids| - 1], q);
      assert ids == ids[..|ids| - 1] + [ids[|ids| - 1]];
    }
  }

  type Table = map<(string, string), seq<nat>>

  function ListAt(table: Table, tenant: string, messageType: string): seq<nat> {
    if (tenant, messageType) in table then table[(tenant, messageType)] else []
  }

  /** Each queue stands exactly once in the list of its own tenant and type, and in no other. */
  ghost predicate TableFits(table: Table, subs: seq<Subscription>) {
    && (forall key :: key in table ==>
          Distinct(table[key]) && forall id :: id in table[key] ==>
            id < |subs| && key == (subs[id].tenant, subs[id].messageType))
    && forall i :: 0 <= i < |subs| ==> i in ListAt(table, subs[i].tenant, subs[i].messageType)
  }

  /** The queues a message is put into. */
  function Subscribers(table: Table, m: Message): seq<nat> {
    ListAt(table, SenderTenant(m), m.messageType) + if m.broadcast then ListAt(table, "all", m.messageType) else []
  }

  /** The subscriber list of a message has each queue as often as it is due a copy. */
  lemma SubscribersAreCopies(table: Table, subs: seq<Subscription>, m: Message, i: nat)
    requires TableFits(table, subs) && i < |subs|
    ensures Count(Subscribers(table, m), i) == Copies(subs[i], m)
  {
    var own := ListAt(table, SenderTenant(m), m.messageType);
    var all := if m.broadcast then ListAt(table, "all", m.messageType) else [];
    CountConcat(own, all, i);
    CountDistinct(own, i);
    CountDistinct(all, i);
  }

  class LocalEventBus {
    var running: bool
    var table: Table
    var queues: seq<seq<Json>>
    ghost var subs: seq<Subscription>

    ghost predicate Valid()
      reads this
    {
      && |queues| == |subs|
      && (forall i :: 0 <= i < |subs| ==> queues[i] == subs[i].queue)
      && TableFits(table, subs)
    }

    constructor ()
      ensures Valid() && !running && subs == []
    {
      running, table, queues, subs := false, map[], [], [];
    }

    method Start()
      requires Valid()
      modifies this`running
      ensures Valid() && running
    {
      running := true;
    }

    /** Puts the body into each listed queue, one after the other. */
    method PutAll(ids: seq<nat>, body: Json)
      requires forall id :: id in ids ==> id < |queues|
      modifies this`queues
      ensures |queues| == |old(queues)|
      ensures forall q :: 0 <= q < |queues| ==> queues[q] == old(queues)[q] + Times(body, Count(ids, q))
    {
      for k := 0 to |ids|
        invariant |queues| == |old(queues)|
        invariant forall q :: 0 <= q < |queues| ==>
                    queues[q] == old(queues)[q] + Times(body, Count(ids[..k], q))
      {
        assert ids[..k + 1][..|ids[..k + 1]| - 1] == ids[..k];
        assert ids[k] in ids;
        queues := queues[ids[k] := queues[ids[k]] + [body]];
      }
      assert ids[..|ids|] == ids;
    }

    /** Sends to the queues of the sender's tenant and to those of "all"; refuses before start. */
    method SendMessage(m: Message) returns (raised: bool)
      requires Valid() && m.broadcast
      modifies this`queues, this`subs
      ensures Valid() && raised == !running
      ensures subs == if raised then old(subs) else Step(old(subs), LocalBus.Put(m))
    {
      if !running {
        return true;
      }
      PutMessage(m);
      raised := false;
    }

    /** publish_vote_event, with type "EVENT", and publish_audit_record, with type "AUDIT": to the
        queues of the tenant alone, started or not. */
    method Publish(tenant: string, messageType: string, body: Json)
      requires Valid()
      modifies this`queues, this`subs
      ensures Valid() && subs == Step(old(subs), LocalBus.Put(Message(tenant, messageType, body, false)))
    {
      PutMessage(Message(tenant, messageType, body, false));
    }

    method PutMessage(m: Message)
      requires Valid()
      modifies this`queues, this`subs
      ensures Valid() && subs == Step(old(subs), LocalBus.Put(m))
    {
      var subscribers := ListAt(table, SenderTenant(m), m.messageType)
                         + if m.broadcast then ListAt(table, "all", m.messageType) else [];
      forall i | 0 <= i < |subs| {
        SubscribersAreCopies(table, subs, m, i);
      }
      PutAll(subscribers, m.body);
      subs := Step(subs, LocalBus.Put(m));
    }

    method Subscribe(tenant: string, types: seq<string>)
      requires Valid()
      modifies this`table, this`queues, this`subs
      ensures Valid() && subs == Step(old(subs), LocalBus.Subscribe(tenant, types))
    {
      for k := 0 to |types|
        invariant Valid() && subs == old(subs) + Subscribed(tenant, types[..k])
      {
        assert types[..k + 1][..|types[..k + 1]| - 1] == types[..k];
        SubscribeOne(tenant, types[k]);
      }
      assert types[..|types|] == types;
    }

    method SubscribeOne(tenant: string, messageType: string)
      requires Valid()
      modifies this`table, this`queues, this`subs
      ensures Valid() && subs == old(subs) + [Subscription(tenant, messageType, [], [], [])]
    {
      var ids := ListAt(table, tenant, messageType);
      assert |queues| !in ids;
      table := table[(tenant, messageType) := ids + [|queues|]];
      queues := queues + [[]];
      subs := subs + [Subscription(tenant, messageType, [], [], [])];
    }

    /** One turn of a consumer task: the next message, if there is one, goes to the handler. */
    method ConsumeOne(i: nat) returns (message: Option<Json>)
      requires Valid() && i < |queues|
      modifies this`queues, this`subs
      ensures Valid() && subs == Step(old(subs), Consume(i))
      ensures message == if old(queues)[i] == [] then None else Some(old(queues)[i][0])
    {
      if queues[i] == [] {
        return None;
      }
      message := Some(queues[i][0]);
      queues := queues[i := queues[i][1..]];
      subs := Step(subs, Consume(i));
    }
  }
}
