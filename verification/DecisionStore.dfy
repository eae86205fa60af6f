/** The decision store in memory mode: string keys, a message index, and paged listing. */
module DecisionStore {
  import opened JsonValues
  import opened Dicts

  datatype Explanation = Explanation(decisionId: string, tenant: string, messageId: string, body: Json)

  datatype Config = Config(keyPrefix: string, indexPrefix: string)

  datatype Tables = Tables(store: Dict<string, Explanation>, index: Dict<string, string>)

  // ----- keys -----

  function Underscored(s: string): (r: string)
    ensures |r| == |s| && ':' !in r
  {
    if s == "" then "" else
      var rest := Underscored(s[1..]);
      [if s[0] == ':' then '_' else s[0]] + rest
  }

  /** The tenant as it appears in keys. */
  function SafeTenant(tenant: string): (r: string)
    ensures ':' !in r
  {
    if tenant == "" then "default" else Underscored(tenant)
  }

  /** A colon is as good as an underscore. */
  ghost predicate Alike(a: string, b: string) {
    |a| == |b| && forall i :: 0 <= i < |a| ==> AlikeAt(a, b, i)
  }

  ghost predicate AlikeAt(a: string, b: string, i: nat)
    requires i < |a| && i < |b|
  {
    a[i] == b[i] || (a[i] == ':' && b[i] == '_') || (a[i] == '_' && b[i] == ':')
  }

  /** No tenant is the tenant "default". */
  ghost predicate SameTenant(tenant: string, tenant': string) {
    Alike(if tenant == "" then "default" else tenant, if tenant' == "" then "default" else tenant')
  }

  lemma {:induction false} UnderscoredAt(s: string, i: nat)
    requires i < |s|
    ensures Underscored(s)[i] == if s[i] == ':' then '_' else s[i]
  {
    if i > 0 {
      UnderscoredAt(s[1..], i - 1);
    }
  }

  lemma DefaultHasNoColon()
    ensures Underscored("default") == "default"
  {
    forall i | 0 <= i < 7 ensures Underscored("default")[i] == "default"[i] {
      UnderscoredAt("default", i);
    }
  }

  lemma UnderscoredAlike(a: string, b: string)
    ensures Underscored(a) == Underscored(b) <==> Alike(a, b)
  {
    if |a| == |b| {
      forall i | 0 <= i < |a| ensures AlikeAt(a, b, i) <==> Underscored(a)[i] == Underscored(b)[i] {
        UnderscoredAt(a, i);
        UnderscoredAt(b, i);
      }
    }
  }

  lemma SafeTenantsAlike(tenant: string, tenant': string)
    ensures SafeTenant(tenant) == SafeTenant(tenant') <==> SameTenant(tenant, tenant')
  {
    DefaultHasNoColon();
    UnderscoredAlike(if tenant == "" then "default" else tenant, if tenant' == "" then "default" else tenant');
  }

  function Join(head: string, safe: string, tail: string): string {
    head + (":" + (safe + (":" + tail)))
  }

  function MakeKey(cfg: Config, tenant: string, decisionId: string): string {
    Join(cfg.keyPrefix, SafeTenant(tenant), decisionId)
  }

  function MakeIndexKey(cfg: Config, tenant: string, messageId: string): string {
    Join(cfg.indexPrefix + ":msg", SafeTenant(tenant), messageId)
  }

  lemma CancelPrefix(a: string, x: string, y: string)
    requires a + x == a + y
    ensures x == y
  {
    assert (a + x)[|a|..] == x && (a + y)[|a|..] == y;
  }

  lemma ColonSplit(a: string, x: string, b: string, y: string)
    requires ':' !in a && ':' !in b && a + (":" + x) == b + (":" + y)
    ensures a == b && x == y
  {
    var s, t := a + (":" + x), b + (":" + y);
    assert s[|a|] == ':' && t[|b|] == ':';
    assert forall i :: 0 <= i < |a| ==> s[i] == a[i];
    assert forall i :: 0 <= i < |b| ==> t[i] == b[i];
    assert |a| == |b|;
    assert a == s[..|a|] && b == t[..|b|];
    CancelPrefix(a, ":" + x, ":" + y);
    CancelPrefix(":", x, y);
  }

  /** Keys are injective in the sanitised tenant and the rest. */
  lemma JoinInjective(head: string, safe: string, tail: string, safe': string, tail': string)
    requires ':' !in safe && ':' !in safe'
    ensures Join(head, safe, tail) == Join(head, safe', tail') <==> safe == safe' && tail == tail'
  {
    if Join(head, safe, tail) == Join(head, safe', tail') {
      CancelPrefix(head, ":" + (safe + (":" + tail)), ":" + (safe' + (":" + tail')));
      CancelPrefix(":", safe + (":" + tail), safe' + (":" + tail'));
      ColonSplit(safe, tail, safe', tail');
    }
  }

  /** Two keys are equal exactly for the same id of the same tenant. */
  lemma KeysAreInjective(cfg: Config, tenant: string, id: string, tenant': string, id': string)
    ensures MakeKey(cfg, tenant, id) == MakeKey(cfg, tenant', id') <==>
            SafeTenant(tenant) == SafeTenant(tenant') && id == id'
    ensures MakeIndexKey(cfg, tenant, id) == MakeIndexKey(cfg, tenant', id') <==>
            SafeTenant(tenant) == SafeTenant(tenant') && id == id'
    ensures SafeTenant(tenant) == SafeTenant(tenant') <==> SameTenant(tenant, tenant')
  {
    SafeTenantsAlike(tenant, tenant');
    JoinInjective(cfg.keyPrefix, SafeTenant(tenant), id, SafeTenant(tenant'), id');
    JoinInjective(cfg.indexPrefix + ":msg", SafeTenant(tenant), id, SafeTenant(tenant'), id');
  }

  // ----- operations -----

  function Stored(t: Tables, e: Explanation, cfg: Config): Tables {
    var index := if e.messageId == "" then t.index
                 else t.index.Put(MakeIndexKey(cfg, e.tenant, e.messageId), e.decisionId);
    Tables(t.store.Put(MakeKey(cfg, e.tenant, e.decisionId), e), index)
  }

  /** The index without the first n entries that point at this decision id. */
  function Forget(index: Dict<string, string>, id: string, n: nat): Dict<string, string>
    requires index.Valid() && n <= |index.keys|
  {
    if n == 0 then index else
      var rest := Forget(index, id, n - 1);
      var key := index.keys[n - 1];
      if index.m[key] == id then rest.Remove(key) else rest
  }

  function Deleted(t: Tables, tenant: string, id: string, cfg: Config): Tables
    requires t.index.Valid()
  {
    var key := MakeKey(cfg, tenant, id);
    if key in t.store.m then Tables(t.store.Remove(key), Forget(t.index, id, |t.index.keys|)) else t
  }

  function Get(t: Tables, tenant: string, id: string, cfg: Config): Option<Explanation> {
    var key := MakeKey(cfg, tenant, id);
    if key in t.store.m then Some(t.store.m[key]) else None
  }

  /** An empty decision id in the index counts as none. */
  function GetByMessage(t: Tables, tenant: string, messageId: string, cfg: Config): Option<Explanation> {
    var key := MakeIndexKey(cfg, tenant, messageId);
    if key in t.index.m && t.index.m[key] != "" then Get(t, tenant, t.index.m[key], cfg) else None
  }

  datatype Op = Store(e: Explanation) | Delete(tenant: string, id: string)

  ghost predicate Valid(t: Tables) {
    t.store.Valid() && t.index.Valid()
  }

  function Step(t: Tables, op: Op, cfg: Config): Tables
    requires t.index.Valid()
  {
    match op
    case Store(e) => Stored(t, e, cfg)
    case Delete(tenant, id) => Deleted(t, tenant, id, cfg)
  }

  // ----- the index never dangles -----

  /** An index entry of some tenant's message, whose decision that tenant still has. */
  ghost predicate Lands(t: Tables, key: string, cfg: Config)
    requires key in t.index.m
  {
    exists tenant, messageId :: Points(t, key, tenant, messageId, cfg)
  }

  predicate Points(t: Tables, key: string, tenant: string, messageId: string, cfg: Config)
    requires key in t.index.m
  {
    key == MakeIndexKey(cfg, tenant, messageId) && MakeKey(cfg, tenant, t.index.m[key]) in t.store.m
  }

  /** Every stored explanation stands under its own key, and every index entry lands. */
  ghost predicate Inv(t: Tables, cfg: Config) {
    && Valid(t)
    && (forall key :: key in t.store.m ==>
          key == MakeKey(cfg, t.store.m[key].tenant, t.store.m[key].decisionId))
    && forall key :: key in t.index.m ==> Lands(t, key, cfg)
  }

  /** What forgetting the entries under the given keys leaves. */
  ghost predicate Forgotten(index: Dict<string, string>, left: Dict<string, string>, id: string, keys: seq<string>) {
    && left.Valid()
    && (forall key :: key in left.m <==> key in index.m && !(key in keys && index.m[key] == id))
    && forall key :: key in left.m ==> left.m[key] == index.m[key]
  }

  lemma ForgetOne(index: Dict<string, string>, left: Dict<string, string>, id: string, keys: seq<string>, key: string,
                  next: Dict<string, string>, longer: seq<string>)
    requires Forgotten(index, left, id, keys) && key in index.m
    requires next == (if index.m[key] == id then left.Remove(key) else left) && longer == keys + [key]
    ensures Forgotten(index, next, id, longer)
  {
    RemoveValid(left, key);
  }

  lemma ForgetStep(index: Dict<string, string>, id: string, n: nat)
    requires index.Valid() && n < |index.keys|
    requires Forgotten(index, Forget(index, id, n), id, index.keys[..n])
    ensures Forgotten(index, Forget(index, id, n + 1), id, index.keys[..n + 1])
  {
    ForgetOne(index, Forget(index, id, n), id, index.keys[..n], index.keys[n],
              Forget(index, id, n + 1), index.keys[..n + 1]);
  }

  lemma {:induction false} ForgetMeaning(index: Dict<string, string>, id: string, n: nat)
    requires index.Valid() && n <= |index.keys|
    ensures Forgotten(index, Forget(index, id, n), id, index.keys[..n])
  {
    if n > 0 {
      ForgetMeaning(index, id, n - 1);
      ForgetStep(index, id, n - 1);
    }
  }

  lemma StoreInv(t: Tables, e: Explanation, cfg: Config)
    requires Inv(t, cfg)
    ensures Inv(Stored(t, e, cfg), cfg)
  {
    var next := Stored(t, e, cfg);
    PutValid(t.store, MakeKey(cfg, e.tenant, e.decisionId), e);
    if e.messageId != "" {
      PutValid(t.index, MakeIndexKey(cfg, e.tenant, e.messageId), e.decisionId);
    }
    forall key | key in next.index.m ensures Lands(next, key, cfg) {
      if e.messageId != "" && key == MakeIndexKey(cfg, e.tenant, e.messageId) {
        assert Points(next, key, e.tenant, e.messageId, cfg);
      } else {
        var tenant, messageId :| Points(t, key, tenant, messageId, cfg);
        assert Points(next, key, tenant, messageId, cfg);
      }
    }
  }

  lemma DeleteInv(t: Tables, tenant: string, id: string, cfg: Config)
    requires Inv(t, cfg)
    ensures Inv(Deleted(t, tenant, id, cfg), cfg)
  {
    var gone := MakeKey(cfg, tenant, id);
    var next := Deleted(t, tenant, id, cfg);
    if gone in t.store.m {
      RemoveValid(t.store, gone);
      ForgetMeaning(t.index, id, |t.index.keys|);
      assert t.index.keys[..|t.index.keys|] == t.index.keys;
      forall key | key in next.index.m ensures Lands(next, key, cfg) {
        var owner, messageId :| Points(t, key, owner, messageId, cfg);
        KeysAreInjective(cfg, owner, t.index.m[key], tenant, id);
        assert Points(next, key, owner, messageId, cfg);
      }
    }
  }

  ghost function Run(ops: seq<Op>, cfg: Config): (t: Tables)
    ensures Inv(t, cfg)
  {
    if ops == [] then Tables(Empty(), Empty()) else
      var before := Run(ops[..|ops| - 1], cfg);
      StepInv(before, ops[|ops| - 1], cfg);
      Step(before, ops[|ops| - 1], cfg)
  }

  lemma StepInv(t: Tables, op: Op, cfg: Config)
    requires Inv(t, cfg)
    ensures Inv(Step(t, op, cfg), cfg)
  {
    match op
    case Store(e) => StoreInv(t, e, cfg);
    case Delete(tenant, id) => DeleteInv(t, tenant, id, cfg);
  }

  /** A store is read back under its tenant, id and message, and disturbs no other id. */
  lemma StoreThenGet(t: Tables, e: Explanation, tenant: string, id: string, cfg: Config)
    ensures Get(Stored(t, e, cfg), tenant, id, cfg) ==
            if SafeTenant(tenant) == SafeTenant(e.tenant) && id == e.decisionId then Some(e)
            else Get(t, tenant, id, cfg)
    ensures e.messageId != "" && e.decisionId != "" ==>
              GetByMessage(Stored(t, e, cfg), e.tenant, e.messageId, cfg) == Some(e)
  {
    KeysAreInjective(cfg, tenant, id, e.tenant, e.decisionId);
  }

  /** A delete removes that tenant's decision and no other. */
  lemma DeleteThenGet(t: Tables, gone: string, id: string, tenant: string, other: string, cfg: Config)
    requires t.index.Valid() && Get(t, gone, id, cfg).Some?
    ensures Get(Deleted(t, gone, id, cfg), tenant, other, cfg) ==
            if SafeTenant(tenant) == SafeTenant(gone) && other == id then None
            else Get(t, tenant, other, cfg)
  {
    KeysAreInjective(cfg, tenant, other, gone, id);
  }

  /** But it forgets the message index of every decision with this id, whichever tenant
      the decision belongs to, and of no other decision. */
  lemma DeleteForgetsMessages(t: Tables, gone: string, id: string, tenant: string, messageId: string, cfg: Config)
    requires t.index.Valid() && Get(t, gone, id, cfg).Some?
    ensures var key := MakeIndexKey(cfg, tenant, messageId);
            GetByMessage(Deleted(t, gone, id, cfg), tenant, messageId, cfg) ==
            if key in t.index.m && t.index.m[key] == id then None
            else GetByMessage(t, tenant, messageId, cfg)
  {
    var key := MakeIndexKey(cfg, tenant, messageId);
    assert t.index.keys[..|t.index.keys|] == t.index.keys;
    ForgetMeaning(t.index, id, |t.index.keys|);
    if key in t.index.m && t.index.m[key] != id {
      DeleteThenGet(t, gone, id, tenant, t.index.m[key], cfg);
    }
  }

  // ----- what a run of stores and deletes has left -----

  predicate SameKey(tenant: string, id: string, tenant': string, id': string) {
    SafeTenant(tenant) == SafeTenant(tenant') && id == id'
  }

  /** The explanation last stored for the decision, unless it has been deleted since. */
  function LastStored(ops: seq<Op>, tenant: string, id: string): Option<Explanation> {
    if ops == [] then None else
      match ops[|ops| - 1]
      case Store(e) =>
        if SameKey(e.tenant, e.decisionId, tenant, id) then Some(e)
        else LastStored(ops[..|ops| - 1], tenant, id)
      case Delete(t, i) =>
        if SameKey(t, i, tenant, id) then None else LastStored(ops[..|ops| - 1], tenant, id)
  }

  /** The decision last stored with the message, unless some tenant's decision of that id has
      been deleted since. */
  function LastIndexed(ops: seq<Op>, tenant: string, messageId: string): Option<string> {
    if ops == [] then None else
      var before := LastIndexed(ops[..|ops| - 1], tenant, messageId);
      match ops[|ops| - 1]
      case Store(e) =>
        if e.messageId != "" && SameKey(e.tenant, e.messageId, tenant, messageId) then Some(e.decisionId) else before
      case Delete(t, i) =>
        if before == Some(i) && LastStored(ops[..|ops| - 1], t, i).Some? then None else before
  }

  lemma {:induction false} GetIsLastStored(ops: seq<Op>, tenant: string, id: string, cfg: Config)
    ensures Get(Run(ops, cfg), tenant, id, cfg) == LastStored(ops, tenant, id)
  {
    if ops != [] {
      var t := Run(ops[..|ops| - 1], cfg);
      GetIsLastStored(ops[..|ops| - 1], tenant, id, cfg);
      match ops[|ops| - 1] {
        case Store(e) => StoreThenGet(t, e, tenant, id, cfg);
        case Delete(gone, i) =>
          if Get(t, gone, i, cfg).Some? {
            DeleteThenGet(t, gone, i, tenant, id, cfg);
          } else {
            KeysAreInjective(cfg, tenant, id, gone, i);
          }
      }
    }
  }

  function IndexOf(t: Tables, tenant: string, messageId: string, cfg: Config): Option<string> {
    var key := MakeIndexKey(cfg, tenant, messageId);
    if key in t.index.m then Some(t.index.m[key]) else None
  }

  lemma StoreThenIndex(t: Tables, e: Explanation, tenant: string, messageId: string, cfg: Config)
    ensures IndexOf(Stored(t, e, cfg), tenant, messageId, cfg) ==
            if e.messageId != "" && SameKey(e.tenant, e.messageId, tenant, messageId) then Some(e.decisionId)
            else IndexOf(t, tenant, messageId, cfg)
  {
    JoinInjective(cfg.indexPrefix + ":msg", SafeTenant(tenant), messageId, SafeTenant(e.tenant), e.messageId);
  }

  lemma DeleteThenIndex(t: Tables, gone: string, id: string, tenant: string, messageId: string, cfg: Config)
    requires t.index.Valid() && Get(t, gone, id, cfg).Some?
    ensures IndexOf(Deleted(t, gone, id, cfg), tenant, messageId, cfg) ==
            if IndexOf(t, tenant, messageId, cfg) == Some(id) then None else IndexOf(t, tenant, messageId, cfg)
  {
    assert t.index.keys[..|t.index.keys|] == t.index.keys;
    ForgetMeaning(t.index, id, |t.index.keys|);
  }

  lemma {:induction false} IndexIsLastIndexed(ops: seq<Op>, tenant: string, messageId: string, cfg: Config)
    ensures IndexOf(Run(ops, cfg), tenant, messageId, cfg) == LastIndexed(ops, tenant, messageId)
  {
    if ops != [] {
      var t := Run(ops[..|ops| - 1], cfg);
      IndexIsLastIndexed(ops[..|ops| - 1], tenant, messageId, cfg);
      match ops[|ops| - 1] {
        case Store(e) => StoreThenIndex(t, e, tenant, messageId, cfg);
        case Delete(gone, i) =>
          GetIsLastStored(ops[..|ops| - 1], gone, i, cfg);
          if Get(t, gone, i, cfg).Some? {
            DeleteThenIndex(t, gone, i, tenant, messageId, cfg);
          }
      }
    }
  }

  /** No index entry of a run dangles. */
  lemma IndexedDecisionsAreStored(ops: seq<Op>, tenant: string, messageId: string, cfg: Config)
    ensures var id := IndexOf(Run(ops, cfg), tenant, messageId, cfg);
            id.Some? ==> Get(Run(ops, cfg), tenant, id.value, cfg).Some?
  {
    var t, key := Run(ops, cfg), MakeIndexKey(cfg, tenant, messageId);
    if key in t.index.m {
      var owner, other :| Points(t, key, owner, other, cfg);
      KeysAreInjective(cfg, owner, other, tenant, messageId);
      assert MakeKey(cfg, owner, t.index.m[key]) == MakeKey(cfg, tenant, t.index.m[key]);
    }
  }

  lemma {:induction false} LastStoredIsOfTheKey(ops: seq<Op>, tenant: string, id: string)
    ensures var e := LastStored(ops, tenant, id);
            e.Some? ==> SameKey(e.value.tenant, e.value.decisionId, tenant, id)
  {
    if ops != [] {
      LastStoredIsOfTheKey(ops[..|ops| - 1], tenant, id);
    }
  }

  /** Under any sequence of stores and deletes, a message is found exactly when a decision with a
      non-empty id was stored with it and neither replaced in the index nor forgotten since.
      What is found is that decision as last stored for the tenant: so it bears the message
      if and only if that last store did. */
  lemma IndexedMessagesAreFound(ops: seq<Op>, tenant: string, messageId: string, cfg: Config)
    ensures var id := LastIndexed(ops, tenant, messageId);
            var found := GetByMessage(Run(ops, cfg), tenant, messageId, cfg);
            && (found.Some? <==> id.Some? && id.value != "")
            && (found.Some? ==>
                  && found == LastStored(ops, tenant, id.value)
                  && SameKey(found.value.tenant, found.value.decisionId, tenant, id.value))
  {
    var id := LastIndexed(ops, tenant, messageId);
    IndexIsLastIndexed(ops, tenant, messageId, cfg);
    if id.Some? {
      IndexedDecisionsAreStored(ops, tenant, messageId, cfg);
      GetIsLastStored(ops, tenant, id.value, cfg);
      LastStoredIsOfTheKey(ops, tenant, id.value);
    }
  }

  /** Stored again with another message, a decision is still found by the first one. */
  lemma AnEarlierMessageFindsTheLaterStore(body: Json, later: Json, cfg: Config)
    ensures GetByMessage(Run([Store(Explanation("d", "t", "m", body)), Store(Explanation("d", "t", "n", later))], cfg),
                         "t", "m", cfg)
            == Some(Explanation("d", "t", "n", later))
  {
    var first := [Store(Explanation("d", "t", "m", body))];
    var ops := first + [Store(Explanation("d", "t", "n", later))];
    assert ops == [Store(Explanation("d", "t", "m", body)), Store(Explanation("d", "t", "n", later))];
    assert ops[..1] == first && first[..0] == [];
    assert LastIndexed(first, "t", "m") == Some("d");
    assert LastIndexed(ops, "t", "m") == Some("d");
    assert LastStored(ops, "t", "d") == Some(Explanation("d", "t", "n", later));
    IndexedMessagesAreFound(ops, "t", "m", cfg);
  }

  /** Deleting one tenant's decision makes another's, of the same id, unfindable by its message. */
  lemma DeletingForgetsAnotherTenantsMessage(body: Json, cfg: Config)
    ensures var ops := [Store(Explanation("d", "t", "m", body)), Store(Explanation("d", "u", "", body)),
                        Delete("u", "d")];
            && Get(Run(ops, cfg), "t", "d", cfg) == Some(Explanation("d", "t", "m", body))
            && GetByMessage(Run(ops, cfg), "t", "m", cfg) == None
  {
    var first := [Store(Explanation("d", "t", "m", body))];
    var second := first + [Store(Explanation("d", "u", "", body))];
    var ops := second + [Delete("u", "d")];
    assert ops == [Store(Explanation("d", "t", "m", body)), Store(Explanation("d", "u", "", body)), Delete("u", "d")];
    assert ops[..2] == second && second[..1] == first && first[..0] == [];
    assert Underscored("u") == "u" && Underscored("t") == "t" by {
      assert Underscored("") == "";
    }
    assert LastStored(second, "u", "d") == Some(Explanation("d", "u", "", body));
    assert LastIndexed(second, "t", "m") == Some("d");
    assert LastStored(first, "t", "d") == Some(Explanation("d", "t", "m", body));
    GetIsLastStored(ops, "t", "d", cfg);
    IndexedMessagesAreFound(ops, "t", "m", cfg);
  }

  // ----- listing -----

  function ListPrefix(cfg: Config, tenant: string): string {
    MakeKey(cfg, tenant, "")
  }

  /** The decision ids of the tenant, in the order their keys were first stored. */
  function Ids(keys: seq<string>, prefix: string): seq<string> {
    if keys == [] then [] else
      var last := keys[|keys| - 1];
      Ids(keys[..|keys| - 1], prefix) + if prefix <= last then [last[|prefix|..]] else []
  }

  function Clamp(i: int, n: nat): nat {
    if i < 0 then (if i + n < 0 then 0 else i + n) else if i > n then n else i
  }

  /** s[a:b] as Python slices, negative indices and all. */
  function Slice<T>(s: seq<T>, a: int, b: int): seq<T> {
    var lo, hi := Clamp(a, |s|), Clamp(b, |s|);
    if lo <= hi then s[lo..hi] else []
  }

  /** A negative index counts from the end, and stops at the beginning; the elements are those
      from the first index up to the second, as far as there are any. */
  lemma SliceMeaning<T>(s: seq<T>, a: int, b: int)
    ensures a < 0 ==> Slice(s, a, b) == Slice(s, if a < -|s| then 0 else |s| + a, b)
    ensures b < 0 ==> Slice(s, a, b) == Slice(s, a, if b < -|s| then 0 else |s| + b)
    ensures a >= 0 && b >= 0 ==>
              var end := if b <= |s| then b else |s|;
              && |Slice(s, a, b)| == (if a <= end then end - a else 0)
              && forall k :: 0 <= k < |Slice(s, a, b)| ==> Slice(s, a, b)[k] == s[a + k]
  {
  }

  function ListDecisions(t: Tables, tenant: string, limit: int, offset: int, cfg: Config): seq<string> {
    Slice(Ids(t.store.keys, ListPrefix(cfg, tenant)), offset, offset + limit)
  }

  function Pages(t: Tables, tenant: string, limit: nat, pages: nat, cfg: Config): seq<string> {
    if pages == 0 then [] else
      Pages(t, tenant, limit, pages - 1, cfg) + ListDecisions(t, tenant, limit, (pages - 1) * limit, cfg)
  }

  lemma {:induction false} IdsMeaning(keys: seq<string>, prefix: string, id: string)
    requires Distinct(keys)
    ensures id in Ids(keys, prefix) <==> prefix + id in keys
    ensures Distinct(Ids(keys, prefix))
  {
    if keys != [] {
      var before, last := keys[..|keys| - 1], keys[|keys| - 1];
      assert keys == before + [last];
      IdsMeaning(before, prefix, id);
      if prefix <= last {
        var fresh_ := last[|prefix|..];
        assert last == prefix + fresh_;
        IdsMeaning(before, prefix, fresh_);
        if prefix + id == last {
          CancelPrefix(prefix, id, fresh_);
        }
      } else {
        assert prefix + id != last;
      }
    }
  }

  /** The listing holds exactly the decision ids stored under the sanitised tenant, once each. */
  lemma ListsExactlyTheTenant(t: Tables, tenant: string, id: string, cfg: Config)
    requires Inv(t, cfg)
    ensures var ids := Ids(t.store.keys, ListPrefix(cfg, tenant));
            Distinct(ids) && (id in ids <==> Get(t, tenant, id, cfg).Some?)
  {
    IdsMeaning(t.store.keys, ListPrefix(cfg, tenant), id);
    assert ListPrefix(cfg, tenant) + id == MakeKey(cfg, tenant, id);
  }

  function First(ids: seq<string>, n: nat): seq<string> {
    if n < |ids| then ids[..n] else ids
  }

  lemma PageStep(ids: seq<string>, from: nat, limit: nat)
    ensures First(ids, from) + Slice(ids, from, from + limit) == First(ids, from + limit)
  {
  }

  lemma OneMorePage(pages: nat, limit: nat)
    ensures pages * limit >= 0 && (pages + 1) * limit == pages * limit + limit
  {
  }

  /** Consecutive pages of any size are the listing, in order, with nothing left out or
      repeated; enough of them are all of it. */
  lemma {:induction false} PagesConcatenate(t: Tables, tenant: string, limit: nat, pages: nat, cfg: Config)
    requires limit >= 1
    ensures pages * limit >= 0
    ensures Pages(t, tenant, limit, pages, cfg) == First(Ids(t.store.keys, ListPrefix(cfg, tenant)), pages * limit)
  {
    if pages > 0 {
      PagesConcatenate(t, tenant, limit, pages - 1, cfg);
      OneMorePage(pages - 1, limit);
      PageStep(Ids(t.store.keys, ListPrefix(cfg, tenant)), (pages - 1) * limit, limit);
    }
  }

  // ----- the store object -----

  class MemoryDecisionStore {
    const cfg: Config
    var memoryStore: Dict<string, Explanation>
    var memoryIndexes: Dict<string, string>

    ghost predicate Valid()
      reads this`memoryStore, this`memoryIndexes
    {
      Inv(View(), cfg)
    }

    function View(): Tables
      reads this`memoryStore, this`memoryIndexes
    {
      Tables(memoryStore, memoryIndexes)
    }

    constructor (cfg: Config)
      ensures Valid() && View() == Tables(Empty(), Empty()) && this.cfg == cfg
    {
      this.cfg := cfg;
      memoryStore, memoryIndexes := Empty(), Empty();
    }

    method StoreExplanation(e: Explanation)
      requires Valid()
      modifies this`memoryStore, this`memoryIndexes
      ensures Valid() && View() == Stored(old(View()), e, cfg)
    {
      StoreInv(View(), e, cfg);
      memoryStore := memoryStore.Put(MakeKey(cfg, e.tenant, e.decisionId), e);
      if e.messageId != "" {
        memoryIndexes := memoryIndexes.Put(MakeIndexKey(cfg, e.tenant, e.messageId), e.decisionId);
      }
    }

    method DeleteDecision(id: string, tenant: string) returns (deleted: bool)
      requires Valid()
      modifies this`memoryStore, this`memoryIndexes
      ensures Valid() && View() == Deleted(old(View()), tenant, id, cfg)
      ensures deleted == old(Get(View(), tenant, id, cfg)).Some?
    {
      DeleteInv(View(), tenant, id, cfg);
      var key := MakeKey(cfg, tenant, id);
      if key !in memoryStore.m {
        return false;
      }
      memoryStore := memoryStore.Remove(key);
      ForgetMessages(id);
      deleted := true;
    }

    method ForgetMessages(id: string)
      requires memoryIndexes.Valid()
      modifies this`memoryIndexes
      ensures memoryIndexes == Forget(old(memoryIndexes), id, |old(memoryIndexes).keys|)
    {
      var items := memoryIndexes;
      for i := 0 to |items.keys|
        invariant memoryIndexes == Forget(items, id, i)
      {
        if items.m[items.keys[i]] == id {
          memoryIndexes := memoryIndexes.Remove(items.keys[i]);
        }
      }
    }

    method GetByMessageId(messageId: string, tenant: string) returns (e: Option<Explanation>)
      requires Valid()
      ensures e == GetByMessage(View(), tenant, messageId, cfg)
    {
      var key := MakeIndexKey(cfg, tenant, messageId);
      if key !in memoryIndexes.m || memoryIndexes.m[key] == "" {
        return None;
      }
      e := Get(View(), tenant, memoryIndexes.m[key], cfg);
    }

    method List(tenant: string, limit: int, offset: int) returns (ids: seq<string>)
      requires Valid()
      ensures ids == ListDecisions(View(), tenant, limit, offset, cfg)
    {
      var prefix := ListPrefix(cfg, tenant);
      var matching := [];
      for i := 0 to |memoryStore.keys|
        invariant matching == Ids(memoryStore.keys[..i], prefix)
      {
        var keys := memoryStore.keys;
        assert keys[..i + 1][..|keys[..i + 1]| - 1] == keys[..i];
        if prefix <= keys[i] {
          matching := matching + [keys[i][|prefix|..]];
        }
      }
      assert memoryStore.keys[..|memoryStore.keys|] == memoryStore.keys;
      ids := Slice(matching, offset, offset + limit);
    }
  }
}
