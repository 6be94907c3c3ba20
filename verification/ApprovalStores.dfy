/**
 * The two approval stores behind one manager (src/loro/approvals.py:199-279, 350-500), run by one caller.
 *
 * The in-memory store hands out the stored object itself, so `consume` changes the store before it calls
 * `update`, and `update` does not compare versions when it is given that same object. The JSON store hands
 * out copies. Both are held to the atomic `Grant` and `Consume` of module Approvals.
 */
module ApprovalStores {
  import opened Common
  import opened Approvals

  class ApprovalRecord {
    const granted: Record  // the fields that are never reassigned
    var status: Status
    var useCount: nat
    var lastUsedAt: Option<Time>

    constructor (rec: Record)
      ensures granted == rec && Value() == rec
    {
      granted, status, useCount, lastUsedAt := rec, rec.status, rec.useCount, rec.lastUsedAt;
    }

    function Value(): Record
      reads this
    {
      granted.(status := status, useCount := useCount, lastUsedAt := lastUsedAt)
    }
  }

  class InMemoryApprovalStore {
    var records: map<Id, ApprovalRecord>
    var order: seq<Id>  // a dictionary lists its keys in the order they were inserted

    constructor ()
      ensures Valid() && Contents() == map[] && order == []
      ensures fresh(records.Values)
    {
      records, order := map[], [];
    }

    ghost predicate Valid()
      reads this
    {
      && (forall id :: id in records ==> records[id].granted.id == id)
      && (forall id :: id in records <==> id in order) && Distinct(order)
    }

    function Contents(): Records
      reads this, records.Values
    {
      map id | id in records :: records[id].Value()
    }

    method Get(id: Id) returns (found: ApprovalRecord?)
      ensures found == if id in records then records[id] else null
    {
      found := if id in records then records[id] else null;
    }

    method Create(record: ApprovalRecord) returns (ok: bool)
      requires Valid()
      modifies this
      ensures Valid()
      ensures ok <==> record.granted.id !in old(records)
      ensures records == if ok then old(records)[record.granted.id := record] else old(records)
      ensures order == if ok then old(order) + [record.granted.id] else old(order)
    {
      ok := record.granted.id !in records;
      if ok {
        DistinctAppend(order, record.granted.id);
        records, order := records[record.granted.id := record], order + [record.granted.id];
      }
    }

    method List() returns (listed: seq<ApprovalRecord>)
      requires Valid()
      ensures |listed| == |order| && forall i :: 0 <= i < |listed| ==> listed[i] == records[order[i]]
    {
      listed := seq(|order|, i requires 0 <= i < |order| && order[i] in records reads this => records[order[i]]);
    }

    /** The version check is skipped when the stored object is the very object passed in. */
    method Update(record: ApprovalRecord, expectedStatus: Status, expectedUses: nat) returns (ok: bool)
      requires Valid()
      modifies this
      ensures Valid() && order == old(order)
      ensures ok <==> record.granted.id in old(records)
                      && var current := old(records[record.granted.id]);
                      (current == record || (current.status == expectedStatus && current.useCount == expectedUses))
      ensures records == if ok then old(records)[record.granted.id := record] else old(records)
    {
      if record.granted.id !in records { return false; }
      var current := records[record.granted.id];
      if current != record && (current.status != expectedStatus || current.useCount != expectedUses) {
        return false;
      }
      records := records[record.granted.id := record];
      ok := true;
    }
  }

  class InMemoryManager {
    const config: Config
    const identity: Identity
    const store: InMemoryApprovalStore

    constructor (config: Config, identity: Identity)
      ensures store.Valid() && store.Contents() == map[] && store.order == []
      ensures fresh(store) && fresh(store.records.Values)
      ensures this.config == config && this.identity == identity
    {
      this.config, this.identity := config, identity;
      store := new InMemoryApprovalStore();
    }

    method Grant(r: Request, scope: Scope, origin: Origin, now: Time, id: Id) returns (out: Outcome)
      requires store.Valid()
      modifies store
      ensures store.Valid() && fresh(store.records.Values - old(store.records.Values))
      ensures store.order == if out.Ok? then old(store.order) + [id] else old(store.order)
      ensures (store.Contents(), out)
              == Approvals.Grant(old(store.Contents()), config, identity, r, scope, origin, now, id, true)
    {
      var why := CheckIdentity(identity, r);
      if why.Some? { return Refused(why.value); }
      if scope == Session && !config.allowSession { return Refused(SessionScopeDisabled); }
      if origin == NonInteractive && !config.allowNonInteractive { return Refused(NonInteractiveDisabled); }
      var created := CreateNew(NewRecord(config, r, scope, origin, now, id));
      out := if created then Ok(NewRecord(config, r, scope, origin, now, id)) else Refused(DuplicateRecord);
    }

    method CreateNew(rec: Record) returns (created: bool)
      requires store.Valid()
      modifies store
      ensures store.Valid() && fresh(store.records.Values - old(store.records.Values))
      ensures created <==> rec.id !in old(store.records)
      ensures store.Contents() == if created then old(store.Contents())[rec.id := rec] else old(store.Contents())
      ensures store.order == if created then old(store.order) + [rec.id] else old(store.order)
    {
      var record := new ApprovalRecord(rec);
      created := store.Create(record);
      if created {
        assert store.Contents() == old(store.Contents())[rec.id := record.Value()];
      } else {
        assert store.Contents() == old(store.Contents());
      }
    }

    method Consume(r: Request, id: Id, now: Time) returns (out: Outcome)
      requires store.Valid()
      modifies store, store.records.Values
      ensures store.Valid() && store.records == old(store.records) && store.order == old(store.order)
      ensures (store.Contents(), out) == Approvals.Consume(old(store.Contents()), identity, r, id, now, true)
    {
      hide Decide, FingerprintOf;
      var why := CheckIdentity(identity, r);
      if why.Some? { return Refused(why.value); }
      var record := store.Get(id);
      if record == null { return Refused(UnknownRecord); }
      assert forall k :: k in store.records && store.records[k] == record ==> k == id;
      out := ConsumeStored(record, r, now);
      assert store.Contents() == old(store.Contents())[id := record.Value()];
      assert old(store.Contents())[id := old(record.Value())] == old(store.Contents());
    }

    /** The rest of `consume`, on the stored object itself. */
    method ConsumeStored(record: ApprovalRecord, r: Request, now: Time) returns (out: Outcome)
      requires store.Valid() && record.granted.id in store.records && store.records[record.granted.id] == record
      modifies store, record
      ensures store.Valid() && store.records == old(store.records) && store.order == old(store.order)
      ensures var d := Decide(old(record.Value()), r, now);
              && out == (match d
                         case Reject(why) => Refused(why)
                         case Expire(_) => Lapsed
                         case Use(rec) => Ok(rec))
              && record.Value() == if d.Reject? then old(record.Value()) else d.updated
    {
      var previousStatus, previousUses := record.status, record.useCount;
      if now >= record.granted.expiresAt {
        record.status := Expired;
        var stored := store.Update(record, previousStatus, previousUses);
        if !stored { return Refused(ChangedConcurrently); }
        return Lapsed;
      }
      if record.granted.who.subject != r.who.subject { return Refused(ActorMismatch); }
      if record.granted.who.session != r.who.session { return Refused(SessionMismatch); }
      if record.granted.fingerprint != FingerprintOf(r) { return Refused(FingerprintMismatch); }
      if record.granted.scope == Once && record.status != Active { return Refused(AlreadyUsed); }
      if record.status != Active && record.status != Used { return Refused(NotActive); }
      record.useCount := record.useCount + 1;
      record.lastUsedAt := Some(now);
      record.status := if record.granted.scope == Once then Used else Active;
      var stored := store.Update(record, previousStatus, previousUses);
      if !stored { return Refused(ChangedConcurrently); }
      out := Ok(record.Value());
    }

    method ConsumeMatchingSession(r: Request, now: nat -> Time) returns (out: Option<Outcome>)
      requires store.Valid()
      modifies store, store.records.Values
      ensures store.Valid() && store.records == old(store.records) && store.order == old(store.order)
      ensures (store.Contents(), out) == MatchSession(old(store.Contents()), identity, r, old(store.order), now, 0)
    {
      var listed := store.List();
      for k := 0 to |listed|
        invariant store.Valid() && store.records == old(store.records) && store.order == old(store.order)
        invariant MatchSession(old(store.Contents()), identity, r, old(store.order), now, 0)
                  == MatchSession(store.Contents(), identity, r, old(store.order), now, k)
      {
        var record := listed[k];
        assert store.Contents()[store.order[k]] == record.Value();
        if record.granted.scope != Session || record.granted.fingerprint != FingerprintOf(r) {
          continue;
        }
        var used := Consume(r, record.granted.id, now(k));
        if !used.Lapsed? { return Some(used); }
      }
      out := None;
    }
  }

  class JsonApprovalStore {
    var records: Records  // the file's content; each call reads and rewrites all of it

    constructor ()
      ensures records == map[]
    {
      records := map[];
    }

    method Get(id: Id) returns (copy: Option<Record>)
      ensures copy == if id in records then Some(records[id]) else None
    {
      copy := if id in records then Some(records[id]) else None;
    }

    /** None: the write would exceed the size limit, and the file stays as it was. */
    method Create(record: Record, fits: bool) returns (ok: Option<bool>)
      modifies this
      ensures ok == if record.id in old(records) then Some(false) else if fits then Some(true) else None
      ensures records == if ok == Some(true) then old(records)[record.id := record] else old(records)
    {
      if record.id in records { return Some(false); }
      if !fits { return None; }
      records := records[record.id := record];
      ok := Some(true);
    }

    method Update(record: Record, expectedStatus: Status, expectedUses: nat, fits: bool) returns (ok: Option<bool>)
      modifies this
      ensures ok == if record.id in old(records) && old(records)[record.id].status == expectedStatus
                       && old(records)[record.id].useCount == expectedUses
                    then (if fits then Some(true) else None)
                    else Some(false)
      ensures records == if ok == Some(true) then old(records)[record.id := record] else old(records)
    {
      if record.id !in records { return Some(false); }
      var current := records[record.id];
      if current.status != expectedStatus || current.useCount != expectedUses { return Some(false); }
      if !fits { return None; }
      records := records[record.id := record];
      ok := Some(true);
    }
  }

  class JsonManager {
    const config: Config
    const identity: Identity
    const store: JsonApprovalStore

    constructor (config: Config, identity: Identity)
      ensures store.records == map[] && fresh(store)
      ensures this.config == config && this.identity == identity
    {
      this.config, this.identity := config, identity;
      store := new JsonApprovalStore();
    }

    method Grant(r: Request, scope: Scope, origin: Origin, now: Time, id: Id, fits: bool) returns (out: Outcome)
      modifies store
      ensures (store.records, out)
              == Approvals.Grant(old(store.records), config, identity, r, scope, origin, now, id, fits)
    {
      var why := CheckIdentity(identity, r);
      if why.Some? { return Refused(why.value); }
      if scope == Session && !config.allowSession { return Refused(SessionScopeDisabled); }
      if origin == NonInteractive && !config.allowNonInteractive { return Refused(NonInteractiveDisabled); }
      var record := NewRecord(config, r, scope, origin, now, id);
      var created := store.Create(record, fits);
      if created == None { return Refused(StoreFull); }
      if created == Some(false) { return Refused(DuplicateRecord); }
      out := Ok(record);
    }

    method Consume(r: Request, id: Id, now: Time, fits: bool) returns (out: Outcome)
      requires Consistent(store.records)
      modifies store
      ensures (store.records, out) == Approvals.Consume(old(store.records), identity, r, id, now, fits)
    {
      var why := CheckIdentity(identity, r);
      if why.Some? { return Refused(why.value); }
      var copy := store.Get(id);
      if copy == None { return Refused(UnknownRecord); }
      var record := copy.value;
      var previousStatus, previousUses := record.status, record.useCount;
      var stored: Option<bool>;
      if now >= record.expiresAt {
        record := record.(status := Expired);
        stored := store.Update(record, previousStatus, previousUses, fits);
        if stored == None { return Refused(StoreFull); }
        if stored == Some(false) { return Refused(ChangedConcurrently); }
        return Lapsed;
      }
      if record.who.subject != r.who.subject { return Refused(ActorMismatch); }
      if record.who.session != r.who.session { return Refused(SessionMismatch); }
      if record.fingerprint != FingerprintOf(r) { return Refused(FingerprintMismatch); }
      if record.scope == Once && record.status != Active { return Refused(AlreadyUsed); }
      if record.status != Active && record.status != Used { return Refused(NotActive); }
      record := record.(useCount := record.useCount + 1, lastUsedAt := Some(now),
                        status := if record.scope == Once then Used else Active);
      stored := store.Update(record, previousStatus, previousUses, fits);
      if stored == None { return Refused(StoreFull); }
      if stored == Some(false) { return Refused(ChangedConcurrently); }
      out := Ok(record);
    }
  }

  datatype Call =
    | GrantCall(request: Request, scope: Scope, origin: Origin, now: Time, id: Id)
    | ConsumeCall(request: Request, id: Id, now: Time)

  /** One call, done as one indivisible operation on the records. */
  function Perform(cfg: Config, identity: Identity, s: Records, call: Call): (Records, Outcome) {
    match call
    case GrantCall(r, scope, origin, now, id) => Grant(s, cfg, identity, r, scope, origin, now, id, true)
    case ConsumeCall(r, id, now) => Consume(s, identity, r, id, now, true)
  }

  /** The records and the outcomes after all calls, starting from an empty store. */
  function PerformAll(cfg: Config, identity: Identity, calls: seq<Call>): (Records, seq<Outcome>) {
    if calls == [] then (map[], [])
    else
      var (s, outcomes) := PerformAll(cfg, identity, calls[..|calls| - 1]);
      var (t, out) := Perform(cfg, identity, s, calls[|calls| - 1]);
      (t, outcomes + [out])
  }

  /** The calls are made one after the other, each on the records the one before it left, from an empty store. */
  lemma EachCallGoesOn(cfg: Config, identity: Identity, calls: seq<Call>, r: Request, scope: Scope, origin: Origin,
                       now: Time, id: Id)
    ensures PerformAll(cfg, identity, []) == (map[], [])
    ensures var (s, outcomes) := PerformAll(cfg, identity, calls);
            var (granted, grant) := Grant(s, cfg, identity, r, scope, origin, now, id, true);
            var (consumed, consume) := Consume(s, identity, r, id, now, true);
            && PerformAll(cfg, identity, calls + [GrantCall(r, scope, origin, now, id)]) == (granted, outcomes + [grant])
            && PerformAll(cfg, identity, calls + [ConsumeCall(r, id, now)]) == (consumed, outcomes + [consume])
  {
    hide Grant, Consume;
    assert (calls + [GrantCall(r, scope, origin, now, id)])[..|calls|] == calls;
    assert (calls + [ConsumeCall(r, id, now)])[..|calls|] == calls;
  }

  lemma PerformKeepsConsistent(cfg: Config, identity: Identity, s: Records, call: Call)
    requires Consistent(s)
    ensures Consistent(Perform(cfg, identity, s, call).0)
  {
    match call {
      case GrantCall(r, scope, origin, now, id) =>
      case ConsumeCall(r, id, now) => ConsumeSucceedsExactlyWhen(s, identity, r, id, now);
    }
  }

  lemma {:induction false} PerformAllConsistent(cfg: Config, identity: Identity, calls: seq<Call>)
    ensures Consistent(PerformAll(cfg, identity, calls).0)
  {
    if calls != [] {
      PerformAllConsistent(cfg, identity, calls[..|calls| - 1]);
      PerformKeepsConsistent(cfg, identity, PerformAll(cfg, identity, calls[..|calls| - 1]).0, calls[|calls| - 1]);
    }
  }

  method BothGrant(memory: InMemoryManager, file: JsonManager, r: Request, scope: Scope, origin: Origin,
                   now: Time, id: Id)
    returns (a: Outcome, b: Outcome)
    requires memory.store.Valid() && memory.config == file.config && memory.identity == file.identity
    requires memory.store.Contents() == file.store.records
    modifies memory.store, file.store
    ensures memory.store.Valid() && fresh(memory.store.records.Values - old(memory.store.records.Values))
    ensures memory.store.Contents() == file.store.records && a == b
    ensures (file.store.records, b)
            == Grant(old(file.store.records), file.config, file.identity, r, scope, origin, now, id, true)
  {
    hide Grant, InMemoryApprovalStore.Contents;
    a := memory.Grant(r, scope, origin, now, id);
    ghost var contents := memory.store.Contents();
    b := file.Grant(r, scope, origin, now, id, true);
    assert memory.store.Contents() == contents;
  }

  method BothConsume(memory: InMemoryManager, file: JsonManager, r: Request, id: Id, now: Time)
    returns (a: Outcome, b: Outcome)
    requires memory.store.Valid() && Consistent(file.store.records) && memory.identity == file.identity
    requires memory.store.Contents() == file.store.records
    modifies memory.store, memory.store.records.Values, file.store
    ensures memory.store.Valid() && memory.store.records == old(memory.store.records)
    ensures memory.store.Contents() == file.store.records && a == b
    ensures (file.store.records, b) == Consume(old(file.store.records), file.identity, r, id, now, true)
  {
    hide Consume;
    a := memory.Consume(r, id, now);
    ghost var contents := memory.store.Contents();
    b := file.Consume(r, id, now, true);
    assert memory.store.Contents() == contents;
  }

  /** The same call to both managers. */
  method Both(memory: InMemoryManager, file: JsonManager, call: Call) returns (a: Outcome, b: Outcome)
    requires memory.store.Valid() && Consistent(file.store.records)
    requires memory.config == file.config && memory.identity == file.identity
    requires memory.store.Contents() == file.store.records
    modifies memory.store, memory.store.records.Values, file.store
    ensures memory.store.Valid() && fresh(memory.store.records.Values - old(memory.store.records.Values))
    ensures memory.store.Contents() == file.store.records && a == b
    ensures (file.store.records, b) == Perform(file.config, file.identity, old(file.store.records), call)
  {
    hide Grant, Consume;
    match call {
      case GrantCall(r, scope, origin, now, id) => a, b := BothGrant(memory, file, r, scope, origin, now, id);
      case ConsumeCall(r, id, now) => a, b := BothConsume(memory, file, r, id, now);
    }
  }

  /**
   * One caller, any sequence of grants and consumes: the aliasing store and the copying store both answer every
   * call, and both end with the records, as if each call were one indivisible operation.
   */
  method SameBehaviour(config: Config, identity: Identity, calls: seq<Call>)
    returns (inMemory: seq<Outcome>, json: seq<Outcome>, memoryRecords: Records, jsonRecords: Records)
    ensures (memoryRecords, inMemory) == PerformAll(config, identity, calls)
    ensures (jsonRecords, json) == PerformAll(config, identity, calls)
  {
    hide Perform;
    var memory := new InMemoryManager(config, identity);
    var file := new JsonManager(config, identity);
    inMemory, json := [], [];
    for i := 0 to |calls|
      invariant memory.store.Valid() && fresh(memory.store) && fresh(memory.store.records.Values) && fresh(file.store)
      invariant memory.store.Contents() == file.store.records
      invariant (file.store.records, json) == PerformAll(config, identity, calls[..i]) && inMemory == json
    {
      PerformAllConsistent(config, identity, calls[..i]);
      assert calls[..i + 1][..i] == calls[..i];
      var a, b := Both(memory, file, calls[i]);
      inMemory, json := inMemory + [a], json + [b];
    }
    assert calls[..|calls|] == calls;
    memoryRecords, jsonRecords := memory.store.Contents(), file.store.records;
  }
}
