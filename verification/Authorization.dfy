/** How a protected tool call obtains and spends an approval (src/loro/tool_runtime.py:1241-1296). */
module Authorization {
  import opened Common
  import opened Approvals
  import opened ApprovalStores

  datatype Policy = Deny | Allow | Ask
  datatype Caller = User | Model

  /** What the interactive approval provider does, if there is one and interactive approvals are on. */
  datatype Answer = NoProvider | Fails | Declines | Approves(scope: Scope)

  /** `approvedArg` is the call's own `approved` argument; `now(k)` is the clock at its k-th reading. */
  datatype Call = Call(request: Request, policy: Policy, caller: Caller, approvedArg: bool, answer: Answer,
                       newId: Id, now: nat -> Time)

  datatype Verdict = AllowedByPolicy | AllowedBy(id: Id) | Rejected

  function GrantAndConsume(s: Records, cfg: Config, manager: Identity, c: Call, scope: Scope, origin: Origin, k: nat)
    : (Records, Verdict)
  {
    var (granted, out) := Grant(s, cfg, manager, c.request, scope, origin, c.now(k), c.newId, true);
    if !out.Ok? then (granted, Rejected)
    else
      var (used, result) := Consume(granted, manager, c.request, c.newId, c.now(k + 1), true);
      (used, if result.Ok? then AllowedBy(c.newId) else Rejected)
  }

  function AskCaller(s: Records, cfg: Config, manager: Identity, c: Call, k: nat): (Records, Verdict) {
    if c.caller == User && c.approvedArg then GrantAndConsume(s, cfg, manager, c, Once, NonInteractive, k)
    else match c.answer
      case Approves(scope) => GrantAndConsume(s, cfg, manager, c, scope, Interactive, k)
      case _ => (s, Rejected)
  }

  /** `_authorize`, with the ids of the stored records in listing order. */
  function AuthorizeCall(s: Records, listing: seq<Id>, cfg: Config, manager: Identity, c: Call): (Records, Verdict)
    requires forall i :: 0 <= i < |listing| ==> listing[i] in s
  {
    if c.policy == Deny then (s, Rejected)
    else if c.policy == Allow then (s, AllowedByPolicy)
    else
      var (s1, matched) := MatchSession(s, manager, c.request, listing, c.now, 0);
      if matched.Some? then
        (s1, if matched.value.Ok? then AllowedBy(matched.value.record.id) else Rejected)
      else AskCaller(s1, cfg, manager, c, |listing|)
  }

  /** Whether a grant made for the call would be spent in time. */
  predicate GrantWorks(s: Records, cfg: Config, c: Call, scope: Scope, k: nat) {
    (scope == Session ==> cfg.allowSession) && c.newId !in s && c.now(k + 1) < c.now(k) + Ttl(cfg, scope)
  }

  /**
   * Exactly when a call that policy answers with `ask` is authorized: by the first live session approval if there is
   * one; failing that by the user's own `approved` argument, where that is enabled, or by the interactive answer. A
   * model's `approved` argument never counts.
   */
  lemma AuthorizedExactlyWhen(s: Records, listing: seq<Id>, cfg: Config, manager: Identity, c: Call) returns (i: nat)
    requires Consistent(s) && c.request.who == manager && c.policy == Ask
    requires Distinct(listing) && forall i :: 0 <= i < |listing| ==> listing[i] in s
    ensures i <= |listing| && (forall j :: 0 <= j < i ==> !Live(s, c.request, listing[j], c.now(j)))
    ensures i < |listing| ==> Live(s, c.request, listing[i], c.now(i))
    ensures AuthorizeCall(s, listing, cfg, manager, c).1.AllowedBy? <==>
              if i < |listing| then s[listing[i]].status == Active || s[listing[i]].status == Used
              else if c.caller == User && c.approvedArg then cfg.allowNonInteractive && GrantWorks(s, cfg, c, Once, i)
              else c.answer.Approves? && GrantWorks(s, cfg, c, c.answer.scope, i)
  {
    hide GrantAndConsume, Decide;
    i := FirstLiveDecides(s, manager, c.request, listing, c.now, 0);
    var (s1, matched) := MatchSession(s, manager, c.request, listing, c.now, 0);
    MatchMoves(s, manager, c.request, listing, c.now, 0);
    if i < |listing| {
      ConsumeSucceedsExactlyWhen(s, manager, c.request, listing[i], c.now(i));
    } else if c.caller == User && c.approvedArg {
      GrantAndConsumeExactlyWhen(s1, cfg, manager, c, Once, NonInteractive, i);
    } else if c.answer.Approves? {
      GrantAndConsumeExactlyWhen(s1, cfg, manager, c, c.answer.scope, Interactive, i);
    }
  }

  /** Policy has the first word: what it denies is rejected, what it allows needs no approval, and neither is recorded. */
  lemma PolicyDecides(s: Records, listing: seq<Id>, cfg: Config, manager: Identity, c: Call)
    requires forall i :: 0 <= i < |listing| ==> listing[i] in s
    ensures var (t, verdict) := AuthorizeCall(s, listing, cfg, manager, c);
            && (c.policy == Deny ==> t == s && verdict == Rejected)
            && (c.policy == Allow ==> t == s && verdict == AllowedByPolicy)
            && (verdict == AllowedByPolicy <==> c.policy == Allow)
  {
    hide MatchSession, Grant, Consume;
    match c.policy {
      case Deny =>
      case Allow =>
      case Ask =>
    }
  }

  lemma GrantAndConsumeExactlyWhen(s: Records, cfg: Config, manager: Identity, c: Call, scope: Scope, origin: Origin,
                                   k: nat)
    requires Consistent(s) && c.request.who == manager
    ensures GrantAndConsume(s, cfg, manager, c, scope, origin, k).1.AllowedBy? <==>
              (origin == NonInteractive ==> cfg.allowNonInteractive) && GrantWorks(s, cfg, c, scope, k)
  {
    GrantSucceedsExactlyWhen(s, cfg, manager, c.request, scope, origin, c.now(k), c.newId);
    if Grant(s, cfg, manager, c.request, scope, origin, c.now(k), c.newId, true).1.Ok? {
      LifeOfAnApproval(s, cfg, manager, c.request, scope, origin, c.now(k), c.newId, c.request, c.now(k + 1), 0);
    }
  }

  // ---- Accounting over any sequence of calls ----

  datatype Authorized = Authorized(call: Call, id: Id)

  /** `granted` lists the ids of the records in the order they were created. */
  datatype Ledger = Ledger(records: Records, granted: seq<Id>, log: seq<Authorized>)

  /** A call, and the order in which the store lists its records: insertion order in memory, sorted by id on disk. */
  datatype Visit = Visit(call: Call, listing: seq<Id>)

  /** The ledger after one call, given what the call did to the records. */
  function Entered(l: Ledger, c: Call, s: Records, verdict: Verdict): Ledger {
    Ledger(s, if s.Keys == l.records.Keys then l.granted else l.granted + [c.newId],
           if verdict.AllowedBy? then l.log + [Authorized(c, verdict.id)] else l.log)
  }

  function Next(l: Ledger, cfg: Config, manager: Identity, v: Visit): Ledger {
    var (s, verdict) := AuthorizeCall(l.records, Stored(l.records, v.listing), cfg, manager, v.call);
    Entered(l, v.call, s, verdict)
  }

  function Stored(s: Records, ids: seq<Id>): (listing: seq<Id>)
    ensures forall i :: 0 <= i < |listing| ==> listing[i] in s
  {
    if ids == [] then [] else (if ids[0] in s then [ids[0]] else []) + Stored(s, ids[1..])
  }

  function After(cfg: Config, manager: Identity, visits: seq<Visit>): Ledger {
    if visits == [] then Ledger(map[], [], [])
    else Next(After(cfg, manager, visits[..|visits| - 1]), cfg, manager, visits[|visits| - 1])
  }

  /** The ledger of a store that lists its records in the order they were created, as the in-memory one does. */
  function LedgerOf(cfg: Config, manager: Identity, calls: seq<Call>): Ledger {
    if calls == [] then Ledger(map[], [], [])
    else
      var l := LedgerOf(cfg, manager, calls[..|calls| - 1]);
      Next(l, cfg, manager, Visit(calls[|calls| - 1], l.granted))
  }

  function VerdictsOf(cfg: Config, manager: Identity, calls: seq<Call>): seq<Verdict> {
    if calls == [] then []
    else
      var l, c := LedgerOf(cfg, manager, calls[..|calls| - 1]), calls[|calls| - 1];
      VerdictsOf(cfg, manager, calls[..|calls| - 1])
      + [AuthorizeCall(l.records, Stored(l.records, l.granted), cfg, manager, c).1]
  }

  function VisitsOf(cfg: Config, manager: Identity, calls: seq<Call>): seq<Visit> {
    if calls == [] then []
    else
      VisitsOf(cfg, manager, calls[..|calls| - 1])
      + [Visit(calls[|calls| - 1], LedgerOf(cfg, manager, calls[..|calls| - 1]).granted)]
  }

  lemma {:induction false} LedgerOfIsAfter(cfg: Config, manager: Identity, calls: seq<Call>)
    ensures LedgerOf(cfg, manager, calls) == After(cfg, manager, VisitsOf(cfg, manager, calls))
  {
    hide Next;
    if calls != [] {
      LedgerOfIsAfter(cfg, manager, calls[..|calls| - 1]);
      var visits := VisitsOf(cfg, manager, calls);
      assert visits[..|visits| - 1] == VisitsOf(cfg, manager, calls[..|calls| - 1]);
    }
  }

  /** How many entries of the log spent the record. */
  function Uses(log: seq<Authorized>, id: Id): nat {
    if log == [] then 0 else Uses(log[..|log| - 1], id) + if log[|log| - 1].id == id then 1 else 0
  }

  lemma UsesAppend(log: seq<Authorized>, e: Authorized, id: Id)
    ensures Uses(log + [e], id) == Uses(log, id) + if e.id == id then 1 else 0
  {
    assert (log + [e])[..|log|] == log;
  }

  lemma {:induction false} NeverUsed(log: seq<Authorized>, id: Id)
    requires forall i :: 0 <= i < |log| ==> log[i].id != id
    ensures Uses(log, id) == 0
  {
    if log != [] {
      NeverUsed(log[..|log| - 1], id);
    }
  }

  function SumUses(s: Records, ids: seq<Id>): nat
    requires forall i :: 0 <= i < |ids| ==> ids[i] in s
  {
    if ids == [] then 0 else SumUses(s, ids[..|ids| - 1]) + s[ids[|ids| - 1]].useCount
  }

  /** The only changes `consume` makes: status, last use, and one more use of at most one record. */
  predicate Moved(s: Records, t: Records, used: Option<Id>) {
    && s.Keys == t.Keys
    && forall id :: id in s ==>
         t[id] == s[id].(status := t[id].status, lastUsedAt := t[id].lastUsedAt,
                         useCount := if used == Some(id) then s[id].useCount + 1 else s[id].useCount)
  }

  predicate Justified(s: Records, e: Authorized) {
    && e.id in s
    && s[e.id].fingerprint == FingerprintOf(e.call.request)
    && (s[e.id].origin == NonInteractive ==> e.call.caller == User && e.call.approvedArg)
    && e.call.policy == Ask
  }

  ghost predicate Inv(l: Ledger) {
    && Consistent(l.records) && OnceOnly(l.records)
    && Distinct(l.granted) && (forall id :: id in l.records <==> id in l.granted)
    && AllJustified(l.records, l.log) && EachCounted(l.records, l.log)
    && SumUses(l.records, l.granted) == |l.log|
  }

  predicate OnceOnly(s: Records) {
    forall id :: id in s && s[id].origin == NonInteractive ==> s[id].scope == Once
  }

  /** Each record's use count is the number of authorizations it gave. */
  predicate EachCounted(s: Records, log: seq<Authorized>) {
    forall id :: id in s ==> s[id].useCount == Uses(log, id)
  }

  lemma CountedGrows(s: Records, log: seq<Authorized>, id: Id, rec: Record)
    requires EachCounted(s, log) && AllJustified(s, log) && id !in s && rec.useCount == 0
    ensures EachCounted(s[id := rec], log)
  {
    NeverUsed(log, id);
  }

  lemma CountedMoves(s: Records, t: Records, log: seq<Authorized>, used: Option<Id>, c: Call)
    requires EachCounted(s, log) && Moved(s, t, used)
    ensures EachCounted(t, if used.Some? then log + [Authorized(c, used.value)] else log)
  {
    if used.Some? {
      forall id | id in t ensures t[id].useCount == Uses(log + [Authorized(c, used.value)], id) {
        UsesAppend(log, Authorized(c, used.value), id);
      }
    }
  }

  predicate AllJustified(s: Records, log: seq<Authorized>) {
    forall i :: 0 <= i < |log| ==> Justified(s, log[i])
  }

  lemma JustifiedGrows(s: Records, log: seq<Authorized>, id: Id, rec: Record)
    requires AllJustified(s, log) && id !in s
    ensures AllJustified(s[id := rec], log)
  {
  }

  lemma JustifiedMoves(s: Records, t: Records, log: seq<Authorized>, used: Option<Id>, c: Call)
    requires AllJustified(s, log) && Moved(s, t, used)
    requires used.Some? ==> Justified(s, Authorized(c, used.value))
    ensures AllJustified(t, if used.Some? then log + [Authorized(c, used.value)] else log)
  {
    forall i | 0 <= i < |log| ensures Justified(t, log[i]) {
      assert Justified(s, log[i]);
    }
  }

  lemma ConsumeMoves(s: Records, manager: Identity, r: Request, id: Id, now: Time)
    requires Consistent(s)
    ensures var (t, out) := Consume(s, manager, r, id, now, true);
            Consistent(t) && Moved(s, t, if out.Ok? then Some(id) else None)
            && (out.Ok? ==> id in s && out.record.id == id && s[id].fingerprint == FingerprintOf(r))
  {
    if CheckIdentity(manager, r).None? && id in s {
      DecideMoves(s[id], r, now);
    }
  }

  lemma DecideMoves(rec: Record, r: Request, now: Time)
    ensures var d := Decide(rec, r, now);
            && (d.Expire? ==> d.updated == rec.(status := d.updated.status))
            && (d.Use? ==> rec.fingerprint == FingerprintOf(r)
                           && d.updated == rec.(status := d.updated.status, lastUsedAt := d.updated.lastUsedAt,
                                                useCount := rec.useCount + 1))
  {
  }

  lemma MovedTrans(s: Records, t: Records, u: Records, used: Option<Id>)
    requires Moved(s, t, None) && Moved(t, u, used)
    ensures Moved(s, u, used)
  {
    forall id | id in s ensures u[id] == s[id].(status := u[id].status, lastUsedAt := u[id].lastUsedAt,
                         useCount := if used == Some(id) then s[id].useCount + 1 else s[id].useCount) {
      assert id in t;
    }
  }

  lemma {:induction false} MatchMoves(s: Records, manager: Identity, r: Request, listing: seq<Id>, now: nat -> Time, k: nat)
    requires forall i :: 0 <= i < |listing| ==> listing[i] in s
    requires k <= |listing| && Consistent(s)
    ensures var (t, out) := MatchSession(s, manager, r, listing, now, k);
            && Consistent(t)
            && Moved(s, t, if out.Some? && out.value.Ok? then Some(out.value.record.id) else None)
            && (out.Some? && out.value.Ok? ==>
                  var id := out.value.record.id;
                  id in s && s[id].scope == Session && s[id].fingerprint == FingerprintOf(r))
    decreases |listing| - k
  {
    if k < |listing| {
      if s[listing[k]].scope != Session || s[listing[k]].fingerprint != FingerprintOf(r) {
        MatchMoves(s, manager, r, listing, now, k + 1);
      } else {
        var (after, out) := Consume(s, manager, r, listing[k], now(k), true);
        ConsumeMoves(s, manager, r, listing[k], now(k));
        if out.Lapsed? {
          MatchMoves(after, manager, r, listing, now, k + 1);
          var (t, found) := MatchSession(after, manager, r, listing, now, k + 1);
          MovedTrans(s, after, t, if found.Some? && found.value.Ok? then Some(found.value.record.id) else None);
        }
      }
    }
  }

  lemma {:induction false} SumMoved(s: Records, t: Records, used: Option<Id>, ids: seq<Id>)
    requires forall i :: 0 <= i < |ids| ==> ids[i] in s
    requires Moved(s, t, used) && Distinct(ids)
    ensures SumUses(t, ids) == SumUses(s, ids) + (if used.Some? && used.value in ids then 1 else 0)
  {
    if ids != [] {
      var front, last := ids[..|ids| - 1], ids[|ids| - 1];
      assert ids == front + [last];
      assert forall id :: id in ids <==> id in front || id == last;
      SumMoved(s, t, used, front);
    }
  }

  lemma {:induction false} SumGrown(s: Records, id: Id, rec: Record, ids: seq<Id>)
    requires forall i :: 0 <= i < |ids| ==> ids[i] in s
    requires id !in s && rec.useCount == 0
    ensures SumUses(s[id := rec], ids) == SumUses(s, ids)
  {
    if ids != [] {
      SumGrown(s, id, rec, ids[..|ids| - 1]);
    }
  }

  /** Spending `used` keeps the books, provided a record that was not granted interactively is the caller's own. */
  lemma InvMoved(l: Ledger, t: Records, c: Call, used: Option<Id>)
    requires Inv(l) && Moved(l.records, t, used) && Consistent(t)
    requires used.Some? ==> used.value in l.records && c.policy == Ask
                            && l.records[used.value].fingerprint == FingerprintOf(c.request)
                            && (l.records[used.value].origin == NonInteractive ==> c.caller == User && c.approvedArg)
    ensures Inv(Ledger(t, l.granted, if used.Some? then l.log + [Authorized(c, used.value)] else l.log))
  {
    hide Moved, Distinct, AllJustified, EachCounted, OnceOnly, SumUses;
    SumMoved(l.records, t, used, l.granted);
    JustifiedMoves(l.records, t, l.log, used, c);
    CountedMoves(l.records, t, l.log, used, c);
    KeysMove(l.records, t, used);
  }

  lemma KeysMove(s: Records, t: Records, used: Option<Id>)
    requires Moved(s, t, used)
    ensures s.Keys == t.Keys && (OnceOnly(s) ==> OnceOnly(t))
  {
  }

  lemma InvGranted(l: Ledger, rec: Record, after: Ledger)
    requires Inv(l) && rec.id !in l.records && rec.useCount == 0 && rec.fingerprint.who == rec.who
    requires rec.origin == NonInteractive ==> rec.scope == Once
    requires after == Ledger(l.records[rec.id := rec], l.granted + [rec.id], l.log)
    ensures Inv(after)
  {
    hide Distinct, AllJustified, EachCounted, SumUses;
    JustifiedGrows(l.records, l.log, rec.id, rec);
    CountedGrows(l.records, l.log, rec.id, rec);
    DistinctAppend(l.granted, rec.id);
    SumOfGrown(l.records, rec, l.granted);
  }

  lemma SumOfGrown(s: Records, rec: Record, ids: seq<Id>)
    requires (forall i :: 0 <= i < |ids| ==> ids[i] in s) && rec.id !in s && rec.useCount == 0
    ensures SumUses(s[rec.id := rec], ids + [rec.id]) == SumUses(s, ids)
  {
    SumGrown(s, rec.id, rec, ids);
    assert (ids + [rec.id])[..|ids|] == ids;
  }

  lemma InvConsumed(l: Ledger, manager: Identity, c: Call, id: Id, now: Time, used: Records, result: Outcome, after: Ledger)
    requires Inv(l) && c.policy == Ask && id in l.records
    requires l.records[id].origin == NonInteractive ==> c.caller == User && c.approvedArg
    requires (used, result) == Consume(l.records, manager, c.request, id, now, true)
    requires after == Ledger(used, l.granted, if result.Ok? then l.log + [Authorized(c, id)] else l.log)
    ensures Inv(after) && used.Keys == l.records.Keys
  {
    ConsumeMoves(l.records, manager, c.request, id, now);
    InvMoved(l, used, c, if result.Ok? then Some(id) else None);
  }

  lemma InvGrantAndConsume(l: Ledger, cfg: Config, manager: Identity, c: Call, scope: Scope, origin: Origin, k: nat,
                           s: Records, verdict: Verdict, after: Ledger)
    requires Inv(l) && c.policy == Ask
    requires origin == NonInteractive ==> scope == Once && c.caller == User && c.approvedArg
    requires (s, verdict) == GrantAndConsume(l.records, cfg, manager, c, scope, origin, k)
    requires after == Entered(l, c, s, verdict)
    ensures Inv(after)
  {
    hide Inv;
    var (granted, out) := Grant(l.records, cfg, manager, c.request, scope, origin, c.now(k), c.newId, true);
    if out.Ok? {
      GrantAdds(l.records, cfg, manager, c.request, scope, origin, c.now(k), c.newId);
      InvSpent(l, NewRecord(cfg, c.request, scope, origin, c.now(k), c.newId), manager, c, c.now(k + 1), s, verdict, after);
    } else {
      assert after == l;
    }
  }

  /** A record just granted, spent at once. */
  lemma InvSpent(l: Ledger, rec: Record, manager: Identity, c: Call, now: Time, s: Records, verdict: Verdict, after: Ledger)
    requires Inv(l) && c.policy == Ask && rec.id == c.newId && rec.id !in l.records
    requires rec.useCount == 0 && rec.fingerprint.who == rec.who
    requires rec.origin == NonInteractive ==> rec.scope == Once && c.caller == User && c.approvedArg
    requires var (used, result) := Consume(l.records[rec.id := rec], manager, c.request, rec.id, now, true);
             s == used && verdict == if result.Ok? then AllowedBy(c.newId) else Rejected
    requires after == Entered(l, c, s, verdict)
    ensures Inv(after)
  {
    var granted := l.records[rec.id := rec];
    var l1 := Ledger(granted, l.granted + [rec.id], l.log);
    InvGranted(l, rec, l1);
    var (used, result) := Consume(granted, manager, c.request, rec.id, now, true);
    var l2 := Ledger(used, l1.granted, if result.Ok? then l.log + [Authorized(c, rec.id)] else l.log);
    InvConsumed(l1, manager, c, rec.id, now, used, result, l2);
    assert rec.id in granted.Keys && rec.id !in l.records.Keys;
    assert after == l2;
  }

  lemma GrantAdds(s: Records, cfg: Config, manager: Identity, r: Request, scope: Scope, origin: Origin, now: Time, id: Id)
    requires Grant(s, cfg, manager, r, scope, origin, now, id, true).1.Ok?
    ensures id !in s
    ensures Grant(s, cfg, manager, r, scope, origin, now, id, true).0 == s[id := NewRecord(cfg, r, scope, origin, now, id)]
    ensures Grant(s, cfg, manager, r, scope, origin, now, id, true).0.Keys != s.Keys
  {
    assert id in s[id := NewRecord(cfg, r, scope, origin, now, id)].Keys;
  }

  lemma InvAskCaller(l: Ledger, cfg: Config, manager: Identity, c: Call, k: nat,
                     s: Records, verdict: Verdict, after: Ledger)
    requires Inv(l) && c.policy == Ask
    requires (s, verdict) == AskCaller(l.records, cfg, manager, c, k)
    requires after == Entered(l, c, s, verdict)
    ensures Inv(after)
  {
    if c.caller == User && c.approvedArg {
      InvGrantAndConsume(l, cfg, manager, c, Once, NonInteractive, k, s, verdict, after);
    } else if c.answer.Approves? {
      InvGrantAndConsume(l, cfg, manager, c, c.answer.scope, Interactive, k, s, verdict, after);
    } else {
      assert after == l;
    }
  }

  lemma AskPreserves(l: Ledger, listing: seq<Id>, cfg: Config, manager: Identity, c: Call,
                     s: Records, verdict: Verdict, after: Ledger)
    requires Inv(l) && c.policy == Ask
    requires forall i :: 0 <= i < |listing| ==> listing[i] in l.records
    requires (s, verdict) == AuthorizeCall(l.records, listing, cfg, manager, c)
    requires after == Entered(l, c, s, verdict)
    ensures Inv(after)
  {
    hide Moved, GrantAndConsume, Consume, Consistent, Distinct, AllJustified, EachCounted, SumUses;
    var (s1, matched) := MatchSession(l.records, manager, c.request, listing, c.now, 0);
    MatchMoves(l.records, manager, c.request, listing, c.now, 0);
    var used := if matched.Some? && matched.value.Ok? then Some(matched.value.record.id) else None;
    InvMoved(l, s1, c, used);
    if matched.None? {
      var l1 := Ledger(s1, l.granted, l.log);
      InvAskCaller(l1, cfg, manager, c, |listing|, s, verdict, after);
    }
  }

  lemma {:induction false} LedgerInvariant(cfg: Config, manager: Identity, visits: seq<Visit>)
    ensures Inv(After(cfg, manager, visits))
  {
    hide MatchSession, AskCaller;
    if visits != [] {
      var l, v := After(cfg, manager, visits[..|visits| - 1]), visits[|visits| - 1];
      LedgerInvariant(cfg, manager, visits[..|visits| - 1]);
      if v.call.policy == Ask {
        var (s, verdict) := AuthorizeCall(l.records, Stored(l.records, v.listing), cfg, manager, v.call);
        AskPreserves(l, Stored(l.records, v.listing), cfg, manager, v.call, s, verdict, Entered(l, v.call, s, verdict));
      }
    }
  }

  /**
   * Over every sequence of protected calls from an empty store, however it lists its records: each record's use
   * count is the number of `ask` calls it authorized, so the counts add up to the number of those calls; each spent
   * a record with the call's own fingerprint; and a record that was not granted interactively was only ever spent by
   * a user's call that carried `approved`.
   */
  lemma EveryUseIsAccountedFor(cfg: Config, manager: Identity, visits: seq<Visit>)
    ensures var l := After(cfg, manager, visits);
            && Distinct(l.granted) && (forall id :: id in l.records <==> id in l.granted)
            && (forall id :: id in l.records ==> l.records[id].useCount == Uses(l.log, id))
            && SumUses(l.records, l.granted) == |l.log|
            && (forall i :: 0 <= i < |l.log| ==> Justified(l.records, l.log[i]))
  {
    LedgerInvariant(cfg, manager, visits);
  }

  // ---- The registry ----

  function Allowances(verdicts: seq<Verdict>): nat {
    if verdicts == [] then 0
    else Allowances(verdicts[..|verdicts| - 1]) + if verdicts[|verdicts| - 1].AllowedBy? then 1 else 0
  }

  lemma {:induction false} LogCountsAllowances(cfg: Config, manager: Identity, calls: seq<Call>)
    ensures |VerdictsOf(cfg, manager, calls)| == |calls|
    ensures |LedgerOf(cfg, manager, calls).log| == Allowances(VerdictsOf(cfg, manager, calls))
  {
    hide AuthorizeCall;
    if calls != [] {
      LogCountsAllowances(cfg, manager, calls[..|calls| - 1]);
      var verdicts := VerdictsOf(cfg, manager, calls);
      assert verdicts[..|verdicts| - 1] == VerdictsOf(cfg, manager, calls[..|calls| - 1]);
    }
  }

  lemma {:induction false} AllAreStored(s: Records, ids: seq<Id>)
    requires forall id :: id in ids ==> id in s
    ensures Stored(s, ids) == ids
  {
    if ids != [] {
      assert ids[0] in ids && forall id :: id in ids[1..] ==> id in ids;
      AllAreStored(s, ids[1..]);
    }
  }

  lemma GrantedAreStored(cfg: Config, manager: Identity, calls: seq<Call>)
    ensures var l := LedgerOf(cfg, manager, calls); Stored(l.records, l.granted) == l.granted
  {
    var l := LedgerOf(cfg, manager, calls);
    LedgerOfIsAfter(cfg, manager, calls);
    LedgerInvariant(cfg, manager, VisitsOf(cfg, manager, calls));
    AllAreStored(l.records, l.granted);
  }

  class ToolRegistry {
    const approvals: InMemoryManager

    constructor (approvals: InMemoryManager)
      ensures this.approvals == approvals
    {
      this.approvals := approvals;
    }

    /** `_authorize`. */
    method Authorize(c: Call) returns (verdict: Verdict)
      requires approvals.store.Valid()
      modifies approvals.store, approvals.store.records.Values
      ensures approvals.store.Valid() && fresh(approvals.store.records.Values - old(approvals.store.records.Values))
      ensures (approvals.store.Contents(), verdict)
              == AuthorizeCall(old(approvals.store.Contents()), old(approvals.store.order),
                               approvals.config, approvals.identity, c)
      ensures approvals.store.order
              == if approvals.store.Contents().Keys == old(approvals.store.Contents()).Keys then old(approvals.store.order)
                 else old(approvals.store.order) + [c.newId]
    {
      hide GrantAndConsume, MatchSession;
      if c.policy == Deny { return Rejected; }
      if c.policy == Allow { return AllowedByPolicy; }
      var n := |approvals.store.order|;
      var matched := approvals.ConsumeMatchingSession(c.request, c.now);
      if matched.Some? {
        return if matched.value.Ok? then AllowedBy(matched.value.record.id) else Rejected;
      }
      var scope, origin := Once, NonInteractive;
      if !(c.caller == User && c.approvedArg) {
        if !c.answer.Approves? { return Rejected; }
        scope, origin := c.answer.scope, Interactive;
      }
      verdict := GrantThenConsume(c, scope, origin, n);
    }

    /** The grant made for this call, spent at once. */
    method GrantThenConsume(c: Call, scope: Scope, origin: Origin, k: nat) returns (verdict: Verdict)
      requires approvals.store.Valid()
      modifies approvals.store, approvals.store.records.Values
      ensures approvals.store.Valid() && fresh(approvals.store.records.Values - old(approvals.store.records.Values))
      ensures (approvals.store.Contents(), verdict)
              == GrantAndConsume(old(approvals.store.Contents()), approvals.config, approvals.identity, c, scope, origin, k)
      ensures approvals.store.order
              == if approvals.store.Contents().Keys == old(approvals.store.Contents()).Keys then old(approvals.store.order)
                 else old(approvals.store.order) + [c.newId]
    {
      hide Grant, Consume;
      ghost var before := approvals.store.Contents();
      GrantChangesKeys(before, approvals.config, approvals.identity, c, scope, origin, k);
      var granted := approvals.Grant(c.request, scope, origin, c.now(k), c.newId);
      if !granted.Ok? { return Rejected; }
      var used := approvals.Consume(c.request, c.newId, c.now(k + 1));
      verdict := if used.Ok? then AllowedBy(c.newId) else Rejected;
    }

    /** The store and the verdicts are those of the ledger after these calls. */
    ghost predicate Keeps(calls: seq<Call>, verdicts: seq<Verdict>)
      reads approvals.store, approvals.store.records.Values
    {
      && approvals.store.Valid()
      && approvals.store.Contents() == LedgerOf(approvals.config, approvals.identity, calls).records
      && approvals.store.order == LedgerOf(approvals.config, approvals.identity, calls).granted
      && verdicts == VerdictsOf(approvals.config, approvals.identity, calls)
    }

    method AuthorizeNext(ghost calls: seq<Call>, verdicts: seq<Verdict>, c: Call) returns (more: seq<Verdict>)
      requires Keeps(calls, verdicts)
      modifies approvals.store, approvals.store.records.Values
      ensures Keeps(calls + [c], more)
      ensures fresh(approvals.store.records.Values - old(approvals.store.records.Values))
    {
      hide AuthorizeCall, Stored, LedgerOf, VerdictsOf;
      ghost var l := LedgerOf(approvals.config, approvals.identity, calls);
      GrantedAreStored(approvals.config, approvals.identity, calls);
      LedgerOfOneMore(approvals.config, approvals.identity, calls, c);
      var verdict := Authorize(c);
      assert LedgerOf(approvals.config, approvals.identity, calls + [c])
          == Entered(l, c, approvals.store.Contents(), verdict);
      more := verdicts + [verdict];
    }

    /** Any sequence of protected calls on a store that starts empty; afterwards the books balance. */
    method AuthorizeAll(calls: seq<Call>) returns (verdicts: seq<Verdict>)
      requires approvals.store.Valid() && approvals.store.Contents() == map[] && approvals.store.order == []
      modifies approvals.store, approvals.store.records.Values
      ensures Keeps(calls, verdicts)
      ensures SumUses(approvals.store.Contents(), approvals.store.order) == Allowances(verdicts)
      ensures |verdicts| == |calls| && forall i :: 0 <= i < |calls| ==>
                && (calls[i].policy == Deny ==> verdicts[i] == Rejected)
                && (verdicts[i] == AllowedByPolicy <==> calls[i].policy == Allow)
    {
      hide Next, AuthorizeCall, Stored;
      verdicts := [];
      for k := 0 to |calls|
        invariant Keeps(calls[..k], verdicts)
        invariant fresh(approvals.store.records.Values - old(approvals.store.records.Values))
      {
        assert calls[..k + 1] == calls[..k] + [calls[k]];
        verdicts := AuthorizeNext(calls[..k], verdicts, calls[k]);
      }
      assert calls[..|calls|] == calls;
      BooksBalance(approvals.config, approvals.identity, calls);
      VerdictsFollowPolicy(approvals.config, approvals.identity, calls);
    }
  }

  lemma {:induction false} VerdictsFollowPolicy(cfg: Config, manager: Identity, calls: seq<Call>)
    ensures |VerdictsOf(cfg, manager, calls)| == |calls|
    ensures forall i :: 0 <= i < |calls| ==>
              var verdict := VerdictsOf(cfg, manager, calls)[i];
              && (calls[i].policy == Deny ==> verdict == Rejected)
              && (verdict == AllowedByPolicy <==> calls[i].policy == Allow)
  {
    hide AuthorizeCall, Next;
    if calls != [] {
      var front, c := calls[..|calls| - 1], calls[|calls| - 1];
      VerdictsFollowPolicy(cfg, manager, front);
      var l := LedgerOf(cfg, manager, front);
      PolicyDecides(l.records, Stored(l.records, l.granted), cfg, manager, c);
    }
  }

  lemma LedgerOfOneMore(cfg: Config, manager: Identity, calls: seq<Call>, c: Call)
    ensures var l := LedgerOf(cfg, manager, calls);
            var (s, verdict) := AuthorizeCall(l.records, Stored(l.records, l.granted), cfg, manager, c);
            && LedgerOf(cfg, manager, calls + [c]) == Entered(l, c, s, verdict)
            && VerdictsOf(cfg, manager, calls + [c]) == VerdictsOf(cfg, manager, calls) + [verdict]
  {
    hide AuthorizeCall, Stored;
    assert (calls + [c])[..|calls|] == calls;
  }

  /** The use counts a registry has stored add up to the number of calls it allowed by an approval. */
  lemma BooksBalance(cfg: Config, manager: Identity, calls: seq<Call>)
    ensures var l := LedgerOf(cfg, manager, calls);
            (forall id :: id in l.granted ==> id in l.records)
            && SumUses(l.records, l.granted) == Allowances(VerdictsOf(cfg, manager, calls))
  {
    hide Next;
    LedgerOfIsAfter(cfg, manager, calls);
    LedgerInvariant(cfg, manager, VisitsOf(cfg, manager, calls));
    LogCountsAllowances(cfg, manager, calls);
  }

  lemma GrantChangesKeys(s: Records, cfg: Config, manager: Identity, c: Call, scope: Scope, origin: Origin, k: nat)
    ensures var (t, out) := Grant(s, cfg, manager, c.request, scope, origin, c.now(k), c.newId, true);
            if out.Ok? then c.newId !in s && c.newId in t else t == s
  {
  }
}
