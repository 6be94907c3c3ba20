/** Approval records and the rules for granting and consuming them (src/loro/approvals.py). */
module Approvals {
  import opened Common

  type Id = string
  type Time = int  // microseconds; the order of timestamps is all the code looks at

  datatype Scope = Once | Session
  datatype Origin = Interactive | NonInteractive
  datatype Status = Active | Used | Denied | Expired
  datatype Identity = Identity(subject: string, tenant: string, session: string)
  datatype Config = Config(allowSession: bool, allowNonInteractive: bool, onceTtl: Time, sessionTtl: Time)

  /** `arguments` holds each argument's canonical JSON text. */
  datatype Request = Request(
    action: string, target: string, arguments: map<string, string>, who: Identity,
    decision: string, policyVersion: string, policySource: string,
    requestId: string, policyReason: string, riskReason: string)

  /** What the SHA-256 fingerprint binds; the hash is abstracted to its (collision-free) input. */
  datatype Fingerprint = Fingerprint(
    action: string, target: string, arguments: map<string, string>, who: Identity,
    decision: string, policyVersion: string, policySource: string)

  datatype Record = Record(
    id: Id, requestId: string, fingerprint: Fingerprint, who: Identity, scope: Scope, origin: Origin,
    grantedAt: Time, expiresAt: Time, status: Status, useCount: nat, lastUsedAt: Option<Time>)

  type Records = map<Id, Record>

  datatype Refusal =
    | WrongActor | WrongTenant | WrongSession
    | SessionScopeDisabled | NonInteractiveDisabled | DuplicateRecord
    | UnknownRecord | ActorMismatch | SessionMismatch | FingerprintMismatch
    | AlreadyUsed | NotActive | ChangedConcurrently | StoreFull

  datatype Outcome = Ok(record: Record) | Lapsed | Refused(why: Refusal)

  function FingerprintOf(r: Request): Fingerprint {
    Fingerprint(r.action, r.target, r.arguments, r.who, r.decision, r.policyVersion, r.policySource)
  }

  function CheckIdentity(manager: Identity, r: Request): Option<Refusal> {
    if r.who.subject != manager.subject then Some(WrongActor)
    else if r.who.tenant != manager.tenant then Some(WrongTenant)
    else if r.who.session != manager.session then Some(WrongSession)
    else None
  }

  function Ttl(cfg: Config, scope: Scope): Time {
    if scope == Session then cfg.sessionTtl else cfg.onceTtl
  }

  function NewRecord(cfg: Config, r: Request, scope: Scope, origin: Origin, now: Time, id: Id): Record {
    Record(id, r.requestId, FingerprintOf(r), r.who, scope, origin, now,
           now + Ttl(cfg, scope), Active, 0, None)
  }

  /** Granting as one step; `fits` says whether the rewritten store stays below its size limit. */
  function Grant(s: Records, cfg: Config, manager: Identity, r: Request, scope: Scope, origin: Origin,
                 now: Time, id: Id, fits: bool): (Records, Outcome)
  {
    if CheckIdentity(manager, r).Some? then (s, Refused(CheckIdentity(manager, r).value))
    else if scope == Session && !cfg.allowSession then (s, Refused(SessionScopeDisabled))
    else if origin == NonInteractive && !cfg.allowNonInteractive then (s, Refused(NonInteractiveDisabled))
    else if id in s then (s, Refused(DuplicateRecord))
    else if !fits then (s, Refused(StoreFull))
    else var rec := NewRecord(cfg, r, scope, origin, now, id); (s[id := rec], Ok(rec))
  }

  datatype Decision = Expire(updated: Record) | Use(updated: Record) | Reject(why: Refusal)

  /** The check-and-mutate part of `consume`, on the record that was read. */
  function Decide(rec: Record, r: Request, now: Time): Decision {
    if now >= rec.expiresAt then Expire(rec.(status := Expired))
    else if rec.who.subject != r.who.subject then Reject(ActorMismatch)
    else if rec.who.session != r.who.session then Reject(SessionMismatch)
    else if rec.fingerprint != FingerprintOf(r) then Reject(FingerprintMismatch)
    else if rec.scope == Once && rec.status != Active then Reject(AlreadyUsed)
    else if rec.status != Active && rec.status != Used then Reject(NotActive)
    else Use(rec.(useCount := rec.useCount + 1, lastUsedAt := Some(now),
                  status := if rec.scope == Once then Used else Active))
  }

  /** `consume` as one indivisible step: the reference the interleaved and the in-place forms are held to. */
  function Consume(s: Records, manager: Identity, r: Request, id: Id, now: Time, fits: bool): (Records, Outcome) {
    if CheckIdentity(manager, r).Some? then (s, Refused(CheckIdentity(manager, r).value))
    else if id !in s then (s, Refused(UnknownRecord))
    else match Decide(s[id], r, now)
      case Reject(why) => (s, Refused(why))
      case Expire(rec) => if fits then (s[id := rec], Lapsed) else (s, Refused(StoreFull))
      case Use(rec) => if fits then (s[id := rec], Ok(rec)) else (s, Refused(StoreFull))
  }

  /**
   * `consume_matching_session` over the ids in listing order: the first matching session record that has not
   * lapsed decides. None: there is no such record. `now(k)` is the clock when position k is tried.
   */
  function MatchSession(s: Records, manager: Identity, r: Request, listing: seq<Id>, now: nat -> Time, k: nat)
    : (Records, Option<Outcome>)
    requires forall i :: 0 <= i < |listing| ==> listing[i] in s
    requires k <= |listing|
    decreases |listing| - k
  {
    if k == |listing| then (s, None)
    else if s[listing[k]].scope != Session || s[listing[k]].fingerprint != FingerprintOf(r) then
      MatchSession(s, manager, r, listing, now, k + 1)
    else
      var (after, out) := Consume(s, manager, r, listing[k], now(k), true);
      if out.Lapsed? then MatchSession(after, manager, r, listing, now, k + 1) else (after, Some(out))
  }

  /** Every stored record sits under its own id and was granted to the identity its fingerprint names. */
  predicate Consistent(s: Records) {
    forall id :: id in s ==> s[id].id == id && s[id].fingerprint.who == s[id].who
  }

  /**
   * An approval granted for one request fits another exactly when nothing that matters differs: not what is done, to
   * what, with which arguments, by whom, or under which policy. Ids and stated reasons do not matter.
   */
  lemma FingerprintBinds(cfg: Config, r: Request, scope: Scope, origin: Origin, now: Time, id: Id, other: Request)
    ensures NewRecord(cfg, r, scope, origin, now, id).fingerprint == FingerprintOf(other) <==>
              && r.action == other.action && r.target == other.target && r.arguments == other.arguments
              && r.who.subject == other.who.subject && r.who.tenant == other.who.tenant
              && r.who.session == other.who.session
              && r.decision == other.decision && r.policyVersion == other.policyVersion
              && r.policySource == other.policySource
  {
  }

  /** Exactly when a stored approval authorizes a request, whatever order the code tests in. */
  lemma ConsumeSucceedsExactlyWhen(s: Records, manager: Identity, r: Request, id: Id, now: Time)
    requires Consistent(s)
    ensures Consume(s, manager, r, id, now, true).1.Ok? <==>
              && r.who == manager
              && id in s && now < s[id].expiresAt
              && s[id].fingerprint == FingerprintOf(r)
              && (s[id].status == Active || (s[id].scope == Session && s[id].status == Used))
    ensures Consistent(Consume(s, manager, r, id, now, true).0)
  {
    if id in s && s[id].fingerprint == FingerprintOf(r) {
      assert s[id].who == r.who;
    }
  }

  /** Exactly when granting succeeds, and that it then adds one record and changes none. */
  lemma GrantSucceedsExactlyWhen(s: Records, cfg: Config, manager: Identity, r: Request, scope: Scope, origin: Origin,
                                 now: Time, id: Id)
    ensures var (t, out) := Grant(s, cfg, manager, r, scope, origin, now, id, true);
            && (out.Ok? <==> r.who == manager && (scope == Session ==> cfg.allowSession)
                             && (origin == NonInteractive ==> cfg.allowNonInteractive) && id !in s)
            && (out.Ok? ==> t == s[id := out.record] && out.record.id == id)
            && (!out.Ok? ==> t == s)
  {
  }

  /**
   * What a consume changes: an answer of Ok spends one use of the record asked for, and of no other; a lapsed record
   * is marked and nothing else; a refusal changes nothing and gives the first reason there is.
   */
  lemma ConsumeChanges(s: Records, manager: Identity, r: Request, id: Id, now: Time, fits: bool)
    ensures var (t, out) := Consume(s, manager, r, id, now, fits);
            match out
            case Ok(rec) =>
              && fits && id in s && now < s[id].expiresAt && t == s[id := rec]
              && rec.useCount == s[id].useCount + 1 && rec.lastUsedAt == Some(now)
              && rec.status == (match s[id].scope case Once => Used case Session => Active)
              && s[id] == rec.(useCount := s[id].useCount, lastUsedAt := s[id].lastUsedAt, status := s[id].status)
            case Lapsed => fits && id in s && s[id].expiresAt <= now && t == s[id := s[id].(status := Expired)]
            case Refused(why) => t == s && ConsumeRefusedFor(s, manager, r, id, now, fits, why)
  {
  }

  /** The reasons a consume gives; from UnknownRecord on, the caller's identity is the manager's. */
  predicate ConsumeRefusedFor(s: Records, manager: Identity, r: Request, id: Id, now: Time, fits: bool, why: Refusal) {
    match why
    case WrongActor => r.who.subject != manager.subject
    case WrongTenant => r.who.subject == manager.subject && r.who.tenant != manager.tenant
    case WrongSession => r.who == manager.(session := r.who.session) && r.who.session != manager.session
    case UnknownRecord => r.who == manager && id !in s
    case StoreFull => !fits && r.who == manager && id in s
    case ActorMismatch | SessionMismatch | FingerprintMismatch | AlreadyUsed | NotActive =>
      r.who == manager && id in s && now < s[id].expiresAt && RecordRefuses(s[id], r, why)
    case _ => false
  }

  predicate RecordRefuses(rec: Record, r: Request, why: Refusal) {
    match why
    case ActorMismatch => rec.who.subject != r.who.subject
    case SessionMismatch => rec.who.subject == r.who.subject && rec.who.session != r.who.session
    case FingerprintMismatch => rec.who == r.who.(tenant := rec.who.tenant) && rec.fingerprint != FingerprintOf(r)
    case AlreadyUsed => rec.fingerprint == FingerprintOf(r) && rec.scope == Once && rec.status != Active
    case NotActive => rec.fingerprint == FingerprintOf(r) && rec.scope == Session && rec.status in {Denied, Expired}
    case _ => false
  }

  /** Without room for the rewritten store a consume is refused as full exactly where it would have written. */
  lemma ConsumeNeedsRoom(s: Records, manager: Identity, r: Request, id: Id, now: Time)
    ensures var (t, out) := Consume(s, manager, r, id, now, true);
            Consume(s, manager, r, id, now, false) == if out.Refused? then (s, out) else (s, Refused(StoreFull))
  {
  }

  /** The reasons a grant gives. */
  lemma GrantRefusedFor(s: Records, cfg: Config, manager: Identity, r: Request, scope: Scope, origin: Origin,
                        now: Time, id: Id, fits: bool)
    ensures var (t, out) := Grant(s, cfg, manager, r, scope, origin, now, id, fits);
            match out
            case Ok(rec) =>
              && fits && rec.scope == scope && rec.origin == origin && rec.who == r.who && rec.requestId == r.requestId
              && rec.grantedAt == now && rec.status == Active && rec.useCount == 0 && rec.lastUsedAt == None
            case Lapsed => false
            case Refused(why) =>
              t == s &&
              match why
              case WrongActor => r.who.subject != manager.subject
              case WrongTenant => r.who.subject == manager.subject && r.who.tenant != manager.tenant
              case WrongSession => r.who == manager.(session := r.who.session) && r.who != manager
              case SessionScopeDisabled => r.who == manager && scope == Session && !cfg.allowSession
              case NonInteractiveDisabled => r.who == manager && origin == NonInteractive && !cfg.allowNonInteractive
              case DuplicateRecord => r.who == manager && id in s
              case StoreFull => r.who == manager && id !in s && !fits
              case _ => false
  {
  }

  /**
   * The life of one approval: until its lifetime has passed it authorizes the very request it was granted for and
   * no other, and after that first use it authorizes again exactly if it was granted for the session.
   */
  lemma LifeOfAnApproval(s: Records, cfg: Config, manager: Identity, r: Request, scope: Scope, origin: Origin,
                         granted: Time, id: Id, other: Request, used: Time, again: Time)
    requires Consistent(s) && Grant(s, cfg, manager, r, scope, origin, granted, id, true).1.Ok?
    ensures var (t, _) := Grant(s, cfg, manager, r, scope, origin, granted, id, true);
            var (u, first) := Consume(t, manager, other, id, used, true);
            var lifetime := match scope case Once => cfg.onceTtl case Session => cfg.sessionTtl;
            && (first.Ok? <==> other.who == manager && FingerprintOf(other) == FingerprintOf(r)
                               && used < granted + lifetime)
            && (first.Ok? ==> (Consume(u, manager, other, id, again, true).1.Ok? <==>
                                 scope == Session && again < granted + lifetime))
  {
    var (t, out) := Grant(s, cfg, manager, r, scope, origin, granted, id, true);
    GrantSucceedsExactlyWhen(s, cfg, manager, r, scope, origin, granted, id);
    ConsumeSucceedsExactlyWhen(t, manager, other, id, used);
    var (u, first) := Consume(t, manager, other, id, used, true);
    if first.Ok? {
      ConsumeSucceedsExactlyWhen(u, manager, other, id, again);
    }
  }

  /** A session record that would authorize the request at that time, as far as scope, arguments and expiry go. */
  predicate Live(s: Records, r: Request, id: Id, now: Time)
    requires id in s
  {
    s[id].scope == Session && s[id].fingerprint == FingerprintOf(r) && now < s[id].expiresAt
  }

  lemma PastItsTime(s: Records, manager: Identity, r: Request, id: Id, now: Time)
    requires r.who == manager && id in s && now >= s[id].expiresAt
    ensures Consume(s, manager, r, id, now, true) == (s[id := s[id].(status := Expired)], Lapsed)
  {
  }

  lemma LiveIsNotLapsed(s: Records, manager: Identity, r: Request, id: Id, now: Time)
    requires id in s && Live(s, r, id, now)
    ensures !Consume(s, manager, r, id, now, true).1.Lapsed?
  {
  }

  /** What a consume answers depends on the one record only. */
  lemma SameRecordSameAnswer(s: Records, t: Records, manager: Identity, r: Request, id: Id, now: Time)
    requires id in s && id in t && s[id] == t[id]
    ensures Consume(s, manager, r, id, now, true).1 == Consume(t, manager, r, id, now, true).1
  {
  }

  /** The search finds nothing exactly when no record is live when its turn comes; otherwise the first live one decides. */
  lemma {:induction false} FirstLiveDecides(s: Records, manager: Identity, r: Request, listing: seq<Id>,
                                            now: nat -> Time, k: nat) returns (i: nat)
    requires forall i :: 0 <= i < |listing| ==> listing[i] in s
    requires k <= |listing| && Distinct(listing) && r.who == manager
    ensures k <= i <= |listing| && forall j :: k <= j < i ==> !Live(s, r, listing[j], now(j))
    ensures var (t, out) := MatchSession(s, manager, r, listing, now, k);
            if i == |listing| then out == None && t.Keys == s.Keys
            else Live(s, r, listing[i], now(i)) && out == Some(Consume(s, manager, r, listing[i], now(i), true).1)
    decreases |listing| - k
  {
    hide Consume, FingerprintOf;
    i := k;
    if k == |listing| {
    } else if Live(s, r, listing[k], now(k)) {
      LiveIsNotLapsed(s, manager, r, listing[k], now(k));
    } else {
      if s[listing[k]].scope != Session || s[listing[k]].fingerprint != FingerprintOf(r) {
        i := FirstLiveDecides(s, manager, r, listing, now, k + 1);
      } else {
        var after := s[listing[k] := s[listing[k]].(status := Expired)];
        PastItsTime(s, manager, r, listing[k], now(k));
        i := FirstLiveDecides(after, manager, r, listing, now, k + 1);
        assert forall j :: k < j < |listing| ==> after[listing[j]] == s[listing[j]];
        if i < |listing| {
          SameRecordSameAnswer(s, after, manager, r, listing[i], now(i));
        }
      }
    }
  }
}
