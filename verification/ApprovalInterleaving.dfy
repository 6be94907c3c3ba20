/**
 * Any number of approval managers sharing one JSON store (src/loro/approvals.py:237-279, 385-490).
 *
 * A caller's `consume` is two separate steps: it reads a copy of the record, and later it swaps the
 * changed copy in if the stored status and use count still are the ones it read. Between the two, any
 * other caller may run. A caller that never swaps models a crash.
 */
module ApprovalInterleaving {
  import opened Common
  import opened Approvals

  datatype InFlight = InFlight(request: Request, id: Id, now: Time, copy: Record)

  /** What the store durably did, in order. */
  datatype Effect =
    | Granted(record: Record)
    | Consumed(request: Request, id: Id, now: Time)
    | ExpiredStored(request: Request, id: Id, now: Time)

  datatype World = World(store: Records, inFlight: map<nat, InFlight>, log: seq<Effect>)

  datatype Action =
    | DoGrant(cfg: Config, manager: Identity, request: Request, scope: Scope, origin: Origin,
              now: Time, id: Id, fits: bool)
    | Fetch(caller: nat, manager: Identity, request: Request, id: Id, now: Time)
    | Swap(caller: nat, fits: bool)

  const INITIAL := World(map[], map[], [])

  /** `JsonApprovalStore.update`: compare status and use count, then replace. */
  function CompareAndSwap(s: Records, rec: Record, expectedStatus: Status, expectedUses: nat, fits: bool)
    : Option<Records>
  {
    if rec.id in s && s[rec.id].status == expectedStatus && s[rec.id].useCount == expectedUses && fits
    then Some(s[rec.id := rec])
    else None
  }

  function Step(w: World, a: Action): World {
    match a
    case DoGrant(cfg, manager, r, scope, origin, now, id, fits) =>
      var (s, out) := Grant(w.store, cfg, manager, r, scope, origin, now, id, fits);
      if out.Ok? then w.(store := s, log := w.log + [Granted(out.record)]) else w
    case Fetch(caller, manager, r, id, now) =>
      if CheckIdentity(manager, r).None? && id in w.store
      then w.(inFlight := w.inFlight[caller := InFlight(r, id, now, w.store[id])])
      else w
    case Swap(caller, fits) =>
      if caller in w.inFlight then Finish(w.(inFlight := w.inFlight - {caller}), w.inFlight[caller], fits) else w
  }

  function Finish(w: World, f: InFlight, fits: bool): World {
    match Decide(f.copy, f.request, f.now)
    case Reject(_) => w
    case Expire(rec) =>
      (match CompareAndSwap(w.store, rec, f.copy.status, f.copy.useCount, fits)
       case None => w
       case Some(s) => w.(store := s, log := w.log + [ExpiredStored(f.request, f.id, f.now)]))
    case Use(rec) =>
      (match CompareAndSwap(w.store, rec, f.copy.status, f.copy.useCount, fits)
       case None => w
       case Some(s) => w.(store := s, log := w.log + [Consumed(f.request, f.id, f.now)]))
  }

  function RunFrom(w: World, actions: seq<Action>): World {
    if actions == [] then w else Step(RunFrom(w, actions[..|actions| - 1]), actions[|actions| - 1])
  }

  /** Every run starts from an empty store. */
  function Run(actions: seq<Action>): World {
    RunFrom(INITIAL, actions)
  }

  lemma RunTakesEveryStep(w: World, actions: seq<Action>, a: Action)
    ensures Run([]) == World(map[], map[], []) && RunFrom(w, []) == w
    ensures Run(actions + [a]) == Step(Run(actions), a) && RunFrom(w, actions + [a]) == Step(RunFrom(w, actions), a)
  {
    assert (actions + [a])[..|actions|] == actions;
  }

  // ---- Reference: the same effects, each done as one indivisible operation ----

  /** Replays one effect atomically; None if the atomic operation would not have had that outcome. */
  function ApplyAtomically(s: Records, e: Effect): Option<Records> {
    match e
    case Granted(rec) => if rec.id in s then None else Some(s[rec.id := rec])
    case Consumed(r, id, now) =>
      var (after, out) := Consume(s, r.who, r, id, now, true);
      if out.Ok? then Some(after) else None
    case ExpiredStored(r, id, now) =>
      var (after, out) := Consume(s, r.who, r, id, now, true);
      if out.Lapsed? then Some(after) else None
  }

  function Replay(log: seq<Effect>): Option<Records> {
    if log == [] then Some(map[])
    else match Replay(log[..|log| - 1])
      case None => None
      case Some(s) => ApplyAtomically(s, log[|log| - 1])
  }

  // ---- The copies callers hold ----

  /** A copy is an earlier version of the stored record, and equals it unless status or use count moved on. */
  predicate CopyOk(s: Records, f: InFlight) {
    && f.id in s && f.copy.id == f.id
    && f.copy.useCount <= s[f.id].useCount
    && (f.copy.status == Expired ==> s[f.id].status == Expired)
    && (f.copy.status == s[f.id].status && f.copy.useCount == s[f.id].useCount ==> f.copy == s[f.id])
  }

  predicate Inv(w: World) {
    && Consistent(w.store)
    && (forall c :: c in w.inFlight ==> CopyOk(w.store, w.inFlight[c]))
    && Replay(w.log) == Some(w.store)
  }

  lemma ReplayAppend(log: seq<Effect>, e: Effect)
    requires Replay(log).Some?
    ensures Replay(log + [e]) == ApplyAtomically(Replay(log).value, e)
  {
    assert (log + [e])[..|log + [e]| - 1] == log;
  }

  /**
   * A swap goes through exactly when the record is still the one that was read, and then it does what the
   * atomic `consume` would do at that moment; otherwise nothing changes.
   */
  lemma SwapIsAtomic(w: World, f: InFlight, fits: bool)
    requires Consistent(w.store) && CopyOk(w.store, f)
    ensures var (s, out) := Consume(w.store, f.request.who, f.request, f.id, f.now, true);
            Finish(w, f, fits) ==
              if !fits || w.store[f.id] != f.copy || out.Refused? then w
              else if out.Ok? then w.(store := s, log := w.log + [Consumed(f.request, f.id, f.now)])
              else w.(store := s, log := w.log + [ExpiredStored(f.request, f.id, f.now)])
  {
  }

  lemma CopiesSurvive(w: World, f: InFlight, fits: bool, g: InFlight)
    requires CopyOk(w.store, f) && CopyOk(w.store, g)
    ensures CopyOk(Finish(w, f, fits).store, g)
  {
    match Decide(f.copy, f.request, f.now)
    case Reject(_) =>
    case Expire(rec) =>
    case Use(rec) =>
  }

  lemma SwapKeepsCopies(w: World, f: InFlight, fits: bool)
    requires Inv(w) && CopyOk(w.store, f)
    ensures forall c :: c in w.inFlight ==> CopyOk(Finish(w, f, fits).store, w.inFlight[c])
  {
    forall c | c in w.inFlight ensures CopyOk(Finish(w, f, fits).store, w.inFlight[c]) {
      CopiesSurvive(w, f, fits, w.inFlight[c]);
    }
  }

  lemma SwapKeepsReplay(w: World, f: InFlight, fits: bool)
    requires Consistent(w.store) && Replay(w.log) == Some(w.store) && CopyOk(w.store, f)
    ensures Replay(Finish(w, f, fits).log) == Some(Finish(w, f, fits).store)
    ensures Finish(w, f, fits).inFlight == w.inFlight
  {
    SwapIsAtomic(w, f, fits);
    ReplayAppend(w.log, Consumed(f.request, f.id, f.now));
    ReplayAppend(w.log, ExpiredStored(f.request, f.id, f.now));
  }

  lemma SwapKeepsConsistent(w: World, f: InFlight, fits: bool)
    requires Consistent(w.store) && CopyOk(w.store, f)
    ensures Consistent(Finish(w, f, fits).store)
  {
    SwapIsAtomic(w, f, fits);
    ConsumeSucceedsExactlyWhen(w.store, f.request.who, f.request, f.id, f.now);
  }

  lemma SwapPreserves(w: World, f: InFlight, fits: bool)
    requires Inv(w) && CopyOk(w.store, f)
    ensures Inv(Finish(w, f, fits))
  {
    SwapKeepsCopies(w, f, fits);
    SwapKeepsReplay(w, f, fits);
    SwapKeepsConsistent(w, f, fits);
  }

  lemma StepPreserves(w: World, a: Action)
    requires Inv(w)
    ensures Inv(Step(w, a))
  {
    hide Replay, Finish;
    match a
    case DoGrant(cfg, manager, r, scope, origin, now, id, fits) =>
      var (s, out) := Grant(w.store, cfg, manager, r, scope, origin, now, id, fits);
      if out.Ok? {
        ReplayAppend(w.log, Granted(out.record));
      }
    case Fetch(caller, manager, r, id, now) =>
    case Swap(caller, fits) =>
      if caller in w.inFlight {
        SwapPreserves(w.(inFlight := w.inFlight - {caller}), w.inFlight[caller], fits);
      }
  }

  /** Every interleaving is equivalent to doing its effects one at a time, in the order they were stored. */
  lemma {:induction false} Serializable(actions: seq<Action>)
    ensures Inv(Run(actions))
    ensures Replay(Run(actions).log) == Some(Run(actions).store)
  {
    if actions != [] {
      Serializable(actions[..|actions| - 1]);
      StepPreserves(Run(actions[..|actions| - 1]), actions[|actions| - 1]);
    }
  }

  // ---- What each caller gets ----

  /** Steps of other callers, and grants. */
  predicate OthersOnly(actions: seq<Action>, c: nat) {
    forall a :: a in actions ==> !(a.Fetch? && a.caller == c) && !(a.Swap? && a.caller == c)
  }

  /** Others keep the invariant and leave alone what the caller holds. */
  lemma {:induction false} OthersLeaveCopies(w: World, actions: seq<Action>, c: nat)
    requires Inv(w) && OthersOnly(actions, c)
    ensures var after := RunFrom(w, actions);
            && Inv(after) && (c in after.inFlight <==> c in w.inFlight)
            && (c in w.inFlight ==> after.inFlight[c] == w.inFlight[c])
  {
    hide Inv, Grant, Finish;
    if actions != [] {
      var front, last := actions[..|actions| - 1], actions[|actions| - 1];
      assert last in actions && forall a :: a in front ==> a in actions;
      OthersLeaveCopies(w, front, c);
      StepPreserves(RunFrom(w, front), last);
      StepLeavesCopy(RunFrom(w, front), last, c);
    }
  }

  lemma StepLeavesCopy(w: World, a: Action, c: nat)
    requires OthersOnly([a], c)
    ensures c in Step(w, a).inFlight <==> c in w.inFlight
    ensures c in w.inFlight ==> Step(w, a).inFlight[c] == w.inFlight[c]
  {
    assert a in [a];
  }

  /**
   * One caller's consume among any steps of others: it is refused at once when the request is not the manager's own
   * or the record is unknown; if the record still is as it was read, the store changes and the log grows as by one
   * indivisible consume by that manager at the time of the swap; if it has changed, or the store would not fit,
   * nothing happens.
   */
  lemma InterleavedConsume(w: World, c: nat, manager: Identity, r: Request, id: Id, now: Time, others: seq<Action>,
                           fits: bool)
    requires Inv(w) && c !in w.inFlight && OthersOnly(others, c)
    ensures var before := RunFrom(Step(w, Fetch(c, manager, r, id, now)), others);
            var after := Step(before, Swap(c, fits));
            if r.who != manager || id !in w.store || !fits || id !in before.store || before.store[id] != w.store[id]
            then
              after.store == before.store && after.log == before.log
            else
              var (s, out) := Consume(before.store, manager, r, id, now, true);
              && after.store == s
              && after.log == before.log + (if out.Ok? then [Consumed(r, id, now)]
                                            else if out.Lapsed? then [ExpiredStored(r, id, now)] else [])
  {
    hide CopyOk, Decide, Consistent;
    var read := Step(w, Fetch(c, manager, r, id, now));
    StepPreserves(w, Fetch(c, manager, r, id, now));
    OthersLeaveCopies(read, others, c);
    var before := RunFrom(read, others);
    if r.who == manager && id in w.store {
      SwapIsAtomic(before.(inFlight := before.inFlight - {c}), before.inFlight[c], fits);
    }
  }

  /** With nobody in between: read and swap together are the indivisible consume. */
  lemma UndisturbedConsume(w: World, c: nat, manager: Identity, r: Request, id: Id, now: Time)
    requires Inv(w) && c !in w.inFlight
    ensures var after := Step(Step(w, Fetch(c, manager, r, id, now)), Swap(c, true));
            var (s, out) := Consume(w.store, manager, r, id, now, true);
            && after.store == s
            && after.log == w.log + (if out.Ok? then [Consumed(r, id, now)]
                                     else if out.Lapsed? then [ExpiredStored(r, id, now)] else [])
  {
    hide Decide;
    var read := Step(w, Fetch(c, manager, r, id, now));
    assert RunFrom(read, []) == read && read.store == w.store && read.log == w.log;
    InterleavedConsume(w, c, manager, r, id, now, [], true);
  }

  /** A grant takes effect at once: exactly when it may, one new record is stored and logged. */
  lemma GrantTakesEffect(w: World, cfg: Config, manager: Identity, r: Request, scope: Scope, origin: Origin,
                         now: Time, id: Id, fits: bool)
    ensures var after := Step(w, DoGrant(cfg, manager, r, scope, origin, now, id, fits));
            if r.who == manager && (scope == Session ==> cfg.allowSession)
               && (origin == NonInteractive ==> cfg.allowNonInteractive) && id !in w.store && fits
            then
              && id in after.store && after.store == w.store[id := after.store[id]]
              && after.log == w.log + [Granted(after.store[id])]
              && after.store[id].fingerprint == FingerprintOf(r) && after.store[id].scope == scope
              && after.store[id].origin == origin && after.store[id].status == Active && after.store[id].useCount == 0
            else after == w
  {
  }

  // ---- What serializability gives: at-most-once ----

  function Consumes(log: seq<Effect>, id: Id): nat {
    if log == [] then 0
    else Consumes(log[..|log| - 1], id)
         + (if log[|log| - 1].Consumed? && log[|log| - 1].id == id then 1 else 0)
  }

  predicate HasExpired(log: seq<Effect>, id: Id) {
    log != [] && (HasExpired(log[..|log| - 1], id)
                  || (log[|log| - 1].ExpiredStored? && log[|log| - 1].id == id))
  }

  lemma {:induction false} ExpiredEarlier(log: seq<Effect>, id: Id, i: nat)
    requires i < |log| && log[i].ExpiredStored? && log[i].id == id
    ensures HasExpired(log, id)
  {
    if i < |log| - 1 {
      ExpiredEarlier(log[..|log| - 1], id, i);
    }
  }

  /** The record's history as its fields tell it. */
  predicate Accounted(log: seq<Effect>, s: Records, id: Id) {
    if id !in s then Consumes(log, id) == 0 && !HasExpired(log, id)
    else
      && s[id].useCount == Consumes(log, id)
      && (HasExpired(log, id) ==> s[id].status == Expired)
      && (s[id].scope == Once ==> s[id].useCount <= 1 && (s[id].status == Active ==> s[id].useCount == 0))
  }

  predicate GrantsAreNew(log: seq<Effect>) {
    forall i :: 0 <= i < |log| && log[i].Granted? ==> log[i].record.status == Active && log[i].record.useCount == 0
  }

  lemma {:induction false} ReplayAccounts(log: seq<Effect>, id: Id)
    requires Replay(log).Some? && GrantsAreNew(log)
    ensures Accounted(log, Replay(log).value, id)
  {
    if log != [] {
      var pre, last := log[..|log| - 1], log[|log| - 1];
      ReplayAccounts(pre, id);
      if last.Granted? {
        assert last.record.status == Active && last.record.useCount == 0;
      }
    }
  }

  /** Once an expiry is stored the record stays expired, so no later effect consumes it. */
  lemma NoneAfterExpiry(log: seq<Effect>, id: Id, i: nat, j: nat)
    requires Replay(log).Some? && GrantsAreNew(log)
    requires i < j < |log| && log[i].ExpiredStored? && log[i].id == id
    ensures !(log[j].Consumed? && log[j].id == id)
  {
    var pre := log[..j];
    ReplayOfPrefix(log, j + 1);
    assert log[..j + 1][..j] == pre;
    ReplayAccounts(pre, id);
    ExpiredEarlier(pre, id, i);
  }

  lemma {:induction false} ReplayOfPrefix(log: seq<Effect>, n: nat)
    requires Replay(log).Some? && n <= |log|
    ensures Replay(log[..n]).Some?
  {
    if n < |log| {
      assert log[..|log| - 1][..n] == log[..n];
      ReplayOfPrefix(log[..|log| - 1], n);
    } else {
      assert log[..n] == log;
    }
  }

  lemma {:induction false} RunGrantsAreNew(actions: seq<Action>)
    ensures GrantsAreNew(Run(actions).log)
  {
    if actions != [] {
      RunGrantsAreNew(actions[..|actions| - 1]);
    }
  }

  /**
   * Over every interleaving: the stored use count is the number of successful consumes, a one-time record
   * is consumed at most once, and nothing is consumed after its expiry was stored.
   */
  lemma AtMostOnce(actions: seq<Action>, id: Id)
    ensures var w := Run(actions);
            && (id in w.store ==> w.store[id].useCount == Consumes(w.log, id))
            && (id in w.store && w.store[id].scope == Once ==> Consumes(w.log, id) <= 1)
            && (id !in w.store ==> Consumes(w.log, id) == 0)
            && (forall i, j :: 0 <= i < j < |w.log| && w.log[i].ExpiredStored? && w.log[i].id == id ==>
                  !(w.log[j].Consumed? && w.log[j].id == id))
  {
    Serializable(actions);
    RunGrantsAreNew(actions);
    var log := Run(actions).log;
    ReplayAccounts(log, id);
    forall i, j | 0 <= i < j < |log| && log[i].ExpiredStored? && log[i].id == id
      ensures !(log[j].Consumed? && log[j].id == id)
    {
      NoneAfterExpiry(log, id, i, j);
    }
  }
}
