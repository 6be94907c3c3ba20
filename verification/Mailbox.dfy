/**
 * Messages between sessions (src/loro/session_messages.py:68-145) and what a run does with them
 * (src/loro/runtime.py:213, 545-590).
 */
module Mailbox {
  import opened Common
  import opened MessageRecord
  import opened Strings

  /** What is on disk, and how many writes have been tried. */
  datatype World = World(messages: map<Key, Message>, sessions: set<string>, nextId: nat, writes: nat)

  /** The size limit, what data protection lets through, and which writes fail. */
  datatype Env = Env(maxBytes: nat, permits: string -> bool, fails: nat -> bool)

  predicate Sound(w: World) {
    forall k :: k in w.messages ==>
      var m := w.messages[k]; m.recipient == k.recipient && m.id == k.id && Staged(m) && k.id < w.nextId
  }

  /** No message is lost and each one only moves forward. */
  predicate Onward(before: map<Key, Message>, after: map<Key, Message>) {
    forall k :: k in before ==> k in after && Later(before[k], after[k])
  }

  lemma OnwardThrough(a: map<Key, Message>, b: map<Key, Message>, c: map<Key, Message>)
    requires Onward(a, b) && Onward(b, c)
    ensures Onward(a, c)
  {
    forall k | k in a ensures k in c && Later(a[k], c[k]) {
      assert Later(a[k], b[k]) && Later(b[k], c[k]);
    }
  }

  // ---- Sending ----

  datatype Draft = Draft(sender: string, recipient: string, content: string)
  datatype SendResult = Sent(id: nat) | Rejected | NoSuchSession | SendNotWritten

  function NewMessage(draft: Draft, id: nat, now: int): Message {
    Message(draft.sender, draft.recipient, draft.content, id, Queued, now, None, None)
  }

  /** `send`: the text, the sessions, then the write; a refused or failed send leaves the messages as they were. */
  function SendTo(e: Env, w: World, draft: Draft, validateSender: bool, now: int): (World, SendResult) {
    if !Acceptable(e.maxBytes, draft.content) || !e.permits(draft.content) then (w, Rejected)
    else if (validateSender && draft.sender !in w.sessions) || draft.recipient !in w.sessions then (w, NoSuchSession)
    else
      var tried := w.(nextId := w.nextId + 1, writes := w.writes + 1);
      if e.fails(w.writes) then (tried, SendNotWritten)
      else
        (tried.(messages := w.messages[Key(draft.recipient, w.nextId) := NewMessage(draft, w.nextId, now)]),
         Sent(w.nextId))
  }

  function SendAll(e: Env, w: World, drafts: seq<Draft>, now: int): World {
    if drafts == [] then w
    else SendTo(e, SendAll(e, w, drafts[..|drafts| - 1], now), drafts[|drafts| - 1], false, now).0
  }

  // ---- Delivering ----

  predicate AllReadable(e: Env, w: World, recipient: string) {
    forall k :: k in w.messages && k.recipient == recipient ==> Readable(e.maxBytes, w.messages[k])
  }

  function Inbox(messages: map<Key, Message>, recipient: string): set<Key> {
    set k | k in messages && k.recipient == recipient
  }

  function QueuedIn(messages: map<Key, Message>, keys: set<Key>): set<Key> {
    set k | k in keys && k in messages && messages[k].status == Queued
  }

  /** The writes from one number up to another all succeed. */
  predicate Smooth(e: Env, from: nat, to: nat) {
    forall i: nat :: from <= i < to ==> !e.fails(i)
  }

  /** The recipient's messages outside todo have been handed over; nothing else has changed. */
  predicate Handling(before: map<Key, Message>, after: map<Key, Message>, recipient: string, todo: set<Key>, now: int) {
    && after.Keys == before.Keys && todo <= Inbox(before, recipient)
    && (forall k :: k in after ==>
          after[k] == if k.recipient == recipient && k !in todo then Handed(before[k], now) else before[k])
  }

  /** The messages collected so far: those handled and not acknowledged, once each. */
  predicate Collected(messages: map<Key, Message>, recipient: string, todo: set<Key>, delivered: seq<Message>) {
    && (forall m :: m in delivered ==>
          var k := Key(recipient, m.id); k in messages && k !in todo && messages[k] == m && m.status == Delivered)
    && (forall k :: k in messages && k.recipient == recipient && k !in todo && messages[k].status != Acknowledged ==>
          messages[k] in delivered)
    && (forall i, j :: 0 <= i < j < |delivered| ==> delivered[i].id != delivered[j].id)
  }

  /** Every queued message took a write; without `r` a write failed and the messages in `left` were not reached. */
  predicate DeliversUpTo(e: Env, w: World, recipient: string, now: int, after: World, r: Option<seq<Message>>,
                         left: set<Key>) {
    var queued := QueuedIn(w.messages, Inbox(w.messages, recipient));
    && after == w.(messages := after.messages, writes := after.writes)
    && Handling(w.messages, after.messages, recipient, left, now)
    && (r.Some? <==> Smooth(e, w.writes, w.writes + |queued|))
    && after.writes == w.writes + |queued| - |QueuedIn(w.messages, left)| + (if r.None? then 1 else 0)
    && (r.Some? ==> left == {} && Collected(after.messages, recipient, {}, r.value))
    && (r.None? ==> after.writes > 0 && e.fails(after.writes - 1))
  }

  /** `deliver`; None stands for the error it raises. The messages may be handed over in any order. */
  ghost predicate Delivers(e: Env, w: World, recipient: string, now: int, after: World, r: Option<seq<Message>>) {
    if recipient !in w.sessions || !AllReadable(e, w, recipient) then after == w && r == None
    else exists left: set<Key> :: DeliversUpTo(e, w, recipient, now, after, r, left)
  }

  // ---- Acknowledging ----

  datatype AckResult = Done(message: Message) | NoSuchMessage | Unreadable | NotYetDelivered | AckNotWritten

  /** `acknowledge`: again changes nothing; a message still queued is refused. */
  function Acknowledge(e: Env, w: World, k: Key, now: int): (World, AckResult) {
    if k !in w.messages then (w, NoSuchMessage)
    else if !Readable(e.maxBytes, w.messages[k]) then (w, Unreadable)
    else match w.messages[k].status
      case Queued => (w, NotYetDelivered)
      case Acknowledged => (w, Done(w.messages[k]))
      case Delivered =>
        var tried := w.(writes := w.writes + 1);
        var m := Acked(w.messages[k], now);
        if e.fails(w.writes) then (tried, AckNotWritten) else (tried.(messages := w.messages[k := m]), Done(m))
  }

  /** One by one, up to the first failure. */
  function AcknowledgeAll(e: Env, w: World, session: string, ids: seq<nat>, now: int): (World, bool)
    decreases |ids|
  {
    if ids == [] then (w, true)
    else
      var (next, r) := Acknowledge(e, w, Key(session, ids[0]), now);
      if r.Done? then AcknowledgeAll(e, next, session, ids[1..], now) else (next, false)
  }

  // ---- The life of a mailbox ----

  /** A saved session record, as far as it names messages. */
  datatype Saved = Saved(session: string, inbound: seq<nat>)

  /**
   * The mailbox, the session records saved so far (a later record of a session replaces the file of an earlier one),
   * and the messages acknowledged from the command line.
   */
  datatype Life = Life(w: World, saved: seq<Saved>, byHand: set<Key>)

  datatype Op =
    | SendOp(draft: Draft, validateSender: bool)
    | RunOp(session: string, resumed: bool, drafts: seq<Draft>, workFails: bool)
    | AckOp(recipient: string, id: nat)

  datatype Step = Step(op: Op, now: int)

  function Ids(messages: seq<Message>): (ids: seq<nat>)
    ensures |ids| == |messages| && forall i :: 0 <= i < |ids| ==> ids[i] == messages[i].id
  {
    seq(|messages|, i requires 0 <= i < |messages| => messages[i].id)
  }

  /** Saves the session record naming the inbound messages and only then acknowledges them. */
  function Finish(e: Env, l: Life, session: string, ids: seq<nat>, now: int): (Life, bool) {
    var tried := l.w.(writes := l.w.writes + 1);
    if e.fails(l.w.writes) then (l.(w := tried), false)
    else
      var (w, ok) := AcknowledgeAll(e, tried.(sessions := l.w.sessions + {session}), session, ids, now);
      (Life(w, l.saved + [Saved(session, ids)], l.byHand), ok)
  }

  /** A run from the point where the inbound messages are delivered (None: that failed). */
  function WorkAndFinish(e: Env, l: Life, op: Op, inbound: Option<seq<Message>>, now: int): (Life, bool)
    requires op.RunOp?
  {
    if inbound.None? then (l, false)
    else
      var sent := l.(w := SendAll(e, l.w, op.drafts, now));
      if op.workFails then (sent, false) else Finish(e, sent, op.session, Ids(inbound.value), now)
  }

  /** What a run may deliver: a new session has no messages. */
  ghost predicate Receives(e: Env, w: World, op: Op, now: int, after: World, inbound: Option<seq<Message>>)
    requires op.RunOp?
  {
    if op.resumed then Delivers(e, w, op.session, now, after, inbound) else after == w && inbound == Some([])
  }

  ghost predicate Runs(e: Env, l: Life, op: Op, now: int, after: Life, ok: bool)
    requires op.RunOp?
  {
    exists w, inbound ::
      Receives(e, l.w, op, now, w, inbound) && (after, ok) == WorkAndFinish(e, l.(w := w), op, inbound, now)
  }

  function AcknowledgeByHand(e: Env, l: Life, k: Key, now: int): Life {
    var (w, r) := Acknowledge(e, l.w, k, now);
    Life(w, l.saved, if r.Done? then l.byHand + {k} else l.byHand)
  }

  ghost predicate Does(e: Env, l: Life, step: Step, after: Life) {
    match step.op
    case SendOp(draft, validateSender) => after == l.(w := SendTo(e, l.w, draft, validateSender, step.now).0)
    case RunOp(_, _, _, _) => exists ok :: Runs(e, l, step.op, step.now, after, ok)
    case AckOp(recipient, id) => after == AcknowledgeByHand(e, l, Key(recipient, id), step.now)
  }

  /** A send adds its message, and an acknowledgement by hand acknowledges it, where nothing stands in the way. */
  lemma StepsTakeEffect(e: Env, l: Life, step: Step, after: Life)
    requires Sound(l.w) && Does(e, l, step, after) && !e.fails(l.w.writes)
    ensures match step.op
            case SendOp(draft, validateSender) =>
              (!Blank(draft.content) && Utf8Length(draft.content) <= e.maxBytes && e.permits(draft.content)
               && (validateSender ==> draft.sender in l.w.sessions) && draft.recipient in l.w.sessions) ==>
                exists k :: k !in l.w.messages && k in after.w.messages && after.w.messages[k].content == draft.content
                            && k.recipient == draft.recipient && after.w.messages[k].status == Queued
            case RunOp(_, _, _, _) => true
            case AckOp(recipient, id) =>
              var k := Key(recipient, id);
              k in l.w.messages && Readable(e.maxBytes, l.w.messages[k]) && l.w.messages[k].status != Queued ==>
                k in after.w.messages && after.w.messages[k].status == Acknowledged && k in after.byHand
  {
    if step.op.SendOp? {
      var k := Key(step.op.draft.recipient, l.w.nextId);
      assert k !in l.w.messages;
    }
  }

  /** The states a sequence of steps goes through. */
  ghost predicate History(e: Env, steps: seq<Step>, lives: seq<Life>) {
    |lives| == |steps| + 1 && forall i :: 0 <= i < |steps| ==> Does(e, lives[i], steps[i], lives[i + 1])
  }

  // ---- What delivery and acknowledgement do ----

  /** The ids name exactly the messages of the session that were not acknowledged. */
  predicate NamesUnread(messages: map<Key, Message>, session: string, ids: seq<nat>) {
    forall k :: k in messages && k.recipient == session ==> (k.id in ids <==> messages[k].status != Acknowledged)
  }

  /** What is acknowledged afterwards was so before, or is one of these. */
  predicate NewAcks(before: map<Key, Message>, after: map<Key, Message>, session: string, ids: seq<nat>) {
    forall k :: k in after && after[k].status == Acknowledged ==>
      (k in before && before[k].status == Acknowledged) || (k.recipient == session && k.id in ids)
  }

  lemma HandingIsOnward(w: World, after: map<Key, Message>, recipient: string, left: set<Key>, now: int)
    requires Sound(w) && Handling(w.messages, after, recipient, left, now)
    ensures Onward(w.messages, after) && NewAcks(w.messages, after, recipient, [])
    ensures Sound(w.(messages := after))
  {
  }

  /** A delivery moves messages forward and acknowledges none; completed, it returns exactly the unread ones. */
  lemma DeliveryReturnsUnread(e: Env, w: World, recipient: string, now: int, after: World, r: Option<seq<Message>>)
    requires Sound(w) && Delivers(e, w, recipient, now, after, r)
    ensures Sound(after) && Onward(w.messages, after.messages) && NewAcks(w.messages, after.messages, recipient, [])
    ensures r.Some? ==> NamesUnread(w.messages, recipient, Ids(r.value))
    ensures r.Some? ==> forall m :: m in r.value ==>
              var k := Key(recipient, m.id); k in w.messages && m == Handed(w.messages[k], now)
  {
    if recipient in w.sessions && AllReadable(e, w, recipient) {
      var left :| DeliversUpTo(e, w, recipient, now, after, r, left);
      HandingIsOnward(w, after.messages, recipient, left, now);
      if r.Some? {
        forall k | k in w.messages && k.recipient == recipient
          ensures k.id in Ids(r.value) <==> w.messages[k].status != Acknowledged
        {
          IdIsThere(w, after.messages, recipient, now, r.value, k);
        }
      }
    }
  }

  /**
   * A delivery completes exactly when the session is known, all its messages can be read, and the next writes, one for
   * each queued message, succeed. Otherwise nothing was tried, or the last write tried failed; what had been handed
   * over by then stays so.
   */
  lemma DeliveryCompletesExactlyWhen(e: Env, w: World, recipient: string, now: int, after: World,
                                     r: Option<seq<Message>>)
    requires Delivers(e, w, recipient, now, after, r)
    ensures var queued := set k | k in w.messages && k.recipient == recipient && w.messages[k].status == Queued;
            && (r.Some? <==>
                  && recipient in w.sessions
                  && (forall k :: k in w.messages && k.recipient == recipient ==> Readable(e.maxBytes, w.messages[k]))
                  && (forall i: nat :: w.writes <= i < w.writes + |queued| ==> !e.fails(i)))
            && (r.Some? ==> after.writes == w.writes + |queued|)
            && (r.None? ==> after == w || (after.writes > 0 && e.fails(after.writes - 1)))
    ensures after.messages.Keys == w.messages.Keys && after.sessions == w.sessions
  {
    hide Readable, Collected;
    var queued := set k | k in w.messages && k.recipient == recipient && w.messages[k].status == Queued;
    assert queued == QueuedIn(w.messages, Inbox(w.messages, recipient));
    assert QueuedIn(w.messages, {}) == {};
    if recipient in w.sessions && AllReadable(e, w, recipient) {
      var left :| DeliversUpTo(e, w, recipient, now, after, r, left);
    }
  }

  lemma IdIsThere(w: World, after: map<Key, Message>, recipient: string, now: int, delivered: seq<Message>, k: Key)
    requires Sound(w) && Handling(w.messages, after, recipient, {}, now) && Collected(after, recipient, {}, delivered)
    requires k in w.messages && k.recipient == recipient
    ensures k.id in Ids(delivered) <==> w.messages[k].status != Acknowledged
  {
    if w.messages[k].status != Acknowledged {
      assert after[k] in delivered;
      var i :| 0 <= i < |delivered| && delivered[i] == after[k];
      assert Ids(delivered)[i] == k.id;
    }
    if k.id in Ids(delivered) {
      var i :| 0 <= i < |delivered| && Ids(delivered)[i] == k.id;
      assert delivered[i] in delivered && Key(recipient, delivered[i].id) == k;
    }
  }

  /** New messages only, none of them acknowledged. */
  predicate Adds(before: map<Key, Message>, after: map<Key, Message>) {
    && (forall k :: k in before ==> k in after && after[k] == before[k])
    && (forall k :: k in after && after[k].status == Acknowledged ==> k in before)
  }

  lemma SendAdds(e: Env, w: World, draft: Draft, validateSender: bool, now: int)
    requires Sound(w)
    ensures var after := SendTo(e, w, draft, validateSender, now).0; Sound(after) && Adds(w.messages, after.messages)
  {
  }

  /**
   * When a message is sent, what is stored then, and why it is not: the text, then the sessions, then the write. Only
   * a send that gets as far as the write takes one, and uses up an id.
   */
  lemma SendsExactlyWhen(e: Env, w: World, draft: Draft, validateSender: bool, now: int)
    requires Sound(w)
    ensures var (after, r) := SendTo(e, w, draft, validateSender, now);
            var allowed := !Blank(draft.content) && Utf8Length(draft.content) <= e.maxBytes && e.permits(draft.content);
            var known := (validateSender ==> draft.sender in w.sessions) && draft.recipient in w.sessions;
            && (r == Rejected <==> !allowed) && (r == NoSuchSession <==> allowed && !known)
            && (r == SendNotWritten <==> allowed && known && e.fails(w.writes))
            && after.writes == w.writes + (if allowed && known then 1 else 0) && after.sessions == w.sessions
            && (!r.Sent? ==> after.messages == w.messages)
            && (r.Sent? ==>
                  var k := Key(draft.recipient, r.id);
                  && k !in w.messages && after.messages == w.messages[k := after.messages[k]]
                  && after.messages[k] == Message(draft.sender, draft.recipient, draft.content, r.id, Queued, now, None, None)
                  && (forall other :: other in w.messages ==> other.id != r.id))
  {
  }

  lemma {:induction false} SendAllAdds(e: Env, w: World, drafts: seq<Draft>, now: int)
    requires Sound(w)
    ensures Sound(SendAll(e, w, drafts, now)) && Adds(w.messages, SendAll(e, w, drafts, now).messages)
  {
    hide SendTo;
    if drafts != [] {
      SendAllAdds(e, w, drafts[..|drafts| - 1], now);
      SendAdds(e, SendAll(e, w, drafts[..|drafts| - 1], now), drafts[|drafts| - 1], false, now);
    }
  }

  lemma AddsIsOnward(a: map<Key, Message>, b: map<Key, Message>)
    requires Adds(a, b)
    ensures Onward(a, b) && NewAcks(a, b, "", [])
  {
  }

  lemma AckIsOnward(e: Env, w: World, k: Key, now: int)
    requires Sound(w)
    ensures var (after, r) := Acknowledge(e, w, k, now);
            && Sound(after) && Onward(w.messages, after.messages)
            && NewAcks(w.messages, after.messages, k.recipient, [k.id])
            && (!r.Done? ==> after.messages == w.messages)
            && (r.Done? ==> k in after.messages && after.messages[k].status == Acknowledged)
  {
    hide Readable;
    var (after, r) := Acknowledge(e, w, k, now);
    if after.messages != w.messages {
      AckOne(w, k, now);
      assert after.messages == w.messages[k := Acked(w.messages[k], now)];
    }
  }

  /** When an acknowledgement succeeds, what it changes, and why it fails; repeating one changes nothing. */
  lemma AcknowledgesExactlyWhen(e: Env, w: World, k: Key, now: int)
    ensures var (after, r) := Acknowledge(e, w, k, now);
            var found := k in w.messages && Readable(e.maxBytes, w.messages[k]);
            && (r == NoSuchMessage <==> k !in w.messages) && (r == Unreadable <==> k in w.messages && !found)
            && (r == NotYetDelivered <==> found && w.messages[k].status == Queued)
            && (r == AckNotWritten <==> found && w.messages[k].status == Delivered && e.fails(w.writes))
            && (r.Done? ==> r.message.status == Acknowledged && after.messages == w.messages[k := r.message])
            && (r.Done? && w.messages[k].status == Acknowledged ==> after == w)
            && (r.Done? && w.messages[k].status == Delivered ==>
                  r.message.acknowledgedAt == Some(now) && Later(w.messages[k].(acknowledgedAt := None), r.message))
            && (!r.Done? ==> after.messages == w.messages)
            && after == w.(messages := after.messages, writes := after.writes)
            && after.writes == w.writes + (if found && w.messages[k].status == Delivered then 1 else 0)
  {
  }

  lemma AckOne(w: World, k: Key, now: int)
    requires Sound(w) && k in w.messages && w.messages[k].status == Delivered
    ensures var after := w.messages[k := Acked(w.messages[k], now)];
            Sound(w.(messages := after)) && Onward(w.messages, after) && NewAcks(w.messages, after, k.recipient, [k.id])
  {
    assert Later(w.messages[k], Acked(w.messages[k], now)) && Staged(Acked(w.messages[k], now));
  }

  predicate AllAcknowledged(messages: map<Key, Message>, session: string, ids: seq<nat>) {
    forall id :: id in ids ==> Key(session, id) in messages && messages[Key(session, id)].status == Acknowledged
  }

  lemma {:induction false} AcksAreOnward(e: Env, w: World, session: string, ids: seq<nat>, now: int)
    requires Sound(w)
    ensures var (after, ok) := AcknowledgeAll(e, w, session, ids, now);
            && Sound(after) && Onward(w.messages, after.messages) && NewAcks(w.messages, after.messages, session, ids)
            && (ok ==> AllAcknowledged(after.messages, session, ids))
    decreases |ids|
  {
    hide Acknowledge;
    if ids != [] {
      var (next, r) := Acknowledge(e, w, Key(session, ids[0]), now);
      AckIsOnward(e, w, Key(session, ids[0]), now);
      if r.Done? {
        AcksAreOnward(e, next, session, ids[1..], now);
        var after := AcknowledgeAll(e, next, session, ids[1..], now).0;
        OnwardThrough(w.messages, next.messages, after.messages);
        AcksJoin(w.messages, next.messages, after.messages, session, ids);
      }
    }
  }

  lemma AcksJoin(a: map<Key, Message>, b: map<Key, Message>, c: map<Key, Message>, session: string, ids: seq<nat>)
    requires ids != [] && Onward(b, c)
    requires NewAcks(a, b, session, [ids[0]]) && NewAcks(b, c, session, ids[1..])
    requires Key(session, ids[0]) in b && b[Key(session, ids[0])].status == Acknowledged
    ensures NewAcks(a, c, session, ids)
    ensures AllAcknowledged(c, session, ids[1..]) ==> AllAcknowledged(c, session, ids)
  {
    assert ids == [ids[0]] + ids[1..];
    assert Later(b[Key(session, ids[0])], c[Key(session, ids[0])]);
  }

  // ---- What holds over every history ----

  predicate Named(saved: seq<Saved>, k: Key) {
    exists r :: r in saved && r.session == k.recipient && k.id in r.inbound
  }

  /** Every acknowledged message was named by a saved record of its recipient, or a person acknowledged it. */
  predicate Accounted(messages: map<Key, Message>, saved: seq<Saved>, byHand: set<Key>) {
    forall k :: k in messages && messages[k].status == Acknowledged ==> k in byHand || Named(saved, k)
  }

  predicate Good(l: Life) {
    Sound(l.w) && Accounted(l.w.messages, l.saved, l.byHand)
  }

  /** From one state to a later one: messages only move forward, and records and hand acknowledgements stay. */
  predicate Progress(a: Life, b: Life) {
    Onward(a.w.messages, b.w.messages) && a.saved <= b.saved && a.byHand <= b.byHand
  }

  lemma ProgressThrough(a: Life, b: Life, c: Life)
    requires Progress(a, b) && Progress(b, c)
    ensures Progress(a, c)
  {
    OnwardThrough(a.w.messages, b.w.messages, c.w.messages);
  }

  lemma NoAcksKeepAccounts(a: map<Key, Message>, b: map<Key, Message>, session: string, saved: seq<Saved>, byHand: set<Key>)
    requires Accounted(a, saved, byHand) && NewAcks(a, b, session, [])
    ensures Accounted(b, saved, byHand)
  {
  }

  lemma SavedAcksKeepAccounts(a: map<Key, Message>, b: map<Key, Message>, session: string, ids: seq<nat>,
                              saved: seq<Saved>, byHand: set<Key>)
    requires Accounted(a, saved, byHand) && NewAcks(a, b, session, ids)
    ensures Accounted(b, saved + [Saved(session, ids)], byHand)
  {
    var more := saved + [Saved(session, ids)];
    assert more[|saved|] == Saved(session, ids);
    assert forall r :: r in saved ==> r in more;
  }

  /** Nothing is acknowledged unless the record naming it has been saved. */
  lemma FinishKeeps(e: Env, l: Life, session: string, ids: seq<nat>, now: int)
    requires Good(l)
    ensures var (after, ok) := Finish(e, l, session, ids, now);
            && Good(after) && Progress(l, after)
            && (after.saved == l.saved ==> after.w.messages == l.w.messages && !ok)
            && (after.saved != l.saved ==> after.saved == l.saved + [Saved(session, ids)])
            && (ok ==> AllAcknowledged(after.w.messages, session, ids))
  {
    hide AcknowledgeAll;
    if !e.fails(l.w.writes) {
      var w := l.w.(writes := l.w.writes + 1, sessions := l.w.sessions + {session});
      AcksAreOnward(e, w, session, ids, now);
      SavedAcksKeepAccounts(w.messages, AcknowledgeAll(e, w, session, ids, now).0.messages, session, ids, l.saved, l.byHand);
    }
  }

  lemma WorkKeeps(e: Env, l: Life, op: Op, inbound: Option<seq<Message>>, now: int)
    requires op.RunOp? && Good(l)
    ensures var (after, ok) := WorkAndFinish(e, l, op, inbound, now);
            && Good(after) && Progress(l, after)
            && (ok ==> inbound.Some? && AllAcknowledged(after.w.messages, op.session, Ids(inbound.value)))
            && (after.saved == l.saved
                || (inbound.Some? && after.saved == l.saved + [Saved(op.session, Ids(inbound.value))]))
            && (after.saved == l.saved ==> !ok && NewAcks(l.w.messages, after.w.messages, "", []))
  {
    hide Finish, SendAll, Accounted;
    if inbound.Some? {
      var sent := l.(w := SendAll(e, l.w, op.drafts, now));
      SendAllAdds(e, l.w, op.drafts, now);
      AddsIsOnward(l.w.messages, sent.w.messages);
      NoAcksKeepAccounts(l.w.messages, sent.w.messages, "", l.saved, l.byHand);
      if !op.workFails {
        FinishKeeps(e, sent, op.session, Ids(inbound.value), now);
        ProgressThrough(l, sent, Finish(e, sent, op.session, Ids(inbound.value), now).0);
      }
    }
  }

  /**
   * One run, stopped anywhere by a failed write or by its own work: messages only move forward; what it acknowledges
   * was named by the record it saved, which names exactly the messages not acknowledged before; and if it saves no
   * record it acknowledges nothing.
   */
  lemma RunKeeps(e: Env, l: Life, op: Op, now: int, after: Life, ok: bool)
    requires op.RunOp? && Good(l) && Runs(e, l, op, now, after, ok)
    ensures Good(after) && Progress(l, after)
    ensures after.saved == l.saved ==> !ok && NewAcks(l.w.messages, after.w.messages, op.session, [])
    ensures after.saved != l.saved ==> |after.saved| == |l.saved| + 1 && after.saved[|l.saved|].session == op.session
    ensures after.saved != l.saved && op.resumed ==> NamesUnread(l.w.messages, op.session, after.saved[|l.saved|].inbound)
    ensures ok && op.resumed ==> forall k :: k in l.w.messages && k.recipient == op.session ==>
              k in after.w.messages && after.w.messages[k].status == Acknowledged
  {
    hide WorkAndFinish, Accounted;
    var w, inbound :| Receives(e, l.w, op, now, w, inbound) && (after, ok) == WorkAndFinish(e, l.(w := w), op, inbound, now);
    if op.resumed {
      DeliveryReturnsUnread(e, l.w, op.session, now, w, inbound);
    } else {
      AddsIsOnward(l.w.messages, w.messages);
    }
    NoAcksKeepAccounts(l.w.messages, w.messages, if op.resumed then op.session else "", l.saved, l.byHand);
    WorkKeeps(e, l.(w := w), op, inbound, now);
    ProgressThrough(l, l.(w := w), after);
  }

  /** A run whose own work failed, or that could not be delivered its messages, saves nothing and acknowledges nothing. */
  lemma FailedWorkLeavesNoRecord(e: Env, l: Life, op: Op, now: int, after: Life, ok: bool)
    requires op.RunOp? && Good(l) && Runs(e, l, op, now, after, ok)
    requires op.workFails || (op.resumed && op.session !in l.w.sessions)
    ensures !ok && after.saved == l.saved && after.byHand == l.byHand && after.w.sessions == l.w.sessions
    ensures forall k :: k in after.w.messages && after.w.messages[k].status == Acknowledged ==>
              k in l.w.messages && l.w.messages[k].status == Acknowledged
  {
    hide Accounted, SendTo;
    var w, inbound :| Receives(e, l.w, op, now, w, inbound) && (after, ok) == WorkAndFinish(e, l.(w := w), op, inbound, now);
    if inbound.Some? {
      SendAllKeepsSessions(e, w, op.drafts, now);
    }
    RunKeeps(e, l, op, now, after, ok);
  }

  lemma {:induction false} SendAllKeepsSessions(e: Env, w: World, drafts: seq<Draft>, now: int)
    ensures SendAll(e, w, drafts, now).sessions == w.sessions
  {
    if drafts != [] {
      SendAllKeepsSessions(e, w, drafts[..|drafts| - 1], now);
    }
  }

  lemma HandAckKeeps(e: Env, l: Life, k: Key, now: int)
    requires Good(l)
    ensures Good(AcknowledgeByHand(e, l, k, now)) && Progress(l, AcknowledgeByHand(e, l, k, now))
  {
    hide Acknowledge;
    AckIsOnward(e, l.w, k, now);
  }

  lemma StepKeeps(e: Env, l: Life, step: Step, after: Life)
    requires Good(l) && Does(e, l, step, after)
    ensures Good(after) && Progress(l, after)
  {
    hide SendTo, Runs, AcknowledgeByHand, Accounted;
    match step.op {
      case SendOp(draft, validateSender) =>
        SendAdds(e, l.w, draft, validateSender, step.now);
        AddsIsOnward(l.w.messages, after.w.messages);
        NoAcksKeepAccounts(l.w.messages, after.w.messages, "", l.saved, l.byHand);
      case RunOp(_, _, _, _) =>
        var ok :| Runs(e, l, step.op, step.now, after, ok);
        RunKeeps(e, l, step.op, step.now, after, ok);
      case AckOp(recipient, id) => HandAckKeeps(e, l, Key(recipient, id), step.now);
    }
  }

  /**
   * Over any sequence of sends, runs and acknowledgements by hand, whichever writes fail: no message is lost or
   * altered, each only moves forward, saved records stay, and every acknowledged message was named by a saved
   * record of its recipient or acknowledged by hand.
   */
  lemma {:induction false} HistoryKeeps(e: Env, steps: seq<Step>, lives: seq<Life>, i: nat, j: nat)
    requires History(e, steps, lives) && Good(lives[0]) && i <= j <= |steps|
    ensures Good(lives[i]) && Good(lives[j]) && Progress(lives[i], lives[j])
    decreases i + j
  {
    hide Does, Good, Progress;
    if j > 0 {
      HistoryKeeps(e, steps, lives, if i < j then i else i - 1, j - 1);
      StepKeeps(e, lives[j - 1], steps[j - 1], lives[j]);
      if i < j {
        ProgressThrough(lives[i], lives[j - 1], lives[j]);
      }
    }
    if i == j {
      NoProgress(lives[i]);
    }
  }

  lemma NoProgress(l: Life)
    ensures Progress(l, l)
  {
  }

  /** While a message is not acknowledged, every completed delivery to its recipient returns it. */
  lemma DeliveredUntilAcknowledged(e: Env, steps: seq<Step>, lives: seq<Life>, i: nat, j: nat, k: Key, now: int,
                                   after: World, delivered: seq<Message>)
    requires History(e, steps, lives) && Good(lives[0]) && i <= j <= |steps| && k in lives[i].w.messages
    requires Delivers(e, lives[j].w, k.recipient, now, after, Some(delivered))
    ensures k in lives[j].w.messages && lives[j].w.messages[k].content == lives[i].w.messages[k].content
    ensures lives[j].w.messages[k].status != Acknowledged ==> k.id in Ids(delivered)
  {
    hide Delivers, Accounted;
    HistoryKeeps(e, steps, lives, i, j);
    DeliveryReturnsUnread(e, lives[j].w, k.recipient, now, after, Some(delivered));
    assert Later(lives[i].w.messages[k], lives[j].w.messages[k]);
  }

  /** Under the default size limit there is a message that is accepted and then makes every delivery fail. */
  lemma AcceptedCanBlockDelivery(e: Env, w: World, draft: Draft, sentAt: int, now: int, after: World,
                                 r: Option<seq<Message>>)
    requires e.maxBytes == 100_000 && draft.content == Repeat('\U{e9}', 18_000) && e.permits(draft.content)
    requires draft.recipient in w.sessions && !e.fails(w.writes)
    requires Delivers(e, SendTo(e, w, draft, false, sentAt).0, draft.recipient, now, after, r)
    ensures SendTo(e, w, draft, false, sentAt).1.Sent? && r == None
  {
    AcceptedCanBeUnreadable(NewMessage(draft, w.nextId, sentAt));
    assert Key(draft.recipient, w.nextId) in SendTo(e, w, draft, false, sentAt).0.messages;
  }

  // ---- When a run gets through ----

  /** The messages with these ids have been delivered and can be read at any later stage. */
  ghost predicate AllAckable(e: Env, messages: map<Key, Message>, session: string, ids: seq<nat>) {
    forall id :: id in ids ==> Ackable(e, messages, Key(session, id))
  }

  ghost predicate Ackable(e: Env, messages: map<Key, Message>, k: Key) {
    k in messages && Staged(messages[k]) && messages[k].status != Queued && StaysReadable(e.maxBytes, messages[k])
  }

  lemma ReadableLater(maxBytes: nat, m: Message, later: Message)
    requires StaysReadable(maxBytes, m) && Later(m, later)
    ensures StaysReadable(maxBytes, later) && (Staged(later) ==> Readable(maxBytes, later))
  {
    forall last | Later(later, last) && Staged(last) ensures Readable(maxBytes, last) {
      assert Later(m, last);
    }
  }

  lemma AckSucceeds(e: Env, w: World, k: Key, now: int)
    requires Ackable(e, w.messages, k) && !e.fails(w.writes)
    ensures var (after, r) := Acknowledge(e, w, k, now);
            r.Done? && Ackable(e, after.messages, k) && after.messages == w.messages[k := after.messages[k]]
  {
    hide Readable;
    var m := w.messages[k];
    assert Later(m, m) && Readable(e.maxBytes, m);
    if m.status == Delivered {
      assert Later(m, Acked(m, now));
      ReadableLater(e.maxBytes, m, Acked(m, now));
    } else {
      assert w.messages[k := m] == w.messages;
    }
  }

  lemma {:induction false} AcksSucceed(e: Env, w: World, session: string, ids: seq<nat>, now: int)
    requires AllAckable(e, w.messages, session, ids) && forall i: nat :: !e.fails(i)
    ensures AcknowledgeAll(e, w, session, ids, now).1
    decreases |ids|
  {
    hide Acknowledge, Ackable;
    if ids != [] {
      assert ids[0] in ids && forall id :: id in ids[1..] ==> id in ids;
      AckSucceeds(e, w, Key(session, ids[0]), now);
      var next := Acknowledge(e, w, Key(session, ids[0]), now).0;
      forall id | id in ids[1..] ensures Ackable(e, next.messages, Key(session, id)) {
        StillAckable(e, w.messages, next.messages, Key(session, ids[0]), Key(session, id));
      }
      AcksSucceed(e, next, session, ids[1..], now);
    }
  }

  lemma StillAckable(e: Env, before: map<Key, Message>, after: map<Key, Message>, k: Key, other: Key)
    requires k in after && after == before[k := after[k]]
    requires Ackable(e, after, k) && Ackable(e, before, other)
    ensures Ackable(e, after, other)
  {
  }

  /** Where no write fails and the session's messages stay readable, a run succeeds exactly when its own work does. */
  lemma RunSucceedsExactlyWhen(e: Env, l: Life, op: Op, now: int, after: Life, ok: bool)
    requires op.RunOp? && Good(l) && Runs(e, l, op, now, after, ok) && forall i: nat :: !e.fails(i)
    requires op.resumed ==> op.session in l.w.sessions
    requires op.resumed ==> forall k :: k in Inbox(l.w.messages, op.session) ==> StaysReadable(e.maxBytes, l.w.messages[k])
    ensures ok <==> !op.workFails
  {
    hide AcknowledgeAll, SendAll, Delivers, Accounted;
    var w, inbound :| Receives(e, l.w, op, now, w, inbound) && (after, ok) == WorkAndFinish(e, l.(w := w), op, inbound, now);
    if op.resumed {
      DeliverySucceeds(e, l.w, op.session, now, w, inbound);
    }
    if !op.workFails {
      SendAllAdds(e, w, op.drafts, now);
      var sent := SendAll(e, w, op.drafts, now);
      var ids := Ids(inbound.value);
      AckableAfterSends(e, w.messages, sent.messages, op.session, ids);
      AcksSucceed(e, sent.(writes := sent.writes + 1, sessions := sent.sessions + {op.session}), op.session, ids, now);
    }
  }

  lemma AckableAfterSends(e: Env, a: map<Key, Message>, b: map<Key, Message>, session: string, ids: seq<nat>)
    requires AllAckable(e, a, session, ids) && Adds(a, b)
    ensures AllAckable(e, b, session, ids)
  {
    hide StaysReadable;
    forall id | id in ids ensures Ackable(e, b, Key(session, id)) {
      assert Ackable(e, a, Key(session, id));
    }
  }

  lemma DeliverySucceeds(e: Env, w: World, recipient: string, now: int, after: World, r: Option<seq<Message>>)
    requires Sound(w) && Delivers(e, w, recipient, now, after, r)
    requires recipient in w.sessions && forall i: nat :: !e.fails(i)
    requires forall k :: k in Inbox(w.messages, recipient) ==> StaysReadable(e.maxBytes, w.messages[k])
    ensures Sound(after) && r.Some? && AllAckable(e, after.messages, recipient, Ids(r.value))
  {
    hide Readable;
    DeliveryReturnsUnread(e, w, recipient, now, after, r);
    forall k | k in w.messages && k.recipient == recipient ensures Readable(e.maxBytes, w.messages[k]) {
      assert k in Inbox(w.messages, recipient);
      ReadableLater(e.maxBytes, w.messages[k], w.messages[k]);
    }
    var left :| DeliversUpTo(e, w, recipient, now, after, r, left);
    forall id | id in Ids(r.value) ensures Ackable(e, after.messages, Key(recipient, id)) {
      var i :| 0 <= i < |r.value| && Ids(r.value)[i] == id;
      assert r.value[i] in r.value;
      var k := Key(recipient, id);
      assert k in Inbox(w.messages, recipient);
      ReadableLater(e.maxBytes, w.messages[k], after.messages[k]);
    }
  }

  // ---- The mailbox and the runtime ----

  class SessionMailbox {
    const env: Env
    var messages: map<Key, Message>
    var sessions: set<string>
    var nextId: nat
    var writes: nat

    constructor (env: Env)
      ensures this.env == env && Current() == World(map[], {}, 0, 0)
    {
      this.env, messages, sessions, nextId, writes := env, map[], {}, 0, 0;
    }

    function Current(): World
      reads this
    {
      World(messages, sessions, nextId, writes)
    }

    method Save(k: Key, m: Message) returns (ok: bool)
      modifies this`messages, this`writes
      ensures ok <==> !env.fails(old(writes))
      ensures writes == old(writes) + 1
      ensures messages == if ok then old(messages)[k := m] else old(messages)
    {
      ok, writes := !env.fails(writes), writes + 1;
      if ok {
        messages := messages[k := m];
      }
    }

    method Send(draft: Draft, validateSender: bool, now: int) returns (r: SendResult)
      modifies this
      ensures (Current(), r) == SendTo(env, old(Current()), draft, validateSender, now)
    {
      if !Acceptable(env.maxBytes, draft.content) { return Rejected; }
      if !env.permits(draft.content) { return Rejected; }
      if validateSender && draft.sender !in sessions { return NoSuchSession; }
      if draft.recipient !in sessions { return NoSuchSession; }
      var id := nextId;
      nextId := nextId + 1;
      var ok := Save(Key(draft.recipient, id), NewMessage(draft, id, now));
      r := if ok then Sent(id) else SendNotWritten;
    }

    method Deliver(recipient: string, now: int) returns (r: Option<seq<Message>>)
      requires Sound(Current())
      modifies this`messages, this`writes
      ensures Delivers(env, old(Current()), recipient, now, Current(), r)
    {
      hide DeliversUpTo, Readable;
      if recipient !in sessions { return None; }
      if exists k :: k in messages && k.recipient == recipient && !Readable(env.maxBytes, messages[k]) { return None; }
      ghost var left;
      r, left := DeliverAll(recipient, now);
      assert DeliversUpTo(env, old(Current()), recipient, now, Current(), r, left);
    }

    /** The loop of `deliver`; `left` is what it had not reached when a write failed. */
    method DeliverAll(recipient: string, now: int) returns (r: Option<seq<Message>>, ghost left: set<Key>)
      requires Sound(Current())
      modifies this`messages, this`writes
      ensures DeliversUpTo(env, old(Current()), recipient, now, Current(), r, left)
    {
      hide Sound, Handling, Collected, Inbox, QueuedIn;
      var todo, delivered := Inbox(messages, recipient), [];
      ghost var w, queued := Current(), |QueuedIn(messages, todo)|;
      left := todo;
      StartsHandling(messages, recipient, now);
      while todo != {}
        invariant todo == left && Delivering(env, w, recipient, now, Current(), todo, delivered)
        decreases todo
      {
        var k :| k in todo;
        var ok;
        ok, delivered := DeliverOne(w, recipient, now, todo, delivered, k);
        if !ok { return None, left; }
        todo, left := todo - {k}, todo - {k};
      }
      NoneQueued(messages);
      r := Some(delivered);
    }

    /** One turn of that loop. */
    method DeliverOne(ghost w: World, recipient: string, now: int, ghost todo: set<Key>, delivered: seq<Message>, k: Key)
      returns (ok: bool, more: seq<Message>)
      requires Delivering(env, w, recipient, now, Current(), todo, delivered) && k in todo
      modifies this`messages, this`writes
      ensures ok ==> Delivering(env, w, recipient, now, Current(), todo - {k}, more)
      ensures !ok ==> DeliversUpTo(env, w, recipient, now, Current(), None, todo)
    {
      hide Handling, Collected, Inbox, QueuedIn;
      ghost var was := messages;
      KeyOfInbox(w, messages, recipient, todo, now, k);
      OneFewerQueued(w.messages, todo, k);
      QueuedAtMost(w.messages, todo, Inbox(w.messages, recipient));
      if messages[k].status == Acknowledged {
        SkipOne(w, messages, recipient, todo, delivered, k, now);
        return true, delivered;
      }
      var m := Handed(messages[k], now);
      if messages[k].status == Queued {
        ok := Save(k, m);
        if !ok { return false, delivered; }
      }
      assert messages == was[k := m];
      CollectOne(w, was, recipient, todo, delivered, k, now);
      ok, more := true, delivered + [m];
    }

    method AcknowledgeMessage(recipient: string, id: nat, now: int) returns (r: AckResult)
      modifies this`messages, this`writes
      ensures (Current(), r) == Acknowledge(env, old(Current()), Key(recipient, id), now)
    {
      var k := Key(recipient, id);
      if k !in messages { return NoSuchMessage; }
      var m := messages[k];
      if !Readable(env.maxBytes, m) { return Unreadable; }
      if m.status == Queued { return NotYetDelivered; }
      if m.status == Acknowledged { return Done(m); }
      m := Acked(m, now);
      var ok := Save(k, m);
      r := if ok then Done(m) else AckNotWritten;
    }
  }

  /** The loop of `deliver` with `todo` still to go. */
  predicate Delivering(e: Env, w: World, recipient: string, now: int, at: World, todo: set<Key>, delivered: seq<Message>) {
    && Sound(w)
    && at == w.(messages := at.messages, writes := at.writes)
    && Handling(w.messages, at.messages, recipient, todo, now)
    && Collected(at.messages, recipient, todo, delivered)
    && at.writes == w.writes + |QueuedIn(w.messages, Inbox(w.messages, recipient))| - |QueuedIn(w.messages, todo)|
    && w.writes <= at.writes && Smooth(e, w.writes, at.writes)
  }

  lemma StartsHandling(messages: map<Key, Message>, recipient: string, now: int)
    ensures Handling(messages, messages, recipient, Inbox(messages, recipient), now)
    ensures Collected(messages, recipient, Inbox(messages, recipient), [])
  {
  }

  lemma NoneQueued(messages: map<Key, Message>)
    ensures forall before :: QueuedIn(before, {}) == {}
  {
  }

  lemma KeyOfInbox(w: World, messages: map<Key, Message>, recipient: string, todo: set<Key>, now: int, k: Key)
    requires Handling(w.messages, messages, recipient, todo, now) && k in todo
    ensures k in w.messages && k in messages && messages[k] == w.messages[k] && k.recipient == recipient
    ensures todo <= Inbox(w.messages, recipient)
  {
  }

  lemma OneFewerQueued(messages: map<Key, Message>, keys: set<Key>, k: Key)
    requires k in keys && k in messages
    ensures |QueuedIn(messages, keys)| == |QueuedIn(messages, keys - {k})| + (if messages[k].status == Queued then 1 else 0)
  {
    var all, rest := QueuedIn(messages, keys), QueuedIn(messages, keys - {k});
    if messages[k].status == Queued {
      assert all == rest + {k};
    } else {
      assert all == rest;
    }
  }

  lemma QueuedAtMost(messages: map<Key, Message>, part: set<Key>, keys: set<Key>)
    requires part <= keys
    ensures |QueuedIn(messages, part)| <= |QueuedIn(messages, keys)|
  {
    var a, b := QueuedIn(messages, part), QueuedIn(messages, keys);
    assert b == a + (b - a);
  }

  lemma CollectOne(w: World, was: map<Key, Message>, recipient: string, todo: set<Key>, delivered: seq<Message>, k: Key,
                   now: int)
    requires Sound(w) && Handling(w.messages, was, recipient, todo, now) && Collected(was, recipient, todo, delivered)
    requires k in todo && k in was && was[k].status != Acknowledged
    ensures var m := Handed(was[k], now);
            && Handling(w.messages, was[k := m], recipient, todo - {k}, now)
            && Collected(was[k := m], recipient, todo - {k}, delivered + [m])
  {
    var m := Handed(was[k], now);
    var more := delivered + [m];
    assert k in w.messages && m.id == k.id && m.status == Delivered;
    forall i, j | 0 <= i < j < |more| ensures more[i].id != more[j].id {
      assert more[i] in delivered;
      assert j < |delivered| || Key(recipient, more[i].id) != k;
    }
    assert more[|delivered|] == m;
    assert forall d :: d in delivered ==> d in more;
  }

  lemma SkipOne(w: World, messages: map<Key, Message>, recipient: string, todo: set<Key>, delivered: seq<Message>, k: Key,
                now: int)
    requires Handling(w.messages, messages, recipient, todo, now) && Collected(messages, recipient, todo, delivered)
    requires k in todo && k in messages && messages[k].status == Acknowledged
    ensures Handling(w.messages, messages, recipient, todo - {k}, now)
    ensures Collected(messages, recipient, todo - {k}, delivered)
  {
  }

  lemma {:induction false} SoundSends(e: Env, w: World, drafts: seq<Draft>, n: nat, now: int)
    requires n < |drafts|
    ensures SendAll(e, w, drafts[..n + 1], now) == SendTo(e, SendAll(e, w, drafts[..n], now), drafts[n], false, now).0
  {
    hide SendTo;
    assert drafts[..n + 1][..n] == drafts[..n];
  }

  class Runtime {
    const mailbox: SessionMailbox
    var saved: seq<Saved>
    var byHand: set<Key>

    constructor (mailbox: SessionMailbox)
      ensures this.mailbox == mailbox && saved == [] && byHand == {}
    {
      this.mailbox, saved, byHand := mailbox, [], {};
    }

    function Current(): Life
      reads this, mailbox
    {
      Life(mailbox.Current(), saved, byHand)
    }

    method SendEach(drafts: seq<Draft>, now: int)
      modifies mailbox
      ensures mailbox.Current() == SendAll(mailbox.env, old(mailbox.Current()), drafts, now)
    {
      hide SendTo;
      for i := 0 to |drafts|
        invariant mailbox.Current() == SendAll(mailbox.env, old(mailbox.Current()), drafts[..i], now)
      {
        SoundSends(mailbox.env, old(mailbox.Current()), drafts, i, now);
        var r := mailbox.Send(drafts[i], false, now);
      }
      assert drafts[..|drafts|] == drafts;
    }

    method AcknowledgeEach(session: string, ids: seq<nat>, now: int) returns (ok: bool)
      modifies mailbox`messages, mailbox`writes
      ensures (mailbox.Current(), ok) == AcknowledgeAll(mailbox.env, old(mailbox.Current()), session, ids, now)
    {
      hide Acknowledge;
      for i := 0 to |ids|
        invariant AcknowledgeAll(mailbox.env, old(mailbox.Current()), session, ids, now)
                  == AcknowledgeAll(mailbox.env, mailbox.Current(), session, ids[i..], now)
      {
        assert ids[i..][1..] == ids[i + 1..];
        var r := mailbox.AcknowledgeMessage(session, ids[i], now);
        if !r.Done? { return false; }
      }
      assert ids[|ids|..] == [];
      ok := true;
    }

    method SaveAndAcknowledge(session: string, ids: seq<nat>, now: int) returns (ok: bool)
      modifies this`saved, mailbox
      ensures (Current(), ok) == Finish(mailbox.env, old(Current()), session, ids, now)
    {
      hide AcknowledgeAll;
      mailbox.writes := mailbox.writes + 1;
      if mailbox.env.fails(mailbox.writes - 1) { return false; }
      mailbox.sessions := mailbox.sessions + {session};
      saved := saved + [Saved(session, ids)];
      ok := AcknowledgeEach(session, ids, now);
    }

    /** One run, as far as messages go: deliver, work, save the record, acknowledge. */
    method Run(op: Op, now: int) returns (ok: bool)
      requires op.RunOp? && Sound(mailbox.Current())
      modifies this`saved, mailbox
      ensures Runs(mailbox.env, old(Current()), op, now, Current(), ok)
    {
      hide Finish, SendAll, Sound, Delivers;
      var inbound: Option<seq<Message>> := Some([]);
      if op.resumed {
        inbound := mailbox.Deliver(op.session, now);
      }
      ghost var received := mailbox.Current();
      assert Receives(mailbox.env, old(mailbox.Current()), op, now, received, inbound);
      if inbound.None? {
        assert (Current(), false) == WorkAndFinish(mailbox.env, old(Current()).(w := received), op, inbound, now);
        return false;
      }
      SendEach(op.drafts, now);
      if op.workFails {
        ok := false;
      } else {
        ok := SaveAndAcknowledge(op.session, Ids(inbound.value), now);
      }
      assert (Current(), ok) == WorkAndFinish(mailbox.env, old(Current()).(w := received), op, inbound, now);
    }

    /** `loro sessions ack`. */
    method SessionsAck(recipient: string, id: nat, now: int)
      modifies this`byHand, mailbox`messages, mailbox`writes
      ensures Current() == AcknowledgeByHand(mailbox.env, old(Current()), Key(recipient, id), now)
    {
      var r := mailbox.AcknowledgeMessage(recipient, id, now);
      if r.Done? {
        byHand := byHand + {Key(recipient, id)};
      }
    }

    method Do(step: Step)
      requires Sound(mailbox.Current())
      modifies this, mailbox
      ensures Does(mailbox.env, old(Current()), step, Current())
    {
      hide SendTo, Runs, AcknowledgeByHand, Sound;
      match step.op {
        case SendOp(draft, validateSender) =>
          var r := mailbox.Send(draft, validateSender, step.now);
        case RunOp(_, _, _, _) =>
          var ok := Run(step.op, step.now);
        case AckOp(recipient, id) =>
          SessionsAck(recipient, id, step.now);
      }
    }

    /** Any sequence of steps, each carried out from the state the one before it left. */
    method Live(steps: seq<Step>) returns (ghost lives: seq<Life>)
      requires Good(Current())
      modifies this, mailbox
      ensures History(mailbox.env, steps, lives) && lives[0] == old(Current()) && lives[|steps|] == Current()
      ensures Good(Current()) && Progress(old(Current()), Current())
    {
      hide Does, Accounted, Progress, Sound;
      lives := [Current()];
      NoProgress(Current());
      for i := 0 to |steps|
        invariant History(mailbox.env, steps[..i], lives) && lives[0] == old(Current()) && lives[i] == Current()
        invariant Good(Current()) && Progress(old(Current()), Current())
      {
        ghost var before := Current();
        Do(steps[i]);
        StepKeeps(mailbox.env, before, steps[i], Current());
        ProgressThrough(old(Current()), before, Current());
        HistoryGrows(mailbox.env, steps, i, lives, Current());
        lives := lives + [Current()];
      }
      assert steps[..|steps|] == steps;
    }
  }

  lemma HistoryGrows(e: Env, steps: seq<Step>, n: nat, lives: seq<Life>, next: Life)
    requires n < |steps| && History(e, steps[..n], lives) && Does(e, lives[n], steps[n], next)
    ensures History(e, steps[..n + 1], lives + [next])
  {
    hide Does;
    var more := lives + [next];
    forall i | 0 <= i < n + 1 ensures Does(e, more[i], steps[..n + 1][i], more[i + 1]) {
      if i < n {
        assert Does(e, lives[i], steps[..n][i], lives[i + 1]);
      }
    }
  }
}
