/**
 * The hash-chained audit log as it is written and verified, the segment exported for one run, and its verification
 * (src/loro/evidence.py:207-251, 663-746; src/loro/audit/sinks.py:41-60, 290-456).
 */
module Evidence {
  import opened Common

  /** An audit event without its integrity block. */
  datatype Content = Content(traceId: string, body: string)

  /** A SHA-256 value: the digest of what it binds (so equal only for equal input), or some other text. */
  datatype Hash =
    | Digest(content: Content, previous: Option<Hash>, legacy: Option<Hash>)
    | LegacyDigest(prefix: seq<Content>)
    | Other(text: string)

  datatype Integrity = Integrity(previous: Option<Hash>, legacy: Option<Hash>, eventHash: Option<Hash>)
  datatype Event = Event(content: Content, integrity: Option<Integrity>)

  /** A non-blank line of the log with its line number. */
  datatype Line = Line(number: nat, event: Event)

  datatype Link = Link(line: nat, eventHash: Option<Hash>, previous: Option<Hash>, runEvent: bool)
  datatype Chain = Chain(links: seq<Link>, startPrevious: Option<Hash>, endHash: Option<Hash>)

  function EventHash(e: Event): Option<Hash> {
    if e.integrity.Some? then e.integrity.value.eventHash else None
  }

  function PreviousHash(e: Event): Option<Hash> {
    if e.integrity.Some? then e.integrity.value.previous else None
  }

  function ExpectedHash(e: Event): Hash {
    Digest(e.content, PreviousHash(e), if e.integrity.Some? then e.integrity.value.legacy else None)
  }

  // ---- The log ----

  function Prefix(log: seq<Line>): seq<Content> {
    seq(|log|, i requires 0 <= i < |log| => log[i].event.content)
  }

  function EventsOf(log: seq<Line>): seq<Event> {
    seq(|log|, i requires 0 <= i < |log| => log[i].event)
  }

  /** What the first chained event must record about the events written before chaining was on. */
  function LegacyHash(log: seq<Line>): Option<Hash> {
    if log == [] then None else Some(LegacyDigest(Prefix(log)))
  }

  /** Line i is a chained event that follows from the line before it, chaining having started at `start`. */
  predicate ChainedAt(log: seq<Line>, start: nat, i: nat)
    requires start <= i < |log|
  {
    && log[i].event.integrity.Some?
    && EventHash(log[i].event) == Some(ExpectedHash(log[i].event))
    && PreviousHash(log[i].event) == (if i == start then None else EventHash(log[i - 1].event))
    && (i == start ==> log[i].event.integrity.value.legacy == LegacyHash(log[..start]))
  }

  /** Events without integrity first, then only events that chain. */
  predicate IsChained(log: seq<Line>, start: nat) {
    && start <= |log|
    && (forall i :: 0 <= i < start ==> log[i].event.integrity.None?)
    && (forall i :: start <= i < |log| ==> ChainedAt(log, start, i))
  }

  /** `verify_jsonl_audit` (without an external anchor). */
  method VerifyLog(log: seq<Line>) returns (ok: bool, ghost start: nat)
    ensures ok ==> IsChained(log, start)
    ensures !ok ==> forall s: nat :: !IsChained(log, s)
  {
    var previous: Option<Hash> := None;
    var started := false;
    start := |log|;
    for n := 0 to |log|
      invariant started ==> start < n && previous == EventHash(log[n - 1].event)
      invariant !started ==> start == |log| && previous == None
      invariant forall i :: 0 <= i < (if started then start else n) ==> log[i].event.integrity.None?
      invariant started ==> forall i :: start <= i < n ==> ChainedAt(log, start, i)
    {
      var event := log[n].event;
      assert started ==> ChainedAt(log, start, start);
      if event.integrity.None? {
        if started {
          NoOtherStart(log, start, n);
          return false, start;
        }
        continue;
      }
      var integrity := event.integrity.value;
      if !started {
        if integrity.legacy != LegacyHash(log[..n]) {
          NoOtherStart(log, n, n);
          return false, start;
        }
        started, start := true, n;
      }
      if integrity.previous != previous || integrity.eventHash != Some(ExpectedHash(event)) {
        NoOtherStart(log, start, n);
        return false, start;
      }
      previous := integrity.eventHash;
    }
    ok := true;
  }

  /** Chaining can only have started at the first event that has an integrity block. */
  lemma NoOtherStart(log: seq<Line>, start: nat, bad: nat)
    requires start <= bad < |log| && !ChainedAt(log, start, bad)
    requires forall i :: 0 <= i < start ==> log[i].event.integrity.None?
    requires log[start].event.integrity.Some?
    ensures forall s: nat :: !IsChained(log, s)
  {
    forall s: nat ensures !IsChained(log, s) {
      if s < start {
        assert !ChainedAt(log, s, s);
      }
    }
  }

  /** A hash fixes the whole chained history before it: logs that share one share every event up to it. */
  lemma {:induction false} HashFixesHistory(a: seq<Line>, startA: nat, i: nat, b: seq<Line>, startB: nat, j: nat)
    requires IsChained(a, startA) && IsChained(b, startB)
    requires startA <= i < |a| && startB <= j < |b| && EventHash(a[i].event) == EventHash(b[j].event)
    ensures i - startA == j - startB
    ensures EventsOf(a[startA..i + 1]) == EventsOf(b[startB..j + 1])
    ensures Prefix(a[..startA]) == Prefix(b[..startB])
    decreases i
  {
    hide EventsOf, Prefix;
    SameHashSameEvent(a, startA, i, b, startB, j);
    EventsOfAppend(a, startA, i);
    EventsOfAppend(b, startB, j);
    if i > startA {
      HashFixesHistory(a, startA, i - 1, b, startB, j - 1);
    } else {
      assert EventsOf(a[startA..i]) == EventsOf(b[startB..j]) by { assert a[startA..i] == b[startB..j] == []; }
    }
  }

  /** Events with one hash are equal, and so is what the hash binds of the history before them. */
  lemma SameHashSameEvent(a: seq<Line>, startA: nat, i: nat, b: seq<Line>, startB: nat, j: nat)
    requires IsChained(a, startA) && IsChained(b, startB)
    requires startA <= i < |a| && startB <= j < |b| && EventHash(a[i].event) == EventHash(b[j].event)
    ensures a[i].event == b[j].event && (i == startA <==> j == startB)
    ensures i > startA ==> EventHash(a[i - 1].event) == EventHash(b[j - 1].event)
    ensures i == startA ==> Prefix(a[..startA]) == Prefix(b[..startB])
  {
    hide Prefix;
    assert ChainedAt(a, startA, i) && ChainedAt(b, startB, j);
    assert a[i].event == b[j].event;
    assert i > startA ==> ChainedAt(a, startA, i - 1);
    assert j > startB ==> ChainedAt(b, startB, j - 1);
    if i == startA && j == startB {
      SameLegacy(a[..startA], b[..startB]);
    }
  }

  lemma SameLegacy(a: seq<Line>, b: seq<Line>)
    requires LegacyHash(a) == LegacyHash(b)
    ensures Prefix(a) == Prefix(b)
  {
    if a == [] {
      assert b == [];
    }
  }

  lemma EventsOfAppend(log: seq<Line>, from: nat, n: nat)
    requires from <= n < |log|
    ensures EventsOf(log[from..n + 1]) == EventsOf(log[from..n]) + [log[n].event]
  {
  }

  // ---- Writing ----

  /** What the next event must record: the hash of the last line, or if that has none, of all the lines there are. */
  function ChainState(log: seq<Line>): (Option<Hash>, Option<Hash>) {
    if log == [] then (None, None)
    else
      var hash := EventHash(log[|log| - 1].event);
      if hash.Some? then (hash, None) else (None, Some(LegacyDigest(Prefix(log))))
  }

  function Chained(content: Content, previous: Option<Hash>, legacy: Option<Hash>): Event {
    Event(content, Some(Integrity(previous, legacy, Some(Digest(content, previous, legacy)))))
  }

  function Written(log: seq<Line>, number: nat, content: Content): seq<Line> {
    var (previous, legacy) := ChainState(log);
    log + [Line(number, Chained(content, previous, legacy))]
  }

  /** Writing an event keeps a log that verifies verifying, with chaining started where it was, or at this event. */
  lemma WritingKeepsChain(log: seq<Line>, start: nat, number: nat, content: Content)
    requires IsChained(log, start)
    ensures IsChained(Written(log, number, content), start)
  {
    var after, n := Written(log, number, content), |log|;
    assert n > start ==> ChainedAt(log, start, n - 1);
    forall i | start <= i < |after| ensures ChainedAt(after, start, i) {
      if i < n {
        assert ChainedAt(log, start, i) && after[..start] == log[..start];
      } else {
        assert start == n ==> after[..start] == log;
      }
    }
  }

  /** And writing does not hide that a log no longer verified: the log verifies afterwards exactly when it did before. */
  lemma WritingVerifiesExactlyWhen(log: seq<Line>, number: nat, content: Content)
    ensures (exists s: nat :: IsChained(Written(log, number, content), s)) <==> exists s: nat :: IsChained(log, s)
  {
    var after := Written(log, number, content);
    forall s: nat | IsChained(log, s) ensures IsChained(after, s) {
      WritingKeepsChain(log, s, number, content);
    }
    forall s: nat | IsChained(after, s) ensures IsChained(log, s) {
      forall i | s <= i < |log| ensures ChainedAt(log, s, i) {
        assert ChainedAt(after, s, i) && after[..s] == log[..s];
      }
      assert s <= |log| by {
        assert after[|log|].event.integrity.Some?;
      }
      assert forall i :: 0 <= i < s ==> after[i] == log[i];
    }
  }

  /** The log on disk: its non-blank lines, and how many lines there are in all. */
  class JsonlAuditSink {
    var log: seq<Line>
    var lines: nat

    predicate Valid()
      reads this
    {
      Numbered(log) && (log != [] ==> log[|log| - 1].number <= lines)
    }

    constructor (log: seq<Line>, lines: nat)
      requires Numbered(log) && (log != [] ==> log[|log| - 1].number <= lines)
      ensures Valid() && this.log == log && this.lines == lines
    {
      this.log, this.lines := log, lines;
    }

    /** `deliver`: under the file's lock. */
    method Deliver(content: Content)
      requires Valid()
      modifies this
      ensures Valid() && lines == old(lines) + 1 && log == Written(old(log), lines, content)
    {
      var (previous, legacy) := ChainState(log);
      lines := lines + 1;
      var event := Chained(content, previous, legacy);
      log := log + [Line(lines, event)];
    }

    /** A log of unchained events, or one that verifies, still verifies after any number of events; all are in it. */
    method DeliverAll(contents: seq<Content>, ghost start: nat)
      requires Valid() && IsChained(log, start)
      modifies this
      ensures Valid() && IsChained(log, start)
      ensures old(log) <= log && Prefix(log) == Prefix(old(log)) + contents
    {
      hide Prefix, IsChained, ChainState, Chained;
      for n := 0 to |contents|
        invariant Valid() && IsChained(log, start)
        invariant old(log) <= log && Prefix(log) == Prefix(old(log)) + contents[..n]
      {
        WritingKeepsChain(log, start, lines + 1, contents[n]);
        OneMoreContent(log, lines + 1, contents[n]);
        Deliver(contents[n]);
        assert contents[..n] + [contents[n]] == contents[..n + 1];
      }
      assert contents[..|contents|] == contents;
    }
  }

  lemma OneMoreContent(log: seq<Line>, number: nat, content: Content)
    ensures Prefix(Written(log, number, content)) == Prefix(log) + [content]
  {
  }

  // ---- Export ----

  predicate InRun(l: Line, run: string) {
    l.event.content.traceId == run
  }

  function RunEvents(log: seq<Line>, run: string): seq<Event> {
    if log == [] then []
    else RunEvents(log[..|log| - 1], run)
         + (if InRun(log[|log| - 1], run) then [log[|log| - 1].event] else [])
  }

  function LinkOf(l: Line, run: string): Link {
    Link(l.number, EventHash(l.event), PreviousHash(l.event), InRun(l, run))
  }

  function LinksOf(log: seq<Line>, run: string): (links: seq<Link>)
    ensures |links| == |log|
  {
    seq(|log|, i requires 0 <= i < |log| => LinkOf(log[i], run))
  }

  /** first..last are the lines of the run's first and last events among the first n lines. */
  predicate SpanIn(log: seq<Line>, n: nat, run: string, first: nat, last: nat)
    requires n <= |log|
  {
    && first <= last < n && InRun(log[first], run) && InRun(log[last], run)
    && (forall i :: 0 <= i < n && InRun(log[i], run) ==> first <= i <= last)
  }

  predicate IsSpan(log: seq<Line>, run: string, first: nat, last: nat) {
    SpanIn(log, |log|, run, first, last)
  }

  /** A run has one span at most. */
  lemma SpanIsUnique(log: seq<Line>, run: string, first: nat, last: nat, otherFirst: nat, otherLast: nat)
    requires IsSpan(log, run, first, last) && IsSpan(log, run, otherFirst, otherLast)
    ensures first == otherFirst && last == otherLast
  {
  }

  datatype ExportError = NoSuchRun | PredatesChaining
  datatype Segment = Segment(events: seq<Event>, chain: Chain, firstLine: nat, lastLine: nat) | Failed(why: ExportError)

  /** `_chain_segment`: the run's events, and a link for every line from its first event to its last. */
  method ChainSegment(log: seq<Line>, run: string) returns (s: Segment, ghost first: nat, ghost last: nat)
    ensures s.Segment? ==>
              && IsSpan(log, run, first, last)
              && s.events == RunEvents(log, run)
              && s.chain.links == LinksOf(log[first..last + 1], run)
              && s.chain.startPrevious == PreviousHash(log[first].event)
              && s.chain.endHash == EventHash(log[last].event)
              && s.firstLine == log[first].number && s.lastLine == log[last].number
    ensures s == Failed(PredatesChaining) <==>
              exists i :: 0 <= i < |log| && InRun(log[i], run) && log[i].event.integrity.None?
    ensures s == Failed(NoSuchRun) <==> forall i :: 0 <= i < |log| ==> !InRun(log[i], run)
  {
    hide RunEvents, LinksOf, LinkOf, EventHash, PreviousHash;
    RunEventsStart(log, run);
    var events, links, pending: seq<Link> := [], [], [];
    var firstLine, lastLine: Option<nat> := None, None;
    first, last := 0, 0;
    for n := 0 to |log|
      invariant events == RunEvents(log[..n], run)
      invariant firstLine.None? ==> lastLine.None? && forall i :: 0 <= i < n ==> !InRun(log[i], run)
      invariant firstLine.Some? ==> SpanIn(log, n, run, first, last)
      invariant firstLine.Some? ==> firstLine == Some(log[first].number) && lastLine == Some(log[last].number)
      invariant if firstLine.None? then links == [] && pending == []
                else links + pending == LinksOf(log[first..n], run) && |links| == last + 1 - first
      invariant forall i :: 0 <= i < n && InRun(log[i], run) ==> log[i].event.integrity.Some?
    {
      var line := log[n];
      var inRun := InRun(line, run);
      RunEventsTake(log, run, n);
      if inRun && line.event.integrity.None? { return Failed(PredatesChaining), first, last; }
      if firstLine.None? && !inRun { continue; }
      if firstLine.None? {
        firstLine := Some(line.number);
        first := n;
        NoLinks(log, run, n);
      }
      LinksAppend(log, run, first, n);
      pending := pending + [LinkOf(line, run)];
      if inRun {
        events := events + [line.event];
        links := links + pending;
        pending := [];
        lastLine := Some(line.number);
        last := n;
      }
    }
    assert log[..|log|] == log;
    NoRunEvents(log, run);
    if events == [] { return Failed(NoSuchRun), first, last; }
    LinksTake(log, run, first, last, links, pending);
    s := Segment(events, Chain(links, links[0].previous, links[|links| - 1].eventHash), firstLine.value, lastLine.value);
  }

  lemma RunEventsStart(log: seq<Line>, run: string)
    ensures RunEvents(log[..0], run) == []
  {
  }

  lemma RunEventsTake(log: seq<Line>, run: string, n: nat)
    requires n < |log|
    ensures RunEvents(log[..n + 1], run) == RunEvents(log[..n], run) + (if InRun(log[n], run) then [log[n].event] else [])
  {
    assert log[..n + 1][..n] == log[..n];
  }

  lemma LinksAppend(log: seq<Line>, run: string, first: nat, n: nat)
    requires first <= n < |log|
    ensures LinksOf(log[first..n + 1], run) == LinksOf(log[first..n], run) + [LinkOf(log[n], run)]
  {
  }

  lemma NoLinks(log: seq<Line>, run: string, n: nat)
    requires n <= |log|
    ensures LinksOf(log[n..n], run) == []
  {
  }

  /** The links of a stretch, from those of all that follows its first line. */
  lemma LinksTake(log: seq<Line>, run: string, first: nat, last: nat, links: seq<Link>, pending: seq<Link>)
    requires first <= last < |log| && links + pending == LinksOf(log[first..], run) && |links| == last + 1 - first
    ensures links == LinksOf(log[first..last + 1], run)
    ensures links[0].previous == PreviousHash(log[first].event)
    ensures links[|links| - 1].eventHash == EventHash(log[last].event)
  {
    assert links == (links + pending)[..|links|];
    assert (links + pending)[0] == links[0] && (links + pending)[last - first] == links[last - first];
  }

  lemma {:induction false} NoRunEvents(log: seq<Line>, run: string)
    ensures RunEvents(log, run) == [] <==> forall i :: 0 <= i < |log| ==> !InRun(log[i], run)
  {
    if log != [] {
      NoRunEvents(log[..|log| - 1], run);
    }
  }

  // ---- Verification ----

  function HashesOf(events: seq<Event>): seq<Option<Hash>> {
    seq(|events|, i requires 0 <= i < |events| => EventHash(events[i]))
  }

  function RunHashes(links: seq<Link>): seq<Option<Hash>> {
    if links == [] then []
    else RunHashes(links[..|links| - 1]) + (if links[|links| - 1].runEvent then [links[|links| - 1].eventHash] else [])
  }

  predicate EventOk(e: Event, run: string) {
    EventHash(e) == Some(ExpectedHash(e)) && e.content.traceId == run
  }

  /** The chain record and the slice agree, link by link and event by event. */
  predicate Agrees(chain: Chain, events: seq<Event>, run: string) {
    && events != []
    && (forall i :: 0 <= i < |events| ==> EventOk(events[i], run))
    && (forall i :: 0 < i < |chain.links| ==> chain.links[i].previous == chain.links[i - 1].eventHash)
    && RunHashes(chain.links) == HashesOf(events)
    && (chain.links != [] ==> chain.startPrevious == chain.links[0].previous
                              && chain.endHash == chain.links[|chain.links| - 1].eventHash)
  }

  datatype Issue = EmptyRecord | HashMismatch(event: nat) | ForeignEvent(event: nat) | BrokenLink(line: nat)
                 | SliceMismatch | BoundsMismatch

  /** `_verify_chain`: reports no issue exactly when the record and the slice agree. */
  method VerifyChain(chain: Chain, events: seq<Event>, run: string) returns (issues: seq<Issue>)
    ensures issues == [] <==> Agrees(chain, events, run)
  {
    if events == [] { return [EmptyRecord]; }
    issues := CheckEvents(events, run);
    var broken, runHashes := CheckLinks(chain.links);
    issues := issues + broken;
    if runHashes != HashesOf(events) {
      issues := issues + [SliceMismatch];
    }
    if chain.links != [] && (chain.startPrevious != chain.links[0].previous
                             || chain.endHash != chain.links[|chain.links| - 1].eventHash) {
      issues := issues + [BoundsMismatch];
    }
  }

  method CheckEvents(events: seq<Event>, run: string) returns (issues: seq<Issue>)
    ensures issues == [] <==> forall i :: 0 <= i < |events| ==> EventOk(events[i], run)
  {
    issues := [];
    for i := 0 to |events|
      invariant issues == [] <==> forall k :: 0 <= k < i ==> EventOk(events[k], run)
    {
      var e := events[i];
      if EventHash(e) != Some(ExpectedHash(e)) {
        issues := issues + [HashMismatch(i + 1)];
      }
      if e.content.traceId != run {
        issues := issues + [ForeignEvent(i + 1)];
      }
    }
  }

  method CheckLinks(links: seq<Link>) returns (issues: seq<Issue>, runHashes: seq<Option<Hash>>)
    ensures issues == [] <==> forall i :: 0 < i < |links| ==> links[i].previous == links[i - 1].eventHash
    ensures runHashes == RunHashes(links)
  {
    issues, runHashes := [], [];
    var previous: Option<Hash> := None;
    for i := 0 to |links|
      invariant runHashes == RunHashes(links[..i])
      invariant i > 0 ==> previous == links[i - 1].eventHash
      invariant issues == [] <==> forall k :: 0 < k < i ==> links[k].previous == links[k - 1].eventHash
    {
      var link := links[i];
      assert links[..i + 1][..i] == links[..i];
      if i > 0 && link.previous != previous {
        issues := issues + [BrokenLink(link.line)];
      }
      previous := link.eventHash;
      if link.runEvent {
        runHashes := runHashes + [link.eventHash];
      }
    }
    assert links[..|links|] == links;
  }

  lemma {:induction false} RunEventsOk(log: seq<Line>, start: nat, run: string, n: nat)
    requires IsChained(log, start) && n <= |log|
    requires forall i :: 0 <= i < n && InRun(log[i], run) ==> start <= i
    ensures forall i :: 0 <= i < |RunEvents(log[..n], run)| ==> EventOk(RunEvents(log[..n], run)[i], run)
  {
    if n > 0 {
      RunEventsOk(log, start, run, n - 1);
      assert log[..n][..n - 1] == log[..n - 1];
      if InRun(log[n - 1], run) {
        assert ChainedAt(log, start, n - 1);
      }
    }
  }

  /** Among the links of any stretch of the log, those of the run carry the run events' hashes, in order. */
  lemma {:induction false} RunHashesOfLinks(log: seq<Line>, run: string)
    ensures RunHashes(LinksOf(log, run)) == HashesOf(RunEvents(log, run))
  {
    if log != [] {
      var front := log[..|log| - 1];
      RunHashesOfLinks(front, run);
      assert LinksOf(log, run)[..|log| - 1] == LinksOf(front, run);
    }
  }

  lemma {:induction false} RunEventsAppend(a: seq<Line>, b: seq<Line>, run: string)
    ensures RunEvents(a + b, run) == RunEvents(a, run) + RunEvents(b, run)
  {
    if b == [] {
      assert a + b == a;
    } else {
      assert (a + b)[..|a + b| - 1] == a + b[..|b| - 1];
      RunEventsAppend(a, b[..|b| - 1], run);
    }
  }

  lemma RunEventsInSpan(log: seq<Line>, run: string, first: nat, last: nat)
    requires IsSpan(log, run, first, last)
    ensures RunEvents(log, run) == RunEvents(log[first..last + 1], run)
  {
    var before, span, after := log[..first], log[first..last + 1], log[last + 1..];
    assert log == before + span + after;
    RunEventsAppend(before + span, after, run);
    RunEventsAppend(before, span, run);
    NoRunEvents(before, run);
    NoRunEvents(after, run);
  }

  lemma SpanLinksChain(log: seq<Line>, start: nat, run: string, first: nat, last: nat)
    requires IsChained(log, start) && start <= first <= last < |log|
    ensures var links := LinksOf(log[first..last + 1], run);
            forall i :: 0 < i < |links| ==> links[i].previous == links[i - 1].eventHash
  {
    forall i | first < i <= last ensures PreviousHash(log[i].event) == EventHash(log[i - 1].event) {
      assert ChainedAt(log, start, i);
    }
  }

  /** Whatever is exported from a chained log agrees with itself: verification reports nothing. */
  lemma ExportAgrees(log: seq<Line>, start: nat, run: string, first: nat, last: nat)
    requires IsChained(log, start) && IsSpan(log, run, first, last) && log[first].event.integrity.Some?
    ensures Agrees(Chain(LinksOf(log[first..last + 1], run), PreviousHash(log[first].event), EventHash(log[last].event)),
                   RunEvents(log, run), run)
  {
    hide ChainedAt, RunEvents, RunHashes, EventOk;
    assert start <= first;
    assert log[..|log|] == log;
    RunEventsOk(log, start, run, |log|);
    NoRunEvents(log, run);
    RunEventsInSpan(log, run, first, last);
    RunHashesOfLinks(log[first..last + 1], run);
    SpanLinksChain(log, start, run, first, last);
  }

  function Depth(h: Option<Hash>): nat {
    if h.Some? && h.value.Digest? then 1 + Depth(h.value.previous) else 0
  }

  lemma {:induction false} DepthGrows(log: seq<Line>, start: nat, i: nat)
    requires IsChained(log, start) && start <= i < |log|
    ensures Depth(EventHash(log[i].event)) == i - start + 1
  {
    assert ChainedAt(log, start, i);
    if i > start {
      DepthGrows(log, start, i - 1);
    }
  }

  /** A record with links left out between two others does not verify, whatever events it comes with. */
  lemma GapIsReported(log: seq<Line>, start: nat, run: string, first: nat, last: nat, i: nat, j: nat,
                      chain: Chain, events: seq<Event>)
    requires IsChained(log, start) && start <= first <= last < |log| && 0 < i < j <= last - first
    requires var links := LinksOf(log[first..last + 1], run); chain.links == links[..i] + links[j..]
    ensures !Agrees(chain, events, run)
  {
    assert chain.links[i - 1].eventHash == EventHash(log[first + i - 1].event);
    assert chain.links[i].previous == PreviousHash(log[first + j].event);
    assert ChainedAt(log, start, first + j);
    DepthGrows(log, start, first + i - 1);
    DepthGrows(log, start, first + j - 1);
  }

  /** A record that verifies gives the bounds of its own links, and there are some. */
  lemma BoundsAreTheLinks(chain: Chain, events: seq<Event>, run: string)
    requires Agrees(chain, events, run)
    ensures events != [] && chain.links != []
    ensures chain.startPrevious == chain.links[0].previous
    ensures chain.endHash == chain.links[|chain.links| - 1].eventHash
  {
    assert |HashesOf(events)| > 0;
  }

  /** With the chain record fixed, no other slice of events agrees with it. */
  lemma OnlyOneSliceAgrees(chain: Chain, a: seq<Event>, b: seq<Event>, run: string)
    requires Agrees(chain, a, run) && Agrees(chain, b, run)
    ensures a == b
  {
    assert |a| == |HashesOf(a)| == |HashesOf(b)| == |b|;
    forall i | 0 <= i < |a| ensures a[i] == b[i] {
      assert HashesOf(a)[i] == HashesOf(b)[i];
      assert EventOk(a[i], run) && EventOk(b[i], run);
    }
  }

  // ---- Verification against the original log ----

  function HashesByLine(links: seq<Link>): map<nat, Option<Hash>> {
    if links == [] then map[]
    else HashesByLine(links[..|links| - 1])[links[|links| - 1].line := links[|links| - 1].eventHash]
  }

  function SeenAt(log: seq<Line>, lines: set<nat>): map<nat, Option<Hash>> {
    if log == [] then map[]
    else
      var l := log[|log| - 1];
      var rest := SeenAt(log[..|log| - 1], lines);
      if l.number in lines then rest[l.number := EventHash(l.event)] else rest
  }

  /** `_verify_against_log`, the part that looks for the bundle's segment in a log. */
  predicate FoundIn(links: seq<Link>, log: seq<Line>) {
    SeenAt(log, HashesByLine(links).Keys) == HashesByLine(links)
  }

  predicate Numbered(log: seq<Line>) {
    forall i, j :: 0 <= i < j < |log| ==> log[i].number < log[j].number
  }

  predicate Wanted(lines: Option<set<nat>>, n: nat) {
    lines.Some? ==> n in lines.value
  }

  /** The map gives the event hash of exactly the wanted lines of the log (None: all of them). */
  predicate Records(m: map<nat, Option<Hash>>, log: seq<Line>, wanted: Option<set<nat>>) {
    && (forall i :: 0 <= i < |log| && Wanted(wanted, log[i].number) ==>
          log[i].number in m && m[log[i].number] == EventHash(log[i].event))
    && (forall n :: n in m ==> Wanted(wanted, n) && HasLine(log, n))
  }

  predicate HasLine(log: seq<Line>, n: nat) {
    exists i :: 0 <= i < |log| && log[i].number == n
  }

  lemma NothingRecorded(log: seq<Line>)
    requires log == []
    ensures Records(map[], log, None)
  {
  }

  lemma RecordsMore(m: map<nat, Option<Hash>>, log: seq<Line>, l: Line, wanted: Option<set<nat>>)
    requires Records(m, log, wanted) && Numbered(log + [l])
    ensures Records(if Wanted(wanted, l.number) then m[l.number := EventHash(l.event)] else m, log + [l], wanted)
  {
    var more := log + [l];
    assert more[|log|] == l;
    forall n | HasLine(log, n) ensures HasLine(more, n) {
      var i :| 0 <= i < |log| && log[i].number == n;
      assert more[i] == log[i];
    }
  }

  lemma {:induction false} SeenAtRecords(log: seq<Line>, lines: set<nat>)
    requires Numbered(log)
    ensures Records(SeenAt(log, lines), log, Some(lines))
  {
    if log != [] {
      SeenAtRecords(log[..|log| - 1], lines);
      assert log == log[..|log| - 1] + [log[|log| - 1]];
      RecordsMore(SeenAt(log[..|log| - 1], lines), log[..|log| - 1], log[|log| - 1], Some(lines));
    }
  }

  lemma {:induction false} LinksRecord(log: seq<Line>, run: string)
    requires Numbered(log)
    ensures Records(HashesByLine(LinksOf(log, run)), log, None)
  {
    hide Records;
    if log != [] {
      var front := log[..|log| - 1];
      LinksRecord(front, run);
      assert LinksOf(log, run)[..|log| - 1] == LinksOf(front, run);
      assert log == front + [log[|log| - 1]];
      RecordsMore(HashesByLine(LinksOf(front, run)), front, log[|log| - 1], None);
    } else {
      NothingRecorded(log);
    }
  }

  /** An exported segment is found in the log it came from. */
  lemma ExportIsFound(log: seq<Line>, run: string, first: nat, last: nat)
    requires Numbered(log) && first <= last < |log|
    ensures FoundIn(LinksOf(log[first..last + 1], run), log)
  {
    var span := log[first..last + 1];
    var h := HashesByLine(LinksOf(span, run));
    LinksRecord(span, run);
    SeenAtRecords(log, h.Keys);
    SameRecords(log, first, last, h, SeenAt(log, h.Keys));
  }

  lemma SameRecords(log: seq<Line>, first: nat, last: nat, h: map<nat, Option<Hash>>, seen: map<nat, Option<Hash>>)
    requires first <= last < |log|
    requires Records(h, log[first..last + 1], None) && Records(seen, log, Some(h.Keys))
    ensures seen == h
  {
    var span := log[first..last + 1];
    forall n | n in h ensures n in seen && seen[n] == h[n] {
      assert HasLine(span, n);
      var i :| 0 <= i < |span| && span[i].number == n;
      assert log[first + i] == span[i];
    }
    assert forall n :: n in seen ==> n in h;
  }

  /** A line whose hash the bundle gives is found in the log with that hash. */
  lemma FoundLine(span: seq<Line>, run: string, n: nat, b: seq<Line>) returns (j: nat)
    requires Numbered(span) && Numbered(b) && n < |span| && FoundIn(LinksOf(span, run), b)
    ensures j < |b| && b[j].number == span[n].number && EventHash(b[j].event) == EventHash(span[n].event)
  {
    var h := HashesByLine(LinksOf(span, run));
    LinksRecord(span, run);
    SeenAtRecords(b, h.Keys);
    assert span[n].number in SeenAt(b, h.Keys);
    assert HasLine(b, span[n].number);
    j :| 0 <= j < |b| && b[j].number == span[n].number;
  }

  /** A segment found in a chained log, whatever log it came from, pins that log's history up to the segment's end. */
  lemma FoundSegmentPinsHistory(a: seq<Line>, startA: nat, run: string, first: nat, last: nat, b: seq<Line>, startB: nat)
    returns (j: nat)
    requires IsChained(a, startA) && IsChained(b, startB) && Numbered(a) && Numbered(b)
    requires startA <= first <= last < |a| && FoundIn(LinksOf(a[first..last + 1], run), b)
    ensures startB <= j < |b| && b[j].number == a[last].number
    ensures EventsOf(a[startA..last + 1]) == EventsOf(b[startB..j + 1]) && Prefix(a[..startA]) == Prefix(b[..startB])
  {
    j := FoundLine(a[first..last + 1], run, last - first, b);
    assert ChainedAt(a, startA, last);
    HashFixesHistory(a, startA, last, b, startB, j);
  }

  lemma ChainedFromStart(log: seq<Line>, start: nat)
    requires IsChained(log, start)
    ensures forall i :: 0 <= i < |log| ==> (log[i].event.integrity.None? <==> i < start)
  {
    forall i | start <= i < |log| ensures log[i].event.integrity.Some? {
      assert ChainedAt(log, start, i);
    }
  }

  /** Every run whose events are all chained exports, and what is exported verifies, alone and against its log. */
  method ExportThenVerify(log: seq<Line>, ghost start: nat, run: string)
    returns (s: Segment, issues: seq<Issue>, found: bool)
    requires IsChained(log, start) && Numbered(log)
    ensures s.Segment? <==> && (exists i :: 0 <= i < |log| && InRun(log[i], run))
                            && (forall i :: 0 <= i < |log| && InRun(log[i], run) ==> start <= i)
    ensures s.Segment? ==> issues == [] && found
  {
    ghost var first, last;
    s, first, last := ChainSegment(log, run);
    issues, found := [], false;
    ChainedFromStart(log, start);
    if s.Segment? {
      ExportAgrees(log, start, run, first, last);
      ExportIsFound(log, run, first, last);
      issues := VerifyChain(s.chain, s.events, run);
      found := FoundIn(s.chain.links, log);
      assert InRun(log[first], run);
    } else {
      match s.why {
        case NoSuchRun => assert s == Failed(NoSuchRun);
        case PredatesChaining => assert s == Failed(PredatesChaining);
      }
    }
  }
}
