/** Provider event streams: bounded retry and tool-call reassembly (src/loro/models.py:238-305, 452-511). */
module ProviderStream {
  import opened Common

  // ---- Retry ----

  /** What one attempt yields before it ends, and whether it ends cleanly or with a transport error. */
  datatype Attempt<E> = Attempt(events: seq<E>, broken: bool)

  function Pow2(n: nat): nat {
    if n == 0 then 1 else 2 * Pow2(n - 1)
  }

  /**
   * `_stream_events`: retries only while nothing has been emitted, so all events come from one attempt. It makes
   * at most `maxRetries + 1` attempts, and k retries pause for `backoff * (2^k - 1)` in all.
   */
  method StreamEvents<E>(maxRetries: nat, backoff: nat, attempts: nat -> Attempt<E>)
    returns (emitted: seq<E>, failed: bool, retries: nat, paused: nat)
    ensures retries <= maxRetries
    ensures emitted == attempts(retries).events
    ensures forall k :: 0 <= k < retries ==> attempts(k).broken && attempts(k).events == []
    ensures failed <==> attempts(retries).broken && emitted != []
    ensures attempts(retries).broken && emitted == [] ==> retries == maxRetries
    ensures paused == backoff * (Pow2(retries) - 1)
  {
    emitted, failed, retries, paused := [], false, 0, 0;
    while true
      invariant retries <= maxRetries && emitted == []
      invariant forall k :: 0 <= k < retries ==> attempts(k).broken && attempts(k).events == []
      invariant paused == backoff * (Pow2(retries) - 1)
      decreases maxRetries - retries
    {
      var a := attempts(retries);
      emitted := emitted + a.events;
      if !a.broken { return; }
      if emitted != [] {
        failed := true;
        return;
      }
      if retries == maxRetries { return; }
      PauseDoubles(backoff, retries);
      paused := paused + backoff * Pow2(retries);
      retries := retries + 1;
    }
  }

  /** The first pause is the backoff itself, and each later one is twice the pause before it. */
  lemma PauseDoubles(backoff: nat, k: nat)
    ensures backoff * Pow2(0) == backoff && backoff * Pow2(k + 1) == 2 * (backoff * Pow2(k))
    ensures backoff * (Pow2(k) - 1) + backoff * Pow2(k) == backoff * (Pow2(k + 1) - 1)
  {
    assert backoff * (Pow2(k) - 1) + backoff * Pow2(k) == backoff * ((Pow2(k) - 1) + Pow2(k));
    assert backoff * (2 * Pow2(k)) == 2 * (backoff * Pow2(k));
  }

  // ---- Reassembly ----

  /** One streamed piece of the tool call at `index`; an absent id, name or argument text is empty. */
  datatype Fragment = Fragment(index: int, id: string, name: string, arguments: string)
  datatype Call = Call(id: string, name: string, arguments: string)

  /** An event without a usable delta, a delta, or a delta whose tool calls are not a list. */
  datatype Event =
    | Ignored
    | Delta(content: string, fragments: seq<Fragment>)
    | Malformed(content: string)

  const NEW_CALL := Call("", "", "")

  function Extend(c: Call, f: Fragment): Call {
    Call(if f.id != "" then f.id else c.id, c.name + f.name, c.arguments + f.arguments)
  }

  /** The fragments of one index, in order. */
  function Project(fragments: seq<Fragment>, index: int): seq<Fragment> {
    if fragments == [] then []
    else Project(fragments[..|fragments| - 1], index)
         + (if fragments[|fragments| - 1].index == index then [fragments[|fragments| - 1]] else [])
  }

  function Names(fragments: seq<Fragment>): string {
    if fragments == [] then "" else Names(fragments[..|fragments| - 1]) + fragments[|fragments| - 1].name
  }

  function Arguments(fragments: seq<Fragment>): string {
    if fragments == [] then "" else Arguments(fragments[..|fragments| - 1]) + fragments[|fragments| - 1].arguments
  }

  function LastId(fragments: seq<Fragment>): string {
    if fragments == [] then ""
    else if fragments[|fragments| - 1].id != "" then fragments[|fragments| - 1].id
    else LastId(fragments[..|fragments| - 1])
  }

  /** The call at an index: its fragments' texts joined in order, and the last id given. */
  function CallAt(fragments: seq<Fragment>, index: int): Call {
    var own := Project(fragments, index);
    Call(LastId(own), Names(own), Arguments(own))
  }

  function Indices(fragments: seq<Fragment>): set<int> {
    if fragments == [] then {} else Indices(fragments[..|fragments| - 1]) + {fragments[|fragments| - 1].index}
  }

  predicate IsMin(m: int, keys: set<int>) {
    m in keys && forall k :: k in keys ==> m <= k
  }

  lemma Member<T>(keys: set<T>) returns (m: T)
    requires keys != {}
    ensures m in keys
  {
    m :| m in keys;
  }

  lemma {:induction false} MinExists(keys: set<int>)
    requires keys != {}
    ensures exists m :: IsMin(m, keys)
  {
    var m := Member(keys);
    var others := keys - {m};
    if others == {} {
      assert forall k :: k in keys ==> k == m || k in others;
      assert IsMin(m, keys);
    } else {
      MinExists(others);
      var n :| IsMin(n, others);
      assert forall k :: k in keys ==> k == m || k in others;
      assert IsMin(if n < m then n else m, keys);
    }
  }

  /** `sorted(...)` of a dictionary's keys. */
  function Sorted(keys: set<int>): seq<int> {
    if keys == {} then []
    else
      MinExists(keys);
      var m :| IsMin(m, keys);
      [m] + Sorted(keys - {m})
  }

  lemma {:induction false} SortedIsSorted(keys: set<int>)
    ensures forall i :: 0 <= i < |Sorted(keys)| ==> Sorted(keys)[i] in keys
    ensures forall i, j :: 0 <= i < j < |Sorted(keys)| ==> Sorted(keys)[i] < Sorted(keys)[j]
    ensures forall k :: k in keys ==> k in Sorted(keys)
    ensures |Sorted(keys)| == |keys|
  {
    if keys != {} {
      var m := Sorted(keys)[0];
      SortedIsSorted(keys - {m});
      assert Sorted(keys) == [m] + Sorted(keys - {m});
    }
  }

  /** The reassembled calls, by increasing index. */
  function Reassembled(fragments: seq<Fragment>): seq<Call> {
    CallsAt(fragments, Sorted(Indices(fragments)))
  }

  function CallsAt(fragments: seq<Fragment>, indices: seq<int>): (calls: seq<Call>)
    ensures |calls| == |indices|
    ensures forall k :: 0 <= k < |indices| ==> calls[k] == CallAt(fragments, indices[k])
  {
    if indices == [] then [] else [CallAt(fragments, indices[0])] + CallsAt(fragments, indices[1..])
  }

  ghost predicate SameCalls(a: seq<Fragment>, b: seq<Fragment>) {
    forall index :: CallAt(a, index) == CallAt(b, index)
  }

  lemma {:induction false} SameCallsAt(a: seq<Fragment>, b: seq<Fragment>, indices: seq<int>)
    requires SameCalls(a, b)
    ensures CallsAt(a, indices) == CallsAt(b, indices)
  {
    if indices != [] {
      SameCallsAt(a, b, indices[1..]);
    }
  }

  function Fragments(events: seq<Event>): seq<Fragment> {
    if events == [] then []
    else Fragments(events[..|events| - 1])
         + (if events[|events| - 1].Delta? then events[|events| - 1].fragments else [])
  }

  function Content(events: seq<Event>): string {
    if events == [] then ""
    else Content(events[..|events| - 1])
         + (if events[|events| - 1].Ignored? then "" else events[|events| - 1].content)
  }

  function Concat(parts: seq<string>): string {
    if parts == [] then "" else Concat(parts[..|parts| - 1]) + parts[|parts| - 1]
  }

  datatype Result = NothingStreamed | MalformedCalls(at: nat) | Response(content: string, calls: seq<Call>)

  predicate NoneMalformed(events: seq<Event>) {
    forall e :: e in events ==> !e.Malformed?
  }

  /** The dictionary of pending calls holds, for each index seen, the call so far. */
  ghost predicate Pending(pending: map<int, Call>, fragments: seq<Fragment>) {
    && pending.Keys == Indices(fragments)
    && (forall index :: index in pending ==> pending[index] == CallAt(fragments, index))
  }

  lemma IndicesAppend(fragments: seq<Fragment>, f: Fragment)
    ensures Indices(fragments + [f]) == Indices(fragments) + {f.index}
  {
    assert (fragments + [f])[..|fragments|] == fragments;
  }

  lemma ProjectAppend(fragments: seq<Fragment>, f: Fragment, index: int)
    ensures Project(fragments + [f], index) == Project(fragments, index) + (if f.index == index then [f] else [])
  {
    assert (fragments + [f])[..|fragments|] == fragments;
  }

  lemma {:induction false} ProjectTellsIndex(fragments: seq<Fragment>, index: int)
    ensures index in Indices(fragments) <==> Project(fragments, index) != []
  {
    if fragments != [] {
      ProjectTellsIndex(fragments[..|fragments| - 1], index);
    }
  }

  lemma CallAtAppend(fragments: seq<Fragment>, f: Fragment, index: int)
    ensures CallAt(fragments + [f], index) ==
              if f.index == index then Extend(CallAt(fragments, index), f) else CallAt(fragments, index)
  {
    ProjectAppend(fragments, f, index);
    Snoc(Project(fragments, index), f);
  }

  lemma Snoc(own: seq<Fragment>, f: Fragment)
    ensures Names(own + [f]) == Names(own) + f.name && Arguments(own + [f]) == Arguments(own) + f.arguments
    ensures LastId(own + [f]) == if f.id != "" then f.id else LastId(own)
    ensures own + [] == own
  {
    assert (own + [f])[..|own|] == own;
  }

  lemma NonePending(events: seq<Event>)
    ensures Pending(map[], Fragments(events[..0]))
  {
  }

  method AddFragment(pending: map<int, Call>, ghost fragments: seq<Fragment>, f: Fragment)
    returns (updated: map<int, Call>)
    requires Pending(pending, fragments)
    ensures Pending(updated, fragments + [f])
  {
    var call := if f.index in pending then pending[f.index] else NEW_CALL;
    updated := pending[f.index := Extend(call, f)];
    IndicesAppend(fragments, f);
    ProjectTellsIndex(fragments, f.index);
    forall index | index in updated ensures updated[index] == CallAt(fragments + [f], index) {
      CallAtAppend(fragments, f, index);
    }
  }

  method Collect(pending: map<int, Call>, ghost fragments: seq<Fragment>) returns (calls: seq<Call>)
    requires Pending(pending, fragments)
    ensures calls == Reassembled(fragments)
  {
    hide CallAt, Sorted, Indices;
    var indices := Sorted(pending.Keys);
    SortedIsSorted(pending.Keys);
    calls := seq(|indices|, k requires 0 <= k < |indices| && indices[k] in pending => pending[indices[k]]);
  }

  /**
   * `stream_complete`: the text is the chunks joined, the tool calls are reassembled per index, and every token
   * handed on is part of the text. Nothing streamed means the caller falls back to a plain request.
   */
  method StreamComplete(events: seq<Event>) returns (r: Result, tokens: seq<string>)
    ensures r.NothingStreamed? <==> events == []
    ensures r.NothingStreamed? ==> tokens == []
    ensures r.MalformedCalls? <==> !NoneMalformed(events)
    ensures r.MalformedCalls? ==> r.at < |events| && events[r.at].Malformed? && NoneMalformed(events[..r.at])
                                  && Concat(tokens) == Content(events[..r.at + 1])
    ensures r.Response? ==> r.content == Content(events) == Concat(tokens)
                            && r.calls == Reassembled(Fragments(events))
  {
    hide Pending, Reassembled;
    NonePending(events);
    var pending: map<int, Call> := map[];
    var content := "";
    tokens := [];
    for n := 0 to |events|
      invariant NoneMalformed(events[..n])
      invariant content == Content(events[..n]) == Concat(tokens)
      invariant n == 0 ==> tokens == []
      invariant Pending(pending, Fragments(events[..n]))
    {
      var e := events[n];
      OneMore(events, n);
      if e.Ignored? { continue; }
      content, tokens := AddContent(content, tokens, e.content);
      if e.Malformed? {
        assert e in events;
        return MalformedCalls(n), tokens;
      }
      pending := AddFragments(pending, Fragments(events[..n]), e.fragments);
    }
    assert events[..|events|] == events;
    if events == [] { return NothingStreamed, tokens; }
    var calls := Collect(pending, Fragments(events));
    r := Response(content, calls);
  }

  method AddContent(content: string, tokens: seq<string>, chunk: string) returns (text: string, handed: seq<string>)
    requires content == Concat(tokens)
    ensures text == content + chunk == Concat(handed)
  {
    text, handed := content, tokens;
    if chunk != "" {
      ConcatAppend(tokens, chunk);
      text, handed := content + chunk, tokens + [chunk];
    }
  }

  lemma OneMore(events: seq<Event>, n: nat)
    requires n < |events|
    ensures var e := events[n];
            && Content(events[..n + 1]) == (if e.Ignored? then Content(events[..n]) else Content(events[..n]) + e.content)
            && Fragments(events[..n + 1])
               == (if e.Delta? then Fragments(events[..n]) + e.fragments else Fragments(events[..n]))
            && (NoneMalformed(events[..n + 1]) <==> NoneMalformed(events[..n]) && !e.Malformed?)
  {
    assert events[..n + 1][..n] == events[..n];
    assert events[..n + 1] == events[..n] + [events[n]];
    assert Content(events[..n]) + "" == Content(events[..n]);
    assert Fragments(events[..n]) + [] == Fragments(events[..n]);
  }

  lemma ConcatAppend(parts: seq<string>, part: string)
    ensures Concat(parts + [part]) == Concat(parts) + part
  {
    assert (parts + [part])[..|parts|] == parts;
  }

  lemma OneFurther<T>(earlier: seq<T>, items: seq<T>, i: nat)
    requires i < |items|
    ensures earlier + items[..i] + [items[i]] == earlier + items[..i + 1]
  {
  }

  method AddFragments(before: map<int, Call>, ghost earlier: seq<Fragment>, fragments: seq<Fragment>)
    returns (pending: map<int, Call>)
    requires Pending(before, earlier)
    ensures Pending(pending, earlier + fragments)
  {
    pending := before;
    ghost var seen := earlier;
    for i := 0 to |fragments|
      invariant seen == earlier + fragments[..i]
      invariant Pending(pending, seen)
    {
      pending := AddFragment(pending, seen, fragments[i]);
      OneFurther(earlier, fragments, i);
      seen := seen + [fragments[i]];
    }
    assert fragments[..|fragments|] == fragments;
  }

  // ---- How the provider cuts the stream does not matter ----

  /** Streams whose fragments agree index by index reassemble to the same calls, however they interleave. */
  lemma InterleavingDoesNotMatter(a: seq<Fragment>, b: seq<Fragment>)
    requires forall index :: Project(a, index) == Project(b, index)
    ensures Reassembled(a) == Reassembled(b)
  {
    forall index ensures index in Indices(a) <==> index in Indices(b) {
      ProjectTellsIndex(a, index);
      ProjectTellsIndex(b, index);
    }
    SameMembers(Indices(a), Indices(b));
    SameReassembly(a, b);
  }

  lemma SameReassembly(a: seq<Fragment>, b: seq<Fragment>)
    requires Indices(a) == Indices(b) && SameCalls(a, b)
    ensures Reassembled(a) == Reassembled(b)
  {
    SameCallsAt(a, b, Sorted(Indices(a)));
  }

  /** f cut in two: the texts split anywhere, the id in either piece (or both). */
  predicate SplitOf(f: Fragment, f1: Fragment, f2: Fragment) {
    && f1.index == f2.index == f.index
    && f.name == f1.name + f2.name && f.arguments == f1.arguments + f2.arguments
    && f.id == (if f2.id != "" then f2.id else f1.id)
  }

  lemma {:induction false} SplitKeepsCalls(before: seq<Fragment>, f: Fragment, f1: Fragment, f2: Fragment,
                                           after: seq<Fragment>, index: int)
    requires SplitOf(f, f1, f2)
    ensures CallAt(before + [f1, f2] + after, index) == CallAt(before + [f] + after, index)
    ensures index in Indices(before + [f1, f2] + after) <==> index in Indices(before + [f] + after)
  {
    hide CallAt, Indices;
    if after == [] {
      assert before + [f1, f2] + after == before + [f1] + [f2];
      assert before + [f] + after == before + [f];
      SplitAtEnd(before, f, f1, f2, index);
    } else {
      var front, last := after[..|after| - 1], after[|after| - 1];
      SplitKeepsCalls(before, f, f1, f2, front, index);
      assert before + [f1, f2] + after == (before + [f1, f2] + front) + [last];
      assert before + [f] + after == (before + [f] + front) + [last];
      SameAppend(before + [f1, f2] + front, before + [f] + front, last, index);
    }
  }

  lemma SplitAtEnd(before: seq<Fragment>, f: Fragment, f1: Fragment, f2: Fragment, index: int)
    requires SplitOf(f, f1, f2)
    ensures CallAt(before + [f1] + [f2], index) == CallAt(before + [f], index)
    ensures index in Indices(before + [f1] + [f2]) <==> index in Indices(before + [f])
  {
    hide CallAt, Indices, Extend;
    CallAtAppend(before, f, index);
    CallAtAppend(before, f1, index);
    CallAtAppend(before + [f1], f2, index);
    IndicesAppend(before, f);
    IndicesAppend(before, f1);
    IndicesAppend(before + [f1], f2);
    ExtendTwice(CallAt(before, index), f, f1, f2);
  }

  lemma ExtendTwice(c: Call, f: Fragment, f1: Fragment, f2: Fragment)
    requires SplitOf(f, f1, f2)
    ensures Extend(Extend(c, f1), f2) == Extend(c, f)
  {
    assert c.name + f1.name + f2.name == c.name + f.name;
    assert c.arguments + f1.arguments + f2.arguments == c.arguments + f.arguments;
  }

  lemma SameAppend(a: seq<Fragment>, b: seq<Fragment>, last: Fragment, index: int)
    requires CallAt(a, index) == CallAt(b, index) && (index in Indices(a) <==> index in Indices(b))
    ensures CallAt(a + [last], index) == CallAt(b + [last], index)
    ensures index in Indices(a + [last]) <==> index in Indices(b + [last])
  {
    CallAtAppend(a, last, index);
    CallAtAppend(b, last, index);
    IndicesAppend(a, last);
    IndicesAppend(b, last);
  }

  lemma SplitKeepsAllCalls(before: seq<Fragment>, f: Fragment, f1: Fragment, f2: Fragment, after: seq<Fragment>,
                           a: seq<Fragment>, b: seq<Fragment>)
    requires SplitOf(f, f1, f2)
    requires a == before + [f1, f2] + after && b == before + [f] + after
    ensures Indices(a) == Indices(b) && SameCalls(a, b)
  {
    forall index ensures index in Indices(a) <==> index in Indices(b) {
      SplitKeepsCalls(before, f, f1, f2, after, index);
    }
    SameMembers(Indices(a), Indices(b));
    forall index ensures CallAt(a, index) == CallAt(b, index) {
      SplitKeepsCalls(before, f, f1, f2, after, index);
    }
  }

  /** Splitting a fragment leaves the reassembled calls as they were. */
  lemma SplittingDoesNotMatter(before: seq<Fragment>, f: Fragment, f1: Fragment, f2: Fragment, after: seq<Fragment>)
    requires SplitOf(f, f1, f2)
    ensures Reassembled(before + [f1, f2] + after) == Reassembled(before + [f] + after)
  {
    SplitKeepsAllCalls(before, f, f1, f2, after, before + [f1, f2] + after, before + [f] + after);
    SameReassembly(before + [f1, f2] + after, before + [f] + after);
  }
}
