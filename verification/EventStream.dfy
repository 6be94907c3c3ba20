/**
 * The browser's resumable event stream: `streamRun` (webui/src/api.ts:189-221) and the reconnecting `watch`
 * around it (webui/src/App.tsx:289-343), against the server's replay (src/loro/webui/server.py:1000-1021).
 * The wire format is the subset of section 9.2.6 of the WHATWG HTML Living Standard that both sides use.
 */
module EventStream {
  import opened Common
  import opened Decimal
  import opened Strings

  // ---- Blocks: text up to a blank line ----

  predicate BreakAt(s: string, i: int) {
    0 <= i < |s| - 1 && s[i] == '\n' && s[i + 1] == '\n'
  }

  /** `indexOf("\n\n")`. */
  function Boundary(s: string): (r: int)
    ensures -1 <= r
    ensures r >= 0 ==> BreakAt(s, r)
    ensures forall i :: BreakAt(s, i) ==> 0 <= r <= i
  {
    if |s| < 2 then -1
    else if BreakAt(s, 0) then 0
    else
      var r := Boundary(s[1..]);
      assert forall i :: i > 0 && BreakAt(s, i) ==> BreakAt(s[1..], i - 1);
      if r < 0 then -1 else r + 1
  }

  function Blocks(s: string): seq<string> {
    var b := Boundary(s);
    if b < 0 then [] else [s[..b]] + Blocks(s[b + 2..])
  }

  /** The text after the last complete block. */
  function Remainder(s: string): string {
    var b := Boundary(s);
    if b < 0 then s else Remainder(s[b + 2..])
  }

  /** More text never changes the blocks already complete; it only continues the remainder. */
  lemma {:induction false} BlocksAppend(a: string, b: string)
    ensures Blocks(a + b) == Blocks(a) + Blocks(Remainder(a) + b)
    ensures Remainder(a + b) == Remainder(Remainder(a) + b)
    decreases |a|
  {
    var i := Boundary(a);
    if i >= 0 {
      assert BreakAt(a + b, i);
      var j := Boundary(a + b);
      assert BreakAt(a, j);
      assert (a + b)[..i] == a[..i] && (a + b)[i + 2..] == a[i + 2..] + b;
      BlocksAppend(a[i + 2..], b);
    }
  }

  // ---- Frames: the fields of one block ----

  datatype Frame = Frame(id: Option<nat>, event: Option<string>, data: Option<string>)

  /** The characters at which a multi-line regular expression starts a new line. */
  predicate Terminator(c: char) {
    c == '\n' || c == '\r' || c == '\U{2028}' || c == '\U{2029}'
  }

  predicate OneLine(s: string) {
    forall i :: 0 <= i < |s| ==> !Terminator(s[i])
  }

  function Lines(s: string): seq<string> {
    Split(s, Terminator)
  }

  /** The first line that is `prefix` followed by at least one character. */
  function Field(lines: seq<string>, prefix: string): Option<string> {
    if lines == [] then None
    else if prefix <= lines[0] && |lines[0]| > |prefix| then Some(lines[0][|prefix|..])
    else Field(lines[1..], prefix)
  }

  function IdField(lines: seq<string>): Option<nat> {
    if lines == [] then None
    else if "id: " <= lines[0] && |lines[0]| > 4 && AllDigits(lines[0][4..]) then Some(Value(lines[0][4..]))
    else IdField(lines[1..])
  }

  function Parse(block: string): Frame {
    var lines := Lines(block);
    Frame(IdField(lines), Field(lines, "event: "), Field(lines, "data: "))
  }

  // ---- What the server sends ----

  /** One event of a run; `data` is its JSON text, which has no raw line breaks. */
  datatype Entry = Entry(name: string, data: string)

  predicate Sendable(e: Entry) {
    e.name != [] && e.data != [] && OneLine(e.name) && OneLine(e.data)
  }

  datatype Item = Event(sequence: nat, entry: Entry) | Keepalive

  function Block(item: Item): string {
    match item
    case Keepalive => ": keepalive"
    case Event(n, e) => ("id: " + Digits(n)) + "\n" + (("event: " + e.name) + "\n" + ("data: " + e.data))
  }

  function Wire(items: seq<Item>): string {
    if items == [] then [] else (Block(items[0]) + "\n\n") + Wire(items[1..])
  }

  function FrameOf(item: Item): Frame {
    match item
    case Keepalive => Frame(None, None, None)
    case Event(n, e) => Frame(Some(n), Some(e.name), Some(e.data))
  }

  /** Entries from `first` on, with keep-alive comments wherever the schedule has false. */
  function Items(log: seq<Entry>, first: nat, schedule: seq<bool>): seq<Item>
    requires first <= |log|
    decreases |log| - first, |schedule|
  {
    if schedule != [] && !schedule[0] then [Keepalive] + Items(log, first, schedule[1..])
    else if first == |log| then []
    else [Event(first, log[first])] + Items(log, first + 1, if schedule == [] then [] else schedule[1..])
  }

  /** The server's cursor rule: everything past `after`. */
  function First(log: seq<Entry>, after: int): (first: nat)
    ensures first <= |log|
  {
    var cursor := if after < -1 then -1 else after;
    if cursor + 1 <= |log| then cursor + 1 else |log|
  }

  predicate Past(after: int, k: nat) {
    after < k
  }

  /** start is where the events numbered past the cursor begin. */
  predicate PastCursor(log: seq<Entry>, after: int, start: nat) {
    start <= |log| && forall k: nat :: k < |log| ==> (Past(after, k) <==> start <= k)
  }

  /** The first n events past the cursor have been delivered, and the new cursor is on the last of them. */
  predicate DeliveredPast(log: seq<Entry>, from: int, before: seq<Entry>, after: View, start: nat, n: nat) {
    && PastCursor(log, from, start) && start + n <= |log|
    && after == View(if n == 0 then from else start + n - 1, before + log[start..start + n])
  }

  /** The server replays exactly the events past the cursor; a cursor of -1 means all of them. */
  lemma ReplaysPastCursor(log: seq<Entry>, after: int)
    ensures PastCursor(log, after, First(log, after)) && (after == -1 ==> First(log, after) == 0)
  {
  }

  // ---- Reading back what was sent ----

  lemma LinesOf(a: string)
    requires OneLine(a)
    ensures Lines(a) == [a]
  {
    SplitWhole(a, Terminator);
  }

  /** Each of the four line terminators of ECMAScript divides what stands before it from what stands after it. */
  lemma LinesDivide(a: string, c: char, b: string)
    requires c == '\n' || c == '\r' || c == '\U{2028}' || c == '\U{2029}'
    ensures Lines(a + [c] + b) == Lines(a) + Lines(b)
  {
    SplitAt(a, c, b, Terminator);
  }

  /** A field is what follows its name on the first line that starts with the name and goes on after it. */
  lemma {:induction false} FieldIsFirstMatch(lines: seq<string>, prefix: string) returns (i: nat)
    ensures i <= |lines| && forall j :: 0 <= j < i ==> !(prefix < lines[j])
    ensures if i == |lines| then Field(lines, prefix) == None
            else prefix < lines[i] && Field(lines, prefix) == Some(lines[i][|prefix|..])
  {
    i := 0;
    if lines != [] && !(prefix < lines[0]) {
      i := FieldIsFirstMatch(lines[1..], prefix);
      assert forall j :: 0 <= j < i ==> lines[1..][j] == lines[j + 1];
      i := i + 1;
    }
  }

  predicate IdLine(line: string) {
    "id: " < line && AllDigits(line[4..])
  }

  /** The number of a block is that of the first line that is "id: " and digits. */
  lemma {:induction false} IdIsFirstNumber(lines: seq<string>) returns (i: nat)
    ensures i <= |lines| && forall j :: 0 <= j < i ==> !IdLine(lines[j])
    ensures if i == |lines| then IdField(lines) == None
            else IdLine(lines[i]) && IdField(lines) == Some(Value(lines[i][4..]))
  {
    i := 0;
    if lines != [] && !IdLine(lines[0]) {
      i := IdIsFirstNumber(lines[1..]);
      assert forall j :: 0 <= j < i ==> lines[1..][j] == lines[j + 1];
      i := i + 1;
    }
  }

  /** The text of an event on the wire, and of the comment that keeps a quiet connection open. */
  lemma WireFormat(n: nat, e: Entry, rest: seq<Item>)
    ensures Wire([Event(n, e)] + rest)
            == "id: " + Digits(n) + "\nevent: " + e.name + "\ndata: " + e.data + "\n\n" + Wire(rest)
    ensures Wire([Keepalive] + rest) == ": keepalive\n\n" + Wire(rest)
  {
    assert ([Event(n, e)] + rest)[1..] == rest && ([Keepalive] + rest)[1..] == rest;
    assert "\n" + "event: " == "\nevent: " && "\n" + "data: " == "\ndata: " && ": keepalive" + "\n\n" == ": keepalive\n\n";
    assert Block(Event(n, e)) == "id: " + Digits(n) + ("\n" + "event: ") + e.name + ("\n" + "data: ") + e.data;
  }

  /** Parsing a block the server wrote gives back the event's number, name and data. */
  lemma ParseBlock(item: Item)
    requires item.Event? ==> Sendable(item.entry)
    ensures Parse(Block(item)) == FrameOf(item)
  {
    match item
    case Keepalive =>
      LinesOf(": keepalive");
    case Event(n, e) =>
      hide Value, Block, Lines, Field, IdField, OneLine;
      LinesOfBlock(n, e);
      ReadsId(n, ["event: " + e.name, "data: " + e.data]);
      ReadsFields("id: " + Digits(n), e.name, e.data);
  }

  lemma LinesOfBlock(n: nat, e: Entry)
    requires Sendable(e)
    ensures Lines(Block(Event(n, e)))
            == ["id: " + Digits(n), "event: " + e.name, "data: " + e.data]
            == ["id: " + Digits(n)] + ["event: " + e.name, "data: " + e.data]
  {
    hide Lines;
    var l0, l1, l2 := "id: " + Digits(n), "event: " + e.name, "data: " + e.data;
    LinesDivide(l0, '\n', l1 + "\n" + l2);
    LinesDivide(l1, '\n', l2);
    LinesOf(l0);
    LinesOf(l1);
    LinesOf(l2);
  }

  lemma ReadsId(n: nat, rest: seq<string>)
    ensures IdField(["id: " + Digits(n)] + rest) == Some(n)
  {
    var line := "id: " + Digits(n);
    assert line[..4] == "id: " && line[4..] == Digits(n);
    ValueOfDigits(n);
  }

  lemma ReadsFields(l0: string, name: string, data: string)
    requires l0 != "" && l0[0] == 'i' && name != "" && data != ""
    ensures var lines := [l0, "event: " + name, "data: " + data];
            Field(lines, "event: ") == Some(name) && Field(lines, "data: ") == Some(data)
  {
    var l1, l2 := "event: " + name, "data: " + data;
    assert l1[..7] == "event: " && l1[7..] == name && l2[..6] == "data: " && l2[6..] == data;
    assert l1[0] == 'e' && "data: "[0] == 'd' && "event: "[0] == 'e';
    assert [l0, l1, l2][1..] == [l1, l2] && [l1, l2][1..] == [l2];
    SkipsLine(l0, [l1, l2], "event: ");
    SkipsLine(l0, [l1, l2], "data: ");
    SkipsLine(l1, [l2], "data: ");
  }

  lemma SkipsLine(line: string, rest: seq<string>, prefix: string)
    requires line != "" && prefix != "" && line[0] != prefix[0]
    ensures Field([line] + rest, prefix) == Field(rest, prefix)
  {
    assert ([line] + rest)[1..] == rest;
  }

  /** A block has no blank line inside it, and does not end in a line break. */
  lemma BlockIsClosed(item: Item, rest: string)
    requires item.Event? ==> Sendable(item.entry)
    ensures Boundary(Block(item) + "\n\n" + rest) == |Block(item)|
  {
    var b := Block(item);
    var s := b + "\n\n" + rest;
    assert BreakAt(s, |b|);
    forall i | 0 <= i < |b| ensures !BreakAt(s, i) {
      match item
      case Keepalive =>
        assert b[i] != '\n';
      case Event(n, e) =>
        var l0, l1, l2 := "id: " + Digits(n), "event: " + e.name, "data: " + e.data;
        assert OneLine(l0) && OneLine(l1) && OneLine(l2);
        assert b == l0 + ["\n"][0] + l1 + "\n" + l2;
        if i == |l0| {
          assert s[i + 1] == l1[0];
        } else if i == |l0| + 1 + |l1| {
          assert s[i + 1] == l2[0];
        } else if i < |l0| {
          assert s[i] == l0[i];
        } else if i < |l0| + 1 + |l1| {
          assert s[i] == l1[i - |l0| - 1];
        } else {
          assert s[i] == l2[i - |l0| - |l1| - 2];
        }
    }
  }

  predicate AllSendable(items: seq<Item>) {
    forall i :: 0 <= i < |items| && items[i].Event? ==> Sendable(items[i].entry)
  }

  function BlockTexts(items: seq<Item>): seq<string> {
    if items == [] then [] else [Block(items[0])] + BlockTexts(items[1..])
  }

  lemma BlocksStep(b: string, rest: string)
    requires Boundary(b + "\n\n" + rest) == |b|
    ensures Blocks(b + "\n\n" + rest) == [b] + Blocks(rest)
    ensures Remainder(b + "\n\n" + rest) == Remainder(rest)
  {
    var s := b + "\n\n" + rest;
    assert s[..|b|] == b && s[|b| + 2..] == rest;
  }

  lemma {:induction false} BlocksOfWire(items: seq<Item>)
    requires AllSendable(items)
    ensures Blocks(Wire(items)) == BlockTexts(items) && Remainder(Wire(items)) == []
  {
    if items != [] {
      BlocksOfWire(items[1..]);
      BlockIsClosed(items[0], Wire(items[1..]));
      BlocksStep(Block(items[0]), Wire(items[1..]));
    }
  }

  // ---- The browser's side ----

  datatype View = View(seen: int, delivered: seq<Entry>)

  /** `onCursor`, then `onEvent` when both fields are there. */
  function Handle(v: View, f: Frame): View {
    View(if f.id.Some? then f.id.value else v.seen,
         if f.event.Some? && f.data.Some? then v.delivered + [Entry(f.event.value, f.data.value)] else v.delivered)
  }

  function HandleAll(v: View, blocks: seq<string>): View
    decreases |blocks|
  {
    if blocks == [] then v else HandleAll(Handle(v, Parse(blocks[0])), blocks[1..])
  }

  function Flatten(chunks: seq<string>): string {
    if chunks == [] then [] else Flatten(chunks[..|chunks| - 1]) + chunks[|chunks| - 1]
  }

  /** A text cut into pieces of the given sizes, and whatever is left. */
  function Cut(text: string, sizes: seq<nat>): seq<string> {
    if sizes == [] || sizes[0] > |text| then [text]
    else [text[..sizes[0]]] + Cut(text[sizes[0]..], sizes[1..])
  }

  /**
   * What the network does with one connection: how many characters arrive before it drops (None: all of them,
   * and it closes cleanly), the sizes of the chunks, and when the server sends keep-alives.
   */
  datatype Attempt = Attempt(arrives: Option<nat>, sizes: seq<nat>, schedule: seq<bool>)

  function Received(log: seq<Entry>, after: int, a: Attempt): string {
    var text := Wire(Items(log, First(log, after), a.schedule));
    if a.arrives.Some? && a.arrives.value < |text| then text[..a.arrives.value] else text
  }

  const MAX_RECONNECTS := 5

  class Watcher {
    var seen: int
    var attempts: nat
    var delivered: seq<Entry>

    function Current(): View
      reads this
    {
      View(seen, delivered)
    }

    /** `streamRun`: whatever the chunks, exactly the complete blocks of their concatenation are handled. */
    method StreamRun(chunks: seq<string>)
      modifies this`seen, this`delivered
      ensures Current() == HandleAll(old(Current()), Blocks(Flatten(chunks)))
    {
      var buffer := "";
      for k := 0 to |chunks|
        invariant Current() == HandleAll(old(Current()), Blocks(Flatten(chunks[..k])))
        invariant buffer == Remainder(Flatten(chunks[..k]))
      {
        ghost var received, before := Flatten(chunks[..k]), Current();
        buffer := buffer + chunks[k];
        ghost var text := buffer;
        var boundary := Boundary(buffer);
        while boundary >= 0
          invariant boundary == Boundary(buffer)
          invariant HandleAll(Current(), Blocks(buffer)) == HandleAll(before, Blocks(text))
          invariant Remainder(buffer) == Remainder(text)
          decreases |buffer|
        {
          var block := buffer[..boundary];
          assert Blocks(buffer)[1..] == Blocks(buffer[boundary + 2..]);
          buffer := buffer[boundary + 2..];
          var frame := Parse(block);
          if frame.id.Some? {
            seen := frame.id.value;
          }
          if frame.event.Some? && frame.data.Some? {
            delivered := delivered + [Entry(frame.event.value, frame.data.value)];
          }
          boundary := Boundary(buffer);
        }
        BlocksAppend(received, chunks[k]);
        HandleAppend(old(Current()), Blocks(received), Blocks(text));
        assert chunks[..k + 1][..k] == chunks[..k];
      }
      assert chunks[..|chunks|] == chunks;
    }

    method Connect(log: seq<Entry>, a: Attempt) returns (ghost n: nat)
      requires forall i :: 0 <= i < |log| ==> Sendable(log[i])
      modifies this`seen, this`delivered
      ensures var first := First(log, old(seen));
              && first + n <= |log|
              && delivered == old(delivered) + log[first..first + n]
              && seen == (if n == 0 then old(seen) else first + n - 1)
              && (a.arrives.None? ==> first + n == |log|)
    {
      n := ConnectionDelivers(log, seen, a, Current());
      StreamRun(Cut(Received(log, seen, a), a.sizes));
    }

    /**
     * `watch`: the delivered events are the first so many of those past the starting cursor, each once and in order;
     * all of them if it finishes; and it finishes unless the first six connections all drop.
     */
    method Watch(log: seq<Entry>, from: int, net: seq<Attempt>) returns (finished: bool)
      requires forall i :: 0 <= i < |log| ==> Sendable(log[i])
      requires |net| >= 6
      modifies this
      ensures exists start: nat, n: nat ::
                DeliveredPast(log, from, old(delivered), Current(), start, n) && (finished ==> start + n == |log|)
      ensures finished && from == -1 ==> delivered == old(delivered) + log
      ensures finished ==> attempts <= 5 && net[attempts].arrives.None?
      ensures !finished ==> attempts == 6
      ensures forall k :: 0 <= k < attempts ==> net[k].arrives.Some?
    {
      hide Sendable, Received, First, DeliveredPast;
      seen, attempts := from, 0;
      ghost var start, n: nat := First(log, from), 0;
      NothingYet(log, from, delivered);
      while true
        invariant attempts <= MAX_RECONNECTS && start == First(log, from)
        invariant DeliveredPast(log, from, old(delivered), Current(), start, n)
        invariant forall k :: 0 <= k < attempts ==> net[k].arrives.Some?
        decreases MAX_RECONNECTS - attempts
      {
        var a := net[attempts];
        ghost var v := Current();
        ghost var more := Connect(log, a);
        DeliversOn(log, from, old(delivered), v, Current(), n, more);
        n := n + more;
        if a.arrives.None? {
          AllPastMinusOne(log, from, old(delivered), Current(), n);
          return true;
        }
        attempts := attempts + 1;
        if attempts > MAX_RECONNECTS {
          assert DeliveredPast(log, from, old(delivered), Current(), start, n);
          return false;
        }
      }
    }
  }

  lemma NothingYet(log: seq<Entry>, from: int, delivered: seq<Entry>)
    ensures DeliveredPast(log, from, delivered, View(from, delivered), First(log, from), 0)
  {
    ReplaysPastCursor(log, from);
    assert delivered + log[First(log, from)..First(log, from)] == delivered;
  }

  /** Another connection goes on where the delivery so far left off. */
  lemma DeliversOn(log: seq<Entry>, from: int, before: seq<Entry>, v: View, w: View, n: nat, more: nat)
    requires DeliveredPast(log, from, before, v, First(log, from), n)
    requires var first := First(log, v.seen);
             && first + more <= |log| && w.delivered == v.delivered + log[first..first + more]
             && w.seen == if more == 0 then v.seen else first + more - 1
    ensures DeliveredPast(log, from, before, w, First(log, from), n + more)
    ensures First(log, from) + n + more == First(log, v.seen) + more
  {
    hide PastCursor, First;
    ResumesAt(log, from, n);
    JoinStretches(log, First(log, from), n, more);
  }

  lemma AllPastMinusOne(log: seq<Entry>, from: int, before: seq<Entry>, v: View, n: nat)
    requires DeliveredPast(log, from, before, v, First(log, from), n) && First(log, from) + n == |log|
    ensures from == -1 ==> v.delivered == before + log
  {
    hide PastCursor;
    if from == -1 {
      assert First(log, from) == 0 && log[0..|log|] == log;
    }
  }

  /** Asking for what comes after the last event delivered goes on where that left off. */
  lemma ResumesAt(log: seq<Entry>, from: int, n: nat)
    requires First(log, from) + n <= |log|
    ensures First(log, if n == 0 then from else First(log, from) + n - 1) == First(log, from) + n
  {
  }

  lemma JoinStretches<T>(s: seq<T>, start: nat, n: nat, more: nat)
    requires start + n + more <= |s|
    ensures s[start..start + n] + s[start + n..start + n + more] == s[start..start + n + more]
  {
  }

  lemma {:induction false} HandleAppend(v: View, a: seq<string>, b: seq<string>)
    ensures HandleAll(v, a + b) == HandleAll(HandleAll(v, a), b)
    decreases |a|
  {
    if a == [] {
      assert a + b == b;
    } else {
      assert (a + b)[1..] == a[1..] + b;
      HandleAppend(Handle(v, Parse(a[0])), a[1..], b);
    }
  }

  lemma {:induction false} FlattenPrepend(a: string, chunks: seq<string>)
    ensures Flatten([a] + chunks) == a + Flatten(chunks)
  {
    var all := [a] + chunks;
    if chunks == [] {
      assert all[..0] == [];
    } else {
      assert all[..|all| - 1] == [a] + chunks[..|chunks| - 1];
      FlattenPrepend(a, chunks[..|chunks| - 1]);
    }
  }

  lemma {:induction false} FlattenCut(text: string, sizes: seq<nat>)
    ensures Flatten(Cut(text, sizes)) == text
  {
    if sizes == [] || sizes[0] > |text| {
      assert [text][..0] == [];
    } else {
      FlattenCut(text[sizes[0]..], sizes[1..]);
      FlattenPrepend(text[..sizes[0]], Cut(text[sizes[0]..], sizes[1..]));
    }
  }

  /** Any chunks at all are a way of cutting their text. */
  lemma {:induction false} AnyChunksAreCut(chunks: seq<string>) returns (sizes: seq<nat>)
    requires chunks != []
    ensures Cut(Flatten(chunks), sizes) == chunks
  {
    var first, rest := chunks[0], chunks[1..];
    assert chunks == [first] + rest;
    FlattenPrepend(first, rest);
    if rest == [] {
      sizes := [];
      assert Flatten(rest) == "" && first + "" == first;
    } else {
      var more := AnyChunksAreCut(rest);
      sizes := [|first|] + more;
      var text := Flatten(chunks);
      assert sizes[1..] == more && text[..|first|] == first && text[|first|..] == Flatten(rest);
    }
  }

  /** A connection can drop after any number of characters: what then arrives are those. */
  lemma DropsAnywhere(log: seq<Entry>, after: int, a: Attempt, n: nat)
    requires a.arrives == None && n <= |Received(log, after, a)|
    ensures Received(log, after, a) == Wire(Items(log, First(log, after), a.schedule))
    ensures Received(log, after, a.(arrives := Some(n))) == Received(log, after, a)[..n]
  {
    assert n == |Received(log, after, a)| ==> Received(log, after, a)[..n] == Received(log, after, a);
  }

  lemma {:induction false} ItemsSendable(log: seq<Entry>, first: nat, schedule: seq<bool>)
    requires first <= |log| && forall i :: 0 <= i < |log| ==> Sendable(log[i])
    ensures AllSendable(Items(log, first, schedule))
    decreases |log| - first, |schedule|
  {
    if schedule != [] && !schedule[0] {
      ItemsSendable(log, first, schedule[1..]);
    } else if first < |log| {
      ItemsSendable(log, first + 1, if schedule == [] then [] else schedule[1..]);
    }
  }

  /** From v to w, exactly the next n events of the log were delivered and the cursor is on the last of them. */
  predicate Advanced(log: seq<Entry>, first: nat, n: nat, v: View, w: View) {
    && first + n <= |log|
    && w == View(if n == 0 then v.seen else first + n - 1, v.delivered + log[first..first + n])
  }

  lemma AdvanceOne(log: seq<Entry>, first: nat, m: nat, v: View, w: View)
    requires first < |log| && Advanced(log, first + 1, m, Handle(v, FrameOf(Event(first, log[first]))), w)
    ensures Advanced(log, first, m + 1, v, w)
  {
    assert v.delivered + [log[first]] + log[first + 1..first + 1 + m] == v.delivered + log[first..first + m + 1];
  }

  /** Handling the first `p` blocks the server sends delivers the next so many events of the log. */
  lemma {:induction false} PrefixDelivers(log: seq<Entry>, first: nat, schedule: seq<bool>, p: nat, v: View)
    returns (n: nat)
    requires first <= |log| && forall i :: 0 <= i < |log| ==> Sendable(log[i])
    requires p <= |Items(log, first, schedule)|
    ensures Advanced(log, first, n, v, HandleAll(v, BlockTexts(Items(log, first, schedule)[..p])))
    ensures p == |Items(log, first, schedule)| ==> first + n == |log|
    decreases |log| - first, |schedule|
  {
    hide BlockTexts, HandleAll, Parse, Block, Sendable;
    var items := Items(log, first, schedule);
    if p == 0 {
      NothingHandled(v, items);
      n := 0;
    } else {
      ItemsSendable(log, first, schedule);
      HandleFirst(v, items, p);
      var v1 := Handle(v, FrameOf(items[0]));
      if schedule != [] && !schedule[0] {
        assert items[1..] == Items(log, first, schedule[1..]);
        n := PrefixDelivers(log, first, schedule[1..], p - 1, v1);
      } else {
        var next := if schedule == [] then [] else schedule[1..];
        assert items[1..] == Items(log, first + 1, next);
        var m := PrefixDelivers(log, first + 1, next, p - 1, v1);
        AdvanceOne(log, first, m, v, HandleAll(v1, BlockTexts(Items(log, first + 1, next)[..p - 1])));
        n := m + 1;
      }
    }
  }

  lemma NothingHandled(v: View, items: seq<Item>)
    ensures HandleAll(v, BlockTexts(items[..0])) == v
  {
  }

  lemma HandleFirst(v: View, items: seq<Item>, p: nat)
    requires 0 < p <= |items| && AllSendable(items)
    ensures HandleAll(v, BlockTexts(items[..p]))
            == HandleAll(Handle(v, FrameOf(items[0])), BlockTexts(items[1..][..p - 1]))
  {
    ParseBlock(items[0]);
    assert items[..p][1..] == items[1..][..p - 1];
    assert BlockTexts(items[..p])[1..] == BlockTexts(items[1..][..p - 1]);
  }

  lemma {:induction false} BlockTextsTake(items: seq<Item>, p: nat)
    requires p <= |items|
    ensures |BlockTexts(items)| == |items| && BlockTexts(items)[..p] == BlockTexts(items[..p])
  {
    if items != [] {
      if p == 0 {
        BlockTextsTake(items[1..], 0);
      } else {
        BlockTextsTake(items[1..], p - 1);
        assert items[..p][1..] == items[1..][..p - 1];
      }
    }
  }

  /** Whatever prefix of the server's text arrives, the complete blocks in it are the first blocks sent. */
  lemma PrefixBlocks(items: seq<Item>, got: string) returns (p: nat)
    requires AllSendable(items) && got <= Wire(items)
    ensures p <= |items| && Blocks(got) == BlockTexts(items[..p])
    ensures got == Wire(items) ==> p == |items|
  {
    BlocksOfWire(items);
    var rest := Wire(items)[|got|..];
    assert Wire(items) == got + rest;
    BlocksAppend(got, rest);
    p := |Blocks(got)|;
    BlockTextsTake(items, |items|);
    assert Blocks(got) == BlockTexts(items)[..p];
    BlockTextsTake(items, p);
  }

  /** One connection, cut anywhere and into any chunks, delivers the next so many events past the cursor. */
  lemma ConnectionDelivers(log: seq<Entry>, after: int, a: Attempt, v: View) returns (n: nat)
    requires forall i :: 0 <= i < |log| ==> Sendable(log[i])
    ensures Advanced(log, First(log, after), n, v,
                     HandleAll(v, Blocks(Flatten(Cut(Received(log, after, a), a.sizes)))))
    ensures a.arrives.None? ==> First(log, after) + n == |log|
  {
    var first, got := First(log, after), Received(log, after, a);
    var items := Items(log, first, a.schedule);
    FlattenCut(got, a.sizes);
    ItemsSendable(log, first, a.schedule);
    var p := PrefixBlocks(items, got);
    n := PrefixDelivers(log, first, a.schedule, p, v);
  }
}
