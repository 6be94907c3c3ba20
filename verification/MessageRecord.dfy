/** A message between sessions and the record it is stored as (src/loro/session_messages.py:23-65, 147-194). */
module MessageRecord {
  import opened Common
  import opened Strings

  datatype Status = Queued | Delivered | Acknowledged

  /** Times are in microseconds. A message is stored under its recipient and its id, which is never used twice. */
  datatype Message = Message(sender: string, recipient: string, content: string, id: nat, status: Status,
                             createdAt: int, deliveredAt: Option<int>, acknowledgedAt: Option<int>)

  datatype Key = Key(recipient: string, id: nat)

  function Rank(s: Status): nat {
    match s
    case Queued => 0
    case Delivered => 1
    case Acknowledged => 2
  }

  /** b is the message a as it was sent, no earlier in its life, with the times already set kept. */
  predicate Later(a: Message, b: Message) {
    && b == a.(status := b.status, deliveredAt := b.deliveredAt, acknowledgedAt := b.acknowledgedAt)
    && Rank(a.status) <= Rank(b.status)
    && (a.deliveredAt.Some? ==> b.deliveredAt == a.deliveredAt)
    && (a.acknowledgedAt.Some? ==> b.acknowledgedAt == a.acknowledgedAt)
  }

  /** Which times each stage has set. */
  predicate Staged(m: Message) {
    && (m.status == Queued <==> m.deliveredAt == None)
    && (m.status == Acknowledged <==> m.acknowledgedAt.Some?)
  }

  /** There is no way back: messages each later than the other are the same. */
  lemma NoWayBack(a: Message, b: Message)
    requires Later(a, b) && Later(b, a)
    ensures a == b
  {
  }

  function Handed(m: Message, now: int): Message {
    if m.status == Queued then m.(status := Delivered, deliveredAt := Some(now)) else m
  }

  function Acked(m: Message, now: int): Message {
    m.(status := Acknowledged, acknowledgedAt := Some(now))
  }

  // ---- The stored record: indented JSON with sorted keys, in ASCII ----

  function EscapedSize(c: char): nat {
    var n := c as int;
    if c == '\"' || c == '\\' || n in {8, 9, 10, 12, 13} then 2
    else if 32 <= n <= 126 then 1
    else if n < 0x10000 then 6
    else 12
  }

  /** JSON in ASCII: the short escapes, plain characters, and one or two escapes of four hexadecimal digits. */
  lemma EscapeSizes(c: char)
    ensures c in "\"\\\n\r\t\U{8}\U{c}" ==> EscapedSize(c) == |"\\n"|
    ensures ' ' <= c <= '~' && c != '\"' && c != '\\' ==> EscapedSize(c) == 1
    ensures (c < ' ' && c !in "\n\r\t\U{8}\U{c}") || '\U{7f}' <= c <= '\U{ffff}' ==> EscapedSize(c) == |"\\u0000"|
    ensures '\U{10000}' <= c ==> EscapedSize(c) == 2 * |"\\u0000"|
  {
  }

  function EscapedLength(s: string): nat {
    if s == [] then 0 else EscapedSize(s[0]) + EscapedLength(s[1..])
  }

  function Quoted(n: nat): nat {
    n + 2
  }

  /** A UTC time in ISO format shows microseconds only if there are any. */
  function StampLength(t: int): nat {
    if t % 1_000_000 == 0 then 25 else 32
  }

  function OptionalStamp(t: Option<int>): nat {
    match t
    case None => |"null"|
    case Some(time) => Quoted(StampLength(time))
  }

  function StatusName(s: Status): string {
    match s
    case Queued => "queued"
    case Delivered => "delivered"
    case Acknowledged => "acknowledged"
  }

  /** A key and its value on a line of their own, indented by two. */
  function Line(key: string, value: nat): nat {
    2 + Quoted(|key|) + 2 + value
  }

  const UUID_LENGTH := 36
  const DIGEST_LENGTH := |"sha256:"| + 64

  /** The size of the file: braces, eleven lines with commas between them, and a final line break. */
  function RecordBytes(m: Message): nat {
    2 + Line("acknowledged_at", OptionalStamp(m.acknowledgedAt))
    + 2 + Line("carries_user_authority", |"false"|)
    + 2 + Line("content", Quoted(EscapedLength(m.content)))
    + 2 + Line("content_digest", Quoted(DIGEST_LENGTH))
    + 2 + Line("created_at", Quoted(StampLength(m.createdAt)))
    + 2 + Line("delivered_at", OptionalStamp(m.deliveredAt))
    + 2 + Line("message_id", Quoted(UUID_LENGTH))
    + 2 + Line("recipient_session_id", Quoted(|m.recipient|))
    + 2 + Line("sender_session_id", Quoted(|m.sender|))
    + 2 + Line("status", Quoted(|StatusName(m.status)|))
    + 2 + Line("trust", Quoted(|"untrusted-cross-session"|))
    + 3
  }

  /** A time as the record shows it: null, or quoted and in ISO format. */
  predicate ShowsTime(t: Option<int>, text: string) {
    match t
    case None => text == "null"
    case Some(time) => |text| == 2 + (if time % 1_000_000 == 0 then |"2026-01-31T12:00:00+00:00"|
                                      else |"2026-01-31T12:00:00.000001+00:00"|)
  }

  function TextLine(key: string, value: string): string {
    "  \"" + key + "\": " + value
  }

  function QuotedText(s: string): string {
    "\"" + s + "\""
  }

  lemma LineIsText(key: string, value: string)
    ensures |TextLine(key, value)| == Line(key, |value|)
    ensures |QuotedText(value)| == Quoted(|value|)
  {
  }

  /** The size is that of the record's text: its eleven lines in order between braces, with their keys and values. */
  lemma RecordIsThisText(m: Message, acknowledged: string, content: string, digest: string, created: string,
                         delivered: string, id: string, status: string)
    requires ShowsTime(m.acknowledgedAt, acknowledged) && ShowsTime(m.deliveredAt, delivered)
    requires ShowsTime(Some(m.createdAt), created)
    requires |content| == EscapedLength(m.content) && |digest| == 64 && |id| == 36
    requires status == match m.status case Queued => "queued" case Delivered => "delivered" case Acknowledged => "acknowledged"
    ensures RecordBytes(m)
            == |"{\n"| + |TextLine("acknowledged_at", acknowledged)|
             + |",\n"| + |TextLine("carries_user_authority", "false")|
             + |",\n"| + |TextLine("content", QuotedText(content))|
             + |",\n"| + |TextLine("content_digest", QuotedText("sha256:" + digest))|
             + |",\n"| + |TextLine("created_at", created)|
             + |",\n"| + |TextLine("delivered_at", delivered)|
             + |",\n"| + |TextLine("message_id", QuotedText(id))|
             + |",\n"| + |TextLine("recipient_session_id", QuotedText(m.recipient))|
             + |",\n"| + |TextLine("sender_session_id", QuotedText(m.sender))|
             + |",\n"| + |TextLine("status", QuotedText(status))|
             + |",\n"| + |TextLine("trust", QuotedText("untrusted-cross-session"))| + |"\n}\n"|
  {
    hide TextLine, QuotedText, Line, EscapedLength;
    LineIsText("acknowledged_at", acknowledged);
    LineIsText("carries_user_authority", "false");
    LineIsText("content", QuotedText(content));
    LineIsText("", content);
    LineIsText("content_digest", QuotedText("sha256:" + digest));
    LineIsText("", "sha256:" + digest);
    LineIsText("created_at", created);
    LineIsText("delivered_at", delivered);
    LineIsText("message_id", QuotedText(id));
    LineIsText("", id);
    LineIsText("recipient_session_id", QuotedText(m.recipient));
    LineIsText("", m.recipient);
    LineIsText("sender_session_id", QuotedText(m.sender));
    LineIsText("", m.sender);
    LineIsText("status", QuotedText(status));
    LineIsText("", status);
    LineIsText("trust", QuotedText("untrusted-cross-session"));
    LineIsText("", "untrusted-cross-session");
    StampsAreTimes(m.acknowledgedAt, acknowledged);
    StampsAreTimes(m.deliveredAt, delivered);
    StampsAreTimes(Some(m.createdAt), created);
  }

  lemma StampsAreTimes(t: Option<int>, text: string)
    requires ShowsTime(t, text)
    ensures |text| == OptionalStamp(t)
  {
  }

  // ---- What sending and reading check ----

  const RECORD_MARGIN := 8192

  /** Sending bounds the text in UTF-8. */
  predicate Acceptable(maxBytes: nat, content: string) {
    !Blank(content) && Utf8Length(content) <= maxBytes
  }

  /** Reading bounds the record as stored, and the text again. */
  predicate Readable(maxBytes: nat, m: Message) {
    RecordBytes(m) <= maxBytes + RECORD_MARGIN && Utf8Length(m.content) <= maxBytes
  }

  /** The record can be read at every stage of the message's life, whenever the stages are reached. */
  ghost predicate StaysReadable(maxBytes: nat, m: Message) {
    forall later :: Later(m, later) && Staged(later) ==> Readable(maxBytes, later)
  }

  /** What surrounds the text in the longest record the message can have. */
  function Surrounds(m: Message): nat {
    |m.sender| + |m.recipient| + StampLength(m.createdAt) + 460
  }

  lemma LongestRecord(m: Message, later: Message)
    requires Later(m, later)
    ensures RecordBytes(later) <= EscapedLength(m.content) + Surrounds(m)
    ensures RecordBytes(Acked(Handed(m.(status := Queued), 1), 1)) == EscapedLength(m.content) + Surrounds(m)
  {
    var last := Acked(Handed(m.(status := Queued), 1), 1);
    StagesAreShort(later.status, later.deliveredAt);
    StagesAreShort(later.status, later.acknowledgedAt);
    assert OptionalStamp(last.deliveredAt) == OptionalStamp(last.acknowledgedAt) == 34;
    assert StatusName(last.status) == "acknowledged";
  }

  lemma StagesAreShort(s: Status, t: Option<int>)
    ensures |StatusName(s)| <= 12 && OptionalStamp(t) <= 34
  {
  }

  /** An accepted message stays deliverable exactly when its text, escaped for JSON, leaves room for the rest. */
  lemma StaysReadableExactlyWhen(maxBytes: nat, m: Message)
    requires m.status == Queued && Staged(m) && Acceptable(maxBytes, m.content)
    ensures StaysReadable(maxBytes, m) <==> EscapedLength(m.content) + Surrounds(m) <= maxBytes + 8192
  {
    var last := Acked(Handed(m, 1), 1);
    assert Later(m, last) && Staged(last);
    LongestRecord(m, last);
    forall later | Later(m, later) && Staged(later)
      ensures RecordBytes(later) <= EscapedLength(m.content) + Surrounds(m)
    {
      LongestRecord(m, later);
    }
  }

  /** Printable ASCII without quotes and backslashes. */
  predicate PlainText(s: string) {
    forall i :: 0 <= i < |s| ==> EscapedSize(s[i]) == 1
  }

  lemma {:induction false} PlainTextIsNotEscaped(s: string)
    requires PlainText(s)
    ensures EscapedLength(s) == Utf8Length(s) == |s|
  {
    if s != [] {
      PlainTextIsNotEscaped(s[1..]);
    }
  }

  /** Plain text that is accepted always stays deliverable; session ids have at most 128 characters. */
  lemma PlainTextStaysReadable(maxBytes: nat, m: Message)
    requires m.status == Queued && Staged(m) && Acceptable(maxBytes, m.content) && PlainText(m.content)
    requires |m.sender| <= 128 && |m.recipient| <= 128
    ensures StaysReadable(maxBytes, m)
  {
    PlainTextIsNotEscaped(m.content);
    StaysReadableExactlyWhen(maxBytes, m);
  }

  function Repeat(c: char, n: nat): string {
    if n == 0 then "" else [c] + Repeat(c, n - 1)
  }

  lemma {:induction false} AccentLengths(n: nat)
    ensures var s := Repeat('\U{e9}', n);
            |s| == n && Utf8Length(s) == 2 * n && EscapedLength(s) == 6 * n && (n > 0 ==> s[0] == '\U{e9}')
  {
    if n > 0 {
      AccentLengths(n - 1);
      assert Repeat('\U{e9}', n)[1..] == Repeat('\U{e9}', n - 1);
    }
  }

  /** Under the default limit, 18000 letters with an acute accent are accepted and can never be read. */
  lemma AcceptedCanBeUnreadable(m: Message)
    requires m.content == Repeat('\U{e9}', 18_000)
    ensures Acceptable(100_000, m.content) && !Readable(100_000, m)
  {
    AccentLengths(18_000);
    assert !Space(m.content[0]);
  }
}
