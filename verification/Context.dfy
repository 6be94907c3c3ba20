/** Compaction and rendering of conversation history (src/loro/context.py). */
module Context {
  import opened Common
  import opened Decimal
  import opened Messages
  import opened Strings

  // ---- Text ----

  function NonBlank(parts: seq<string>): seq<string> {
    if parts == [] then [] else (if Blank(parts[0]) then [] else [parts[0]]) + NonBlank(parts[1..])
  }

  /** The words of a text: what lies between its white space. */
  function Words(s: string): seq<string> {
    NonBlank(Split(s, Space))
  }

  /** The lines the running summary starts from. */
  function SummaryLines(summary: string): seq<string> {
    NonBlank(Split(summary, LineBreak))
  }

  function TrimRight(s: string): string {
    if s != [] && Space(s[|s| - 1]) then TrimRight(s[..|s| - 1]) else s
  }

  const SUMMARY_LINE_CHARS := 240

  function RoleName(r: Role): string {
    match r case User => "user" case Assistant => "assistant" case Tool => "tool"
  }

  function Shortened(text: string): string {
    if |text| > SUMMARY_LINE_CHARS then TrimRight(text[..SUMMARY_LINE_CHARS - 3]) + "..." else text
  }

  function SummaryLine(m: Message): string {
    ("- " + RoleName(m.role) + ": ") + Shortened(Join(Words(m.content), " "))
  }

  function LinesFor(messages: seq<Message>): seq<string> {
    if messages == [] then [] else LinesFor(messages[..|messages| - 1]) + [SummaryLine(messages[|messages| - 1])]
  }

  // ---- Budgets ----

  function MessageTokens(messages: seq<Message>): nat {
    if messages == [] then 0 else EstimateTokens(messages[0].content) + MessageTokens(messages[1..])
  }

  function HistoryTokens(messages: seq<Message>, summary: string): nat {
    EstimateTokens(summary) + MessageTokens(messages)
  }

  function Users(messages: seq<Message>): nat {
    if messages == [] then 0 else (if messages[0].role == User then 1 else 0) + Users(messages[1..])
  }

  /** Where the last `keep` user turns start; 0 if there are fewer (or none are to be kept). */
  method RecentTurnStart(messages: seq<Message>, keep: int) returns (start: nat)
    ensures start <= |messages|
    ensures if 1 <= keep <= Users(messages)
            then start < |messages| && messages[start].role == User && Users(messages[start..]) == keep
            else start == 0
  {
    var seen, index := 0, |messages|;
    while index > 0
      invariant 0 <= index <= |messages|
      invariant seen == Users(messages[index..])
      invariant keep >= 1 ==> seen < keep
    {
      index := index - 1;
      assert messages[index..][1..] == messages[index + 1..];
      if messages[index].role == User {
        seen := seen + 1;
        if seen == keep {
          UsersOfSuffix(messages, index);
          return index;
        }
      }
    }
    assert messages[0..] == messages;
    start := 0;
  }

  lemma {:induction false} UsersAppend(messages: seq<Message>, last: Message)
    ensures Users(messages + [last]) == Users(messages) + if last.role == User then 1 else 0
  {
    if messages == [] {
      assert messages + [last] == [last] && [last][1..] == [];
    } else {
      assert (messages + [last])[1..] == messages[1..] + [last];
      UsersAppend(messages[1..], last);
    }
  }

  /** The user turns of a conversation are the places where a user message stands. */
  lemma {:induction false} UsersAreCounted(messages: seq<Message>)
    ensures Users(messages) == |set i: nat | i < |messages| && messages[i].role == User|
  {
    if messages != [] {
      var n := |messages| - 1;
      var front := messages[..n];
      UsersAreCounted(front);
      assert messages == front + [messages[n]];
      UsersAppend(front, messages[n]);
      var before := set i: nat | i < |front| && front[i].role == User;
      var all := set i: nat | i < |messages| && messages[i].role == User;
      SameMembers(all, if messages[n].role == User then before + {n} else before);
    }
  }

  lemma {:induction false} UsersOfSuffix(messages: seq<Message>, k: nat)
    requires k <= |messages|
    ensures Users(messages[k..]) <= Users(messages)
  {
    if k > 0 {
      UsersOfSuffix(messages[1..], k - 1);
      assert messages[1..][k - 1..] == messages[k..];
    }
  }

  // ---- The bounded summary ----

  function Costs(lines: seq<string>): nat {
    if lines == [] then 0 else EstimateTokens(lines[0]) + Costs(lines[1..])
  }

  function DroppedMarker(n: nat): string {
    "- (" + Digits(n) + " older summary lines dropped)"
  }

  function Last(lines: seq<string>, k: nat): seq<string>
    requires k <= |lines|
  {
    lines[|lines| - k..]
  }

  /** `kept` is the longest suffix of the lines whose summed cost fits. */
  predicate LongestSuffix(lines: seq<string>, max: nat, kept: nat) {
    && kept <= |lines|
    && Costs(Last(lines, kept)) <= max
    && (forall k :: kept < k <= |lines| ==> Costs(Last(lines, k)) > max)
  }

  /** There is one longest suffix. */
  lemma LongestIsUnique(lines: seq<string>, max: nat, a: nat, b: nat)
    requires LongestSuffix(lines, max, a) && LongestSuffix(lines, max, b)
    ensures a == b
  {
  }

  function Bounded(lines: seq<string>, kept: nat): seq<string>
    requires kept <= |lines|
  {
    (if kept < |lines| then [DroppedMarker(|lines| - kept)] else []) + Last(lines, kept)
  }

  lemma {:induction false} LongerCostsMore(lines: seq<string>, k: nat)
    requires k <= |lines|
    ensures Costs(lines[k..]) <= Costs(lines)
  {
    if k > 0 {
      LongerCostsMore(lines[1..], k - 1);
      assert lines[1..][k - 1..] == lines[k..];
    }
  }

  method BoundSummary(lines: seq<string>, max: nat) returns (bounded: seq<string>, kept: nat)
    ensures LongestSuffix(lines, max, kept)
    ensures bounded == Bounded(lines, kept)
    ensures kept < |lines| ==> bounded[0] == "- (" + Digits(|lines| - kept) + " older summary lines dropped)"
    ensures lines[|lines| - kept..] == if kept < |lines| then bounded[1..] else bounded
  {
    var total, n := 0, 0;
    while n < |lines|
      invariant n <= |lines| && total == Costs(Last(lines, n)) <= max
    {
      var line := lines[|lines| - n - 1];
      var cost := EstimateTokens(line);
      assert Last(lines, n + 1)[1..] == Last(lines, n);
      if total + cost > max {
        forall k | n < k <= |lines| ensures Costs(Last(lines, k)) > max {
          LongerCostsMore(Last(lines, k), k - n - 1);
          assert Last(lines, k)[k - n - 1..] == Last(lines, n + 1);
        }
        break;
      }
      total, n := total + cost, n + 1;
    }
    kept := n;
    bounded := Last(lines, n);
    if n < |lines| {
      bounded := [DroppedMarker(|lines| - n)] + bounded;
    }
  }

  function Chars(lines: seq<string>): nat {
    if lines == [] then 0 else |lines[0]| + Chars(lines[1..])
  }

  /** The characters of the lines, and a line break between any two. */
  function JoinedChars(lines: seq<string>): nat {
    Chars(lines) + (if lines == [] then 0 else |lines| - 1)
  }

  lemma {:induction false} JoinedLength(lines: seq<string>)
    ensures |Join(lines, "\n")| == JoinedChars(lines)
  {
    if lines != [] {
      JoinedLength(lines[1..]);
      assert Chars(lines) == |lines[0]| + Chars(lines[1..]);
    }
  }

  /** Each line costs a quarter of its characters, rounded up. */
  lemma {:induction false} CharsWithinCosts(lines: seq<string>)
    ensures Chars(lines) <= 4 * Costs(lines)
  {
    if lines != [] {
      CharsWithinCosts(lines[1..]);
    }
  }

  lemma {:induction false} CharsOfCons(head: string, tail: seq<string>)
    ensures Chars([head] + tail) == |head| + Chars(tail)
  {
    assert ([head] + tail)[1..] == tail;
  }

  /** The joined summary keeps to its budget exactly when its characters and line breaks are within four to a token. */
  lemma SummaryInBudgetExactlyWhen(lines: seq<string>, max: nat, kept: nat)
    requires kept <= |lines|
    ensures EstimateTokens(Join(Bounded(lines, kept), "\n")) <= max <==>
              if kept == |lines| then JoinedChars(lines) <= 4 * max
              else |DroppedMarker(|lines| - kept)| + kept + Chars(Last(lines, kept)) <= 4 * max
  {
    JoinedLength(Bounded(lines, kept));
    if kept < |lines| {
      CharsOfCons(DroppedMarker(|lines| - kept), Last(lines, kept));
    } else {
      assert Bounded(lines, kept) == lines;
    }
  }

  /** The lines' own costs can add up to the budget and the joined summary still exceed it: two lines of four. */
  lemma SummaryCanOvershoot()
    ensures LongestSuffix(["aaaa", "bbbb"], 2, 2) && EstimateTokens(Join(Bounded(["aaaa", "bbbb"], 2), "\n")) == 3
  {
    var lines := ["aaaa", "bbbb"];
    assert Last(lines, 2) == lines && lines[1..] == ["bbbb"] && ["bbbb"][1..] == [];
    assert Costs(lines) == 1 + Costs(["bbbb"]) == 2;
    assert Bounded(lines, 2) == lines;
    JoinedLength(lines);
    assert Chars(lines) == 4 + Chars(["bbbb"]) == 8;
  }

  /** And this is how far it can exceed it. */
  lemma BoundedSummaryTokens(lines: seq<string>, max: nat, kept: nat)
    requires LongestSuffix(lines, max, kept)
    ensures EstimateTokens(Join(Bounded(lines, kept), "\n"))
            <= max + (kept + 3) / 4
               + (if kept < |lines| then EstimateTokens(DroppedMarker(|lines| - kept)) else 0)
  {
    CharsWithinCosts(Last(lines, kept));
    JoinedLength(Bounded(lines, kept));
    if kept < |lines| {
      CharsOfCons(DroppedMarker(|lines| - kept), Last(lines, kept));
    } else {
      assert Bounded(lines, kept) == Last(lines, kept);
    }
  }

  // ---- The summary reads back ----

  predicate NoBreak(s: string) {
    forall c :: c in s ==> !LineBreak(c)
  }

  predicate IsLine(s: string) {
    !Blank(s) && NoBreak(s)
  }

  predicate AreLines(lines: seq<string>) {
    forall l :: l in lines ==> IsLine(l)
  }

  lemma {:induction false} NonBlankParts(parts: seq<string>)
    ensures forall p :: p in NonBlank(parts) <==> p in parts && !Blank(p)
  {
    if parts != [] {
      NonBlankParts(parts[1..]);
      assert parts == [parts[0]] + parts[1..];
    }
  }

  lemma {:induction false} JoinChars(parts: seq<string>, separator: string)
    requires NoBreak(separator) && forall p :: p in parts ==> NoBreak(p)
    ensures NoBreak(Join(parts, separator))
  {
    if |parts| == 1 {
      assert parts[0] in parts;
    } else if |parts| > 1 {
      assert parts[0] in parts;
      JoinChars(parts[1..], separator);
    }
  }

  lemma {:induction false} TrimIsPrefix(s: string)
    ensures TrimRight(s) <= s
  {
    if s != [] {
      TrimIsPrefix(s[..|s| - 1]);
    }
  }

  lemma NoBreakConcat(a: string, b: string)
    requires NoBreak(a) && NoBreak(b)
    ensures NoBreak(a + b)
  {
  }

  lemma NoBreakPart(s: string, n: nat)
    requires NoBreak(s) && n <= |s|
    ensures NoBreak(s[..n])
  {
    assert forall c :: c in s[..n] ==> c in s;
  }

  lemma WordsHaveNoBreak(content: string)
    ensures NoBreak(Join(Words(content), " "))
  {
    SplitParts(content, Space);
    NonBlankParts(Split(content, Space));
    assert NoBreak(" ");
    JoinChars(Words(content), " ");
  }

  lemma ShortenedHasNoBreak(text: string)
    requires NoBreak(text)
    ensures NoBreak(Shortened(text))
  {
    if |text| > SUMMARY_LINE_CHARS {
      var cut := text[..SUMMARY_LINE_CHARS - 3];
      NoBreakPart(text, SUMMARY_LINE_CHARS - 3);
      TrimIsPrefix(cut);
      NoBreakPart(cut, |TrimRight(cut)|);
      assert TrimRight(cut) == cut[..|TrimRight(cut)|];
      assert NoBreak("...");
      NoBreakConcat(TrimRight(cut), "...");
    }
  }

  lemma RoleIsNamed(role: Role)
    ensures var prefix := "- " + RoleName(role) + ": "; NoBreak(prefix) && prefix[0] == '-'
  {
    assert NoBreak("- ") && NoBreak(": ");
    match role {
      case User => assert NoBreak("user");
      case Assistant => assert NoBreak("assistant");
      case Tool => assert NoBreak("tool");
    }
    NoBreakConcat("- ", RoleName(role));
    NoBreakConcat("- " + RoleName(role), ": ");
  }

  /** Whatever a message contains, its summary line is one line and not blank. */
  lemma SummaryLineIsLine(m: Message)
    ensures IsLine(SummaryLine(m))
  {
    var text := Join(Words(m.content), " ");
    WordsHaveNoBreak(m.content);
    ShortenedHasNoBreak(text);
    RoleIsNamed(m.role);
    NoBreakConcat("- " + RoleName(m.role) + ": ", Shortened(text));
    StartsWithDash("- " + RoleName(m.role) + ": ", Shortened(text));
  }

  lemma StartsWithDash(prefix: string, rest: string)
    requires prefix != "" && prefix[0] == '-'
    ensures !Blank(prefix + rest)
  {
    assert (prefix + rest)[0] == '-' && !Space('-');
  }

  lemma {:induction false} NonBlankAppend(a: seq<string>, b: seq<string>)
    ensures NonBlank(a + b) == NonBlank(a) + NonBlank(b)
  {
    if a == [] {
      assert a + b == b;
    } else {
      assert (a + b)[1..] == a[1..] + b;
      NonBlankAppend(a[1..], b);
    }
  }

  lemma NonBlankOne(p: string)
    ensures NonBlank([p]) == if Blank(p) then [] else [p]
  {
    assert [p][1..] == [];
  }

  /** What words are: white space divides them, and what has none is one word, or none if it is empty. */
  lemma WordsAre(a: string, c: char, b: string)
    requires Space(c)
    ensures Words(a + [c] + b) == Words(a) + Words(b)
    ensures (forall x :: x in a ==> !Space(x)) ==> Words(a) == if a == "" then [] else [a]
  {
    SplitAt(a, c, b, Space);
    NonBlankAppend(Split(a, Space), Split(b, Space));
    if forall x :: x in a ==> !Space(x) {
      SplitWhole(a, Space);
      NonBlankOne(a);
      assert a != "" ==> a[0] in a;
    }
  }

  predicate Word(w: string) {
    w != "" && forall x :: x in w ==> !Space(x)
  }

  /** Words apart by single spaces, and none at either end. */
  predicate Tidy(s: string) {
    forall i :: 0 <= i < |s| && Space(s[i]) ==> s[i] == ' ' && 0 < i < |s| - 1 && !Space(s[i - 1])
  }

  lemma WordsAreWords(s: string)
    ensures forall w :: w in Words(s) ==> Word(w)
  {
    SplitParts(s, Space);
    NonBlankParts(Split(s, Space));
  }

  lemma {:induction false} JoinedWords(words: seq<string>)
    requires forall w :: w in words ==> Word(w)
    ensures Words(Join(words, " ")) == words && Tidy(Join(words, " ")) && (words != [] ==> Join(words, " ") != "")
  {
    if words == [] {
      NonBlankOne("");
      SplitWhole("", Space);
    } else {
      var w, rest := words[0], words[1..];
      assert w in words && forall v :: v in rest ==> v in words;
      JoinedWords(rest);
      WordsAre(w, ' ', Join(rest, " "));
      assert words == [w] + rest;
      TidyWord(w);
      if rest != [] {
        assert Join(words, " ") == w + [' '] + Join(rest, " ");
        TidyConcat(w, Join(rest, " "));
      }
    }
  }

  lemma TidyWord(w: string)
    requires Word(w)
    ensures Tidy(w)
  {
    assert forall i :: 0 <= i < |w| ==> w[i] in w;
  }

  lemma TidyConcat(a: string, b: string)
    requires a != "" && b != "" && Tidy(a) && Tidy(b)
    ensures Tidy(a + [' '] + b)
  {
    var s := a + [' '] + b;
    forall i | 0 <= i < |s| && Space(s[i]) ensures s[i] == ' ' && 0 < i < |s| - 1 && !Space(s[i - 1]) {
      if i < |a| {
        assert s[i] == a[i];
      } else if i == |a| {
        assert s[i - 1] == a[i - 1];
      } else {
        assert s[i] == b[i - |a| - 1];
        assert i > |a| + 1 && s[i - 1] == b[i - |a| - 2];
      }
    }
  }

  lemma TrimTidy(s: string, n: nat)
    requires Tidy(s) && 2 <= n <= |s|
    ensures TrimRight(s[..n]) == if s[n - 1] == ' ' then s[..n - 1] else s[..n]
  {
    var front := s[..n];
    assert front[|front| - 1] == s[n - 1] && front[..|front| - 1] == s[..n - 1];
    if Space(s[n - 1]) {
      assert s[..n - 1][n - 2] == s[n - 2] && !Space(s[n - 2]);
    }
  }

  /**
   * A summary line names the role and gives the words of the message, apart by single spaces: all of them, or if that
   * is longer than 240 characters its first 237, less a space at their end, and three dots.
   */
  lemma SummaryLineKeepsText(m: Message) returns (text: string)
    ensures Words(text) == Words(m.content) && Tidy(text)
    ensures SummaryLine(m) == (match m.role case User => "- user: " case Assistant => "- assistant: " case Tool => "- tool: ") + (
              if |text| <= 240 then text
              else if text[236] == ' ' then text[..236] + "..."
              else text[..237] + "...")
  {
    text := Join(Words(m.content), " ");
    WordsAreWords(m.content);
    JoinedWords(Words(m.content));
    match m.role {
      case User => assert "- " + "user" + ": " == "- user: ";
      case Assistant => assert "- " + "assistant" + ": " == "- assistant: ";
      case Tool => assert "- " + "tool" + ": " == "- tool: ";
    }
    if |text| > SUMMARY_LINE_CHARS {
      TrimTidy(text, SUMMARY_LINE_CHARS - 3);
    }
  }

  /** A summary gets one line for each message, in order. */
  lemma {:induction false} OneLineEach(messages: seq<Message>)
    ensures |LinesFor(messages)| == |messages|
    ensures forall i :: 0 <= i < |messages| ==> LinesFor(messages)[i] == SummaryLine(messages[i])
  {
    hide SummaryLine;
    if messages != [] {
      OneLineEach(messages[..|messages| - 1]);
    }
  }

  lemma {:induction false} LinesForAreLines(messages: seq<Message>)
    ensures AreLines(LinesFor(messages))
  {
    if messages != [] {
      LinesForAreLines(messages[..|messages| - 1]);
      SummaryLineIsLine(messages[|messages| - 1]);
    }
  }

  lemma SummaryLinesAreLines(summary: string)
    ensures AreLines(SummaryLines(summary))
  {
    SplitParts(summary, LineBreak);
    NonBlankParts(Split(summary, LineBreak));
  }

  /** What the lines of a text are: a line break divides them, and a text without one is a line unless it is blank. */
  lemma SummaryLinesAre(a: string, c: char, b: string)
    requires LineBreak(c)
    ensures SummaryLines(a + [c] + b) == SummaryLines(a) + SummaryLines(b)
    ensures NoBreak(a) ==> SummaryLines(a) == if Blank(a) then [] else [a]
  {
    SplitAt(a, c, b, LineBreak);
    NonBlankAppend(Split(a, LineBreak), Split(b, LineBreak));
    if NoBreak(a) {
      SplitWhole(a, LineBreak);
      NonBlankOne(a);
    }
  }

  lemma {:induction false} LinesReadBack(lines: seq<string>)
    requires AreLines(lines)
    ensures SummaryLines(Join(lines, "\n")) == lines
  {
    hide SummaryLines;
    var rest := if lines == [] then "" else Join(lines[1..], "\n");
    SummaryLinesAre("", '\n', rest);
    if lines != [] {
      assert lines[0] in lines && forall l :: l in lines[1..] ==> l in lines;
      LinesReadBack(lines[1..]);
      SummaryLinesAre(lines[0], '\n', rest);
      assert lines == [lines[0]] + lines[1..];
      if |lines| > 1 {
        assert Join(lines, "\n") == lines[0] + ['\n'] + rest;
      }
    }
  }

  /** The summary a compaction writes is read back by the next one line for line, its marker included. */
  lemma SummaryReadsBack(summary: string, messages: seq<Message>, kept: nat)
    requires kept <= |SummaryLines(summary) + LinesFor(messages)|
    ensures var bounded := Bounded(SummaryLines(summary) + LinesFor(messages), kept);
            SummaryLines(Join(bounded, "\n")) == bounded
  {
    SummaryLinesAreLines(summary);
    LinesForAreLines(messages);
    BoundedAreLines(SummaryLines(summary) + LinesFor(messages), kept);
    LinesReadBack(Bounded(SummaryLines(summary) + LinesFor(messages), kept));
  }

  lemma BoundedAreLines(lines: seq<string>, kept: nat)
    requires AreLines(lines) && kept <= |lines|
    ensures AreLines(Bounded(lines, kept))
  {
    assert forall l :: l in Last(lines, kept) ==> l in lines;
    if kept < |lines| {
      MarkerIsLine(|lines| - kept);
    }
  }

  lemma MarkerIsLine(n: nat)
    ensures IsLine(DroppedMarker(n))
  {
    assert NoBreak("- (") && NoBreak(Digits(n)) && NoBreak(" older summary lines dropped)");
    NoBreakConcat("- (", Digits(n));
    NoBreakConcat("- (" + Digits(n), " older summary lines dropped)");
    StartsWithDash("- (" + Digits(n), " older summary lines dropped)");
  }

  // ---- Compaction ----

  datatype Compaction = Compaction(messages: seq<Message>, summary: string, compacted: nat,
                                   tokensBefore: nat, tokensAfter: nat)

  predicate TurnStart(messages: seq<Message>, k: nat) {
    k == 0 || (k < |messages| && messages[k].role == User)
  }

  /** With the first k messages folded into the (unbounded) summary, the history is within budget. */
  predicate Fits(messages: seq<Message>, lines: seq<string>, max: int, k: nat)
    requires k <= |messages|
  {
    HistoryTokens(messages[k..], Join(lines + LinesFor(messages[..k]), "\n")) <= max
  }

  /**
   * The cut is at a turn start, no later than the protected turns; it is in budget or right at them; and every
   * earlier turn start would be over budget.
   */
  predicate IsCut(messages: seq<Message>, lines: seq<string>, max: int, protected: nat, cut: nat) {
    && cut <= protected <= |messages| && TurnStart(messages, cut)
    && (Fits(messages, lines, max, cut) || cut == protected)
    && (forall k :: 0 <= k < cut && TurnStart(messages, k) ==> !Fits(messages, lines, max, k))
  }

  function ContentChars(messages: seq<Message>): nat {
    if messages == [] then 0 else ContentChars(messages[..|messages| - 1]) + |messages[|messages| - 1].content|
  }

  /** The summary and every message cost a quarter of their characters, each rounded up. */
  function TextCost(summary: string, messages: seq<Message>): nat {
    if messages == [] then (|summary| + 3) / 4
    else TextCost(summary, messages[..|messages| - 1]) + (|messages[|messages| - 1].content| + 3) / 4
  }

  lemma {:induction false} MessageTokensAppend(messages: seq<Message>, last: Message)
    ensures MessageTokens(messages + [last]) == MessageTokens(messages) + EstimateTokens(last.content)
  {
    if messages == [] {
      assert [last][1..] == [] && messages + [last] == [last];
    } else {
      assert (messages + [last])[1..] == messages[1..] + [last];
      MessageTokensAppend(messages[1..], last);
    }
  }

  /** The characters of a conversation are those of its messages. */
  lemma CharsAddUp(messages: seq<Message>, last: Message)
    ensures ContentChars([]) == 0 && ContentChars(messages + [last]) == ContentChars(messages) + |last.content|
  {
    var all := messages + [last];
    assert all[..|all| - 1] == messages;
  }

  /** The tokens counted are the cost of the text, and a quarter of its characters at least. */
  lemma {:induction false} TokensAreTextCost(messages: seq<Message>, summary: string)
    ensures HistoryTokens(messages, summary) == TextCost(summary, messages)
    ensures |summary| + ContentChars(messages) <= 4 * TextCost(summary, messages)
  {
    if messages != [] {
      var front, last := messages[..|messages| - 1], messages[|messages| - 1];
      assert messages == front + [last];
      MessageTokensAppend(front, last);
      TokensAreTextCost(front, summary);
    }
  }

  /** The text of a compaction: what is folded into the summary, before that is bounded, and what is retained. */
  function Folded(messages: seq<Message>, lines: seq<string>, k: nat): string
    requires k <= |messages|
  {
    Join(lines + LinesFor(messages[..k]), "\n")
  }

  /**
   * What the cut means for the text: short of the protected turns, summary and retained messages are within four
   * characters to a token; and from every earlier turn start on they would have cost more than the budget.
   */
  predicate CutFitsText(messages: seq<Message>, lines: seq<string>, max: int, protected: nat, cut: nat) {
    && cut <= protected <= |messages|
    && (cut < protected ==> |Folded(messages, lines, cut)| + ContentChars(messages[cut..]) <= 4 * max)
    && (forall k :: 0 <= k < cut && (k == 0 || messages[k].role == User) ==>
          TextCost(Folded(messages, lines, k), messages[k..]) > max)
  }

  lemma CutIsInBudget(messages: seq<Message>, lines: seq<string>, max: int, protected: nat, cut: nat)
    requires IsCut(messages, lines, max, protected, cut)
    ensures CutFitsText(messages, lines, max, protected, cut)
  {
    hide LinesFor, HistoryTokens, TextCost, ContentChars;
    TokensAreTextCost(messages[cut..], Folded(messages, lines, cut));
    forall k | 0 <= k < cut && (k == 0 || messages[k].role == User)
      ensures TextCost(Folded(messages, lines, k), messages[k..]) > max
    {
      assert TurnStart(messages, k);
      TokensAreTextCost(messages[k..], Folded(messages, lines, k));
    }
  }

  /** The length of the oldest turn, going no further than `limit`. */
  method OldestTurn(retained: seq<Message>, limit: nat) returns (end: nat)
    requires 0 < limit <= |retained|
    ensures 1 <= end <= limit
    ensures forall k :: 0 < k < end ==> retained[k].role != User
    ensures end < limit ==> retained[end].role == User
  {
    end := 1;
    while end < limit && retained[end].role != User
      invariant 1 <= end <= limit
      invariant forall k :: 0 < k < end ==> retained[k].role != User
    {
      end := end + 1;
    }
  }

  method AddLines(lines: seq<string>, messages: seq<Message>) returns (more: seq<string>)
    ensures more == lines + LinesFor(messages)
  {
    hide SummaryLine;
    more := lines;
    for i := 0 to |messages|
      invariant more == lines + LinesFor(messages[..i])
    {
      assert messages[..i + 1][..i] == messages[..i];
      more := more + [SummaryLine(messages[i])];
    }
    assert messages[..|messages|] == messages;
  }

  lemma {:induction false} LinesForAppend(a: seq<Message>, b: seq<Message>)
    ensures LinesFor(a + b) == LinesFor(a) + LinesFor(b)
  {
    hide SummaryLine;
    if b == [] {
      assert a + b == a;
    } else {
      assert (a + b)[..|a + b| - 1] == a + b[..|b| - 1];
      LinesForAppend(a, b[..|b| - 1]);
    }
  }

  /** No turn start before `cut` would have been in budget. */
  predicate OverBefore(messages: seq<Message>, start: seq<string>, max: int, cut: nat)
    requires cut <= |messages|
  {
    cut == 0 || (OverBefore(messages, start, max, cut - 1)
                 && (TurnStart(messages, cut - 1) ==> !Fits(messages, start, max, cut - 1)))
  }

  lemma {:induction false} OverBeforeAt(messages: seq<Message>, start: seq<string>, max: int, cut: nat, k: nat)
    requires k < cut <= |messages| && OverBefore(messages, start, max, cut) && TurnStart(messages, k)
    ensures !Fits(messages, start, max, k)
  {
    hide Fits;
    if k < cut - 1 {
      OverBeforeAt(messages, start, max, cut - 1, k);
    }
  }

  lemma {:induction false} OverBeforeTurn(messages: seq<Message>, start: seq<string>, max: int, cut: nat, end: nat)
    requires 1 <= end && cut + end <= |messages|
    requires OverBefore(messages, start, max, cut) && !Fits(messages, start, max, cut)
    requires forall k :: cut < k < cut + end ==> messages[k].role != User
    ensures OverBefore(messages, start, max, cut + end)
  {
    hide Fits;
    if end > 1 {
      OverBeforeTurn(messages, start, max, cut, end - 1);
    }
  }

  /** After folding away `cut` messages: what is left, the lines so far, and why none of the earlier cuts would do. */
  predicate Folding(messages: seq<Message>, start: seq<string>, max: int, protected: nat, cut: nat,
                    retained: seq<Message>, lines: seq<string>)
  {
    && cut <= protected <= |messages| && TurnStart(messages, cut)
    && retained == messages[cut..] && lines == start + LinesFor(messages[..cut])
    && OverBefore(messages, start, max, cut)
  }

  /** Dropping the oldest whole turn moves the cut from one over-budget turn start to the next. */
  lemma FoldTurn(messages: seq<Message>, start: seq<string>, max: int, protected: nat, cut: nat,
                 retained: seq<Message>, lines: seq<string>, end: nat, more: seq<string>)
    requires Folding(messages, start, max, protected, cut, retained, lines)
    requires protected < |messages| && messages[protected].role == User
    requires !Fits(messages, start, max, cut)
    requires cut < cut + end <= protected
    requires forall k :: 0 < k < end ==> retained[k].role != User
    requires cut + end < protected ==> retained[end].role == User
    requires more == lines + LinesFor(retained[..end])
    ensures Folding(messages, start, max, protected, cut + end, retained[end..], more)
  {
    TurnHasNoUsers(messages, cut, end);
    OverBeforeTurn(messages, start, max, cut, end);
    MoreLines(messages, start, cut, end);
    NextTurnStarts(messages, cut, end, protected);
  }

  lemma MoreLines(messages: seq<Message>, start: seq<string>, cut: nat, end: nat)
    requires cut + end <= |messages|
    ensures start + LinesFor(messages[..cut]) + LinesFor(messages[cut..][..end]) == start + LinesFor(messages[..cut + end])
  {
    FoldLines(start, messages[..cut], messages[cut..][..end]);
    TakeMore(messages, cut, end);
  }

  lemma NextTurnStarts(messages: seq<Message>, cut: nat, end: nat, protected: nat)
    requires cut + end <= protected < |messages| && messages[protected].role == User
    requires cut + end < protected ==> messages[cut..][end].role == User
    ensures messages[cut..][end..] == messages[cut + end..] && TurnStart(messages, cut + end)
  {
  }

  lemma TurnHasNoUsers(messages: seq<Message>, cut: nat, end: nat)
    requires cut + end <= |messages| && forall k :: 0 < k < end ==> messages[cut..][k].role != User
    ensures forall k :: cut < k < cut + end ==> messages[k].role != User
  {
    forall k | cut < k < cut + end ensures messages[k].role != User {
      assert messages[cut..][k - cut] == messages[k];
    }
  }

  lemma FoldLines(start: seq<string>, a: seq<Message>, b: seq<Message>)
    ensures start + LinesFor(a) + LinesFor(b) == start + LinesFor(a + b)
  {
    LinesForAppend(a, b);
  }

  lemma TakeMore(messages: seq<Message>, cut: nat, end: nat)
    requires cut + end <= |messages|
    ensures messages[..cut] + messages[cut..][..end] == messages[..cut + end]
  {
  }

  lemma GuardIsFits(messages: seq<Message>, start: seq<string>, max: int, cut: nat)
    requires cut <= |messages|
    ensures Fits(messages, start, max, cut)
            <==> HistoryTokens(messages[cut..], Join(start + LinesFor(messages[..cut]), "\n")) <= max
  {
  }

  lemma FoldingIsCut(messages: seq<Message>, start: seq<string>, max: int, protected: nat, cut: nat,
                     retained: seq<Message>, lines: seq<string>)
    requires Folding(messages, start, max, protected, cut, retained, lines)
    requires HistoryTokens(retained, Join(lines, "\n")) <= max || cut == protected
    ensures IsCut(messages, start, max, protected, cut)
  {
    forall k | 0 <= k < cut && TurnStart(messages, k) ensures !Fits(messages, start, max, k) {
      OverBeforeAt(messages, start, max, cut, k);
    }
  }

  lemma FoldingStarts(messages: seq<Message>, start: seq<string>, max: int, protected: nat)
    requires protected <= |messages|
    ensures Folding(messages, start, max, protected, 0, messages, start)
  {
    assert messages[..0] == [];
  }

  method FoldOldestTurn(ghost messages: seq<Message>, ghost start: seq<string>, ghost max: int, protected: nat, cut: nat,
                        retained: seq<Message>, lines: seq<string>)
    returns (end: nat, rest: seq<Message>, more: seq<string>)
    requires Folding(messages, start, max, protected, cut, retained, lines)
    requires HistoryTokens(retained, Join(lines, "\n")) > max
    requires cut < protected < |messages| && messages[protected].role == User
    ensures 1 <= end <= protected - cut
    ensures Folding(messages, start, max, protected, cut + end, rest, more)
  {
    end := OldestTurn(retained, protected - cut);
    more := AddLines(lines, retained[..end]);
    rest := retained[end..];
    GuardIsFits(messages, start, max, cut);
    FoldTurn(messages, start, max, protected, cut, retained, lines, end, more);
  }

  method FoldOldTurns(messages: seq<Message>, start: seq<string>, maxTokens: int, protected: nat)
    returns (retained: seq<Message>, lines: seq<string>, dropped: nat)
    requires protected == 0 || (protected < |messages| && messages[protected].role == User)
    ensures IsCut(messages, start, maxTokens, protected, dropped)
    ensures retained == messages[dropped..] && lines == start + LinesFor(messages[..dropped])
  {
    hide LinesFor, OverBefore, Fits, MessageTokens;
    retained, lines, dropped := messages, start, 0;
    var minimumStart := protected;
    FoldingStarts(messages, start, maxTokens, protected);
    while HistoryTokens(retained, Join(lines, "\n")) > maxTokens && minimumStart > 0
      invariant dropped + minimumStart == protected
      invariant Folding(messages, start, maxTokens, protected, dropped, retained, lines)
      decreases minimumStart
    {
      var end;
      end, retained, lines := FoldOldestTurn(messages, start, maxTokens, protected, dropped, retained, lines);
      minimumStart, dropped := minimumStart - end, dropped + end;
    }
    FoldingIsCut(messages, start, maxTokens, protected, dropped, retained, lines);
  }

  /**
   * `compact_history`: folds away the fewest whole turns that fit, but never any of the protected recent ones.
   * `protected` is where those start, and `kept` how many summary lines survived the summary's own budget.
   */
  method CompactHistory(messages: seq<Message>, summary: string, maxTokens: int, keep: int, maxSummary: nat)
    returns (c: Compaction, protected: nat, ghost kept: nat)
    ensures if 1 <= keep <= Users(messages)
            then protected < |messages| && messages[protected].role == User && Users(messages[protected..]) == keep
            else protected == 0
    ensures IsCut(messages, SummaryLines(summary), maxTokens, protected, c.compacted)
    ensures c.messages == messages[c.compacted..]
    ensures var lines := SummaryLines(summary) + LinesFor(messages[..c.compacted]);
            LongestSuffix(lines, maxSummary, kept) && c.summary == Join(Bounded(lines, kept), "\n")
    ensures CutFitsText(messages, SummaryLines(summary), maxTokens, protected, c.compacted)
    ensures c.tokensBefore == TextCost(summary, messages) && c.tokensAfter == TextCost(c.summary, c.messages)
  {
    hide HistoryTokens, TextCost, CutFitsText, LinesFor, SummaryLines;
    protected := RecentTurnStart(messages, keep);
    var retained, lines, dropped := FoldOldTurns(messages, SummaryLines(summary), maxTokens, protected);
    var bounded;
    bounded, kept := BoundSummary(lines, maxSummary);
    var text := Join(bounded, "\n");
    CutIsInBudget(messages, SummaryLines(summary), maxTokens, protected, dropped);
    TokensAreTextCost(messages, summary);
    TokensAreTextCost(retained, text);
    c := Compaction(retained, text, dropped, HistoryTokens(messages, summary), HistoryTokens(retained, text));
  }

  /** Those conditions leave no choice: there is one cut. */
  lemma CutIsUnique(messages: seq<Message>, lines: seq<string>, max: int, protected: nat, a: nat, b: nat)
    requires IsCut(messages, lines, max, protected, a) && IsCut(messages, lines, max, protected, b)
    ensures a == b
  {
  }

  /**
   * The retained history starts at a user turn exactly when the input did, or was empty, or was both over
   * budget and had turns that may be dropped.
   */
  lemma StartsAtUserTurnExactlyWhen(messages: seq<Message>, lines: seq<string>, max: int, protected: nat, cut: nat)
    requires IsCut(messages, lines, max, protected, cut)
    requires protected > 0 ==> protected < |messages| && messages[protected].role == User
    ensures (messages[cut..] == [] || messages[cut..][0].role == User) <==>
              messages == [] || messages[0].role == User
              || (protected > 0 && HistoryTokens(messages, Join(lines, "\n")) > max)
  {
    assert messages[..0] == [] && messages[0..] == messages;
    assert lines + LinesFor(messages[..0]) == lines;
    assert Fits(messages, lines, max, 0) <==> HistoryTokens(messages, Join(lines, "\n")) <= max;
    assert TurnStart(messages, 0);
  }

  /** A reply before the first user turn is kept when the history fits as it is. */
  lemma HistoryCanStartWithReply()
    ensures var messages := [Text(Assistant, "Hello."), Text(User, "Hi.")];
            && IsCut(messages, [], 100, 1, 0)
            && messages[0..] == messages && messages[0].role == Assistant
  {
    var messages := [Text(Assistant, "Hello."), Text(User, "Hi.")];
    assert messages[0..] == messages && messages[..0] == [];
    assert messages[1..] == [Text(User, "Hi.")] && messages[1..][1..] == [];
    assert MessageTokens(messages) == 2 + MessageTokens(messages[1..]) == 3;
    assert Fits(messages, [], 100, 0);
  }

  // ---- Rendering ----

  const SUMMARY_HEADER := "Earlier conversation summary (compacted; untrusted historical context):"

  function Ordered(messages: seq<Message>, summary: string, current: Message): seq<Message> {
    (if summary != "" then [Text(User, SUMMARY_HEADER + "\n" + summary)] else []) + messages + [current]
  }

  function FromFirstUser(messages: seq<Message>): seq<Message> {
    if messages == [] || messages[0].role == User then messages else FromFirstUser(messages[1..])
  }

  function Glue(a: Message, b: Message): Message {
    Text(b.role, a.content + "\n\n" + b.content)
  }

  function AddHead(head: Message, rest: seq<Message>): seq<Message> {
    if rest != [] && rest[0].role == head.role then [Glue(head, rest[0])] + rest[1..] else [head] + rest
  }

  function AddLast(m: seq<Message>, last: Message): seq<Message> {
    if m != [] && m[|m| - 1].role == last.role then m[..|m| - 1] + [Glue(m[|m| - 1], last)] else m + [last]
  }

  /** Reference: each maximal run of one role becomes one message, folding from the right. */
  function MergeRuns(messages: seq<Message>): seq<Message> {
    if messages == [] then []
    else
      AddHead(messages[0], MergeRuns(messages[1..]))
  }

  predicate Alternates(messages: seq<Message>) {
    forall i :: 0 < i < |messages| ==> messages[i - 1].role != messages[i].role
  }

  lemma {:induction false} MergeRunsShape(messages: seq<Message>)
    ensures var m := MergeRuns(messages);
            && Alternates(m)
            && (m == [] <==> messages == [])
            && (m != [] ==> m[0].role == messages[0].role && m[|m| - 1].role == messages[|messages| - 1].role)
  {
    if messages != [] {
      hide AddHead, Alternates;
      MergeRunsShape(messages[1..]);
      AddHeadShape(messages[0], MergeRuns(messages[1..]));
    }
  }

  lemma AddHeadShape(head: Message, rest: seq<Message>)
    requires Alternates(rest)
    ensures var m := AddHead(head, rest);
            && Alternates(m) && m != [] && m[0].role == head.role
            && m[|m| - 1].role == (if rest == [] then head else rest[|rest| - 1]).role
  {
  }

  /** Folding from the left, as the code does, comes to the same. */
  lemma {:induction false} MergeRunsAppend(messages: seq<Message>, last: Message)
    ensures MergeRuns(messages + [last]) == AddLast(MergeRuns(messages), last)
  {
    if messages == [] {
      assert MergeRuns([last]) == [last] by { assert [last][1..] == []; }
      assert messages + [last] == [last];
    } else {
      var head, tail := messages[0], messages[1..];
      assert (messages + [last])[1..] == tail + [last];
      MergeRunsAppend(tail, last);
      MergeRunsShape(tail);
      AddHeadThenLast(head, MergeRuns(tail), last);
    }
  }

  /** Merging a message on at the front and one on at the back can be done in either order. */
  lemma AddHeadThenLast(head: Message, t: seq<Message>, last: Message)
    ensures AddHead(head, AddLast(t, last)) == AddLast(AddHead(head, t), last)
  {
    if |t| == 1 && t[0].role == last.role == head.role {
      assert head.content + "\n\n" + (t[0].content + "\n\n" + last.content)
          == (head.content + "\n\n" + t[0].content) + "\n\n" + last.content;
    }
    if t == [] {
      assert AddLast(t, last) == [last];
    } else if t[|t| - 1].role != last.role {
      assert (t + [last])[1..] == t[1..] + [last];
    } else if |t| > 1 {
      assert (t[..|t| - 1] + [Glue(t[|t| - 1], last)])[1..] == t[1..][..|t| - 2] + [Glue(t[|t| - 1], last)];
    }
  }

  lemma {:induction false} FromFirstUserAppend(messages: seq<Message>, last: Message)
    ensures FromFirstUser(messages + [last]) ==
              if FromFirstUser(messages) == [] && last.role != User then [] else FromFirstUser(messages) + [last]
  {
    if messages == [] {
      assert [last][1..] == [];
    } else if messages[0].role != User {
      assert (messages + [last])[1..] == messages[1..] + [last];
      FromFirstUserAppend(messages[1..], last);
    }
  }

  /** One turn of the loop of `render_history`. */
  function Rendered(merged: seq<Message>, m: Message): seq<Message> {
    if merged == [] && m.role != User then [] else AddLast(merged, m)
  }

  lemma RenderedOneMore(messages: seq<Message>, m: Message)
    ensures Rendered(MergeRuns(FromFirstUser(messages)), m) == MergeRuns(FromFirstUser(messages + [m]))
  {
    FromFirstUserAppend(messages, m);
    MergeRunsAppend(FromFirstUser(messages), m);
    MergeRunsShape(FromFirstUser(messages));
  }

  /** What is rendered for any earlier messages: a user turn first, alternating roles, the current message last. */
  lemma RenderedShape(messages: seq<Message>, current: Message)
    requires current.role == User
    ensures var merged := MergeRuns(FromFirstUser(messages + [current]));
            merged != [] && merged[0].role == User && Alternates(merged) && merged[|merged| - 1].role == User
  {
    FromFirstUserAppend(messages, current);
    FromFirstUserStarts(messages + [current]);
    MergeRunsShape(FromFirstUser(messages + [current]));
  }

  /**
   * `render_history`: from the first user turn on, each run of one role merged. So providers get a user turn
   * first, alternating roles, and the current message last, for any history at all.
   */
  method RenderHistory(messages: seq<Message>, summary: string, current: Message) returns (merged: seq<Message>)
    requires current.role == User
    ensures merged == MergeRuns(FromFirstUser(Ordered(messages, summary, current)))
    ensures merged != [] && merged[0].role == User && Alternates(merged) && merged[|merged| - 1].role == User
  {
    var ordered := Ordered(messages, summary, current);
    merged := [];
    for n := 0 to |ordered|
      invariant merged == MergeRuns(FromFirstUser(ordered[..n]))
    {
      var m := ordered[n];
      RenderedOneMore(ordered[..n], m);
      assert ordered[..n + 1] == ordered[..n] + [m];
      if merged == [] && m.role != User { continue; }
      if merged != [] && merged[|merged| - 1].role == m.role {
        merged := merged[..|merged| - 1] + [Glue(merged[|merged| - 1], m)];
      } else {
        merged := merged + [m];
      }
    }
    assert ordered[..|ordered|] == ordered;
    assert ordered == ordered[..|ordered| - 1] + [current];
    RenderedShape(ordered[..|ordered| - 1], current);
  }

  function Texts(messages: seq<Message>): seq<string> {
    if messages == [] then [] else [messages[0].content] + Texts(messages[1..])
  }

  /** The text of a conversation, with a blank line between messages. */
  function AllText(messages: seq<Message>): string {
    Join(Texts(messages), "\n\n")
  }

  lemma TextsCons(m: Message, rest: seq<Message>)
    ensures Texts([m] + rest) == [m.content] + Texts(rest)
    ensures AllText([m] + rest) == if rest == [] then m.content else m.content + "\n\n" + AllText(rest)
  {
    assert ([m] + rest)[1..] == rest;
    assert ([m.content] + Texts(rest))[1..] == Texts(rest);
  }

  /** Merging runs changes no text and no order. */
  lemma {:induction false} MergingKeepsText(messages: seq<Message>)
    ensures AllText(MergeRuns(messages)) == AllText(messages)
  {
    hide AllText;
    if messages != [] {
      var head, tail := messages[0], messages[1..];
      MergingKeepsText(tail);
      MergeRunsShape(tail);
      assert messages == [head] + tail;
      TextsCons(head, tail);
      AddHeadKeepsText(head, MergeRuns(tail));
    }
  }

  lemma AddHeadKeepsText(head: Message, rest: seq<Message>)
    ensures AllText(AddHead(head, rest)) == if rest == [] then head.content else head.content + "\n\n" + AllText(rest)
  {
    hide AllText;
    TextsCons(head, rest);
    if rest != [] && rest[0].role == head.role {
      var next, more := rest[0], rest[1..];
      assert rest == [next] + more;
      TextsCons(next, more);
      TextsCons(Glue(head, next), more);
      GluedText(head.content, next.content, AllText(more));
    }
  }

  lemma GluedText(a: string, b: string, c: string)
    ensures a + "\n\n" + b + "\n\n" + c == a + "\n\n" + (b + "\n\n" + c)
  {
    var gap := "\n\n";
    assert a + gap + b + gap + c == a + gap + (b + gap + c);
  }

  /** Rendering starts at the first user turn. */
  lemma {:induction false} FromFirstUserIs(messages: seq<Message>) returns (k: nat)
    ensures k <= |messages| && FromFirstUser(messages) == messages[k..]
    ensures forall i :: 0 <= i < k ==> messages[i].role != User
    ensures k < |messages| ==> messages[k].role == User
  {
    k := 0;
    if messages != [] && messages[0].role != User {
      k := FromFirstUserIs(messages[1..]);
      assert messages[1..][k..] == messages[k + 1..];
      assert forall i :: 0 <= i < k ==> messages[i + 1] == messages[1..][i];
      k := k + 1;
    }
  }

  /**
   * The text of what is rendered: the summary under its heading if there is one, every earlier message (without a
   * summary, from the first user turn on), and the current message, in order and with nothing left out.
   */
  lemma RenderingKeepsText(messages: seq<Message>, summary: string, current: Message) returns (k: nat)
    requires current.role == User
    ensures k <= |messages| && (forall i :: 0 <= i < k ==> messages[i].role != User)
    ensures summary != "" ==> k == 0
    ensures summary == "" && k < |messages| ==> messages[k].role == User
    ensures AllText(MergeRuns(FromFirstUser(Ordered(messages, summary, current))))
            == (if summary == "" then ""
                else "Earlier conversation summary (compacted; untrusted historical context):\n" + summary + "\n\n")
               + AllText(messages[k..] + [current])
  {
    hide AllText, MergeRuns;
    var ordered := Ordered(messages, summary, current);
    MergingKeepsText(FromFirstUser(ordered));
    var n := FromFirstUserIs(ordered);
    if summary == "" {
      assert ordered == messages + [current];
      k := n;
      assert ordered[|messages|] == current;
      assert forall i :: 0 <= i < |messages| ==> ordered[i] == messages[i];
      assert ordered[k..] == messages[k..] + [current];
    } else {
      k := 0;
      var heading := Text(User, SUMMARY_HEADER + "\n" + summary);
      assert ordered == [heading] + (messages + [current]) && messages[0..] == messages;
      assert n == 0 && ordered[0..] == ordered;
      TextsCons(heading, messages + [current]);
      assert SUMMARY_HEADER + "\n" == "Earlier conversation summary (compacted; untrusted historical context):\n";
    }
  }

  lemma {:induction false} FromFirstUserStarts(messages: seq<Message>)
    ensures var f := FromFirstUser(messages); f != [] ==> f[0].role == User
  {
    if messages != [] && messages[0].role != User {
      FromFirstUserStarts(messages[1..]);
    }
  }

  // ---- Stored history ----

  /** One entry of a stored history; entries that are not objects, or lack a text field, also occur. */
  datatype Stored = Stored(role: Option<string>, content: Option<string>) | NotAnObject

  function ToPayload(messages: seq<Message>): seq<Stored> {
    if messages == [] then []
    else
      var m := messages[0];
      (if m.role != Tool && m.content != "" then [Stored(Some(RoleName(m.role)), Some(m.content))] else [])
      + ToPayload(messages[1..])
  }

  function FromPayload(payload: seq<Stored>): seq<Message> {
    if payload == [] then []
    else
      var p := payload[0];
      (if p.Stored? && p.content.Some? && p.content.value != "" && p.role == Some("user")
       then [Text(User, p.content.value)]
       else if p.Stored? && p.content.Some? && p.content.value != "" && p.role == Some("assistant")
       then [Text(Assistant, p.content.value)]
       else [])
      + FromPayload(payload[1..])
  }

  predicate TextTurn(m: Message) {
    m.role != Tool && m.content != "" && m.calls == [] && m.results == []
  }

  /** Whatever is stored, reading gives text turns, and saving and reading those again changes nothing. */
  lemma {:induction false} PayloadRoundTrip(payload: seq<Stored>)
    ensures var read := FromPayload(payload);
            && (forall i :: 0 <= i < |read| ==> TextTurn(read[i]))
            && FromPayload(ToPayload(read)) == read
  {
    if payload != [] {
      PayloadRoundTrip(payload[1..]);
      var rest, read := FromPayload(payload[1..]), FromPayload(payload);
      if read != rest {
        var m := read[0];
        assert read == [m] + rest && TextTurn(m);
        var saved := Stored(Some(RoleName(m.role)), Some(m.content));
        assert ToPayload(read) == [saved] + ToPayload(rest) by { assert read[1..] == rest; }
        assert ([saved] + ToPayload(rest))[1..] == ToPayload(rest);
        RoleNamesDiffer();
      }
    }
  }

  /** What is saved: the user and assistant messages that have any text, that text alone, in order. */
  function Spoken(messages: seq<Message>): seq<Message> {
    if messages == [] then []
    else
      var front, last := messages[..|messages| - 1], messages[|messages| - 1];
      if last.role != Tool && last.content != "" then Spoken(front) + [Text(last.role, last.content)] else Spoken(front)
  }

  lemma {:induction false} SpokenCons(m: Message, rest: seq<Message>)
    ensures Spoken([m] + rest) == Spoken([m]) + Spoken(rest)
  {
    if rest == [] {
      assert [m] + rest == [m];
    } else {
      var n := |rest| - 1;
      assert ([m] + rest)[..|rest|] == [m] + rest[..n] && ([m] + rest)[|rest|] == rest[n];
      SpokenCons(m, rest[..n]);
    }
  }

  /** Saving a conversation and reading it gives back what was said. */
  lemma {:induction false} SavedReadsBack(messages: seq<Message>)
    ensures FromPayload(ToPayload(messages)) == Spoken(messages)
  {
    if messages != [] {
      var m, rest := messages[0], messages[1..];
      SavedReadsBack(rest);
      assert messages == [m] + rest;
      SpokenCons(m, rest);
      var one := [m];
      assert one[..|one| - 1] == [] && one[|one| - 1] == m && Spoken([]) == [];
      assert Spoken(one) == if m.role != Tool && m.content != "" then [Text(m.role, m.content)] else [];
      RoleNamesDiffer();
      if m.role != Tool && m.content != "" {
        var saved := Stored(Some(RoleName(m.role)), Some(m.content));
        assert ToPayload(messages) == [saved] + ToPayload(rest) && saved.content.value != "";
        assert FromPayload([saved] + ToPayload(rest)) == [Text(m.role, m.content)] + FromPayload(ToPayload(rest)) by {
          assert ([saved] + ToPayload(rest))[1..] == ToPayload(rest);
        }
      } else {
        assert ToPayload(messages) == ToPayload(rest);
      }
    }
  }

  lemma RoleNamesDiffer()
    ensures RoleName(User) != RoleName(Assistant)
  {
    assert RoleName(User)[0] != RoleName(Assistant)[0];
  }
}
