/** Data-protection decisions and redaction (src/loro/data_protection.py:193-295). */
module Redaction {
  import opened Common

  datatype Finding = Finding(kind: string, level: nat, start: nat, end: nat)
  datatype Interval = Interval(start: nat, end: nat)

  predicate InRange(findings: seq<Finding>, n: nat) {
    forall i :: 0 <= i < |findings| ==> findings[i].start <= findings[i].end <= n
  }

  // ---- Reference: left to right over the text, from the set of findings alone ----

  ghost predicate Covered(findings: seq<Finding>, i: int) {
    exists f :: f in findings && f.start <= i < f.end
  }

  /** A marker goes at i when a finding starts there that no earlier-starting finding reaches. */
  ghost predicate StartsBlock(findings: seq<Finding>, i: int) {
    && (exists f :: f in findings && f.start == i)
    && (forall g :: g in findings ==> !(g.start < i <= g.end))
  }

  ghost function Reference(text: string, findings: seq<Finding>, marker: string, i: nat): string
    requires i <= |text|
    decreases |text| - i, 1
  {
    (if StartsBlock(findings, i) then marker else "") + ReferenceRest(text, findings, marker, i)
  }

  /** The reference from i on, after any marker at i. */
  ghost function ReferenceRest(text: string, findings: seq<Finding>, marker: string, i: nat): string
    requires i <= |text|
    decreases |text| - i, 0
  {
    if i == |text| then ""
    else (if Covered(findings, i) then "" else [text[i]]) + Reference(text, findings, marker, i + 1)
  }

  // ---- Sorting by (start, end) ----

  predicate Before(a: Finding, b: Finding) {
    a.start < b.start || (a.start == b.start && a.end <= b.end)
  }

  predicate Sorted(findings: seq<Finding>) {
    forall i, j :: 0 <= i < j < |findings| ==> Before(findings[i], findings[j])
  }

  function Insert(f: Finding, sorted: seq<Finding>): seq<Finding> {
    if sorted == [] || !Before(sorted[0], f) then [f] + sorted
    else [sorted[0]] + Insert(f, sorted[1..])
  }

  lemma {:induction false} InsertSorts(f: Finding, sorted: seq<Finding>)
    requires Sorted(sorted)
    ensures Sorted(Insert(f, sorted)) && multiset(Insert(f, sorted)) == multiset([f]) + multiset(sorted)
  {
    if sorted == [] || !Before(sorted[0], f) {
      SortedCons(f, sorted);
    } else {
      var rest := Insert(f, sorted[1..]);
      InsertSorts(f, sorted[1..]);
      assert sorted == [sorted[0]] + sorted[1..];
      forall g | g in rest ensures Before(sorted[0], g) {
        assert g in multiset(rest);
        assert g == f || g in sorted[1..];
      }
      SortedCons(sorted[0], rest);
    }
  }

  lemma SortedCons(f: Finding, rest: seq<Finding>)
    requires Sorted(rest)
    requires (rest != [] && !Before(rest[0], f)) || forall g :: g in rest ==> Before(f, g)
    ensures Sorted([f] + rest)
  {
  }

  /** `sorted(findings, key=(start, end))`. */
  function SortFindings(findings: seq<Finding>): seq<Finding> {
    if findings == [] then [] else Insert(findings[0], SortFindings(findings[1..]))
  }

  lemma {:induction false} SortSorts(findings: seq<Finding>)
    ensures Sorted(SortFindings(findings)) && multiset(SortFindings(findings)) == multiset(findings)
  {
    if findings != [] {
      assert findings == [findings[0]] + findings[1..];
      SortSorts(findings[1..]);
      InsertSorts(findings[0], SortFindings(findings[1..]));
    }
  }

  lemma SortKeepsMembers(findings: seq<Finding>)
    ensures forall f :: f in SortFindings(findings) <==> f in findings
  {
    SortSorts(findings);
    forall f ensures f in SortFindings(findings) <==> f in findings {
      assert f in multiset(SortFindings(findings)) <==> f in multiset(findings);
    }
  }

  // ---- Merging ----

  predicate Separated(intervals: seq<Interval>) {
    && (forall k :: 0 <= k < |intervals| ==> intervals[k].start <= intervals[k].end)
    && (forall k, l :: 0 <= k < l < |intervals| ==> intervals[k].end < intervals[l].start)
  }

  predicate Fits(intervals: seq<Interval>, n: nat) {
    forall k :: 0 <= k < |intervals| ==> intervals[k].end <= n
  }

  predicate Inside(intervals: seq<Interval>, i: int) {
    exists k :: 0 <= k < |intervals| && intervals[k].start <= i < intervals[k].end
  }

  predicate IsStart(intervals: seq<Interval>, i: int) {
    exists k :: 0 <= k < |intervals| && intervals[k].start == i
  }

  /** The intervals are strictly separated, cover the same characters, and start where the findings' blocks do. */
  ghost predicate Merged(intervals: seq<Interval>, findings: seq<Finding>) {
    && Separated(intervals)
    && (forall i: int :: Inside(intervals, i) <==> Covered(findings, i))
    && (forall i: int :: IsStart(intervals, i) <==> StartsBlock(findings, i))
  }

  /** The last interval ends where the furthest finding so far ends. */
  ghost predicate Reaches(intervals: seq<Interval>, findings: seq<Finding>) {
    if intervals == [] then findings == []
    else
      var last := intervals[|intervals| - 1];
      && (forall f :: f in findings ==> f.end <= last.end)
      && (exists f :: f in findings && f.end == last.end)
  }

  function Step(intervals: seq<Interval>, f: Finding): seq<Interval> {
    if intervals != [] && f.start <= intervals[|intervals| - 1].end then
      var last := intervals[|intervals| - 1];
      intervals[..|intervals| - 1] + [Interval(last.start, if last.end < f.end then f.end else last.end)]
    else intervals + [Interval(f.start, f.end)]
  }

  lemma InsideAppend(intervals: seq<Interval>, last: Interval, i: int)
    ensures Inside(intervals + [last], i) <==> Inside(intervals, i) || last.start <= i < last.end
    ensures IsStart(intervals + [last], i) <==> IsStart(intervals, i) || last.start == i
  {
    var all := intervals + [last];
    assert all[|intervals|] == last;
    assert forall k :: 0 <= k < |intervals| ==> all[k] == intervals[k];
  }

  lemma CoveredAppend(findings: seq<Finding>, f: Finding, i: int)
    ensures Covered(findings + [f], i) <==> Covered(findings, i) || f.start <= i < f.end
  {
    assert f in findings + [f];
    assert forall g :: g in findings ==> g in findings + [f];
  }

  /** A finding that starts within reach of the last interval adds no block of its own; otherwise it adds one. */
  lemma StartsAppend(intervals: seq<Interval>, findings: seq<Finding>, f: Finding, i: int)
    requires Merged(intervals, findings) && Reaches(intervals, findings) && f.start <= f.end
    requires forall g :: g in findings ==> g.start <= f.start
    requires intervals != [] ==> intervals[|intervals| - 1].start <= f.start
    ensures StartsBlock(findings + [f], i) <==>
              StartsBlock(findings, i)
              || (i == f.start && (intervals == [] || intervals[|intervals| - 1].end < f.start))
  {
    var more := findings + [f];
    assert f in more && forall g :: g in findings ==> g in more;
    if StartsBlock(findings, i) {
      var g :| g in findings && g.start == i;
      assert g in more;
    }
    if intervals != [] && i == f.start <= intervals[|intervals| - 1].end {
      var last := intervals[|intervals| - 1];
      var g :| g in findings && g.end == last.end;
      assert g in more;
      if StartsBlock(more, i) {
        assert g.start == i;
        assert StartsBlock(findings, i);
      }
    }
  }

  lemma StepReaches(intervals: seq<Interval>, findings: seq<Finding>, f: Finding)
    requires Reaches(intervals, findings) && f.start <= f.end
    ensures Reaches(Step(intervals, f), findings + [f])
  {
    var more := findings + [f];
    assert more[|findings|] == f;
    assert forall g :: g in more <==> g in findings || g == f;
  }

  lemma StepMerges(intervals: seq<Interval>, findings: seq<Finding>, f: Finding)
    requires Merged(intervals, findings) && Reaches(intervals, findings) && f.start <= f.end
    requires forall g :: g in findings ==> g.start <= f.start
    requires intervals != [] ==> intervals[|intervals| - 1].start <= f.start
    ensures Merged(Step(intervals, f), findings + [f]) && Reaches(Step(intervals, f), findings + [f])
  {
    hide Covered, StartsBlock, Inside, IsStart, Reaches;
    var next, more := Step(intervals, f), findings + [f];
    StepReaches(intervals, findings, f);
    forall i: int
      ensures Inside(next, i) <==> Covered(more, i)
      ensures IsStart(next, i) <==> StartsBlock(more, i)
    {
      CoveredAppend(findings, f, i);
      StartsAppend(intervals, findings, f, i);
      if intervals != [] && f.start <= intervals[|intervals| - 1].end {
        var front, last := intervals[..|intervals| - 1], intervals[|intervals| - 1];
        assert intervals == front + [last];
        InsideAppend(front, last, i);
        InsideAppend(front, next[|next| - 1], i);
      } else {
        InsideAppend(intervals, Interval(f.start, f.end), i);
      }
    }
  }

  // ---- Splicing ----

  /** Left to right from `pos`: the text up to interval k, a marker, and so on. */
  function Render(text: string, intervals: seq<Interval>, marker: string, k: nat, pos: nat): string
    requires k <= |intervals| && pos <= |text|
    requires Separated(intervals) && Fits(intervals, |text|)
    requires k < |intervals| ==> pos <= intervals[k].start
    decreases |intervals| - k
  {
    if k == |intervals| then text[pos..]
    else text[pos..intervals[k].start] + (marker + Render(text, intervals, marker, k + 1, intervals[k].end))
  }

  lemma Regroup<T>(a: seq<T>, b: seq<T>, c: seq<T>)
    ensures a + b + c == a + (b + c)
  {
  }

  lemma Halves<T>(a: seq<T>, b: seq<T>)
    ensures (a + b)[..|a|] == a && (a + b)[|a|..] == b
  {
  }

  lemma RenderDrop(text: string, intervals: seq<Interval>, marker: string, k: nat, pos: nat)
    requires k <= |intervals| && pos <= |text|
    requires Separated(intervals) && Fits(intervals, |text|)
    requires k < |intervals| ==> pos <= intervals[k].start
    ensures var r := Render(text, intervals, marker, k, 0);
            pos <= |r| && r[..pos] == text[..pos] && r[pos..] == Render(text, intervals, marker, k, pos)
  {
    if k < |intervals| {
      var start := intervals[k].start;
      assert text[0..start] == text[..pos] + text[pos..start];
      Regroup(text[..pos], text[pos..start], marker + Render(text, intervals, marker, k + 1, intervals[k].end));
    } else {
      assert text[0..] == text[..pos] + text[pos..];
    }
    Halves(text[..pos], Render(text, intervals, marker, k, pos));
  }

  /** One character of the reference, with the marker that may follow it. */
  lemma ReferenceTurn(text: string, findings: seq<Finding>, marker: string, i: nat, covered: bool, starts: bool)
    requires i < |text| && (covered <==> Covered(findings, i)) && (starts <==> StartsBlock(findings, i + 1))
    ensures var here, rest := ReferenceRest(text, findings, marker, i), ReferenceRest(text, findings, marker, i + 1);
            && (!covered && starts ==> here == [text[i]] + (marker + rest))
            && (!covered && !starts ==> here == [text[i]] + rest)
            && (covered && !starts ==> here == rest)
  {
  }

  lemma {:induction false} GapRenders(text: string, findings: seq<Finding>, intervals: seq<Interval>, marker: string,
      k: nat, i: nat)
    requires Merged(intervals, findings) && Fits(intervals, |text|)
    requires k <= |intervals| && i <= |text|
    requires k > 0 ==> intervals[k - 1].end <= i
    requires k < |intervals| ==> i < intervals[k].start
    ensures ReferenceRest(text, findings, marker, i) == Render(text, intervals, marker, k, i)
    decreases |text| - i, 0
  {
    if i < |text| {
      GapPosition(findings, intervals, k, i);
      if k < |intervals| && i + 1 == intervals[k].start {
        ReferenceTurn(text, findings, marker, i, false, true);
        BlockRenders(text, findings, intervals, marker, k, i + 1);
        RenderBeforeBlock(text, intervals, marker, k, i);
      } else {
        ReferenceTurn(text, findings, marker, i, false, false);
        GapRenders(text, findings, intervals, marker, k, i + 1);
        RenderUnroll(text, intervals, marker, k, i);
      }
    }
  }

  /** Between two intervals nothing is covered, and the next block starts where the next interval does. */
  lemma GapPosition(findings: seq<Finding>, intervals: seq<Interval>, k: nat, i: nat)
    requires Merged(intervals, findings) && k <= |intervals|
    requires k > 0 ==> intervals[k - 1].end <= i
    requires k < |intervals| ==> i < intervals[k].start
    ensures !Covered(findings, i)
    ensures StartsBlock(findings, i + 1) <==> k < |intervals| && i + 1 == intervals[k].start
  {
    assert !Inside(intervals, i);
    assert IsStart(intervals, i + 1) <==> k < |intervals| && i + 1 == intervals[k].start;
  }

  lemma BlockPosition(findings: seq<Finding>, intervals: seq<Interval>, k: nat, i: nat)
    requires Merged(intervals, findings) && k < |intervals| && intervals[k].start <= i < intervals[k].end
    ensures Covered(findings, i) && !StartsBlock(findings, i + 1)
  {
    assert Inside(intervals, i);
    assert !IsStart(intervals, i + 1);
  }

  lemma RenderBeforeBlock(text: string, intervals: seq<Interval>, marker: string, k: nat, i: nat)
    requires Separated(intervals) && Fits(intervals, |text|)
    requires k < |intervals| && i < |text| && i + 1 == intervals[k].start
    ensures Render(text, intervals, marker, k, i)
            == [text[i]] + (marker + Render(text, intervals, marker, k + 1, intervals[k].end))
  {
    assert text[i..intervals[k].start] == [text[i]];
  }

  lemma RenderUnroll(text: string, intervals: seq<Interval>, marker: string, k: nat, i: nat)
    requires k <= |intervals| && i < |text|
    requires Separated(intervals) && Fits(intervals, |text|)
    requires k < |intervals| ==> i < intervals[k].start
    ensures Render(text, intervals, marker, k, i) == [text[i]] + Render(text, intervals, marker, k, i + 1)
  {
    if k < |intervals| {
      var start := intervals[k].start;
      assert text[i..start] == [text[i]] + text[i + 1..start];
      Regroup([text[i]], text[i + 1..start], marker + Render(text, intervals, marker, k + 1, intervals[k].end));
    }
  }

  lemma {:induction false} BlockRenders(text: string, findings: seq<Finding>, intervals: seq<Interval>, marker: string,
      k: nat, i: nat)
    requires Merged(intervals, findings) && Fits(intervals, |text|)
    requires k < |intervals| && intervals[k].start <= i <= intervals[k].end
    ensures ReferenceRest(text, findings, marker, i)
            == Render(text, intervals, marker, k + 1, intervals[k].end)
    decreases |text| - i, 1
  {
    if i == intervals[k].end {
      GapRenders(text, findings, intervals, marker, k + 1, i);
    } else {
      BlockPosition(findings, intervals, k, i);
      ReferenceTurn(text, findings, marker, i, true, false);
      BlockRenders(text, findings, intervals, marker, k, i + 1);
    }
  }

  lemma RenderIsReference(text: string, findings: seq<Finding>, intervals: seq<Interval>, marker: string)
    requires Merged(intervals, findings) && Fits(intervals, |text|)
    ensures Render(text, intervals, marker, 0, 0) == Reference(text, findings, marker, 0)
  {
    if intervals != [] && intervals[0].start == 0 {
      assert IsStart(intervals, 0);
      BlockRenders(text, findings, intervals, marker, 0, 0);
    } else {
      assert !IsStart(intervals, 0);
      GapRenders(text, findings, intervals, marker, 0, 0);
    }
  }

  lemma SameAtPosition(a: seq<Finding>, b: seq<Finding>, i: int)
    requires forall f :: f in a <==> f in b
    ensures (Covered(a, i) <==> Covered(b, i)) && (StartsBlock(a, i) <==> StartsBlock(b, i))
  {
  }

  lemma {:induction false} ReferenceByMembers(text: string, a: seq<Finding>, b: seq<Finding>, marker: string, i: nat)
    requires i <= |text| && forall f :: f in a <==> f in b
    ensures Reference(text, a, marker, i) == Reference(text, b, marker, i)
    decreases |text| - i
  {
    hide Covered, StartsBlock;
    SameAtPosition(a, b, i);
    if i < |text| {
      ReferenceByMembers(text, a, b, marker, i + 1);
    }
  }

  /** The merge after the findings in done. */
  ghost predicate MergedSoFar(intervals: seq<Interval>, done: seq<Finding>, bound: nat) {
    && Merged(intervals, done) && Reaches(intervals, done) && Fits(intervals, bound)
    && (intervals != [] ==> done != [] && intervals[|intervals| - 1].start <= done[|done| - 1].start)
  }

  lemma MergeOneMore(intervals: seq<Interval>, sorted: seq<Finding>, n: nat, bound: nat)
    requires Sorted(sorted) && InRange(sorted, bound) && n < |sorted|
    requires MergedSoFar(intervals, sorted[..n], bound)
    ensures MergedSoFar(Step(intervals, sorted[n]), sorted[..n + 1], bound)
  {
    hide Merged, Reaches;
    assert sorted[..n + 1] == sorted[..n] + [sorted[n]];
    StepMerges(intervals, sorted[..n], sorted[n]);
  }

  method MergeIntervals(sorted: seq<Finding>, ghost bound: nat) returns (intervals: seq<Interval>)
    requires Sorted(sorted) && InRange(sorted, bound)
    ensures Merged(intervals, sorted) && Fits(intervals, bound)
  {
    intervals := [];
    for n := 0 to |sorted|
      invariant MergedSoFar(intervals, sorted[..n], bound)
    {
      MergeOneMore(intervals, sorted, n, bound);
      var f := sorted[n];
      if intervals != [] && f.start <= intervals[|intervals| - 1].end {
        var last := intervals[|intervals| - 1];
        intervals := intervals[..|intervals| - 1] + [Interval(last.start, if last.end < f.end then f.end else last.end)];
      } else {
        intervals := intervals + [Interval(f.start, f.end)];
      }
    }
    assert sorted[..|sorted|] == sorted;
  }

  method Splice(text: string, intervals: seq<Interval>, marker: string) returns (redacted: string)
    requires Separated(intervals) && Fits(intervals, |text|)
    ensures redacted == Render(text, intervals, marker, 0, 0)
  {
    redacted := text;
    var k := |intervals|;
    while k > 0
      invariant 0 <= k <= |intervals|
      invariant redacted == Render(text, intervals, marker, k, 0)
    {
      k := k - 1;
      RenderDrop(text, intervals, marker, k + 1, intervals[k].start);
      RenderDrop(text, intervals, marker, k + 1, intervals[k].end);
      redacted := redacted[..intervals[k].start] + marker + redacted[intervals[k].end..];
    }
  }

  /**
   * `_redact`: merges the sorted findings, then splices markers in place from right to left. The result is the
   * reference rendering, which depends on the findings only as a set; with no findings it is just the marker.
   */
  method Redact(text: string, findings: seq<Finding>, marker: string) returns (redacted: string)
    requires InRange(findings, |text|)
    ensures redacted == if findings == [] then marker else Reference(text, findings, marker, 0)
  {
    if findings == [] { return marker; }
    var sorted := SortFindings(findings);
    SortSorts(findings);
    SortKeepsMembers(findings);
    forall i | 0 <= i < |sorted| ensures sorted[i].start <= sorted[i].end <= |text| {
      assert sorted[i] in findings;
    }
    var intervals := MergeIntervals(sorted, |text|);
    redacted := Splice(text, intervals, marker);
    RenderIsReference(text, sorted, intervals, marker);
    ReferenceByMembers(text, sorted, findings, marker, 0);
  }

  // ---- Decisions ----

  datatype Action = Allow | Mask | Block
  datatype Surface = Surface(maximum: nat, action: Action, allowedKinds: set<string>)
  datatype Config = Config(enabled: bool, blockOnFindings: bool, allowOverride: bool, marker: string, defaultLevel: nat)
  datatype Decision = Decision(action: Action, level: nat, findings: seq<Finding>, content: string)

  function Relevant(scanned: seq<Finding>, allowedKinds: set<string>): (r: seq<Finding>)
    ensures forall f :: f in r <==> f in scanned && f.kind !in allowedKinds
  {
    if scanned == [] then []
    else (if scanned[0].kind in allowedKinds then [] else [scanned[0]]) + Relevant(scanned[1..], allowedKinds)
  }

  /** The highest level among the one stated and the findings'. */
  method Detected(stated: nat, findings: seq<Finding>) returns (detected: nat)
    ensures stated <= detected && forall f :: f in findings ==> f.level <= detected
    ensures detected == stated || exists f :: f in findings && f.level == detected
  {
    detected := stated;
    for i := 0 to |findings|
      invariant stated <= detected && forall f :: f in findings[..i] ==> f.level <= detected
      invariant detected == stated || exists f :: f in findings[..i] && f.level == detected
    {
      assert findings[..i + 1] == findings[..i] + [findings[i]];
      if findings[i].level > detected {
        detected := findings[i].level;
      }
    }
    assert findings[..|findings|] == findings;
  }

  /**
   * `evaluate`: when protection is on and not overridden, text that carries a finding (or a declared level above
   * the surface's ceiling) leaves unchanged only if the surface allows it; a masked text is the reference
   * rendering of the findings whose kinds the surface does not allow. None: the surface has no policy.
   */
  method Evaluate(cfg: Config, surface: Option<Surface>, declared: Option<nat>, labelled: Option<nat>,
                  text: string, scanned: seq<Finding>, allowSensitive: bool)
    returns (d: Option<Decision>)
    requires InRange(scanned, |text|)
    ensures d.None? <==> surface.None?
    ensures surface.Some? && !cfg.enabled ==>
              d.value == Decision(Allow, if declared.Some? then declared.value else cfg.defaultLevel, [], text)
    ensures surface.Some? && cfg.enabled ==>
              var s, r := surface.value, d.value;
              var stated := if declared.Some? then declared.value else if labelled.Some? then labelled.value else cfg.defaultLevel;
              var overridden := allowSensitive && cfg.allowOverride;
              && r.findings == Relevant(scanned, s.allowedKinds)
              && stated <= r.level && (forall f :: f in r.findings ==> f.level <= r.level)
              && (r.level == stated || exists f :: f in r.findings && f.level == r.level)
              && (r.action == if overridden || (stated <= s.maximum && (r.findings == [] || !cfg.blockOnFindings))
                              then Allow else s.action)
              && r.content == (if r.action != Mask then text else if r.findings == [] then cfg.marker
                               else Reference(text, r.findings, cfg.marker, 0))
  {
    hide Reference;
    if surface.None? { return None; }
    var s := surface.value;
    var stated := if declared.Some? then declared.value else if labelled.Some? then labelled.value else cfg.defaultLevel;
    if !cfg.enabled { return Some(Decision(Allow, if declared.Some? then stated else cfg.defaultLevel, [], text)); }
    var findings := Relevant(scanned, s.allowedKinds);
    var detected := Detected(stated, findings);
    var findingTriggered := findings != [] && cfg.blockOnFindings;
    var exceeds := stated > s.maximum || (findingTriggered && detected > s.maximum);
    var action := Allow;
    if !(allowSensitive && cfg.allowOverride) && (findingTriggered || exceeds) {
      action := s.action;
    }
    var content := text;
    if action == Mask {
      RelevantInRange(scanned, s.allowedKinds, |text|);
      content := Redact(text, findings, cfg.marker);
    }
    d := Some(Decision(action, detected, findings, content));
  }

  lemma RelevantInRange(scanned: seq<Finding>, allowedKinds: set<string>, n: nat)
    requires InRange(scanned, n)
    ensures InRange(Relevant(scanned, allowedKinds), n)
  {
    var r := Relevant(scanned, allowedKinds);
    forall i | 0 <= i < |r| ensures r[i].start <= r[i].end <= n {
      assert r[i] in scanned;
    }
  }
}
