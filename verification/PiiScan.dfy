/**
 Resolving overlapping detections of personal information, and summarising them per detector.
 Follows `scan` and `_aggregate` in app/common/pii/__init__.py; what each detector finds is input.
 */
module PiiScan {
  import opened Values

  datatype Severity = Block | Flag

  datatype Match = Match(start: int, end: int, checksum: Option<bool>, severity: Severity)

  /** One detector's candidates, and a candidate with its detector's priority and code. */
  datatype Detector = Detector(code: string, matches: seq<Match>)

  datatype Candidate = Candidate(priority: nat, code: string, span: Match)

  datatype Detection = Detection(
    code: string, severity: Severity, count: nat, checksum: Option<bool>, offsets: seq<(int, int)>)

  datatype Disposition = Blocked | Flagged | Passed

  datatype ScanResult = ScanResult(disposition: Disposition, detections: seq<Detection>)

  predicate Overlaps(a: Match, b: Match) { a.start < b.end && b.start < a.end }

  predicate OverlapsAny(m: Match, accepted: seq<Candidate>) { exists k :: k in accepted && Overlaps(m, k.span) }

  function Tagged(priority: nat, d: Detector): seq<Candidate> {
    seq(|d.matches|, i requires 0 <= i < |d.matches| => Candidate(priority, d.code, d.matches[i]))
  }

  /** All candidates, detector by detector in priority order. */
  function Candidates(ds: seq<Detector>): seq<Candidate> {
    if ds == [] then [] else Candidates(ds[..|ds| - 1]) + Tagged(|ds| - 1, ds[|ds| - 1])
  }

  function Accepted(cs: seq<Candidate>): seq<Candidate> {
    if cs == [] then []
    else
      var before, c := Accepted(cs[..|cs| - 1]), cs[|cs| - 1];
      if OverlapsAny(c.span, before) then before else before + [c]
  }

  // ----- per detector -----

  function Codes(cs: seq<Candidate>): seq<string> { Distinct(seq(|cs|, i requires 0 <= i < |cs| => cs[i].code)) }

  function SpansOf(cs: seq<Candidate>, code: string): seq<Match> {
    if cs == [] then []
    else if cs[|cs| - 1].code == code then SpansOf(cs[..|cs| - 1], code) + [cs[|cs| - 1].span]
    else SpansOf(cs[..|cs| - 1], code)
  }

  /** A stable sort by start, one insertion at a time. */
  function InsertSpan(m: Match, sorted: seq<Match>): seq<Match> {
    if sorted == [] || sorted[|sorted| - 1].start <= m.start then sorted + [m]
    else InsertSpan(m, sorted[..|sorted| - 1]) + [sorted[|sorted| - 1]]
  }

  function SortSpans(ms: seq<Match>): seq<Match> {
    if ms == [] then [] else InsertSpan(ms[|ms| - 1], SortSpans(ms[..|ms| - 1]))
  }

  function DetectionOf(code: string, spans: seq<Match>): Detection {
    var sorted := SortSpans(spans);
    Detection(
      code, if exists m :: m in sorted && m.severity.Block? then Block else Flag, |sorted|,
      if forall m | m in sorted :: m.checksum.None? then None
      else Some(exists m :: m in sorted && m.checksum == Some(true)),
      seq(|sorted|, i requires 0 <= i < |sorted| => (sorted[i].start, sorted[i].end)))
  }

  /** Block before Flag, then by code. */
  predicate Before(a: Detection, b: Detection) {
    (a.severity.Block? && b.severity.Flag?) || (a.severity == b.severity && TextLess(a.code, b.code))
  }

  function InsertDetection(d: Detection, sorted: seq<Detection>): seq<Detection> {
    if sorted == [] || !Before(d, sorted[|sorted| - 1]) then sorted + [d]
    else InsertDetection(d, sorted[..|sorted| - 1]) + [sorted[|sorted| - 1]]
  }

  function Sorted(ds: seq<Detection>): seq<Detection> {
    if ds == [] then [] else InsertDetection(ds[|ds| - 1], Sorted(ds[..|ds| - 1]))
  }

  function DetectionsOf(cs: seq<Candidate>, codes: seq<string>): seq<Detection> {
    seq(|codes|, i requires 0 <= i < |codes| => DetectionOf(codes[i], SpansOf(cs, codes[i])))
  }

  function Aggregate(cs: seq<Candidate>): seq<Detection> { Sorted(DetectionsOf(cs, Codes(cs))) }

  function Result(text: string, ds: seq<Detector>): ScanResult {
    var accepted := Accepted(Candidates(ds));
    if text == "" || accepted == [] then ScanResult(Passed, [])
    else
      var detections := Aggregate(accepted);
      ScanResult(if exists d :: d in detections && d.severity.Block? then Blocked else Flagged, detections)
  }

  // ----- the loops -----

  method Scan(text: string, ds: seq<Detector>) returns (r: ScanResult)
    ensures r == Result(text, ds)
  {
    if text == "" { return ScanResult(Passed, []); }
    var accepted := AcceptLoop(ds);
    if accepted == [] { return ScanResult(Passed, []); }
    var detections := AggregateLoop(accepted);
    r := ScanResult(if exists d :: d in detections && d.severity.Block? then Blocked else Flagged, detections);
  }

  method AcceptLoop(ds: seq<Detector>) returns (accepted: seq<Candidate>)
    ensures accepted == Accepted(Candidates(ds))
  {
    accepted := [];
    for i := 0 to |ds|
      invariant accepted == Accepted(Candidates(ds[..i]))
    {
      CandidatesNext(ds, i);
      accepted := AcceptMatches(i, ds[i], Candidates(ds[..i]), accepted);
    }
    assert ds[..|ds|] == ds;
  }

  /** The inner loop: one detector's candidates, after those of the detectors before it. */
  method AcceptMatches(priority: nat, d: Detector, ghost before: seq<Candidate>, kept: seq<Candidate>)
    returns (accepted: seq<Candidate>)
    requires kept == Accepted(before)
    ensures accepted == Accepted(before + Tagged(priority, d))
  {
    accepted := kept;
    ghost var tagged, seen := Tagged(priority, d), before;
    for j := 0 to |d.matches|
      invariant seen == before + tagged[..j] && accepted == Accepted(seen)
    {
      var c := Candidate(priority, d.code, d.matches[j]);
      AcceptedNext(seen, c);
      TaggedNext(before, tagged, j);
      seen := seen + [c];
      if !OverlapsAny(c.span, accepted) { accepted := accepted + [c]; }
    }
    assert tagged[..|d.matches|] == tagged;
  }

  lemma TaggedNext(before: seq<Candidate>, tagged: seq<Candidate>, j: nat)
    requires j < |tagged|
    ensures before + tagged[..j + 1] == before + tagged[..j] + [tagged[j]]
  {}

  lemma CandidatesNext(ds: seq<Detector>, i: nat)
    requires i < |ds|
    ensures Candidates(ds[..i + 1]) == Candidates(ds[..i]) + Tagged(i, ds[i])
  {
    assert ds[..i + 1][..i] == ds[..i];
  }

  lemma AcceptedNext(cs: seq<Candidate>, c: Candidate)
    ensures Accepted(cs + [c]) == if OverlapsAny(c.span, Accepted(cs)) then Accepted(cs) else Accepted(cs) + [c]
  {
    assert (cs + [c])[..|cs|] == cs;
  }

  ghost predicate Grouped(cs: seq<Candidate>, grouped: map<string, seq<Match>>) {
    forall code ::
      if code in grouped then code in Codes(cs) && grouped[code] == SpansOf(cs, code) else code !in Codes(cs)
  }

  method GroupLoop(cs: seq<Candidate>) returns (grouped: map<string, seq<Match>>, codes: seq<string>)
    ensures codes == Codes(cs) && Grouped(cs, grouped)
  {
    grouped, codes := map[], [];
    for i := 0 to |cs|
      invariant codes == Codes(cs[..i]) && Grouped(cs[..i], grouped)
    {
      var c := cs[i];
      GroupedNext(cs, i, grouped);
      CodesNext(cs, i);
      if c.code !in grouped { codes := codes + [c.code]; }
      grouped := grouped[c.code := (if c.code in grouped then grouped[c.code] else []) + [c.span]];
    }
    assert cs[..|cs|] == cs;
  }

  lemma GroupedNext(cs: seq<Candidate>, i: nat, grouped: map<string, seq<Match>>)
    requires i < |cs| && Grouped(cs[..i], grouped)
    ensures var c := cs[i];
      Grouped(cs[..i + 1], grouped[c.code := (if c.code in grouped then grouped[c.code] else []) + [c.span]])
  {
    var c := cs[i];
    CodesNext(cs, i);
    assert cs[..i + 1][..i] == cs[..i];
    if c.code !in grouped { NoSpans(cs[..i], c.code); }
  }

  method AggregateLoop(cs: seq<Candidate>) returns (detections: seq<Detection>)
    ensures detections == Aggregate(cs)
  {
    var grouped, codes := GroupLoop(cs);
    detections := [];
    for i := 0 to |codes|
      invariant detections == DetectionsOf(cs, codes[..i])
    {
      DetectionsNext(cs, codes, i);
      detections := detections + [DetectionOf(codes[i], grouped[codes[i]])];
    }
    assert codes[..|codes|] == codes;
    detections := Sorted(detections);
  }

  lemma DetectionsNext(cs: seq<Candidate>, codes: seq<string>, i: nat)
    requires i < |codes|
    ensures DetectionsOf(cs, codes[..i + 1])
         == DetectionsOf(cs, codes[..i]) + [DetectionOf(codes[i], SpansOf(cs, codes[i]))]
  {}

  lemma CodesNext(cs: seq<Candidate>, i: nat)
    requires i < |cs|
    ensures Codes(cs[..i + 1]) == if cs[i].code in Codes(cs[..i]) then Codes(cs[..i]) else Codes(cs[..i]) + [cs[i].code]
  {
    var texts := seq(i + 1, j requires 0 <= j < i + 1 => cs[j].code);
    assert texts[..i] == seq(i, j requires 0 <= j < i => cs[j].code);
    assert seq(|cs[..i + 1]|, j requires 0 <= j < |cs[..i + 1]| => cs[..i + 1][j].code) == texts;
    assert seq(|cs[..i]|, j requires 0 <= j < |cs[..i]| => cs[..i][j].code) == texts[..i];
  }

  lemma {:induction false} NoSpans(cs: seq<Candidate>, code: string)
    requires code !in Codes(cs)
    ensures SpansOf(cs, code) == []
  {
    if cs != [] {
      CodesNext(cs, |cs| - 1);
      assert cs[..|cs|] == cs;
      NoSpans(cs[..|cs| - 1], code);
    }
  }

  // ----- overlap resolution -----

  /** Candidates come in priority order. */
  lemma {:induction false} CandidatesOrdered(ds: seq<Detector>)
    ensures forall i, j | 0 <= i < j < |Candidates(ds)| :: Candidates(ds)[i].priority <= Candidates(ds)[j].priority
    ensures forall c | c in Candidates(ds) ::
      c.priority < |ds| && c.code == ds[c.priority].code && c.span in ds[c.priority].matches
  {
    if ds != [] {
      CandidatesOrdered(ds[..|ds| - 1]);
      assert forall c | c in Candidates(ds[..|ds| - 1]) :: c in Candidates(ds);
      var before := Candidates(ds[..|ds| - 1]);
      forall i | 0 <= i < |before| ensures before[i].priority < |ds| - 1 { assert before[i] in before; }
    }
  }

  lemma {:induction false} AcceptedAreCandidates(cs: seq<Candidate>)
    ensures forall c | c in Accepted(cs) :: c in cs
  {
    if cs != [] { AcceptedAreCandidates(cs[..|cs| - 1]); }
  }

  lemma {:induction false} AcceptedDisjoint(cs: seq<Candidate>)
    ensures forall i, j | 0 <= i < j < |Accepted(cs)| :: !Overlaps(Accepted(cs)[i].span, Accepted(cs)[j].span)
  {
    if cs != [] {
      var before, c := Accepted(cs[..|cs| - 1]), cs[|cs| - 1];
      AcceptedDisjoint(cs[..|cs| - 1]);
      if !OverlapsAny(c.span, before) {
        forall i | 0 <= i < |before| ensures !Overlaps(before[i].span, c.span) { assert before[i] in before; }
      }
    }
  }

  /** Accepted, or overlapping an accepted candidate before it. */
  predicate Settled(cs: seq<Candidate>, accepted: seq<Candidate>, i: nat)
    requires i < |cs|
  {
    cs[i] in accepted || exists j :: 0 <= j < i && cs[j] in accepted && Overlaps(cs[i].span, cs[j].span)
  }

  lemma SettledLater(cs: seq<Candidate>, c: Candidate, accepted: seq<Candidate>, more: seq<Candidate>, i: nat)
    requires i < |cs| && Settled(cs, accepted, i) && forall k | k in accepted :: k in more
    ensures Settled(cs + [c], more, i)
  {
    if cs[i] !in accepted {
      var j :| 0 <= j < i && cs[j] in accepted && Overlaps(cs[i].span, cs[j].span);
      assert (cs + [c])[j] in more && Overlaps((cs + [c])[i].span, (cs + [c])[j].span);
    }
  }

  lemma SettledLast(cs: seq<Candidate>, c: Candidate, accepted: seq<Candidate>)
    requires OverlapsAny(c.span, accepted) && forall k | k in accepted :: k in cs
    ensures Settled(cs + [c], accepted, |cs|)
  {
    var k :| k in accepted && Overlaps(c.span, k.span);
    var j :| 0 <= j < |cs| && cs[j] == k;
    assert (cs + [c])[j] in accepted && Overlaps((cs + [c])[|cs|].span, (cs + [c])[j].span);
  }

  lemma {:induction false} AllSettled(cs: seq<Candidate>)
    ensures forall i | 0 <= i < |cs| :: Settled(cs, Accepted(cs), i)
  {
    if cs != [] {
      var n := |cs| - 1;
      var before, c := cs[..n], cs[n];
      assert cs == before + [c];
      AllSettled(before);
      AcceptedAreCandidates(before);
      forall i | 0 <= i < |cs| ensures Settled(cs, Accepted(cs), i) {
        if i < n {
          SettledLater(before, c, Accepted(before), Accepted(cs), i);
        } else if OverlapsAny(c.span, Accepted(before)) {
          SettledLast(before, c, Accepted(before));
        }
      }
    }
  }

  /** Accepted spans are pairwise disjoint, and every other candidate overlaps one accepted before it. */
  lemma Resolved(cs: seq<Candidate>)
    ensures forall i, j | 0 <= i < j < |Accepted(cs)| :: !Overlaps(Accepted(cs)[i].span, Accepted(cs)[j].span)
    ensures forall i | 0 <= i < |cs| ::
      cs[i] in Accepted(cs) || exists j :: 0 <= j < i && cs[j] in Accepted(cs) && Overlaps(cs[i].span, cs[j].span)
    ensures forall c | c in Accepted(cs) :: c in cs
  {
    AcceptedAreCandidates(cs);
    AcceptedDisjoint(cs);
    AllSettled(cs);
    assert forall i | 0 <= i < |cs| :: Settled(cs, Accepted(cs), i);
  }

  /** A rejected candidate overlaps an accepted one of a detector with equal or higher priority. */
  lemma RejectedByPriority(ds: seq<Detector>, i: nat)
    requires i < |Candidates(ds)| && Candidates(ds)[i] !in Accepted(Candidates(ds))
    ensures exists k ::
      k in Accepted(Candidates(ds)) && k.priority <= Candidates(ds)[i].priority
        && Overlaps(Candidates(ds)[i].span, k.span)
  {
    var cs := Candidates(ds);
    Resolved(cs);
    CandidatesOrdered(ds);
    var j :| 0 <= j < i && cs[j] in Accepted(cs) && Overlaps(cs[i].span, cs[j].span);
  }

  // ----- totals and order -----

  function TotalCount(ds: seq<Detection>): nat {
    if ds == [] then 0 else TotalCount(ds[..|ds| - 1]) + ds[|ds| - 1].count
  }

  lemma {:induction false} InsertDetectionTotal(d: Detection, sorted: seq<Detection>)
    ensures TotalCount(InsertDetection(d, sorted)) == TotalCount(sorted) + d.count
  {
    if sorted == [] || !Before(d, sorted[|sorted| - 1]) {
      assert (sorted + [d])[..|sorted|] == sorted;
    } else {
      var n := |sorted| - 1;
      InsertDetectionTotal(d, sorted[..n]);
      var r := InsertDetection(d, sorted[..n]);
      assert (r + [sorted[n]])[..|r|] == r;
    }
  }

  lemma {:induction false} InsertDetectionMembers(d: Detection, sorted: seq<Detection>)
    ensures forall x :: x in InsertDetection(d, sorted) <==> x == d || x in sorted
  {
    if sorted != [] && Before(d, sorted[|sorted| - 1]) {
      InsertDetectionMembers(d, sorted[..|sorted| - 1]);
      assert sorted == sorted[..|sorted| - 1] + [sorted[|sorted| - 1]];
    }
  }

  lemma {:induction false} SortedKeeps(ds: seq<Detection>)
    ensures TotalCount(Sorted(ds)) == TotalCount(ds)
    ensures forall x :: x in Sorted(ds) <==> x in ds
  {
    if ds != [] {
      var n := |ds| - 1;
      SortedKeeps(ds[..n]);
      InsertDetectionTotal(ds[n], Sorted(ds[..n]));
      InsertDetectionMembers(ds[n], Sorted(ds[..n]));
      assert ds == ds[..n] + [ds[n]];
    }
  }

  predicate Ordered(ds: seq<Detection>) { forall i, j | 0 <= i < j < |ds| :: !Before(ds[j], ds[i]) }

  lemma {:induction false} InsertDetectionOrdered(d: Detection, sorted: seq<Detection>)
    requires Ordered(sorted)
    ensures Ordered(InsertDetection(d, sorted))
  {
    if sorted != [] {
      var n := |sorted| - 1;
      if Before(d, sorted[n]) {
        var r := InsertDetection(d, sorted[..n]);
        InsertDetectionOrdered(d, sorted[..n]);
        InsertDetectionMembers(d, sorted[..n]);
        TextOrder(d.code, sorted[n].code, "");
        forall i | 0 <= i < |r| ensures !Before(sorted[n], r[i]) {
          assert r[i] in r;
          if r[i] != d { assert r[i] in sorted[..n]; }
        }
      } else {
        forall i | 0 <= i < n ensures !Before(d, sorted[i]) { TextOrder(d.code, sorted[n].code, sorted[i].code); }
      }
    }
  }

  /** A summary lists blocking detections first, each class by code. */
  lemma {:induction false} SortedOrdered(ds: seq<Detection>)
    ensures Ordered(Sorted(ds))
  {
    if ds != [] {
      SortedOrdered(ds[..|ds| - 1]);
      InsertDetectionOrdered(ds[|ds| - 1], Sorted(ds[..|ds| - 1]));
    }
  }

  lemma {:induction false} SortSpansKeeps(ms: seq<Match>)
    ensures multiset(SortSpans(ms)) == multiset(ms) && |SortSpans(ms)| == |ms|
    ensures forall i, j | 0 <= i < j < |SortSpans(ms)| :: SortSpans(ms)[i].start <= SortSpans(ms)[j].start
  {
    if ms != [] {
      var n := |ms| - 1;
      var before := SortSpans(ms[..n]);
      SortSpansKeeps(ms[..n]);
      InsertSpanAdds(ms[n], before);
      InsertSpanOrders(ms[n], before);
      LastSpan(ms);
      assert SortSpans(ms) == InsertSpan(ms[n], before);
    }
  }

  lemma LastSpan(ms: seq<Match>)
    requires ms != []
    ensures multiset(ms) == multiset(ms[..|ms| - 1]) + multiset{ms[|ms| - 1]}
  {
    assert ms == ms[..|ms| - 1] + [ms[|ms| - 1]];
  }

  predicate ByStart(ms: seq<Match>) { forall i, j | 0 <= i < j < |ms| :: ms[i].start <= ms[j].start }

  lemma {:induction false} InsertSpanAdds(m: Match, sorted: seq<Match>)
    ensures multiset(InsertSpan(m, sorted)) == multiset(sorted) + multiset{m} && |InsertSpan(m, sorted)| == |sorted| + 1
    ensures forall x | x in InsertSpan(m, sorted) :: x == m || x in sorted
  {
    if sorted != [] && m.start < sorted[|sorted| - 1].start {
      InsertSpanAdds(m, sorted[..|sorted| - 1]);
      LastSpan(sorted);
    }
  }

  lemma {:induction false} InsertSpanOrders(m: Match, sorted: seq<Match>)
    requires ByStart(sorted)
    ensures ByStart(InsertSpan(m, sorted))
  {
    if sorted != [] && m.start < sorted[|sorted| - 1].start {
      var n := |sorted| - 1;
      InsertSpanOrders(m, sorted[..n]);
      InsertSpanAdds(m, sorted[..n]);
      var r := InsertSpan(m, sorted[..n]);
      forall i | 0 <= i < |r| ensures r[i].start <= sorted[n].start { assert r[i] in r; }
    }
  }

  function SpanTotal(cs: seq<Candidate>, codes: seq<string>): nat {
    if codes == [] then 0 else SpanTotal(cs, codes[..|codes| - 1]) + |SpansOf(cs, codes[|codes| - 1])|
  }

  lemma {:induction false} SpanTotalNext(cs: seq<Candidate>, codes: seq<string>)
    requires cs != [] && forall i, j | 0 <= i < j < |codes| :: codes[i] != codes[j]
    ensures SpanTotal(cs, codes) == SpanTotal(cs[..|cs| - 1], codes) + if cs[|cs| - 1].code in codes then 1 else 0
  {
    if codes != [] {
      SpanTotalNext(cs, codes[..|codes| - 1]);
      assert codes == codes[..|codes| - 1] + [codes[|codes| - 1]];
    }
  }

  lemma {:induction false} SpanTotalAll(cs: seq<Candidate>, codes: seq<string>)
    requires forall i, j | 0 <= i < j < |codes| :: codes[i] != codes[j]
    requires forall c | c in cs :: c.code in codes
    ensures SpanTotal(cs, codes) == |cs|
  {
    if cs == [] {
      SpanTotalNone(codes);
    } else {
      SpanTotalAll(cs[..|cs| - 1], codes);
      SpanTotalNext(cs, codes);
      assert cs[|cs| - 1] in cs;
    }
  }

  lemma {:induction false} SpanTotalNone(codes: seq<string>)
    ensures SpanTotal([], codes) == 0
  {
    if codes != [] { SpanTotalNone(codes[..|codes| - 1]); }
  }

  lemma {:induction false} CountsAreSpans(cs: seq<Candidate>, codes: seq<string>)
    ensures TotalCount(DetectionsOf(cs, codes)) == SpanTotal(cs, codes)
  {
    if codes != [] {
      var n := |codes| - 1;
      CountsAreSpans(cs, codes[..n]);
      assert DetectionsOf(cs, codes)[..n] == DetectionsOf(cs, codes[..n]);
      SortSpansKeeps(SpansOf(cs, codes[n]));
    }
  }

  lemma CodesCover(cs: seq<Candidate>)
    ensures forall code :: code in Codes(cs) <==> exists c :: c in cs && c.code == code
  {
    var texts := seq(|cs|, i requires 0 <= i < |cs| => cs[i].code);
    forall c | c in cs ensures c.code in texts {
      var i :| 0 <= i < |cs| && cs[i] == c;
      assert texts[i] == c.code;
    }
  }

  /** Every match is counted once: the counts of a summary add up to the accepted spans. */
  lemma CountsAddUp(cs: seq<Candidate>)
    ensures TotalCount(Aggregate(cs)) == |cs|
  {
    SortedKeeps(DetectionsOf(cs, Codes(cs)));
    CountsAreSpans(cs, Codes(cs));
    CodesCover(cs);
    SpanTotalAll(cs, Codes(cs));
  }

  lemma {:induction false} SpansOfCode(cs: seq<Candidate>, code: string)
    ensures forall m :: m in SpansOf(cs, code) <==> exists c :: c in cs && c.code == code && c.span == m
  {
    if cs != [] {
      var n := |cs| - 1;
      assert cs == cs[..n] + [cs[n]];
      SpansOfCode(cs[..n], code);
      forall m ensures m in SpansOf(cs, code) <==> exists c :: c in cs && c.code == code && c.span == m {
        if exists c :: c in cs && c.code == code && c.span == m {
          var c :| c in cs && c.code == code && c.span == m;
          assert c in cs[..n] || c == cs[n];
        }
      }
    }
  }

  lemma SortedSpansMembers(ms: seq<Match>)
    ensures forall m :: m in SortSpans(ms) <==> m in ms
  {
    SortSpansKeeps(ms);
    assert forall m :: m in SortSpans(ms) <==> m in multiset(SortSpans(ms));
    assert forall m :: m in ms <==> m in multiset(ms);
  }

  /** A detection lists its code's spans by start. */
  lemma OffsetsAreSpans(cs: seq<Candidate>, code: string)
    ensures var d := DetectionOf(code, SpansOf(cs, code)); var spans := SpansOf(cs, code);
      && d.count == |d.offsets| == |spans|
      && (forall i, j | 0 <= i < j < |d.offsets| :: d.offsets[i].0 <= d.offsets[j].0)
      && (forall o :: o in d.offsets <==> exists m :: m in spans && (m.start, m.end) == o)
  {
    var spans := SpansOf(cs, code);
    var sorted, d := SortSpans(spans), DetectionOf(code, spans);
    SortSpansKeeps(spans);
    SortedSpansMembers(spans);
    forall m | m in spans ensures (m.start, m.end) in d.offsets {
      var i :| 0 <= i < |sorted| && sorted[i] == m;
      assert d.offsets[i] == (m.start, m.end);
    }
    forall o | o in d.offsets ensures exists m :: m in spans && (m.start, m.end) == o {
      var i :| 0 <= i < |d.offsets| && d.offsets[i] == o;
      assert sorted[i] in sorted;
    }
  }

  /** A detection blocks exactly when one of its code's spans does. */
  lemma BlocksIff(cs: seq<Candidate>, code: string)
    ensures DetectionOf(code, SpansOf(cs, code)).severity.Block? <==>
      exists c :: c in cs && c.code == code && c.span.severity.Block?
  {
    SortedSpansMembers(SpansOf(cs, code));
    SpansOfCode(cs, code);
  }

  lemma {:induction false} SomeAccepted(cs: seq<Candidate>)
    ensures Accepted(cs) == [] <==> cs == []
  {
    if cs != [] { SomeAccepted(cs[..|cs| - 1]); }
  }

  /** A text passes exactly when there was no candidate, and blocks exactly when an accepted span blocks. */
  lemma DispositionIff(text: string, ds: seq<Detector>)
    requires text != ""
    ensures Result(text, ds).disposition == Passed <==> Candidates(ds) == []
    ensures Result(text, ds).disposition == Blocked <==>
      exists c :: c in Accepted(Candidates(ds)) && c.span.severity.Block?
  {
    SomeAccepted(Candidates(ds));
    SeverityIff(Accepted(Candidates(ds)));
  }

  /** A summary has one detection for each code that has an accepted span. */
  lemma AggregateMembers(cs: seq<Candidate>)
    ensures forall d ::
      d in Aggregate(cs) <==> exists code :: code in Codes(cs) && d == DetectionOf(code, SpansOf(cs, code))
  {
    SortedKeeps(DetectionsOf(cs, Codes(cs)));
    DetectionsMembers(cs, Codes(cs));
  }

  lemma DetectionsMembers(cs: seq<Candidate>, codes: seq<string>)
    ensures forall d ::
      d in DetectionsOf(cs, codes) <==> exists code :: code in codes && d == DetectionOf(code, SpansOf(cs, code))
  {
    var plain := DetectionsOf(cs, codes);
    forall code | code in codes ensures DetectionOf(code, SpansOf(cs, code)) in plain {
      var i :| 0 <= i < |codes| && codes[i] == code;
      assert plain[i] == DetectionOf(code, SpansOf(cs, code));
    }
    forall d | d in plain ensures exists code :: code in codes && d == DetectionOf(code, SpansOf(cs, code)) {
      var i :| 0 <= i < |plain| && plain[i] == d;
      assert codes[i] in codes;
    }
  }

  lemma SeverityIff(cs: seq<Candidate>)
    ensures (exists d :: d in Aggregate(cs) && d.severity.Block?) <==> exists c :: c in cs && c.span.severity.Block?
  {
    AggregateMembers(cs);
    CodesCover(cs);
    if d :| d in Aggregate(cs) && d.severity.Block? {
      var code :| code in Codes(cs) && d == DetectionOf(code, SpansOf(cs, code));
      BlocksIff(cs, code);
    }
    if c :| c in cs && c.span.severity.Block? {
      BlocksIff(cs, c.code);
      assert DetectionOf(c.code, SpansOf(cs, c.code)) in Aggregate(cs);
    }
  }
}
