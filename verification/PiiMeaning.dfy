/**
 What a scan reports: when two spans overlap, what a detection says of the accepted spans of its
 code, and in which order the detections stand.
 */
module PiiMeaning {
  import opened Values
  import opened PiiScan
  import ExpressionMeaning

  /** Two spans overlap exactly when some position lies in both. */
  lemma OverlapsMeans(a: Match, b: Match)
    requires a.start < a.end && b.start < b.end
    ensures Overlaps(a, b) <==> exists k: int :: Within(k, a) && Within(k, b)
  {
    if Overlaps(a, b) {
      var k := if a.start < b.start then b.start else a.start;
      assert Within(k, a) && Within(k, b);
    }
  }

  predicate Within(k: int, m: Match) { m.start <= k < m.end }

  /** The accepted spans of one code. */
  function Places(accepted: seq<Candidate>, code: string): set<nat> {
    set i: nat | i < |accepted| && accepted[i].code == code
  }

  lemma {:induction false} SpanCount(cs: seq<Candidate>, code: string)
    ensures |SpansOf(cs, code)| == |Places(cs, code)|
  {
    if cs == [] {
      assert Places(cs, code) == {};
    } else {
      var n := |cs| - 1;
      SpanCount(cs[..n], code);
      assert Places(cs, code) == Places(cs[..n], code) + if cs[n].code == code then {n} else {};
    }
  }

  /** What a detection says of its code's accepted spans. */
  ghost predicate Reports(accepted: seq<Candidate>, d: Detection) {
    && d.count == |Places(accepted, d.code)| == |d.offsets|
    && (d.severity == Block <==> exists i :: i in Places(accepted, d.code) && accepted[i].span.severity == Block)
    && (d.checksum == None <==> forall i | i in Places(accepted, d.code) :: accepted[i].span.checksum == None)
    && (d.checksum == Some(true) <==>
          exists i :: i in Places(accepted, d.code) && accepted[i].span.checksum == Some(true))
    && forall o :: o in d.offsets <==>
         exists i :: i in Places(accepted, d.code) && (accepted[i].span.start, accepted[i].span.end) == o
  }

  lemma PlaceOf(cs: seq<Candidate>, code: string, m: Match) returns (i: nat)
    requires m in SpansOf(cs, code)
    ensures i in Places(cs, code) && cs[i].span == m
  {
    SpansOfCode(cs, code);
    var c :| c in cs && c.code == code && c.span == m;
    i :| i < |cs| && cs[i] == c;
  }

  lemma SpanAt(cs: seq<Candidate>, code: string, i: nat)
    requires i in Places(cs, code)
    ensures cs[i].span in SpansOf(cs, code)
  {
    SpansOfCode(cs, code);
    assert cs[i] in cs;
  }

  lemma SeverityReported(cs: seq<Candidate>, code: string)
    ensures DetectionOf(code, SpansOf(cs, code)).severity == Block <==>
      exists i :: i in Places(cs, code) && cs[i].span.severity == Block
  {
    SortedSpansMembers(SpansOf(cs, code));
    if m :| m in SpansOf(cs, code) && m.severity.Block? { var i := PlaceOf(cs, code, m); }
    if i :| i in Places(cs, code) && cs[i].span.severity == Block { SpanAt(cs, code, i); }
  }

  lemma ChecksumReported(cs: seq<Candidate>, code: string)
    ensures var d := DetectionOf(code, SpansOf(cs, code));
      && (d.checksum == None <==> forall i | i in Places(cs, code) :: cs[i].span.checksum == None)
      && (d.checksum == Some(true) <==> exists i :: i in Places(cs, code) && cs[i].span.checksum == Some(true))
  {
    SortedSpansMembers(SpansOf(cs, code));
    if m :| m in SpansOf(cs, code) && m.checksum.Some? { var i := PlaceOf(cs, code, m); }
    if m :| m in SpansOf(cs, code) && m.checksum == Some(true) { var i := PlaceOf(cs, code, m); }
    forall i | i in Places(cs, code) ensures cs[i].span in SpansOf(cs, code) { SpanAt(cs, code, i); }
  }

  lemma OffsetsReported(cs: seq<Candidate>, code: string, o: (int, int))
    ensures o in DetectionOf(code, SpansOf(cs, code)).offsets <==>
      exists i :: i in Places(cs, code) && (cs[i].span.start, cs[i].span.end) == o
  {
    OffsetsAreSpans(cs, code);
    if m :| m in SpansOf(cs, code) && (m.start, m.end) == o { var i := PlaceOf(cs, code, m); }
    if i :| i in Places(cs, code) && (cs[i].span.start, cs[i].span.end) == o { SpanAt(cs, code, i); }
  }

  lemma DetectionReports(cs: seq<Candidate>, code: string)
    ensures Reports(cs, DetectionOf(code, SpansOf(cs, code)))
  {
    SpanCount(cs, code);
    SeverityReported(cs, code);
    ChecksumReported(cs, code);
    OffsetsAreSpans(cs, code);
    forall o
      ensures o in DetectionOf(code, SpansOf(cs, code)).offsets <==>
        exists i :: i in Places(cs, code) && (cs[i].span.start, cs[i].span.end) == o
    {
      OffsetsReported(cs, code, o);
    }
  }

  lemma {:induction false} SortedCounts(ds: seq<Detection>)
    ensures multiset(Sorted(ds)) == multiset(ds)
  {
    if ds != [] {
      var n := |ds| - 1;
      SortedCounts(ds[..n]);
      InsertCounts(ds[n], Sorted(ds[..n]));
      assert ds == ds[..n] + [ds[n]];
    }
  }

  lemma {:induction false} InsertCounts(d: Detection, sorted: seq<Detection>)
    ensures multiset(InsertDetection(d, sorted)) == multiset(sorted) + multiset{d}
  {
    if sorted != [] && Before(d, sorted[|sorted| - 1]) {
      InsertCounts(d, sorted[..|sorted| - 1]);
      assert sorted == sorted[..|sorted| - 1] + [sorted[|sorted| - 1]];
    }
  }

  /** Blocking detections first, each class in the order of its codes. */
  ghost predicate InOrder(a: Detection, b: Detection) {
    && !(a.severity == Flag && b.severity == Block)
    && (a.severity == b.severity ==> !ExpressionMeaning.Precedes(b.code, a.code))
  }

  /** A scan reports one detection for each code of an accepted span, in order. */
  lemma ScanReports(text: string, ds: seq<Detector>)
    requires text != ""
    ensures var accepted, detections := Accepted(Candidates(ds)), Result(text, ds).detections;
      && (forall d | d in detections :: Reports(accepted, d))
      && (forall c | c in accepted :: exists d :: d in detections && d.code == c.code)
      && (forall i, j | 0 <= i < j < |detections| :: InOrder(detections[i], detections[j]))
  {
    var accepted := Accepted(Candidates(ds));
    AggregateMembers(accepted);
    forall d | d in Aggregate(accepted) ensures Reports(accepted, d) {
      var code :| code in Codes(accepted) && d == DetectionOf(code, SpansOf(accepted, code));
      DetectionReports(accepted, code);
    }
    CodesCover(accepted);
    forall c | c in accepted ensures exists d :: d in Aggregate(accepted) && d.code == c.code {
      assert DetectionOf(c.code, SpansOf(accepted, c.code)) in Aggregate(accepted);
    }
    SortedOrdered(DetectionsOf(accepted, Codes(accepted)));
    forall i, j | 0 <= i < j < |Aggregate(accepted)| ensures InOrder(Aggregate(accepted)[i], Aggregate(accepted)[j]) {
      ExpressionMeaning.TextLessMeans(Aggregate(accepted)[j].code, Aggregate(accepted)[i].code);
    }
  }

  /** No code is reported twice. */
  lemma ReportedOnce(cs: seq<Candidate>, code: string)
    ensures forall i, j | 0 <= i < j < |Aggregate(cs)| && Aggregate(cs)[i].code == code :: Aggregate(cs)[j].code != code
  {
    var plain, sorted := DetectionsOf(cs, Codes(cs)), Aggregate(cs);
    SortedCounts(plain);
    forall i, j | 0 <= i < j < |sorted| && sorted[i].code == code ensures sorted[j].code != code {
      if sorted[j].code == code {
        AggregateMembers(cs);
        assert sorted[i] in sorted && sorted[j] in sorted;
        var d := DetectionOf(code, SpansOf(cs, code));
        assert sorted[i] == d && sorted[j] == d;
        Twice(sorted, d, i, j);
        Once(cs, Codes(cs), code);
      }
    }
  }

  lemma Twice(xs: seq<Detection>, d: Detection, i: nat, j: nat)
    requires i < j < |xs| && xs[i] == d && xs[j] == d
    ensures multiset(xs)[d] >= 2
  {
    assert xs == xs[..i] + [xs[i]] + xs[i + 1..j] + [xs[j]] + xs[j + 1..];
  }

  lemma {:induction false} Once(cs: seq<Candidate>, codes: seq<string>, code: string)
    requires forall i, j | 0 <= i < j < |codes| :: codes[i] != codes[j]
    ensures multiset(DetectionsOf(cs, codes))[DetectionOf(code, SpansOf(cs, code))] <= 1
    ensures code !in codes ==> multiset(DetectionsOf(cs, codes))[DetectionOf(code, SpansOf(cs, code))] == 0
  {
    if codes == [] {
      assert DetectionsOf(cs, codes) == [];
    } else {
      var n := |codes| - 1;
      Once(cs, codes[..n], code);
      assert DetectionsOf(cs, codes) == DetectionsOf(cs, codes[..n]) + [DetectionOf(codes[n], SpansOf(cs, codes[n]))];
      assert DetectionOf(codes[n], SpansOf(cs, codes[n])).code == codes[n];
    }
  }
}
