/**
 Stable topological ordering of derived operations by their declared columns.
 Follows `order_derived_operations` of agent_runtime/data_processing/plan.py.
 */
module OperationOrder {
  import opened Values
  import opened ProcessingPlan

  datatype OrderResult =
    | Ordered(operations: seq<Operation>)
    | MissingTarget
    | DuplicateTargets
    | OverwritesSource(columns: set<ColumnKey>)
    | UnknownColumns(columns: set<ColumnKey>)
    | CycleDetected

  function DerivedOf(operations: seq<Operation>): seq<Operation> {
    if operations == [] then []
    else if IsDerived(operations[0].kind) then [operations[0]] + DerivedOf(operations[1..])
    else DerivedOf(operations[1..])
  }

  function RemainingOf(operations: seq<Operation>): seq<Operation> {
    if operations == [] then []
    else if IsDerived(operations[0].kind) then RemainingOf(operations[1..])
    else [operations[0]] + RemainingOf(operations[1..])
  }

  function TargetOf(op: Operation): ColumnKey { if op.target.Some? then op.target.value else Named("") }

  function TargetsOf(operations: seq<Operation>): set<ColumnKey> { set op | op in operations :: TargetOf(op) }

  function ReferencedBy(operations: seq<Operation>): set<ColumnKey> {
    set op, c | op in operations && c in op.sources :: c
  }

  predicate UniqueTargets(operations: seq<Operation>) {
    forall i, j | 0 <= i < j < |operations| :: TargetOf(operations[i]) != TargetOf(operations[j])
  }

  predicate Ready(op: Operation, available: set<ColumnKey>) { ToSet(op.sources) <= available }

  function ReadyIn(pending: seq<Operation>, available: set<ColumnKey>): seq<Operation> {
    if pending == [] then []
    else if Ready(pending[0], available) then [pending[0]] + ReadyIn(pending[1..], available)
    else ReadyIn(pending[1..], available)
  }

  function BlockedIn(pending: seq<Operation>, available: set<ColumnKey>): seq<Operation> {
    if pending == [] then []
    else if Ready(pending[0], available) then BlockedIn(pending[1..], available)
    else [pending[0]] + BlockedIn(pending[1..], available)
  }

  lemma {:induction false} RoundSplits(pending: seq<Operation>, available: set<ColumnKey>)
    ensures multiset(pending) == multiset(ReadyIn(pending, available)) + multiset(BlockedIn(pending, available))
    ensures forall op | op in ReadyIn(pending, available) :: op in pending && Ready(op, available)
    ensures forall op | op in BlockedIn(pending, available) :: op in pending && !Ready(op, available)
    ensures forall op :: op in pending <==> op in ReadyIn(pending, available) || op in BlockedIn(pending, available)
    ensures |ReadyIn(pending, available)| + |BlockedIn(pending, available)| == |pending|
  {
    if pending != [] {
      RoundSplits(pending[1..], available);
      assert pending == [pending[0]] + pending[1..];
    }
  }

  /** Where the rounds end: everything scheduled, or some operations none of which is ready. */
  datatype Final = Done(ordered: seq<Operation>) | Stuck(pending: seq<Operation>, available: set<ColumnKey>)

  function Rounds(pending: seq<Operation>, available: set<ColumnKey>): Final
    decreases |pending|
  {
    if pending == [] then Done([])
    else
      var ready := ReadyIn(pending, available);
      if ready == [] then Stuck(pending, available)
      else
        RoundSplits(pending, available);
        match Rounds(BlockedIn(pending, available), available + TargetsOf(ready))
        case Done(later) => Done(ready + later)
        case stuck => stuck
  }

  function Unknown(pending: seq<Operation>, available: set<ColumnKey>): set<ColumnKey> {
    ReferencedBy(pending) - available - TargetsOf(pending)
  }

  function Schedule(derived: seq<Operation>, remaining: seq<Operation>, sources: set<ColumnKey>): OrderResult {
    if exists op | op in derived :: !HasTarget(op) then MissingTarget
    else if !UniqueTargets(derived) then DuplicateTargets
    else if sources * TargetsOf(derived) != {} then OverwritesSource(sources * TargetsOf(derived))
    else
      match Rounds(derived, sources)
      case Done(ordered) => Ordered(ordered + remaining)
      case Stuck(pending, available) =>
        if Unknown(pending, available) != {} then UnknownColumns(Unknown(pending, available)) else CycleDetected
  }

  function Order(operations: seq<Operation>, sources: set<ColumnKey>): OrderResult {
    if DerivedOf(operations) == [] then Ordered(operations)
    else Schedule(DerivedOf(operations), RemainingOf(operations), sources)
  }

  // ----- the loops -----

  /** `pending.remove(operation)`. */
  function RemoveFirst(pending: seq<Operation>, op: Operation): seq<Operation> {
    if pending == [] then []
    else if pending[0] == op then pending[1..]
    else [pending[0]] + RemoveFirst(pending[1..], op)
  }

  function Without(pending: seq<Operation>, gone: seq<Operation>): seq<Operation> {
    if pending == [] then []
    else if pending[0] in gone then Without(pending[1..], gone)
    else [pending[0]] + Without(pending[1..], gone)
  }

  predicate NoRepeats(operations: seq<Operation>) {
    forall i, j | 0 <= i < j < |operations| :: operations[i] != operations[j]
  }

  lemma {:induction false} RemoveStep(pending: seq<Operation>, gone: seq<Operation>, op: Operation)
    requires NoRepeats(pending) && op in pending && op !in gone
    ensures RemoveFirst(Without(pending, gone), op) == Without(pending, gone + [op])
  {
    assert op in gone + [op];
    if pending[0] == op {
      SkipAbsent(pending[1..], gone, op);
    } else {
      RemoveStep(pending[1..], gone, op);
    }
  }

  lemma {:induction false} SkipAbsent(pending: seq<Operation>, gone: seq<Operation>, op: Operation)
    requires op !in pending
    ensures Without(pending, gone) == Without(pending, gone + [op])
  {
    if pending != [] { SkipAbsent(pending[1..], gone, op); }
  }

  lemma {:induction false} WithoutNothing(pending: seq<Operation>)
    ensures Without(pending, []) == pending
  {
    if pending != [] { WithoutNothing(pending[1..]); }
  }

  lemma {:induction false} WithoutReady(pending: seq<Operation>, ready: seq<Operation>, available: set<ColumnKey>)
    requires forall op | op in pending :: op in ready <==> Ready(op, available)
    ensures Without(pending, ready) == BlockedIn(pending, available)
  {
    if pending != [] { WithoutReady(pending[1..], ready, available); }
  }

  lemma {:induction false} ReadyUnrepeated(pending: seq<Operation>, available: set<ColumnKey>)
    requires NoRepeats(pending)
    ensures NoRepeats(ReadyIn(pending, available))
    ensures forall op | op in pending :: op in ReadyIn(pending, available) <==> Ready(op, available)
  {
    if pending != [] {
      ReadyUnrepeated(pending[1..], available);
      RoundSplits(pending[1..], available);
    }
  }

  lemma {:induction false} BlockedUnrepeated(pending: seq<Operation>, available: set<ColumnKey>)
    requires NoRepeats(pending)
    ensures NoRepeats(BlockedIn(pending, available))
  {
    if pending != [] {
      BlockedUnrepeated(pending[1..], available);
      RoundSplits(pending[1..], available);
    }
  }

  lemma TargetsSnoc(operations: seq<Operation>, op: Operation)
    ensures TargetsOf(operations + [op]) == TargetsOf(operations) + {TargetOf(op)}
  {
    assert op in operations + [op];
  }

  lemma RoundStep(before: seq<Operation>, ready: seq<Operation>, i: nat)
    requires NoRepeats(before) && NoRepeats(ready) && i < |ready| && ready[i] in before
    ensures RemoveFirst(Without(before, ready[..i]), ready[i]) == Without(before, ready[..i + 1])
    ensures TargetsOf(ready[..i + 1]) == TargetsOf(ready[..i]) + {TargetOf(ready[i])}
  {
    assert ready[i] !in ready[..i];
    RemoveStep(before, ready[..i], ready[i]);
    assert ready[..i + 1] == ready[..i] + [ready[i]];
    TargetsSnoc(ready[..i], ready[i]);
  }

  lemma ReadyAmong(before: seq<Operation>, available: set<ColumnKey>)
    requires NoRepeats(before)
    ensures NoRepeats(ReadyIn(before, available)) && forall op | op in ReadyIn(before, available) :: op in before
  {
    ReadyUnrepeated(before, available);
    RoundSplits(before, available);
  }

  lemma RoundEnds(before: seq<Operation>, available: set<ColumnKey>)
    requires NoRepeats(before)
    ensures Without(before, ReadyIn(before, available)) == BlockedIn(before, available)
  {
    ReadyUnrepeated(before, available);
    WithoutReady(before, ReadyIn(before, available), available);
  }

  /** The inner loop: the given operations leave `pending` and their targets become available. */
  method TakeAll(before: seq<Operation>, ready: seq<Operation>, start: set<ColumnKey>)
    returns (pending: seq<Operation>, available: set<ColumnKey>)
    requires NoRepeats(before) && NoRepeats(ready) && forall op | op in ready :: op in before
    ensures pending == Without(before, ready) && available == start + TargetsOf(ready)
  {
    pending, available := before, start;
    WithoutNothing(before);
    for i := 0 to |ready|
      invariant pending == Without(before, ready[..i])
      invariant available == start + TargetsOf(ready[..i])
    {
      assert ready[i] in ready;
      RoundStep(before, ready, i);
      pending := RemoveFirst(pending, ready[i]);
      available := available + {TargetOf(ready[i])};
    }
    assert ready[..|ready|] == ready;
  }

  /** One round: every ready operation leaves `pending` and makes its target available. */
  method RunRound(before: seq<Operation>, ready: seq<Operation>, start: set<ColumnKey>)
    returns (pending: seq<Operation>, available: set<ColumnKey>)
    requires NoRepeats(before) && ready == ReadyIn(before, start)
    ensures pending == BlockedIn(before, start) && available == start + TargetsOf(ready)
  {
    ReadyAmong(before, start);
    RoundEnds(before, start);
    pending, available := TakeAll(before, ready, start);
  }

  method OrderDerivedOperations(operations: seq<Operation>, selection: Selection) returns (r: OrderResult)
    ensures r == Order(operations, ApprovedColumns(selection))
  {
    var sources := ApprovedColumns(selection);
    var derived, remaining := DerivedOf(operations), RemainingOf(operations);
    if derived == [] { return Ordered(operations); }
    if exists op | op in derived :: !HasTarget(op) { return MissingTarget; }
    if !UniqueTargets(derived) { return DuplicateTargets; }
    var overwritten := sources * TargetsOf(derived);
    if overwritten != {} { return OverwritesSource(overwritten); }
    var available := sources;
    var pending := derived;
    var ordered := [];
    while pending != []
      invariant NoRepeats(pending)
      invariant match Rounds(pending, available)
                case Done(later) => Rounds(derived, sources) == Done(ordered + later)
                case stuck => Rounds(derived, sources) == stuck
      decreases |pending|
    {
      var executable := ReadyIn(pending, available);
      if executable == [] {
        var unknown := Unknown(pending, available);
        return if unknown != {} then UnknownColumns(unknown) else CycleDetected;
      }
      RoundSplits(pending, available);
      BlockedUnrepeated(pending, available);
      ghost var later := Rounds(BlockedIn(pending, available), available + TargetsOf(executable));
      assert later.Done? ==> ordered + (executable + later.ordered) == (ordered + executable) + later.ordered;
      pending, available := RunRound(pending, executable, available);
      ordered := ordered + executable;
    }
    assert ordered + [] == ordered;
    r := Ordered(ordered + remaining);
  }

  // ----- what an ordering is -----

  /** Every operation comes after the producers of its sources. */
  predicate Respects(operations: seq<Operation>, available: set<ColumnKey>) {
    forall i | 0 <= i < |operations| :: Ready(operations[i], available + TargetsOf(operations[..i]))
  }

  lemma {:induction false} RoundsPermute(pending: seq<Operation>, available: set<ColumnKey>)
    ensures Rounds(pending, available).Done? ==>
      multiset(Rounds(pending, available).ordered) == multiset(pending)
    decreases |pending|
  {
    if pending != [] && ReadyIn(pending, available) != [] {
      RoundSplits(pending, available);
      RoundsPermute(BlockedIn(pending, available), available + TargetsOf(ReadyIn(pending, available)));
    }
  }

  lemma {:induction false} RoundsRespect(pending: seq<Operation>, available: set<ColumnKey>)
    ensures Rounds(pending, available).Done? ==> Respects(Rounds(pending, available).ordered, available)
    decreases |pending|
  {
    var ready := ReadyIn(pending, available);
    if pending != [] && ready != [] && Rounds(pending, available).Done? {
      RoundSplits(pending, available);
      RoundsRespect(BlockedIn(pending, available), available + TargetsOf(ready));
      var later := Rounds(BlockedIn(pending, available), available + TargetsOf(ready)).ordered;
      forall i | 0 <= i < |ready + later|
        ensures Ready((ready + later)[i], available + TargetsOf((ready + later)[..i]))
      {
        if i < |ready| {
          assert ready[i] in ready;
        } else {
          assert (ready + later)[..i] == ready + later[..i - |ready|];
          assert TargetsOf(ready + later[..i - |ready|]) == TargetsOf(ready) + TargetsOf(later[..i - |ready|]);
        }
      }
    }
  }

  /** A stuck run keeps every unscheduled operation, and has made every other target available. */
  lemma {:induction false} StuckFacts(pending: seq<Operation>, available: set<ColumnKey>)
    requires Rounds(pending, available).Stuck?
    ensures var stuck := Rounds(pending, available);
      && stuck.pending != []
      && (forall op | op in stuck.pending :: op in pending && !Ready(op, stuck.available))
      && (forall op | op in pending ::
        op in stuck.pending || (TargetOf(op) in stuck.available && Ready(op, stuck.available)))
      && available <= stuck.available <= available + TargetsOf(pending)
    decreases |pending|
  {
    var ready := ReadyIn(pending, available);
    RoundSplits(pending, available);
    if ready != [] {
      StuckFacts(BlockedIn(pending, available), available + TargetsOf(ready));
    }
  }

  /** A valid order cannot contain a set of operations none of which is ever ready. */
  lemma {:induction false} OrderUnsticks(
    order: seq<Operation>, k: nat, sources: set<ColumnKey>, stuck: seq<Operation>, available: set<ColumnKey>)
    requires k <= |order| && Respects(order, sources) && sources <= available
    requires forall op | op in order :: op in stuck || TargetOf(op) in available
    requires forall op | op in stuck :: !Ready(op, available)
    ensures forall i | 0 <= i < k :: order[i] !in stuck
  {
    if k > 0 {
      OrderUnsticks(order, k - 1, sources, stuck, available);
      assert forall op | op in order[..k - 1] :: TargetOf(op) in available;
      assert Ready(order[k - 1], sources + TargetsOf(order[..k - 1]));
    }
  }

  ghost predicate Orderable(operations: seq<Operation>, sources: set<ColumnKey>) {
    exists order :: multiset(order) == multiset(operations) && Respects(order, sources)
  }

  lemma RoundsCompleteIff(derived: seq<Operation>, sources: set<ColumnKey>)
    ensures Rounds(derived, sources).Done? <==> Orderable(derived, sources)
  {
    if Rounds(derived, sources).Done? {
      RoundsPermute(derived, sources);
      RoundsRespect(derived, sources);
    } else if Orderable(derived, sources) {
      var order :| multiset(order) == multiset(derived) && Respects(order, sources);
      var stuck := Rounds(derived, sources);
      StuckFacts(derived, sources);
      forall op | op in order ensures op in stuck.pending || TargetOf(op) in stuck.available {
        assert op in multiset(order);
      }
      assert stuck.pending[0] in derived && stuck.pending[0] in multiset(order);
      var i :| 0 <= i < |order| && order[i] == stuck.pending[0];
      OrderUnsticks(order, i + 1, sources, stuck.pending, stuck.available);
    }
  }

  /** Columns that no source supplies and no derived operation creates. */
  function Orphans(derived: seq<Operation>, sources: set<ColumnKey>): set<ColumnKey> {
    ReferencedBy(derived) - sources - TargetsOf(derived)
  }

  lemma StuckOrphans(derived: seq<Operation>, sources: set<ColumnKey>)
    requires Rounds(derived, sources).Stuck?
    ensures var stuck := Rounds(derived, sources); Unknown(stuck.pending, stuck.available) == Orphans(derived, sources)
  {
    StuckFacts(derived, sources);
    var stuck := Rounds(derived, sources);
    forall c | c in Orphans(derived, sources) ensures c in Unknown(stuck.pending, stuck.available) {
      var op :| op in derived && c in op.sources;
      assert op !in stuck.pending ==> c in ToSet(op.sources);
    }
    assert TargetsOf(derived) <= stuck.available + TargetsOf(stuck.pending);
  }

  lemma OrphansBlock(derived: seq<Operation>, sources: set<ColumnKey>)
    requires Orphans(derived, sources) != {}
    ensures Rounds(derived, sources).Stuck?
  {
    if Rounds(derived, sources).Done? {
      RoundsPermute(derived, sources);
      RoundsRespect(derived, sources);
      var order := Rounds(derived, sources).ordered;
      var c :| c in Orphans(derived, sources);
      var op :| op in derived && c in op.sources;
      assert op in multiset(order);
      assert c in ToSet(op.sources);
      var i :| 0 <= i < |order| && order[i] == op;
      forall p | p in order[..i] ensures TargetOf(p) in TargetsOf(derived) { assert p in multiset(order); }
    }
  }

  predicate WellTargeted(derived: seq<Operation>, sources: set<ColumnKey>) {
    && (forall op | op in derived :: HasTarget(op))
    && UniqueTargets(derived)
    && sources * TargetsOf(derived) == {}
  }

  /**
   The three outcomes for well-targeted operations, each exactly when it should be: unknown
   columns are reported iff a referenced column has no producer, a cycle iff there is none of
   those and no order exists, and otherwise an order is found.
   */
  lemma OrderOutcome(operations: seq<Operation>, sources: set<ColumnKey>)
    requires DerivedOf(operations) != [] && WellTargeted(DerivedOf(operations), sources)
    ensures var derived := DerivedOf(operations); var r := Order(operations, sources);
      && (Orphans(derived, sources) != {} <==> r == UnknownColumns(Orphans(derived, sources)))
      && (Orphans(derived, sources) == {} && !Orderable(derived, sources) <==> r == CycleDetected)
      && (Orderable(derived, sources) <==> r.Ordered?)
  {
    var derived := DerivedOf(operations);
    RoundsCompleteIff(derived, sources);
    if Orphans(derived, sources) != {} { OrphansBlock(derived, sources); }
    if Rounds(derived, sources).Stuck? { StuckOrphans(derived, sources); }
  }

  lemma {:induction false} SplitKinds(operations: seq<Operation>)
    ensures multiset(operations) == multiset(DerivedOf(operations)) + multiset(RemainingOf(operations))
    ensures forall op | op in DerivedOf(operations) :: IsDerived(op.kind)
    ensures forall op | op in RemainingOf(operations) :: !IsDerived(op.kind)
  {
    if operations != [] {
      SplitKinds(operations[1..]);
      assert operations == [operations[0]] + operations[1..];
    }
  }

  predicate ValidOrderOf(
    result: seq<Operation>, ordered: seq<Operation>, operations: seq<Operation>, sources: set<ColumnKey>)
  {
    && result == ordered + RemainingOf(operations)
    && multiset(ordered) == multiset(DerivedOf(operations))
    && multiset(result) == multiset(operations)
    && Respects(ordered, sources)
  }

  lemma RoundsValid(derived: seq<Operation>, sources: set<ColumnKey>) returns (ordered: seq<Operation>)
    requires Rounds(derived, sources).Done?
    ensures ordered == Rounds(derived, sources).ordered
    ensures multiset(ordered) == multiset(derived) && Respects(ordered, sources)
  {
    RoundsPermute(derived, sources);
    RoundsRespect(derived, sources);
    ordered := Rounds(derived, sources).ordered;
  }

  lemma ScheduleParts(derived: seq<Operation>, remaining: seq<Operation>, sources: set<ColumnKey>)
    requires Schedule(derived, remaining, sources).Ordered?
    ensures WellTargeted(derived, sources) && Rounds(derived, sources).Done?
    ensures Schedule(derived, remaining, sources).operations == Rounds(derived, sources).ordered + remaining
  {
  }

  /** A successful order is a permutation: derived operations after their producers, then the rest unmoved. */
  lemma OrderSound(operations: seq<Operation>, sources: set<ColumnKey>) returns (ordered: seq<Operation>)
    requires Order(operations, sources).Ordered? && DerivedOf(operations) != []
    ensures WellTargeted(DerivedOf(operations), sources)
    ensures ValidOrderOf(Order(operations, sources).operations, ordered, operations, sources)
  {
    var derived, remaining := DerivedOf(operations), RemainingOf(operations);
    ScheduleParts(derived, remaining, sources);
    ordered := RoundsValid(derived, sources);
    SplitKinds(operations);
    assert multiset(ordered + remaining) == multiset(ordered) + multiset(remaining);
  }

  // ----- idempotence -----

  lemma {:induction false} AllReady(ready: seq<Operation>, blocked: seq<Operation>, available: set<ColumnKey>)
    requires forall op | op in ready :: Ready(op, available)
    requires forall op | op in blocked :: !Ready(op, available)
    ensures ReadyIn(ready + blocked, available) == ready
    ensures BlockedIn(ready + blocked, available) == blocked
    decreases |ready| + |blocked|
  {
    if ready != [] {
      assert (ready + blocked)[1..] == ready[1..] + blocked;
      AllReady(ready[1..], blocked, available);
    } else if blocked != [] {
      assert ready + blocked == blocked;
      assert blocked[1..] == [] + blocked[1..];
      AllReady([], blocked[1..], available);
    }
  }

  lemma {:induction false} RoundsFixed(pending: seq<Operation>, available: set<ColumnKey>)
    requires Rounds(pending, available).Done?
    ensures Rounds(Rounds(pending, available).ordered, available) == Rounds(pending, available)
    decreases |pending|
  {
    if pending != [] {
      var ready, blocked := ReadyIn(pending, available), BlockedIn(pending, available);
      RoundSplits(pending, available);
      var later := Rounds(blocked, available + TargetsOf(ready)).ordered;
      RoundsFixed(blocked, available + TargetsOf(ready));
      RoundsPermute(blocked, available + TargetsOf(ready));
      forall op | op in later ensures !Ready(op, available) {
        assert op in multiset(later) && op in blocked;
      }
      AllReady(ready, later, available);
    }
  }

  lemma {:induction false} Resplit(derived: seq<Operation>, remaining: seq<Operation>)
    requires forall op | op in derived :: IsDerived(op.kind)
    requires forall op | op in remaining :: !IsDerived(op.kind)
    ensures DerivedOf(derived + remaining) == derived && RemainingOf(derived + remaining) == remaining
    decreases |derived| + |remaining|
  {
    if derived != [] {
      assert (derived + remaining)[1..] == derived[1..] + remaining;
      Resplit(derived[1..], remaining);
    } else if remaining != [] {
      assert derived + remaining == remaining;
      assert remaining[1..] == [] + remaining[1..];
      Resplit([], remaining[1..]);
    }
  }

  lemma TwoPlaces(a: seq<Operation>, x: Operation) returns (p: nat, q: nat)
    requires multiset(a)[x] >= 2
    ensures p < q < |a| && a[p] == a[q] == x
  {
    assert a == a[..|a| - 1] + [a[|a| - 1]];
    if multiset(a[..|a| - 1])[x] >= 2 {
      p, q := TwoPlaces(a[..|a| - 1], x);
    } else {
      assert x in multiset(a[..|a| - 1]);
      p :| p < |a| - 1 && a[p] == x;
      q := |a| - 1;
    }
  }

  lemma CountsTwo(b: seq<Operation>, i: nat, j: nat)
    requires i < j < |b| && b[i] == b[j]
    ensures multiset(b)[b[i]] >= 2
  {
    assert b == b[..j] + ([b[j]] + b[j + 1..]);
    assert b[i] in b[..j] && b[i] in multiset(b[..j]);
  }

  lemma PermutedTargets(a: seq<Operation>, b: seq<Operation>)
    requires multiset(a) == multiset(b) && UniqueTargets(a)
    ensures TargetsOf(b) == TargetsOf(a) && UniqueTargets(b)
    ensures forall op :: op in a <==> op in b
  {
    assert forall op :: op in a <==> op in multiset(a);
    assert forall op :: op in b <==> op in multiset(b);
    forall i, j | 0 <= i < j < |b| ensures TargetOf(b[i]) != TargetOf(b[j]) {
      if b[i] == b[j] {
        CountsTwo(b, i, j);
        var p, q := TwoPlaces(a, b[i]);
      } else {
        assert b[i] in a && b[j] in a;
      }
    }
  }

  /** Ordering an ordered list changes nothing. */
  lemma OrderIdempotent(operations: seq<Operation>, sources: set<ColumnKey>)
    requires Order(operations, sources).Ordered?
    ensures Order(Order(operations, sources).operations, sources) == Order(operations, sources)
  {
    var derived, remaining := DerivedOf(operations), RemainingOf(operations);
    if derived != [] {
      var ordered := Rounds(derived, sources).ordered;
      SplitKinds(operations);
      RoundsPermute(derived, sources);
      PermutedTargets(derived, ordered);
      RoundsFixed(derived, sources);
      assert ordered != [] by { assert derived[0] in ordered; }
      Resplit(ordered, remaining);
    }
  }
}
