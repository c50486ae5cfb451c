/**
 What a client receives over any number of connections: once it has an event id, exactly the
 run's events after its first id, each once and in order, provided events become visible in id
 order and a message is published only after its event is visible.
 */
module EventDelivery {
  import opened Values
  import opened EventStream

  // ----- the client -----

  /** The last id received, where it started, and the ids of the events received since. */
  datatype Client = Client(cursor: Option<nat>, base: nat, got: seq<nat>)

  const NEW_CLIENT := Client(None, 0, [])

  /** A first id that comes with a snapshot is the starting point; an event's id means it started from nothing. */
  function Receive(client: Client, f: Frame): Client {
    match f
    case Status(Some(id)) => client.(cursor := Some(id), got := client.got + [id])
    case Snapshot(Some(id)) =>
      if client.cursor.None? then Client(Some(id), id, client.got) else client.(cursor := Some(id))
    case _ => client
  }

  function ReceiveAll(client: Client, frames: seq<Frame>): Client
    decreases |frames|
  {
    if frames == [] then client else ReceiveAll(Receive(client, frames[0]), frames[1..])
  }

  /** A connection resumed with the last id received, broken after some frames. */
  function Connect(client: Client, c: Connection): Client {
    var frames := Frames(client.cursor, c);
    ReceiveAll(client, if c.received < |frames| then frames[..c.received] else frames)
  }

  function Session(client: Client, connections: seq<Connection>): Client
    decreases |connections|
  {
    if connections == [] then client else Session(Connect(client, connections[0]), connections[1..])
  }

  // ----- what is visible when -----

  /** Each query sees a longer prefix of the run's events: they become visible in id order. */
  predicate TurnsInOrder(events: seq<nat>, seen: seq<nat>, turns: seq<Turn>)
    decreases |turns|
  {
    turns == [] ||
    (seen <= turns[0].visible <= events && Published(turns[0]) && TurnsInOrder(events, turns[0].visible, turns[1..]))
  }

  /** A message of this run is published only after its event is visible. */
  predicate Published(turn: Turn) {
    turn.message.Some? && turn.message.value.ours && turn.message.value.id.Some? ==>
      turn.message.value.id.value in turn.visible
  }

  function LastSeen(c: Connection): seq<nat> { if c.turns == [] then c.atReplay else c.turns[|c.turns| - 1].visible }

  predicate InOrder(events: seq<nat>, seen: seq<nat>, c: Connection) {
    seen <= c.atBoundary <= c.atReplay <= events && TurnsInOrder(events, c.atReplay, c.turns)
  }

  predicate AllInOrder(events: seq<nat>, seen: seq<nat>, connections: seq<Connection>)
    decreases |connections|
  {
    connections == [] ||
    (InOrder(events, seen, connections[0]) && AllInOrder(events, LastSeen(connections[0]), connections[1..]))
  }

  // ----- positions in the run's events -----

  function CursorAt(events: seq<nat>, p: nat): nat
    requires p <= |events|
  {
    Last(events[..p])
  }

  function IdAt(events: seq<nat>, p: nat): Option<nat>
    requires p <= |events|
  {
    if p == 0 then None else Some(events[p - 1])
  }

  /** The position after an id, if it is an event. */
  function Find(events: seq<nat>, id: nat): (r: Option<nat>)
    ensures r.Some? ==> 0 < r.value <= |events| && events[r.value - 1] == id
    ensures r.None? ==> id !in events
  {
    if events == [] then None
    else if events[|events| - 1] == id then Some(|events|)
    else Find(events[..|events| - 1], id)
  }

  /** Where a frame takes a client at a position, if it is the next event or repeats where it is. */
  function Advance(events: seq<nat>, p: nat, f: Frame): (r: Option<nat>)
    requires p <= |events|
    ensures r.Some? ==> p <= r.value <= |events|
  {
    match f
    case Status(Some(id)) => if p < |events| && id == events[p] then Some(p + 1) else None
    case Snapshot(Some(id)) => if p == 0 then Find(events, id) else if id == events[p - 1] then Some(p) else None
    case _ => Some(p)
  }

  function Walk(events: seq<nat>, p: nat, frames: seq<Frame>): (r: Option<nat>)
    requires p <= |events|
    ensures r.Some? ==> p <= r.value <= |events|
    decreases |frames|
  {
    if frames == [] then Some(p)
    else match Advance(events, p, frames[0]) case None => None case Some(q) => Walk(events, q, frames[1..])
  }

  lemma {:induction false} WalkConcat(events: seq<nat>, p: nat, a: seq<Frame>, b: seq<Frame>)
    requires p <= |events|
    ensures Walk(events, p, a + b)
         == if Walk(events, p, a).None? then None else Walk(events, Walk(events, p, a).value, b)
    decreases |a|
  {
    if a == [] {
      assert a + b == b;
    } else {
      assert (a + b)[1..] == a[1..] + b;
      var next := Advance(events, p, a[0]);
      if next.Some? { WalkConcat(events, next.value, a[1..], b); }
    }
  }

  lemma WalkPrefix(events: seq<nat>, p: nat, frames: seq<Frame>, k: nat)
    requires p <= |events| && k <= |frames| && Walk(events, p, frames).Some?
    ensures Walk(events, p, frames[..k]).Some? && Walk(events, p, frames[..k]).value <= Walk(events, p, frames).value
  {
    assert frames == frames[..k] + frames[k..];
    WalkConcat(events, p, frames[..k], frames[k..]);
  }

  lemma {:induction false} WalkStatus(events: seq<nat>, p: nat, n: nat)
    requires p <= n <= |events|
    ensures Walk(events, p, StatusFrames(events[p..n])) == Some(n)
    decreases n - p
  {
    if p < n {
      assert StatusFrames(events[p..n])[1..] == StatusFrames(events[p + 1..n]);
      WalkStatus(events, p + 1, n);
    }
  }

  lemma {:induction false} WalkSilent(events: seq<nat>, p: nat, n: nat)
    requires p <= |events|
    ensures Walk(events, p, seq(n, i => Status(None))) == Some(p)
  {
    if n > 0 {
      assert seq(n, i => Status(None))[1..] == seq(n - 1, i => Status(None));
      WalkSilent(events, p, n - 1);
    }
  }

  lemma {:induction false} BetweenSlice(events: seq<nat>, p: nat, m: nat, n: nat)
    requires Increasing(events) && p <= m <= n <= |events|
    ensures Between(events[..n], CursorAt(events, p), CursorAt(events, m)) == events[p..m]
    decreases n
  {
    if n > 0 {
      assert events[..n][..n - 1] == events[..n - 1];
      if m < n {
        BetweenSlice(events, p, m, n - 1);
      } else if p < m {
        BetweenBelow(events, p, m, n - 1);
        assert events[p..m] == events[p..m - 1] + [events[m - 1]];
      } else {
        BetweenNone(events[..n], CursorAt(events, p));
      }
    }
  }

  /** Before the last event the upper bound makes no difference. */
  lemma {:induction false} BetweenBelow(events: seq<nat>, p: nat, m: nat, n: nat)
    requires Increasing(events) && p <= n < m <= |events|
    ensures Between(events[..n], CursorAt(events, p), CursorAt(events, m)) == events[p..n]
    decreases n
  {
    if n > p {
      assert events[..n][..n - 1] == events[..n - 1];
      BetweenBelow(events, p, m, n - 1);
      assert events[p..n] == events[p..n - 1] + [events[n - 1]];
    } else {
      BetweenUpTo(events, p, n, CursorAt(events, m));
    }
  }

  lemma {:induction false} BetweenUpTo(events: seq<nat>, p: nat, n: nat, upTo: nat)
    requires Increasing(events) && n <= p <= |events|
    ensures Between(events[..n], CursorAt(events, p), upTo) == []
  {
    if n > 0 {
      assert events[..n][..n - 1] == events[..n - 1];
      BetweenUpTo(events, p, n - 1, upTo);
    }
  }

  lemma {:induction false} BetweenNone(ids: seq<nat>, c: nat)
    ensures Between(ids, c, c) == []
  {
    if ids != [] { BetweenNone(ids[..|ids| - 1], c); }
  }

  // ----- every connection is a walk -----

  lemma CursorOrder(events: seq<nat>, p: nat, q: nat)
    requires Increasing(events) && p <= q <= |events|
    ensures p < q <==> CursorAt(events, p) < CursorAt(events, q)
    ensures CursorAt(events, p) <= CursorAt(events, q)
  {}

  /** What a connection sends before its snapshot. */
  function Head(last: Option<nat>, c: Connection): seq<Frame> {
    match last
    case None => seq(c.logs, i => Status(None))
    case Some(id) =>
      if id < Last(c.atBoundary) then StatusFrames(Between(c.atReplay, id, Last(c.atBoundary))) else []
  }

  lemma OpeningParts(last: Option<nat>, c: Connection)
    ensures Opening(last, c) == Head(last, c) + [SnapshotFrame(Last(c.atBoundary))]
  {}

  lemma HeadWalk(events: seq<nat>, p: nat, c: Connection)
    requires Increasing(events) && c.atBoundary <= c.atReplay <= events && p <= |c.atBoundary|
    ensures Walk(events, p, Head(IdAt(events, p), c)) == Some(if p == 0 then 0 else |c.atBoundary|)
  {
    var n := |c.atBoundary|;
    if p == 0 {
      WalkSilent(events, p, c.logs);
    } else {
      assert c.atBoundary == events[..n] && c.atReplay == events[..|c.atReplay|];
      assert IdAt(events, p) == Some(CursorAt(events, p)) && Last(c.atBoundary) == CursorAt(events, n);
      CursorOrder(events, p, n);
      BetweenSlice(events, p, n, |c.atReplay|);
      WalkStatus(events, p, n);
    }
  }

  lemma OpeningWalk(events: seq<nat>, p: nat, c: Connection)
    requires Increasing(events) && c.atBoundary <= c.atReplay <= events && p <= |c.atBoundary|
    ensures Walk(events, p, Opening(IdAt(events, p), c)) == Some(|c.atBoundary|)
  {
    var n, head := |c.atBoundary|, Head(IdAt(events, p), c);
    assert c.atBoundary == events[..n];
    OpeningParts(IdAt(events, p), c);
    HeadWalk(events, p, c);
    WalkConcat(events, p, head, [SnapshotFrame(CursorAt(events, n))]);
    SnapshotWalk(events, if p == 0 then 0 else n, n);
  }

  lemma SnapshotWalk(events: seq<nat>, p: nat, n: nat)
    requires Increasing(events) && (p == 0 || p == n) && n <= |events|
    ensures Walk(events, p, [SnapshotFrame(CursorAt(events, n))]) == Some(n)
  {
    var f := SnapshotFrame(CursorAt(events, n));
    assert [f][1..] == [];
    if p == 0 && n > 0 {
      assert events[n - 1] in events;
      var found := Find(events, events[n - 1]);
      assert found.Some? && events[found.value - 1] == events[n - 1];
      assert found.value == n;
    }
  }

  lemma TurnWalk(events: seq<nat>, p: nat, s: Loop, turn: Turn)
    requires Increasing(events) && p <= |turn.visible| && turn.visible <= events && Published(turn)
    requires s.lastSent == CursorAt(events, p)
    ensures Walk(events, p, TurnFrames(s, turn).0) == Some(|turn.visible|)
    ensures TurnFrames(s, turn).1.lastSent == CursorAt(events, |turn.visible|)
  {
    var n := |turn.visible|;
    assert turn.visible == events[..n];
    BetweenSlice(events, p, n, n);
    assert Unseen(s.lastSent, turn) == events[p..n];
    assert AfterUnseen(s.lastSent, turn) == CursorAt(events, n);
    NoNewMessage(turn, n, events);
    var extra := MessageFrames(turn.message, CursorAt(events, n));
    WalkStatus(events, p, n);
    WalkConcat(events, p, StatusFrames(events[p..n]), extra);
    assert Walk(events, n, extra) == Some(n) by { if extra != [] { assert extra[1..] == []; } }
    assert Walk(events, p, [Heartbeat]) == Some(p) by { assert [Heartbeat][1..] == []; }
    if StatusFrames(events[p..n]) + extra == [] { assert |StatusFrames(events[p..n])| == 0; }
  }

  /** After the database query a published message is never newer. */
  lemma NoNewMessage(turn: Turn, n: nat, events: seq<nat>)
    requires Increasing(events) && n == |turn.visible| && turn.visible <= events && Published(turn)
    ensures AfterMessage(turn.message, CursorAt(events, n)) == CursorAt(events, n)
    ensures forall f | f in MessageFrames(turn.message, CursorAt(events, n)) :: f == Status(None)
  {
    assert turn.visible == events[..n];
    forall i | 0 <= i < n ensures turn.visible[i] <= CursorAt(events, n) {}
  }

  lemma {:induction false} TurnsWalk(events: seq<nat>, p: nat, s: Loop, seen: seq<nat>, turns: seq<Turn>)
    requires Increasing(events) && seen <= events && p <= |seen| && TurnsInOrder(events, seen, turns)
    requires s.lastSent == CursorAt(events, p)
    ensures Walk(events, p, Turns(s, turns)) == Some(if turns == [] then p else |turns[|turns| - 1].visible|)
    decreases |turns|
  {
    if turns != [] {
      var frames, next := TurnFrames(s, turns[0]).0, TurnFrames(s, turns[0]).1;
      TurnWalk(events, p, s, turns[0]);
      TurnsWalk(events, |turns[0].visible|, next, turns[0].visible, turns[1..]);
      WalkConcat(events, p, frames, Turns(next, turns[1..]));
      assert Turns(s, turns) == frames + Turns(next, turns[1..]);
    }
  }

  lemma {:induction false} TurnsEnd(events: seq<nat>, seen: seq<nat>, turns: seq<Turn>)
    requires TurnsInOrder(events, seen, turns) && turns != []
    ensures seen <= turns[|turns| - 1].visible <= events
    decreases |turns|
  {
    if |turns| > 1 { TurnsEnd(events, turns[0].visible, turns[1..]); }
  }

  /** A whole connection takes the client to the end of what its last query saw. */
  lemma FramesWalk(events: seq<nat>, p: nat, seen: seq<nat>, c: Connection)
    requires Increasing(events) && InOrder(events, seen, c) && p <= |seen|
    ensures Walk(events, p, Frames(IdAt(events, p), c)) == Some(if c.turns == [] then |c.atBoundary| else |LastSeen(c)|)
  {
    var n, opening := |c.atBoundary|, Opening(IdAt(events, p), c);
    var turns := Turns(Loop(Last(c.atBoundary), 0), c.turns);
    OpeningWalk(events, p, c);
    assert Last(c.atBoundary) == CursorAt(events, n) by { assert c.atBoundary == events[..n]; }
    TurnsWalk(events, n, Loop(Last(c.atBoundary), 0), c.atReplay, c.turns);
    WalkConcat(events, p, opening, turns);
    assert Frames(IdAt(events, p), c) == opening + turns;
  }

  // ----- the client follows -----

  /** A client at a position has exactly the events from its starting point up to there. */
  ghost predicate ClientAt(events: seq<nat>, client: Client, p: nat)
    requires p <= |events|
  {
    && client.cursor == IdAt(events, p)
    && exists q: nat :: q <= p && client.base == CursorAt(events, q) && client.got == events[q..p]
  }

  lemma ReceiveStep(events: seq<nat>, client: Client, p: nat, f: Frame)
    requires Increasing(events) && p <= |events| && ClientAt(events, client, p) && Advance(events, p, f).Some?
    ensures ClientAt(events, Receive(client, f), Advance(events, p, f).value)
  {
    if f.Status? && f.id.Some? {
      ReceiveNext(events, client, p);
    } else if f.Snapshot? && f.id.Some? && p == 0 {
      ReceiveFirst(events, client, Advance(events, p, f).value);
    } else {
      assert Advance(events, p, f) == Some(p) && Receive(client, f) == client;
    }
  }

  lemma ReceiveNext(events: seq<nat>, client: Client, p: nat)
    requires p < |events| && ClientAt(events, client, p)
    ensures ClientAt(events, client.(cursor := Some(events[p]), got := client.got + [events[p]]), p + 1)
  {
    var q: nat :| q <= p && client.base == CursorAt(events, q) && client.got == events[q..p];
    assert events[q..p + 1] == events[q..p] + [events[p]];
  }

  lemma ReceiveFirst(events: seq<nat>, client: Client, n: nat)
    requires 0 < n <= |events| && ClientAt(events, client, 0)
    ensures ClientAt(events, Client(Some(events[n - 1]), events[n - 1], client.got), n)
  {
    var q: nat :| q <= 0 && client.base == CursorAt(events, q) && client.got == events[q..0];
    assert events[n..n] == [] == client.got;
    assert CursorAt(events, n) == events[n - 1];
  }

  lemma {:induction false} ReceiveWalk(events: seq<nat>, client: Client, p: nat, frames: seq<Frame>)
    requires Increasing(events) && p <= |events| && ClientAt(events, client, p) && Walk(events, p, frames).Some?
    ensures ClientAt(events, ReceiveAll(client, frames), Walk(events, p, frames).value)
    decreases |frames|
  {
    if frames != [] {
      ReceiveStep(events, client, p, frames[0]);
      ReceiveWalk(events, Receive(client, frames[0]), Advance(events, p, frames[0]).value, frames[1..]);
    }
  }

  lemma ConnectWalk(events: seq<nat>, client: Client, p: nat, seen: seq<nat>, c: Connection) returns (n: nat)
    requires Increasing(events) && InOrder(events, seen, c) && p <= |seen| && ClientAt(events, client, p)
    ensures n <= |LastSeen(c)| <= |events| && ClientAt(events, Connect(client, c), n)
    ensures c.received >= |Frames(client.cursor, c)| && c.turns != [] ==> n == |LastSeen(c)|
  {
    var frames := Frames(client.cursor, c);
    FramesWalk(events, p, seen, c);
    if c.turns != [] { TurnsEnd(events, c.atReplay, c.turns); }
    var received := if c.received < |frames| then frames[..c.received] else frames;
    if c.received < |frames| { WalkPrefix(events, p, frames, c.received); }
    ReceiveWalk(events, client, p, received);
    n := Walk(events, p, received).value;
  }

  lemma {:induction false} SessionWalk(
    events: seq<nat>, client: Client, p: nat, seen: seq<nat>, connections: seq<Connection>) returns (n: nat)
    requires Increasing(events) && seen <= events && p <= |seen| && ClientAt(events, client, p)
    requires AllInOrder(events, seen, connections)
    ensures n <= |events| && ClientAt(events, Session(client, connections), n)
    decreases |connections|
  {
    if connections == [] {
      n := p;
    } else {
      var m := ConnectWalk(events, client, p, seen, connections[0]);
      if connections[0].turns != [] { TurnsEnd(events, connections[0].atReplay, connections[0].turns); }
      n := SessionWalk(events, Connect(client, connections[0]), m, LastSeen(connections[0]), connections[1..]);
    }
  }

  /**
   Over any number of connections, broken anywhere and resumed with the last id received, a client
   has received exactly the run's events after its starting point and up to its last id, each
   once and in order, whatever pub/sub delivered, lost, repeated or reordered.
   */
  lemma ExactlyOnce(events: seq<nat>, connections: seq<Connection>)
    requires Increasing(events) && AllInOrder(events, [], connections)
    ensures var client := Session(NEW_CLIENT, connections);
      && (client.cursor.None? ==> client.got == [])
      && (client.cursor.Some? ==> client.got == Between(events, client.base, client.cursor.value))
  {
    assert ClientAt(events, NEW_CLIENT, 0) by { assert events[0..0] == []; }
    var n := SessionWalk(events, NEW_CLIENT, 0, [], connections);
    ReceivedAt(events, Session(NEW_CLIENT, connections), n);
  }

  lemma ReceivedAt(events: seq<nat>, client: Client, n: nat)
    requires Increasing(events) && n <= |events| && ClientAt(events, client, n)
    ensures client.cursor.None? ==> client.got == []
    ensures client.cursor.Some? ==> client.got == Between(events, client.base, client.cursor.value)
  {
    var q: nat :| q <= n && client.base == CursorAt(events, q) && client.got == events[q..n];
    SliceReceived(events, q, n);
    if n > 0 { assert events[..n][n - 1] == events[n - 1]; }
  }

  lemma SliceReceived(events: seq<nat>, q: nat, n: nat)
    requires Increasing(events) && q <= n <= |events|
    ensures Between(events, CursorAt(events, q), CursorAt(events, n)) == events[q..n]
  {
    assert events[..|events|] == events;
    BetweenSlice(events, q, n, |events|);
  }

  // ----- both assumptions are needed -----

  /** Event 3 arrives first, by a query that does not see event 2 yet or by a message published too early. */
  function EarlyTurn(published: bool): Turn {
    if published then Turn(Some(Message(true, Some(3))), [1]) else Turn(None, [1, 3])
  }

  lemma EarlyTurnFrames(published: bool)
    ensures TurnFrames(Loop(1, 0), EarlyTurn(published)) == ([Status(Some(3))], Loop(3, 0))
  {
    assert [1, 3][..1] == [1] && [1][..0] == [];
    assert Between([1], 1, 1) == [] && Between([1, 3], 1, 3) == [3];
    assert StatusFrames([3]) + [] == [Status(Some(3))] && StatusFrames([]) + [Status(Some(3))] == [Status(Some(3))];
  }

  /** Then event 2 is never sent, once it is visible or ever. */
  lemma EarlyEventLosesOther(published: bool)
    ensures Session(NEW_CLIENT, [Connection([1], [1], 0, [EarlyTurn(published), Turn(None, [1, 2, 3])], 10)]).got == [3]
  {
    var first, second := EarlyTurn(published), Turn(None, [1, 2, 3]);
    var c := Connection([1], [1], 0, [first, second], 10);
    EarlyTurns(published);
    assert Opening(None, c) == [Snapshot(Some(1))];
    assert Frames(None, c) == [Snapshot(Some(1)), Status(Some(3))];
    ReceivedTwo(1, 3);
    assert Connect(NEW_CLIENT, c) == Client(Some(3), 1, [3]);
    assert [c][1..] == [] && Session(NEW_CLIENT, [c]) == Session(Connect(NEW_CLIENT, c), []);
  }

  lemma EarlyTurns(published: bool)
    ensures Turns(Loop(1, 0), [EarlyTurn(published), Turn(None, [1, 2, 3])]) == [Status(Some(3))]
  {
    var first, second := EarlyTurn(published), Turn(None, [1, 2, 3]);
    EarlyTurnFrames(published);
    LateTurnFrames();
    assert [first, second][1..] == [second] && [second][1..] == [] && Turns(Loop(3, 1), []) == [];
    assert Turns(Loop(3, 0), [second]) == [];
  }

  lemma LateTurnFrames()
    ensures TurnFrames(Loop(3, 0), Turn(None, [1, 2, 3])) == ([], Loop(3, 1))
  {
    assert [1, 2, 3][..2] == [1, 2] && [1, 2][..1] == [1] && [1][..0] == [];
    assert Between([1, 2, 3], 3, 3) == [];
    assert StatusFrames([]) + [] == [];
  }

  lemma ReceivedTwo(a: nat, b: nat)
    ensures ReceiveAll(NEW_CLIENT, [Snapshot(Some(a)), Status(Some(b))]) == Client(Some(b), a, [b])
  {
    var frames := [Snapshot(Some(a)), Status(Some(b))];
    assert frames[1..] == [Status(Some(b))] && frames[1..][1..] == [];
    assert ReceiveAll(Client(Some(a), a, []), [Status(Some(b))]) == Client(Some(b), a, [b]);
  }
}
