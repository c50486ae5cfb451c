/**
 The server-sent event stream of one run: a snapshot, the events a returning client missed, then
 a loop that merges a database cursor with pub/sub messages.
 Follows the `event_stream` generator in app/domains/pipeline/router.py.  An event is its id.
 */
module EventStream {
  import opened Values

  /** A frame and the id it carries, if any. */
  datatype Frame = Status(id: Option<nat>) | Snapshot(id: Option<nat>) | Heartbeat

  /** A pub/sub message: whether it is about this run, and the event it was published for, if any. */
  datatype Message = Message(ours: bool, id: Option<nat>)

  /** One turn of the loop: the message received, then the event ids the database query sees. */
  datatype Turn = Turn(message: Option<Message>, visible: seq<nat>)

  /**
   One connection: what the boundary and replay queries see, how many agent-log lines a first
   connection replays, the turns of the loop, and how many frames arrive before it breaks.
   */
  datatype Connection = Connection(atBoundary: seq<nat>, atReplay: seq<nat>, logs: nat, turns: seq<Turn>, received: nat)

  const HEARTBEAT_TURNS := 15

  predicate Increasing(ids: seq<nat>) {
    (forall i | 0 <= i < |ids| :: 0 < ids[i]) && forall i, j | 0 <= i < j < |ids| :: ids[i] < ids[j]
  }

  function Last(ids: seq<nat>): nat { if ids == [] then 0 else ids[|ids| - 1] }

  /** The ids after one and up to another, in order. */
  function Between(ids: seq<nat>, after: nat, upTo: nat): seq<nat> {
    if ids == [] then []
    else
      var n := |ids| - 1;
      if after < ids[n] <= upTo then Between(ids[..n], after, upTo) + [ids[n]] else Between(ids[..n], after, upTo)
  }

  function StatusFrames(ids: seq<nat>): seq<Frame> { seq(|ids|, i requires 0 <= i < |ids| => Status(Some(ids[i]))) }

  function SnapshotFrame(boundary: nat): Frame { Snapshot(if boundary == 0 then None else Some(boundary)) }

  /** Everything sent before the loop. */
  function Opening(lastEventId: Option<nat>, c: Connection): seq<Frame> {
    var boundary := Last(c.atBoundary);
    (match lastEventId
     case None => seq(c.logs, i => Status(None))
     case Some(last) => if last < boundary then StatusFrames(Between(c.atReplay, last, boundary)) else [])
    + [SnapshotFrame(boundary)]
  }

  datatype Loop = Loop(lastSent: nat, idle: nat)

  function MessageFrames(message: Option<Message>, sent: nat): seq<Frame> {
    if message.Some? && message.value.ours && (message.value.id.None? || message.value.id.value > sent)
      then [Status(message.value.id)]
    else []
  }

  function AfterMessage(message: Option<Message>, sent: nat): nat {
    if message.Some? && message.value.ours && message.value.id.Some? && message.value.id.value > sent
      then message.value.id.value else sent
  }

  /** The database events a turn sends, and the cursor after them. */
  function Unseen(sent: nat, turn: Turn): seq<nat> { Between(turn.visible, sent, Last(turn.visible)) }

  function AfterUnseen(sent: nat, turn: Turn): nat {
    if Unseen(sent, turn) == [] then sent else Last(Unseen(sent, turn))
  }

  /** One turn: unseen database events in id order, then the message if it is newer still. */
  function TurnFrames(s: Loop, turn: Turn): (seq<Frame>, Loop) {
    var sent := AfterUnseen(s.lastSent, turn);
    var frames := StatusFrames(Unseen(s.lastSent, turn)) + MessageFrames(turn.message, sent);
    var next := AfterMessage(turn.message, sent);
    if frames != [] then (frames, Loop(next, 0))
    else if s.idle + 1 >= HEARTBEAT_TURNS then ([Heartbeat], Loop(next, 0))
    else ([], Loop(next, s.idle + 1))
  }

  function Turns(s: Loop, turns: seq<Turn>): seq<Frame>
    decreases |turns|
  {
    if turns == [] then [] else TurnFrames(s, turns[0]).0 + Turns(TurnFrames(s, turns[0]).1, turns[1..])
  }

  function Frames(lastEventId: Option<nat>, c: Connection): seq<Frame> {
    Opening(lastEventId, c) + Turns(Loop(Last(c.atBoundary), 0), c.turns)
  }

  /** The generator's own variables, advanced in place. */
  class Generator {
    var lastSent: nat
    var idle: nat

    constructor (boundary: nat)
      ensures lastSent == boundary && idle == 0
    {
      lastSent, idle := boundary, 0;
    }

    method Turn(turn: Turn) returns (frames: seq<Frame>)
      modifies this
      ensures (frames, Loop(lastSent, idle)) == TurnFrames(old(Loop(lastSent, idle)), turn)
    {
      frames := [];
      var ids := Between(turn.visible, lastSent, Last(turn.visible));
      for i := 0 to |ids|
        invariant frames == StatusFrames(ids[..i])
        invariant lastSent == if i == 0 then old(lastSent) else ids[i - 1]
        invariant idle == old(idle)
      {
        lastSent := ids[i];
        frames := frames + [Status(Some(ids[i]))];
      }
      assert ids[..|ids|] == ids && StatusFrames(ids) + [] == StatusFrames(ids);
      if turn.message.Some? {
        var message := turn.message.value;
        if message.ours && (message.id.None? || message.id.value > lastSent) {
          if message.id.Some? { lastSent := message.id.value; }
          frames := frames + [Status(message.id)];
        }
      }
      if frames != [] {
        idle := 0;
      } else {
        idle := idle + 1;
        if idle >= HEARTBEAT_TURNS {
          idle := 0;
          frames := [Heartbeat];
        }
      }
    }
  }

  // ----- ids only go up -----

  function StatusIds(frames: seq<Frame>): seq<nat> {
    if frames == [] then []
    else
      var f := frames[|frames| - 1];
      if f.Status? && f.id.Some? then StatusIds(frames[..|frames| - 1]) + [f.id.value]
      else StatusIds(frames[..|frames| - 1])
  }

  lemma {:induction false} StatusIdsConcat(a: seq<Frame>, b: seq<Frame>)
    ensures StatusIds(a + b) == StatusIds(a) + StatusIds(b)
  {
    if b == [] {
      assert a + b == a;
    } else {
      assert (a + b)[..|a + b| - 1] == a + b[..|b| - 1];
      StatusIdsConcat(a, b[..|b| - 1]);
    }
  }

  lemma {:induction false} StatusIdsOf(ids: seq<nat>)
    ensures StatusIds(StatusFrames(ids)) == ids
  {
    if ids != [] {
      assert StatusFrames(ids)[..|ids| - 1] == StatusFrames(ids[..|ids| - 1]);
      StatusIdsOf(ids[..|ids| - 1]);
      assert ids == ids[..|ids| - 1] + [ids[|ids| - 1]];
    }
  }

  lemma {:induction false} NoStatusIds(n: nat)
    ensures StatusIds(seq(n, i => Status(None))) == []
  {
    if n > 0 {
      var frames := seq(n, i => Status(None));
      assert frames[..n - 1] == seq(n - 1, i => Status(None));
      NoStatusIds(n - 1);
    }
  }

  lemma {:induction false} BetweenIncreasing(ids: seq<nat>, after: nat, upTo: nat)
    requires Increasing(ids)
    ensures Increasing(Between(ids, after, upTo))
    ensures forall x :: x in Between(ids, after, upTo) <==> x in ids && after < x <= upTo
  {
    if ids != [] {
      var n := |ids| - 1;
      assert ids == ids[..n] + [ids[n]];
      BetweenIncreasing(ids[..n], after, upTo);
      var before := Between(ids[..n], after, upTo);
      forall i | 0 <= i < |before| ensures before[i] < ids[n] { assert before[i] in before; }
    }
  }

  predicate AllAfter(ids: seq<nat>, cursor: nat) { forall i | 0 <= i < |ids| :: cursor < ids[i] }

  lemma SingleStatusId(f: Frame)
    ensures StatusIds([f]) == if f.Status? && f.id.Some? then [f.id.value] else []
  {
    assert [f][..0] == [];
  }

  lemma TurnStatusIds(s: Loop, turn: Turn)
    ensures var sent := AfterUnseen(s.lastSent, turn); var next := AfterMessage(turn.message, sent);
      StatusIds(TurnFrames(s, turn).0)
        == (if next > sent then Unseen(s.lastSent, turn) + [next] else Unseen(s.lastSent, turn))
  {
    var sent := AfterUnseen(s.lastSent, turn);
    var extra := MessageFrames(turn.message, sent);
    StatusIdsConcat(StatusFrames(Unseen(s.lastSent, turn)), extra);
    StatusIdsOf(Unseen(s.lastSent, turn));
    SingleStatusId(Heartbeat);
    if extra != [] { SingleStatusId(extra[0]); }
    assert Unseen(s.lastSent, turn) + [] == Unseen(s.lastSent, turn);
  }

  lemma UnseenIncreasing(sent: nat, turn: Turn)
    requires Increasing(turn.visible)
    ensures Increasing(Unseen(sent, turn)) && AllAfter(Unseen(sent, turn), sent) && sent <= AfterUnseen(sent, turn)
    ensures forall i | 0 <= i < |Unseen(sent, turn)| :: Unseen(sent, turn)[i] <= AfterUnseen(sent, turn)
  {
    var ids := Unseen(sent, turn);
    BetweenIncreasing(turn.visible, sent, Last(turn.visible));
    forall i | 0 <= i < |ids| ensures sent < ids[i] { assert ids[i] in ids; }
  }

  /** The ids a turn sends. */
  function TurnIds(sent: nat, turn: Turn): seq<nat> {
    var next := AfterMessage(turn.message, AfterUnseen(sent, turn));
    if next > AfterUnseen(sent, turn) then Unseen(sent, turn) + [next] else Unseen(sent, turn)
  }

  /** Ids above the cursor, in order, and the cursor moves to the last of them. */
  lemma TurnIncreasing(s: Loop, turn: Turn)
    requires Increasing(turn.visible)
    ensures StatusIds(TurnFrames(s, turn).0) == TurnIds(s.lastSent, turn)
    ensures Increasing(TurnIds(s.lastSent, turn)) && AllAfter(TurnIds(s.lastSent, turn), s.lastSent)
    ensures forall i | 0 <= i < |TurnIds(s.lastSent, turn)| ::
      TurnIds(s.lastSent, turn)[i] <= TurnFrames(s, turn).1.lastSent
    ensures s.lastSent <= TurnFrames(s, turn).1.lastSent
  {
    TurnStatusIds(s, turn);
    TurnIdsIncreasing(s.lastSent, turn);
  }

  lemma TurnIdsIncreasing(sent: nat, turn: Turn)
    requires Increasing(turn.visible)
    ensures var ids := TurnIds(sent, turn); var next := AfterMessage(turn.message, AfterUnseen(sent, turn));
      Increasing(ids) && AllAfter(ids, sent) && sent <= next && forall i | 0 <= i < |ids| :: ids[i] <= next
  {
    UnseenIncreasing(sent, turn);
  }

  lemma {:induction false} TurnsIncreasing(s: Loop, turns: seq<Turn>)
    requires forall t | t in turns :: Increasing(t.visible)
    ensures Increasing(StatusIds(Turns(s, turns))) && AllAfter(StatusIds(Turns(s, turns)), s.lastSent)
    decreases |turns|
  {
    if turns != [] {
      var (frames, next) := TurnFrames(s, turns[0]);
      TurnIncreasing(s, turns[0]);
      TurnsIncreasing(next, turns[1..]);
      StatusIdsConcat(frames, Turns(next, turns[1..]));
    }
  }

  function Missed(lastEventId: Option<nat>, c: Connection): seq<nat> {
    var boundary := Last(c.atBoundary);
    if lastEventId.Some? && lastEventId.value < boundary then Between(c.atReplay, lastEventId.value, boundary) else []
  }

  lemma OpeningIds(lastEventId: Option<nat>, c: Connection)
    ensures StatusIds(Opening(lastEventId, c)) == Missed(lastEventId, c)
  {
    var boundary := Last(c.atBoundary);
    var head := match lastEventId
                case None => seq(c.logs, i => Status(None))
                case Some(_) => StatusFrames(Missed(lastEventId, c));
    assert Opening(lastEventId, c) == head + [SnapshotFrame(boundary)];
    StatusIdsConcat(head, [SnapshotFrame(boundary)]);
    SingleStatusId(SnapshotFrame(boundary));
    if lastEventId.None? { NoStatusIds(c.logs); } else { StatusIdsOf(Missed(lastEventId, c)); }
  }

  /** On every connection the ids of status frames strictly increase, whatever is visible or published. */
  lemma IdsStrictlyIncrease(lastEventId: Option<nat>, c: Connection)
    requires Increasing(c.atBoundary) && Increasing(c.atReplay) && forall t | t in c.turns :: Increasing(t.visible)
    ensures Increasing(StatusIds(Frames(lastEventId, c)))
  {
    var boundary := Last(c.atBoundary);
    var missed, rest := Missed(lastEventId, c), Turns(Loop(boundary, 0), c.turns);
    OpeningIds(lastEventId, c);
    if lastEventId.Some? { BetweenIncreasing(c.atReplay, lastEventId.value, boundary); }
    forall i | 0 <= i < |missed| ensures missed[i] <= boundary { assert missed[i] in missed; }
    TurnsIncreasing(Loop(boundary, 0), c.turns);
    StatusIdsConcat(Opening(lastEventId, c), rest);
  }
}
