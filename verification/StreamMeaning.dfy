/**
 What the event stream of one connection sends: its opening, each turn of its loop, and heartbeats
 while nothing happens.
 */
module StreamMeaning {
  import opened Values
  import opened EventStream

  // ----- the opening -----

  /** These ids, in order. */
  ghost predicate Selects(ids: seq<nat>, all: seq<nat>, after: nat, upTo: nat) {
    Increasing(ids) && forall x :: x in ids <==> x in all && after < x <= upTo
  }

  /** The snapshot carries the newest id at the boundary, if there is one. */
  predicate SnapshotOf(ids: seq<nat>, f: Frame) {
    f.Snapshot? && if ids == [] then f.id.None? else f.id == Some(ids[|ids| - 1])
  }

  /**
   A first connection gets the log lines, a returning one the events after its last id, up to the
   boundary; then both get the snapshot.
   */
  lemma OpeningMeans(lastEventId: Option<nat>, c: Connection) returns (ids: seq<nat>)
    requires Increasing(c.atBoundary) && Increasing(c.atReplay)
    ensures var frames := Opening(lastEventId, c);
      && |frames| >= 1 && SnapshotOf(c.atBoundary, frames[|frames| - 1])
      && match lastEventId
         case None => |frames| == c.logs + 1 && forall i | 0 <= i < c.logs :: frames[i] == Status(None)
         case Some(last) =>
           && |frames| == |ids| + 1 && (forall i | 0 <= i < |ids| :: frames[i] == Status(Some(ids[i])))
           && if c.atBoundary == [] then ids == []
              else
                var newest := c.atBoundary[|c.atBoundary| - 1];
                if last < newest then Selects(ids, c.atReplay, last, newest) else ids == []
  {
    ids := [];
    var boundary := Last(c.atBoundary);
    if lastEventId.Some? && lastEventId.value < boundary {
      ids := Between(c.atReplay, lastEventId.value, boundary);
      BetweenIncreasing(c.atReplay, lastEventId.value, boundary);
    }
  }

  // ----- one turn -----

  /** The ids of the list after this one. */
  predicate Tail(ids: seq<nat>, sent: nat, k: nat) {
    k <= |ids| && (forall i | 0 <= i < k :: ids[i] <= sent) && forall i | k <= i < |ids| :: sent < ids[i]
  }

  lemma TailLonger(ids: seq<nat>, n: nat, sent: nat, k: nat)
    requires |ids| == n + 1 && Tail(ids[..n], sent, k) && sent < ids[n]
    ensures Tail(ids, sent, k) && ids[k..] == ids[..n][k..] + [ids[n]]
  {
    assert forall i | 0 <= i < n :: ids[..n][i] == ids[i];
  }

  lemma AllSent(ids: seq<nat>, n: nat, sent: nat, k: nat)
    requires |ids| == n + 1 && Increasing(ids) && Tail(ids[..n], sent, k) && ids[n] <= sent
    ensures k == n && Tail(ids, sent, n + 1)
  {
    assert forall i | 0 <= i < n :: ids[..n][i] == ids[i];
    if k < n { SentBefore(ids[..n], ids[n], sent, k); }
  }

  /** A larger id was sent, so this one was. */
  lemma SentBefore(ids: seq<nat>, later: nat, sent: nat, k: nat)
    requires k < |ids| && later <= sent && ids[k] < later
    ensures ids[k] <= sent
  {}

  lemma BetweenLast(ids: seq<nat>, n: nat, after: nat, upTo: nat)
    requires |ids| == n + 1
    ensures Between(ids, after, upTo)
         == Between(ids[..n], after, upTo) + if after < ids[n] <= upTo then [ids[n]] else []
  {}

  lemma {:induction false} UnseenTail(ids: seq<nat>, sent: nat, upTo: nat) returns (k: nat)
    requires Increasing(ids) && forall i | 0 <= i < |ids| :: ids[i] <= upTo
    ensures Tail(ids, sent, k) && Between(ids, sent, upTo) == ids[k..]
  {
    k := 0;
    if ids != [] {
      var n := |ids| - 1;
      k := UnseenTail(ids[..n], sent, upTo);
      BetweenLast(ids, n, sent, upTo);
      if sent < ids[n] {
        TailLonger(ids, n, sent, k);
      } else {
        AllSent(ids, n, sent, k);
        assert ids[..n][n..] == [] && ids[n + 1..] == [];
        k := n + 1;
      }
    }
  }

  /** A message about this run is passed on unless its event was sent already. */
  predicate Relayed(message: Option<Message>, sent: nat) {
    message.Some? && message.value.ours && match message.value.id case None => true case Some(id) => sent < id
  }

  /** Nothing to send: no event after the cursor, and no message to pass on. */
  predicate Quiet(sent: nat, turn: Turn) {
    (forall i | 0 <= i < |turn.visible| :: turn.visible[i] <= sent) && !Relayed(turn.message, sent)
  }

  /** Events and a message are sent in this order, and the cursor ends at the last id sent. */
  predicate Sends(sent: nat, unsent: seq<nat>, message: Option<Message>, frames: seq<Frame>, next: nat) {
    var reached := if unsent == [] then sent else unsent[|unsent| - 1];
    && |frames| == |unsent| + (if Relayed(message, reached) then 1 else 0)
    && (forall i | 0 <= i < |unsent| :: frames[i] == Status(Some(unsent[i])))
    && (Relayed(message, reached) ==> frames[|unsent|] == Status(message.value.id))
    && next == if Relayed(message, reached) && message.value.id.Some? then message.value.id.value else reached
  }

  /** A turn sends the events after the cursor and then the message; quiet turns count towards a heartbeat. */
  lemma TurnMeans(s: Loop, turn: Turn) returns (k: nat)
    requires Increasing(turn.visible) && s.idle < HEARTBEAT_TURNS
    ensures var (frames, next) := TurnFrames(s, turn);
      && Tail(turn.visible, s.lastSent, k)
      && if Quiet(s.lastSent, turn) then
           && next == Loop(s.lastSent, if s.idle == 14 then 0 else s.idle + 1)
           && frames == if s.idle == 14 then [Heartbeat] else []
         else next.idle == 0 && Sends(s.lastSent, turn.visible[k..], turn.message, frames, next.lastSent)
  {
    k := UnseenTail(turn.visible, s.lastSent, Last(turn.visible));
    var unseen := Unseen(s.lastSent, turn);
    assert StatusFrames(unseen) + [] == StatusFrames(unseen);
    if Quiet(s.lastSent, turn) {
      assert k == |turn.visible|;
    } else if k == |turn.visible| {
      assert Relayed(turn.message, s.lastSent);
    }
  }

  // ----- heartbeats -----

  /** Turns in which nothing happens send a heartbeat for every fifteen of them, and nothing else. */
  lemma {:induction false} QuietTurns(s: Loop, turns: seq<Turn>)
    requires s.idle < HEARTBEAT_TURNS
    requires forall t | t in turns :: Increasing(t.visible) && Quiet(s.lastSent, t)
    ensures Turns(s, turns) == seq((s.idle + |turns|) / 15, i => Heartbeat)
    decreases |turns|
  {
    if turns != [] {
      var k := TurnMeans(s, turns[0]);
      var (frames, next) := TurnFrames(s, turns[0]);
      QuietTurns(next, turns[1..]);
      assert s.idle == 14 ==> (s.idle + |turns|) / 15 == 1 + (|turns| - 1) / 15;
    }
  }
}
