/**
 Polling one session while the registry runs (src/peerbridge_mcp/authorized_sessions.py:710-759, 871-936).
 A poller keeps the last sequence it was given and passes it as its next cursor.
 */
module EventPolling {
  import opened Results
  import opened AuthorizedSessions
  import opened EventReads
  import opened SessionRuns

  datatype Action = Do(step: Step) | Poll(maxEvents: int, maxBytes: int)

  /** One delivered event: its sequence, and the first sequence the session still kept when it was delivered. */
  datatype Delivery = Delivery(sequence: int, first: int)

  function Deliveries(batch: Batch): (log: seq<Delivery>)
    ensures |log| == |batch.rows|
    ensures forall i | 0 <= i < |log| :: log[i] == Delivery(batch.rows[i].event.sequence, batch.first)
  {
    seq(|batch.rows|, i requires 0 <= i < |batch.rows| => Delivery(batch.rows[i].event.sequence, batch.first))
  }

  function LastCursor(log: seq<Delivery>, cursor: int): int {
    if log == [] then cursor else log[|log| - 1].sequence
  }

  /** Everything a poller is given over a run of steps and polls. */
  ghost function Delivered(cfg: Config, t: Tables, key: SessionKey, cursor: int, actions: seq<Action>)
    : Result<seq<Delivery>, SessionError>
    decreases |actions|
  {
    if actions == [] then Ok([])
    else
      match actions[0]
      case Do(step) => Delivered(cfg, After(cfg, t, step), key, cursor, actions[1..])
      case Poll(maxEvents, maxBytes) =>
        match EventsFor(cfg, t.EventsOf(key), cursor, maxEvents, maxBytes)
        case Err(e) => Err(e)
        case Ok(batch) =>
          match Delivered(cfg, t, key, LastCursor(Deliveries(batch), cursor), actions[1..])
          case Err(e) => Err(e)
          case Ok(rest) => Ok(Deliveries(batch) + rest)
  }

  /** The session stays in the table throughout. */
  ghost predicate Unpruned(cfg: Config, t: Tables, key: SessionKey, actions: seq<Action>)
    decreases |actions|
  {
    && key in t.sessions
    && (actions != [] ==>
          Unpruned(cfg, if actions[0].Do? then After(cfg, t, actions[0].step) else t, key, actions[1..]))
  }

  /** Each delivered sequence is the next one after the previous, or the first retained one if the next was evicted. */
  ghost predicate Follows(log: seq<Delivery>, cursor: int)
    decreases |log|
  {
    log == [] ||
    (&& log[0].sequence == (if log[0].first > cursor + 1 then log[0].first else cursor + 1)
     && Follows(log[1..], log[0].sequence))
  }

  lemma {:induction false} FollowsConcat(a: seq<Delivery>, b: seq<Delivery>, cursor: int)
    requires Follows(a, cursor) && Follows(b, LastCursor(a, cursor))
    ensures Follows(a + b, cursor)
    decreases |a|
  {
    if a == [] {
      assert a + b == b;
    } else {
      FollowsConcat(a[1..], b, a[0].sequence);
      assert (a + b)[1..] == a[1..] + b;
    }
  }

  lemma {:induction false} ConsecutiveFollows(log: seq<Delivery>, cursor: int, from: int, first: int)
    requires forall i | 0 <= i < |log| :: log[i] == Delivery(from + i, first)
    requires from == if first > cursor + 1 then first else cursor + 1
    ensures Follows(log, cursor)
    decreases |log|
  {
    if log != [] {
      ConsecutiveFollows(log[1..], from, from + 1, first);
    }
  }

  /** A poll of a consistent session never fails, and continues its cursor. */
  lemma PollContinues(cfg: Config, t: Tables, key: SessionKey, cursor: nat, maxEvents: int, maxBytes: int)
    requires Consistent(cfg, t) && key in t.sessions && cursor <= t.sessions[key].session.latest
    ensures var r := EventsFor(cfg, t.EventsOf(key), cursor, maxEvents, maxBytes);
            && r.Ok? && Follows(Deliveries(r.value), cursor)
            && cursor <= LastCursor(Deliveries(r.value), cursor) <= t.sessions[key].session.latest
  {
    var rows, latest := t.EventsOf(key), t.sessions[key].session.latest;
    assert GoodSession(cfg, key, t.sessions[key], rows);
    PendingOfWindow(cfg, key, latest, rows, cursor);
    hide IsWindow, Consistent, Pending, Take, Bytes;
    var batch := EventsFor(cfg, rows, cursor, maxEvents, maxBytes).value;
    if batch.rows != [] {
      var from := batch.rows[0].event.sequence;
      assert forall i | 0 <= i < |batch.rows| :: batch.rows[i] == Pending(rows, cursor)[i];
      ConsecutiveFollows(Deliveries(batch), cursor, from, batch.first);
      hide Follows;
    }
  }

  /**
   Over any run that keeps the session, polled at any moments with any limits, no poll fails and what is delivered
   follows on from the cursor.
   */
  lemma {:induction false} DeliveryFollows(cfg: Config, t: Tables, key: SessionKey, cursor: nat, actions: seq<Action>)
    requires ValidConfig(cfg) && Consistent(cfg, t) && Unpruned(cfg, t, key, actions)
    requires cursor <= t.sessions[key].session.latest
    ensures var r := Delivered(cfg, t, key, cursor, actions); r.Ok? && Follows(r.value, cursor)
    decreases |actions|
  {
    if actions != [] {
      match actions[0]
      case Do(step) =>
        StepKeepsConsistent(cfg, t, step);
        StepKeepsIdentity(cfg, t, step, key);
        DeliveryFollows(cfg, After(cfg, t, step), key, cursor, actions[1..]);
      case Poll(maxEvents, maxBytes) =>
        PollContinues(cfg, t, key, cursor, maxEvents, maxBytes);
        var batch := EventsFor(cfg, t.EventsOf(key), cursor, maxEvents, maxBytes).value;
        var next := LastCursor(Deliveries(batch), cursor);
        DeliveryFollows(cfg, t, key, next, actions[1..]);
        FollowsConcat(Deliveries(batch), Delivered(cfg, t, key, next, actions[1..]).value, cursor);
    }
  }

  /** The delivery happened when the session no longer kept this sequence. */
  predicate Evicted(d: Delivery, sequence: int) {
    sequence < d.first
  }

  function Previous(log: seq<Delivery>, cursor: int, i: nat): int
    requires i < |log|
  {
    if i == 0 then cursor else log[i - 1].sequence
  }

  /** Strictly increasing from the cursor on, and passing over nothing but evicted sequences. */
  ghost predicate InOrderWithoutLoss(log: seq<Delivery>, cursor: int) {
    && (forall i | 0 <= i < |log| :: cursor < log[i].sequence)
    && (forall i, j | 0 <= i < j < |log| :: log[i].sequence < log[j].sequence)
    && (forall i, s | 0 <= i < |log| && Previous(log, cursor, i) < s < log[i].sequence :: Evicted(log[i], s))
  }

  lemma {:induction false} FollowsMeaning(log: seq<Delivery>, cursor: int)
    requires Follows(log, cursor)
    ensures InOrderWithoutLoss(log, cursor)
    decreases |log|
  {
    if log != [] {
      var rest := log[1..];
      FollowsMeaning(rest, log[0].sequence);
      forall i, j | 0 <= i < j < |log| ensures log[i].sequence < log[j].sequence {
        assert log[j] == rest[j - 1] && (i == 0 || log[i] == rest[i - 1]);
      }
      forall i, s | 0 <= i < |log| && Previous(log, cursor, i) < s < log[i].sequence ensures Evicted(log[i], s) {
        assert i == 0 || (log[i] == rest[i - 1] && Previous(log, cursor, i) == Previous(rest, log[0].sequence, i - 1)
                          && Evicted(rest[i - 1], s));
      }
    }
  }

  /**
   Over any such run delivered sequences strictly increase, so nothing is delivered twice even when the gap rule resets
   the cursor, and every sequence passed over had been evicted before the next one was delivered.
   */
  lemma NothingTwiceNothingLost(cfg: Config, t: Tables, key: SessionKey, cursor: nat, actions: seq<Action>)
    requires ValidConfig(cfg) && Consistent(cfg, t) && Unpruned(cfg, t, key, actions)
    requires cursor <= t.sessions[key].session.latest
    ensures var r := Delivered(cfg, t, key, cursor, actions); r.Ok? && InOrderWithoutLoss(r.value, cursor)
  {
    DeliveryFollows(cfg, t, key, cursor, actions);
    FollowsMeaning(Delivered(cfg, t, key, cursor, actions).value, cursor);
  }

  predicate Fits(cfg: Config, rows: seq<EventRow>, poll: Action) {
    poll.Poll? && poll.maxEvents >= 1 && forall row | row in rows :: cfg.encodedSize(row.event) <= poll.maxBytes
  }

  /** A poll that can hold any one retained event brings the poller at least one event closer to the end. */
  lemma PollAdvances(cfg: Config, t: Tables, key: SessionKey, cursor: nat, poll: Action)
    requires Consistent(cfg, t) && key in t.sessions && cursor <= t.sessions[key].session.latest
    requires Fits(cfg, t.EventsOf(key), poll)
    ensures var r := EventsFor(cfg, t.EventsOf(key), cursor, poll.maxEvents, poll.maxBytes);
            && r.Ok?
            && var next := LastCursor(Deliveries(r.value), cursor);
               && cursor <= next <= t.sessions[key].session.latest
               && (|Pending(t.EventsOf(key), next)| < |Pending(t.EventsOf(key), cursor)|
                   || next == t.sessions[key].session.latest)
  {
    var rows, latest := t.EventsOf(key), t.sessions[key].session.latest;
    assert GoodSession(cfg, key, t.sessions[key], rows);
    PendingOfWindow(cfg, key, latest, rows, cursor);
    PollContinues(cfg, t, key, cursor, poll.maxEvents, poll.maxBytes);
    var batch := EventsFor(cfg, rows, cursor, poll.maxEvents, poll.maxBytes).value;
    var next := LastCursor(Deliveries(batch), cursor);
    PendingOfWindow(cfg, key, latest, rows, next);
    var pending := Pending(rows, cursor);
    if pending != [] {
      AboveMembers(rows, EffectiveAfter(rows, cursor));
      assert pending[0] in rows;
      assert batch.rows != [] && batch.rows[|batch.rows| - 1] == pending[|batch.rows| - 1];
    }
  }

  /** Nothing is pending exactly for a poller that has reached the latest sequence. */
  lemma AtEnd(cfg: Config, t: Tables, key: SessionKey, cursor: nat)
    requires Consistent(cfg, t) && key in t.sessions && cursor <= t.sessions[key].session.latest
    ensures Pending(t.EventsOf(key), cursor) == [] <==> cursor == t.sessions[key].session.latest
  {
    assert GoodSession(cfg, key, t.sessions[key], t.EventsOf(key));
    PendingOfWindow(cfg, key, t.sessions[key].session.latest, t.EventsOf(key), cursor);
    WindowReaches(cfg, key, t.sessions[key].session.latest, t.EventsOf(key));
    hide Consistent, IsWindow, Pending;
  }

  lemma WindowReaches(cfg: Config, key: SessionKey, latest: int, rows: seq<EventRow>)
    requires IsWindow(cfg, key, latest, rows)
    ensures 0 <= latest && (latest > 0 ==> rows != [])
  {
  }

  /**
   With every retained event small enough to fit, polling a quiet session as often as it has events reaches its end.
   */
  lemma {:induction false} PollingDrains(cfg: Config, t: Tables, key: SessionKey, cursor: nat, polls: seq<Action>)
    requires Consistent(cfg, t) && key in t.sessions && cursor <= t.sessions[key].session.latest
    requires forall p | p in polls :: Fits(cfg, t.EventsOf(key), p)
    requires |polls| >= |Pending(t.EventsOf(key), cursor)|
    ensures var r := Delivered(cfg, t, key, cursor, polls);
            r.Ok? && LastCursor(r.value, cursor) == t.sessions[key].session.latest
    decreases |polls|
  {
    hide EventsFor, After, Consistent, IsWindow, GoodRow, Pending;
    var rows := t.EventsOf(key);
    AtEnd(cfg, t, key, cursor);
    if polls != [] {
      var p := polls[0];
      PollAdvances(cfg, t, key, cursor, p);
      var batch := EventsFor(cfg, rows, cursor, p.maxEvents, p.maxBytes).value;
      var next := LastCursor(Deliveries(batch), cursor);
      AtEnd(cfg, t, key, next);
      PollingDrains(cfg, t, key, next, polls[1..]);
      var rest := Delivered(cfg, t, key, next, polls[1..]).value;
      assert Delivered(cfg, t, key, cursor, polls) == Ok(Deliveries(batch) + rest);
      assert LastCursor(Deliveries(batch) + rest, cursor) == LastCursor(rest, next);
    }
  }
}
