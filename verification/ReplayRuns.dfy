/**
 Idempotent replay over whole runs (src/peerbridge_mcp/authorized_sessions.py:675-759): how long publishing the same
 event again is recognised, whatever else happens to the registry in between.
 */
module ReplayRuns {
  import opened Results
  import opened AuthorizedSessions
  import opened SessionRuns

  /** The step stores a new event with this id in the session, rather than recognise or refuse it. */
  ghost predicate StoresId(cfg: Config, t: Tables, step: Step, key: SessionKey, id: string) {
    && step.op.PublishOp? && step.op.event.key == key && step.op.event.eventId == id
    && var r := Published(cfg, t, step.op.publisher, step.op.event, step.now);
       r.Ok? && !r.value.receipt.replay
  }

  ghost predicate NeverStoresId(cfg: Config, t: Tables, steps: seq<Step>, key: SessionKey, id: string)
    decreases |steps|
  {
    steps == []
    || (!StoresId(cfg, t, steps[0], key, id) && NeverStoresId(cfg, After(cfg, t, steps[0]), steps[1..], key, id))
  }

  /** Whatever the session still keeps at the sequence or under the id of the event is that event. */
  predicate Tracks(rows: seq<EventRow>, latest: int, first: Event) {
    && first.sequence <= latest
    && forall row | row in rows && (row.event.sequence == first.sequence || row.event.eventId == first.eventId) ::
         row.event == first
  }

  ghost predicate TracksIn(t: Tables, first: Event) {
    && first.key in t.sessions
    && Tracks(t.EventsOf(first.key), t.sessions[first.key].session.latest, first)
  }

  /** Storing an event of another id, and evicting, keeps track of the first one. */
  lemma AppendTracks(rows: seq<EventRow>, latest: int, first: Event, row: EventRow, bound: int)
    requires Tracks(rows, latest, first)
    requires row.event.sequence == latest + 1
    requires row.event.eventId != first.eventId
    ensures Tracks(Above(rows + [row], bound), latest + 1, first)
  {
    AboveMembers(rows + [row], bound);
  }

  /** A connect that keeps the session leaves its events and its latest sequence. */
  lemma ConnectKeepsEvents(cfg: Config, t: Tables, rooms: Rooms, caller: Owner, a: ConnectArgs, now: Instant,
                           key: SessionKey)
    requires ValidConfig(cfg) && key in t.sessions
    requires var r := Connected(cfg, t, rooms, caller, a, now); r.Ok? && key in r.value.sessions
    ensures var u := Connected(cfg, t, rooms, caller, a, now).value;
            u.EventsOf(key) == t.EventsOf(key) && u.sessions[key].session.latest == t.sessions[key].session.latest
  {
    hide RoomTaken, BindRoom, ReconnectRefusal, Pruned;
    if a.key !in t.sessions {
      PruneMakesRoom(cfg, t, now.epoch);
    }
  }

  lemma PublishTracks(cfg: Config, t: Tables, caller: Owner, a: PublishArgs, now: Instant, first: Event)
    requires TracksIn(t, first) && !StoresId(cfg, t, Step(PublishOp(caller, a), now), first.key, first.eventId)
    ensures var r := Published(cfg, t, caller, a, now); r.Ok? ==> TracksIn(r.value.tables, first)
  {
    hide Above, Tracks, SameContent;
    var r := Published(cfg, t, caller, a, now);
    if r.Ok? && a.key == first.key && FindEvent(t.EventsOf(a.key), a.eventId).None? {
      var latest := t.sessions[a.key].session.latest;
      AppendTracks(t.EventsOf(a.key), latest, first, NewEvent(cfg, a, latest + 1, now),
                   latest + 1 - MAX_AUTHORIZED_EVENTS);
    }
  }

  lemma StepTracks(cfg: Config, t: Tables, step: Step, first: Event)
    requires ValidConfig(cfg) && TracksIn(t, first) && first.key in After(cfg, t, step).sessions
    requires !StoresId(cfg, t, step, first.key, first.eventId)
    ensures TracksIn(After(cfg, t, step), first)
  {
    hide Tracks, Published, Connected, StoresId;
    match step.op
    case ConnectOp(rooms, caller, a) =>
      if Connected(cfg, t, rooms, caller, a, step.now).Ok? {
        ConnectKeepsEvents(cfg, t, rooms, caller, a, step.now, first.key);
      }
    case PublishOp(caller, a) =>
      assert step == Step(PublishOp(caller, a), step.now);
      PublishTracks(cfg, t, caller, a, step.now, first);
    case CloseOp(_, _, _) =>
  }

  lemma {:induction false} RunTracks(cfg: Config, t: Tables, steps: seq<Step>, first: Event)
    requires ValidConfig(cfg) && TracksIn(t, first) && Kept(cfg, t, steps, first.key)
    requires NeverStoresId(cfg, t, steps, first.key, first.eventId)
    ensures TracksIn(Run(cfg, t, steps), first)
    decreases |steps|
  {
    hide StoresId, TracksIn, After;
    if steps != [] {
      assert Kept(cfg, After(cfg, t, steps[0]), steps[1..], first.key);
      StepTracks(cfg, t, steps[0], first);
      RunTracks(cfg, After(cfg, t, steps[0]), steps[1..], first);
    }
  }

  /** What a publish that stores an event does to its session. */
  lemma PublishedNew(cfg: Config, t: Tables, caller: Owner, a: PublishArgs, now: Instant)
    requires var r := Published(cfg, t, caller, a, now); r.Ok? && !r.value.receipt.replay
    ensures TextFault(a).None? && a.key in t.sessions && FindEvent(t.EventsOf(a.key), a.eventId).None?
    ensures var p := Published(cfg, t, caller, a, now).value;
            var latest := t.sessions[a.key].session.latest;
            var row := NewEvent(cfg, a, latest + 1, now);
            && p.receipt == Receipt(latest + 1, row.sha, false)
            && a.key in p.tables.sessions && p.tables.sessions[a.key].session.latest == latest + 1
            && p.tables.EventsOf(a.key) == Above(t.EventsOf(a.key) + [row], latest + 1 - MAX_AUTHORIZED_EVENTS)
  {
    hide Above, FindEvent, NewEvent, TextFault, SameContent;
  }

  /** What a publish stored is tracked from then on. */
  lemma StoredIsTracked(cfg: Config, t: Tables, caller: Owner, a: PublishArgs, now: Instant)
    requires Consistent(cfg, t)
    requires var r := Published(cfg, t, caller, a, now); r.Ok? && !r.value.receipt.replay
    ensures var p := Published(cfg, t, caller, a, now).value;
            var first := NewEvent(cfg, a, p.receipt.sequence, now);
            && p.receipt.eventSha == first.sha && 1 <= p.receipt.sequence && TracksIn(p.tables, first.event)
  {
    hide Published, IsWindow, Tracks, Above, FindEvent;
    PublishedNew(cfg, t, caller, a, now);
    var rows, latest := t.EventsOf(a.key), t.sessions[a.key].session.latest;
    assert GoodSession(cfg, a.key, t.sessions[a.key], rows);
    hide Consistent;
    FindEventMeaning(rows, a.eventId);
    WindowCounts(cfg, a.key, latest, rows);
    NewestIsTracked(cfg, a.key, latest, rows, NewEvent(cfg, a, latest + 1, now), latest + 1 - MAX_AUTHORIZED_EVENTS);
  }

  lemma WindowCounts(cfg: Config, key: SessionKey, latest: int, rows: seq<EventRow>)
    requires IsWindow(cfg, key, latest, rows)
    ensures 0 <= latest
  {
  }

  lemma NewestIsTracked(cfg: Config, key: SessionKey, latest: int, rows: seq<EventRow>, row: EventRow, bound: int)
    requires IsWindow(cfg, key, latest, rows) && row.event.sequence == latest + 1
    requires forall i | 0 <= i < |rows| :: rows[i].event.eventId != row.event.eventId
    ensures Tracks(Above(rows + [row], bound), latest + 1, row.event)
  {
    AboveMembers(rows + [row], bound);
    hide Above;
  }

  /** As long as it is tracked, an event replays exactly while it is among the last 1000 of its session. */
  lemma TrackedReplays(cfg: Config, t: Tables, owner: Owner, a: PublishArgs, first: EventRow, now: Instant)
    requires Consistent(cfg, t) && TracksIn(t, first.event) && first.sha == cfg.eventSha(first.event)
    requires first.event.key == a.key && first.event.eventId == a.eventId && SameContent(cfg, first.event, a)
    requires 1 <= first.event.sequence && TextFault(a).None?
    requires t.sessions[a.key].session.owner == owner && t.sessions[a.key].session.supportsEvents
    ensures Published(cfg, t, owner, a, now) == Ok(Publication(t, Receipt(first.event.sequence, first.sha, true)))
            <==> t.sessions[a.key].session.latest - first.event.sequence < MAX_AUTHORIZED_EVENTS
  {
    assert GoodSession(cfg, a.key, t.sessions[a.key], t.EventsOf(a.key));
    hide Published, IsWindow, SameContent, TextFault;
    ReplayWindow(cfg, t, owner, a, first.event, now);
  }

  lemma NewEventIs(cfg: Config, a: PublishArgs, sequence: int, now: Instant)
    ensures var row := NewEvent(cfg, a, sequence, now);
            && row.event.key == a.key && row.event.eventId == a.eventId && row.event.sequence == sequence
            && row.sha == cfg.eventSha(row.event) && SameContent(cfg, row.event, a)
  {
  }

  lemma TrackedOverRun(cfg: Config, t: Tables, steps: seq<Step>, owner: Owner, a: PublishArgs, first: EventRow,
                       later: Instant)
    requires ValidConfig(cfg) && Consistent(cfg, t) && TracksIn(t, first.event)
             && first.sha == cfg.eventSha(first.event)
    requires first.event.key == a.key && first.event.eventId == a.eventId && SameContent(cfg, first.event, a)
    requires 1 <= first.event.sequence && TextFault(a).None?
    requires Kept(cfg, t, steps, a.key) && NeverStoresId(cfg, t, steps, a.key, a.eventId)
    requires var v := Run(cfg, t, steps);
             a.key in v.sessions ==>
               v.sessions[a.key].session.owner == owner && v.sessions[a.key].session.supportsEvents
    ensures var v := Run(cfg, t, steps);
            && a.key in v.sessions
            && (Published(cfg, v, owner, a, later)
                == Ok(Publication(v, Receipt(first.event.sequence, first.sha, true)))
                <==> v.sessions[a.key].session.latest - first.event.sequence < MAX_AUTHORIZED_EVENTS)
  {
    var v := Run(cfg, t, steps);
    hide *;
    RunTracks(cfg, t, steps, first.event);
    RunsStayConsistent(cfg, t, steps);
    IdentityNeverChanges(cfg, t, steps, a.key);
    TrackedReplays(cfg, v, owner, a, first, later);
  }

  /**
   After an event was stored, over any run that keeps its session and stores its id no second time, the owner's
   publishing it again is answered as a replay, with the first receipt and no change, if and only if fewer than 1000
   events of the session were stored after it.
   */
  lemma ReplayOverRuns(cfg: Config, t: Tables, caller: Owner, a: PublishArgs, now: Instant, steps: seq<Step>,
                       owner: Owner, later: Instant)
    requires ValidConfig(cfg) && Consistent(cfg, t)
    requires var r := Published(cfg, t, caller, a, now); r.Ok? && !r.value.receipt.replay
    requires var u := Published(cfg, t, caller, a, now).value.tables;
             Kept(cfg, u, steps, a.key) && NeverStoresId(cfg, u, steps, a.key, a.eventId)
    requires var v := Run(cfg, Published(cfg, t, caller, a, now).value.tables, steps);
             a.key in v.sessions ==>
               v.sessions[a.key].session.owner == owner && v.sessions[a.key].session.supportsEvents
    ensures var p := Published(cfg, t, caller, a, now).value;
            var v := Run(cfg, p.tables, steps);
            && a.key in v.sessions
            && (Published(cfg, v, owner, a, later)
                == Ok(Publication(v, Receipt(p.receipt.sequence, p.receipt.eventSha, true)))
                <==> v.sessions[a.key].session.latest - p.receipt.sequence < MAX_AUTHORIZED_EVENTS)
  {
    var p := Published(cfg, t, caller, a, now).value;
    var first := NewEvent(cfg, a, p.receipt.sequence, now);
    hide *;
    PublishKeepsConsistent(cfg, t, caller, a, now);
    StoredIsTracked(cfg, t, caller, a, now);
    NewEventIs(cfg, a, p.receipt.sequence, now);
    PublishedNew(cfg, t, caller, a, now);
    TrackedOverRun(cfg, p.tables, steps, owner, a, first, later);
  }
}
