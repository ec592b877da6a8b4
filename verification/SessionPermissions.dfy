/**
 Who may do what to a session, and what a permitted operation leaves behind, read off the rows themselves
 (src/peerbridge_mcp/authorized_sessions.py:307-847): when each operation succeeds, why each refusal is given, and what
 a run of other agents' operations cannot touch.
 */
module SessionPermissions {
  import opened Results
  import opened Sorting
  import opened AuthorizedSessions
  import opened SessionRuns

  predicate Ended(state: SessionState) {
    state.Completed? || state.Stopped? || state.Failed?
  }

  /** The session has not been seen for longer than the adapter lifetime. */
  predicate Silent(cfg: Config, s: Session, now: int) {
    now - s.lastSeen.epoch > cfg.ttl
  }

  predicate IntactRow(cfg: Config, t: Tables, key: SessionKey) {
    key in t.sessions && cfg.sessionSha(t.sessions[key].session) == t.sessions[key].sha
  }

  /** The caller is the agent the row names, in the bridge session the row names. */
  predicate OwnedBy(t: Tables, key: SessionKey, caller: Owner)
    requires key in t.sessions
  {
    var owner := t.sessions[key].session.owner;
    owner.agent == caller.agent && owner.bridgeSession == caller.bridgeSession
  }

  // ----- publish -----

  predicate TextFits(a: PublishArgs) {
    0 < |a.text| <= 20000 && |a.summary| <= 1000
  }

  predicate KeepsId(t: Tables, key: SessionKey, eventId: string) {
    exists row | row in t.EventsOf(key) :: row.event.eventId == eventId
  }

  /** The event holds what the call sends, as redaction leaves it. */
  predicate HoldsContent(cfg: Config, e: Event, a: PublishArgs) {
    && e.stream == a.stream && e.kind == a.kind && e.stateAfter == a.state && e.text == cfg.redact(a.text)
    && (a.summary == "" ==> e.summary == None) && (a.summary != "" ==> e.summary == Some(cfg.redact(a.summary)))
  }

  predicate MayPublish(cfg: Config, t: Tables, caller: Owner, key: SessionKey) {
    IntactRow(cfg, t, key) && OwnedBy(t, key, caller) && t.sessions[key].session.supportsEvents
  }

  lemma FoundOfKept(cfg: Config, t: Tables, key: SessionKey, eventId: string)
    requires Consistent(cfg, t)
    ensures FindEvent(t.EventsOf(key), eventId).Some? <==> KeepsId(t, key, eventId)
    ensures forall row | row in t.EventsOf(key) && row.event.eventId == eventId ::
              FindEvent(t.EventsOf(key), eventId) == Some(row)
  {
    var rows := t.EventsOf(key);
    FindEventMeaning(rows, eventId);
    if rows != [] {
      assert GoodSession(cfg, key, t.sessions[key], rows);
    }
  }

  /**
   When a publish succeeds: the text fits, the caller is the owner of the intact row, the adapter announced events, and
   the id was not used for other content that is still kept.
   */
  lemma PublishIff(cfg: Config, t: Tables, caller: Owner, a: PublishArgs, now: Instant)
    requires Consistent(cfg, t)
    ensures Published(cfg, t, caller, a, now).Ok? <==>
      && TextFits(a) && MayPublish(cfg, t, caller, a.key)
      && forall row | row in t.EventsOf(a.key) && row.event.eventId == a.eventId :: HoldsContent(cfg, row.event, a)
  {
    hide Consistent, FindEvent;
    FoundOfKept(cfg, t, a.key, a.eventId);
  }

  /** Why a publish is refused, in terms of the text and the row. */
  lemma PublishRefusals(cfg: Config, t: Tables, caller: Owner, a: PublishArgs, now: Instant)
    ensures var r := Published(cfg, t, caller, a, now);
            && (r == Err(TextRequired) <==> |a.text| == 0)
            && (r == Err(TextTooLong) <==> 0 < |a.text| && !TextFits(a))
            && (r == Err(NoSuchSession) <==> TextFits(a) && a.key !in t.sessions)
            && (r == Err(HashMismatch) <==> TextFits(a) && a.key in t.sessions && !IntactRow(cfg, t, a.key))
            && (r == Err(NotOwner) <==> TextFits(a) && IntactRow(cfg, t, a.key) && !OwnedBy(t, a.key, caller))
            && (r == Err(NoMirroring) <==> TextFits(a) && IntactRow(cfg, t, a.key) && OwnedBy(t, a.key, caller)
                                           && !t.sessions[a.key].session.supportsEvents)
            && (r == Err(EventReused) <==> r.Err? && TextFits(a) && MayPublish(cfg, t, caller, a.key))
  {
    hide FindEvent, SameContent, Above, NewEvent;
  }

  /** The event a first publish stores. */
  predicate NewlyStored(cfg: Config, row: EventRow, a: PublishArgs, sequence: int, now: Instant) {
    var e := row.event;
    && e.key == a.key && e.sequence == sequence && e.eventId == a.eventId && e.createdUtc == now.utc
    && HoldsContent(cfg, e, a)
    && (e.redacted <==> cfg.redact(a.text) != a.text || (a.summary != "" && cfg.redact(a.summary) != a.summary))
    && row.sha == cfg.eventSha(e)
  }

  /** The row of the session after an operation of its owner: all but these four fields, and the digest, stay. */
  predicate MovedOn(cfg: Config, before: Session, after: SessionRow, state: SessionState, latest: int, now: Instant) {
    && after.session == before.(state := state, latest := latest, lastSeen := now, endedUtc := after.session.endedUtc)
    && (Ended(state) ==> after.session.endedUtc == Some(now.utc)) && (!Ended(state) ==> after.session.endedUtc == None)
    && after.sha == cfg.sessionSha(after.session)
  }

  ghost predicate OthersSame(t: Tables, u: Tables, key: SessionKey) {
    && u.sessions.Keys == t.sessions.Keys && (forall k | k in t.sessions && k != key :: u.sessions[k] == t.sessions[k])
    && (forall k | k != key :: u.EventsOf(k) == t.EventsOf(k))
  }

  /** The last n rows. */
  function LastRows(rows: seq<EventRow>, n: nat): seq<EventRow> {
    if |rows| <= n then rows else rows[|rows| - n..]
  }

  /**
   What a publish leaves: a repeated id gets the receipt of the kept event and changes nothing; a new one becomes the
   next event, kept behind the last 999, and moves the session on; no other session is touched.
   */
  lemma PublishEffect(cfg: Config, t: Tables, caller: Owner, a: PublishArgs, now: Instant)
    requires Consistent(cfg, t) && Published(cfg, t, caller, a, now).Ok?
    ensures var p := Published(cfg, t, caller, a, now).value;
            if KeepsId(t, a.key, a.eventId)
            then p.tables == t && p.receipt.replay
                 && forall row | row in t.EventsOf(a.key) && row.event.eventId == a.eventId ::
                   p.receipt.sequence == row.event.sequence && p.receipt.eventSha == row.sha
            else
              var s, rows := t.sessions[a.key].session, p.tables.EventsOf(a.key);
              && !p.receipt.replay && p.receipt.sequence == s.latest + 1
              && OthersSame(t, p.tables, a.key) && MovedOn(cfg, s, p.tables.sessions[a.key], a.state, s.latest + 1, now)
              && rows != [] && NewlyStored(cfg, rows[|rows| - 1], a, s.latest + 1, now)
              && p.receipt.eventSha == rows[|rows| - 1].sha
              && rows[..|rows| - 1] == LastRows(t.EventsOf(a.key), 999)
  {
    FoundOfKept(cfg, t, a.key, a.eventId);
    hide FindEvent, KeepsId;
    if !KeepsId(t, a.key, a.eventId) {
      StoresNew(cfg, t, caller, a, now);
      hide *;
      Appended(LastRows(t.EventsOf(a.key), 999), NewEvent(cfg, a, t.sessions[a.key].session.latest + 1, now));
    } else {
      hide Consistent, SameContent, HoldsContent, NewEvent, Above, OthersSame, MovedOn, NewlyStored, LastRows;
    }
  }

  lemma Appended<T>(q: seq<T>, x: T)
    ensures |q + [x]| > 0 && (q + [x])[|q + [x]| - 1] == x && (q + [x])[..|q + [x]| - 1] == q
  {
  }

  lemma StoresNew(cfg: Config, t: Tables, caller: Owner, a: PublishArgs, now: Instant)
    requires Consistent(cfg, t) && Published(cfg, t, caller, a, now).Ok?
    requires FindEvent(t.EventsOf(a.key), a.eventId).None?
    ensures a.key in t.sessions
    ensures var p, s := Published(cfg, t, caller, a, now).value, t.sessions[a.key].session;
            var row := NewEvent(cfg, a, s.latest + 1, now);
            && p.receipt == Receipt(s.latest + 1, row.sha, false) && NewlyStored(cfg, row, a, s.latest + 1, now)
            && OthersSame(t, p.tables, a.key) && a.key in p.tables.sessions
            && MovedOn(cfg, s, p.tables.sessions[a.key], a.state, s.latest + 1, now)
            && p.tables.EventsOf(a.key) == LastRows(t.EventsOf(a.key), 999) + [row]
  {
    hide *;
    PublishedNew(cfg, t, caller, a, now);
    var s, kept := t.sessions[a.key].session, t.EventsOf(a.key);
    var row, next := NewEvent(cfg, a, s.latest + 1, now), Sealed(cfg, Refreshed(s, a.state, s.latest + 1, now));
    KeptEvents(cfg, t, a, now);
    Stored(cfg, a, s.latest + 1, now);
    Moved(cfg, s, a.state, s.latest + 1, now);
    OneRowSet(t, a.key, next, LastRows(kept, 999) + [row]);
  }

  lemma PublishedNew(cfg: Config, t: Tables, caller: Owner, a: PublishArgs, now: Instant)
    requires Published(cfg, t, caller, a, now).Ok? && FindEvent(t.EventsOf(a.key), a.eventId).None?
    ensures a.key in t.sessions
    ensures var s := t.sessions[a.key].session;
            var row, next := NewEvent(cfg, a, s.latest + 1, now), Sealed(cfg, Refreshed(s, a.state, s.latest + 1, now));
            Published(cfg, t, caller, a, now).value
            == Publication(Tables(t.sessions[a.key := next],
                                  t.events[a.key := Above(t.EventsOf(a.key) + [row],
                                                          s.latest + 1 - MAX_AUTHORIZED_EVENTS)]),
                           Receipt(s.latest + 1, row.sha, false))
  {
    hide FindEvent, NewEvent, Refreshed, Sealed, Above, TextFault, SelfHashed;
  }

  lemma KeptEvents(cfg: Config, t: Tables, a: PublishArgs, now: Instant)
    requires Consistent(cfg, t) && a.key in t.sessions
    ensures var latest := t.sessions[a.key].session.latest;
            var row := NewEvent(cfg, a, latest + 1, now);
            Above(t.EventsOf(a.key) + [row], latest + 1 - MAX_AUTHORIZED_EVENTS)
            == LastRows(t.EventsOf(a.key), 999) + [row]
  {
    assert GoodSession(cfg, a.key, t.sessions[a.key], t.EventsOf(a.key));
    hide IsWindow, Above, LastRows;
    var latest := t.sessions[a.key].session.latest;
    LastThousand(cfg, a.key, latest, t.EventsOf(a.key), NewEvent(cfg, a, latest + 1, now));
  }

  lemma Stored(cfg: Config, a: PublishArgs, sequence: int, now: Instant)
    ensures NewlyStored(cfg, NewEvent(cfg, a, sequence, now), a, sequence, now)
  {
  }

  lemma Moved(cfg: Config, s: Session, state: SessionState, latest: int, now: Instant)
    ensures MovedOn(cfg, s, Sealed(cfg, Refreshed(s, state, latest, now)), state, latest, now)
  {
  }

  lemma OneRowSet(t: Tables, key: SessionKey, row: SessionRow, rows: seq<EventRow>)
    requires key in t.sessions
    ensures var u := Tables(t.sessions[key := row], t.events[key := rows]);
            OthersSame(t, u, key) && key in u.sessions && u.sessions[key] == row && u.EventsOf(key) == rows
  {
  }

  lemma LastThousand(cfg: Config, key: SessionKey, latest: int, rows: seq<EventRow>, row: EventRow)
    requires IsWindow(cfg, key, latest, rows) && row.event.sequence == latest + 1
    ensures Above(rows + [row], latest + 1 - MAX_AUTHORIZED_EVENTS) == LastRows(rows, 999) + [row]
  {
    AboveIsSuffix(rows + [row], latest + 1 - |rows|, latest + 1 - MAX_AUTHORIZED_EVENTS);
    hide IsWindow, Above;
    assert |rows| > 999 ==> (rows + [row])[|rows| - 999..] == rows[|rows| - 999..] + [row];
  }

  // ----- close -----

  /** A close succeeds exactly if the state is final and the caller is the owner of the intact row. */
  lemma CloseIff(cfg: Config, t: Tables, caller: Owner, key: SessionKey, state: SessionState, now: Instant)
    ensures var r := Closed(cfg, t, caller, key, state, now);
            && (r.Ok? <==> Ended(state) && IntactRow(cfg, t, key) && OwnedBy(t, key, caller))
            && (r == Err(NotTerminal) <==> state.Detected? || state.Running? || state.Waiting?)
            && (r == Err(NoSuchSession) <==> Ended(state) && key !in t.sessions)
            && (r == Err(HashMismatch) <==> Ended(state) && key in t.sessions && !IntactRow(cfg, t, key))
            && (r == Err(NotOwner) <==> Ended(state) && IntactRow(cfg, t, key) && !OwnedBy(t, key, caller))
            && (r.Ok? ==> MovedOn(cfg, t.sessions[key].session, r.value.sessions[key], state,
                                  t.sessions[key].session.latest, now)
                          && r.value.events == t.events && OthersSame(t, r.value, key))
  {
  }

  // ----- connect -----

  predicate IsMember(rooms: Rooms, agent: string, room: string) {
    RoomMember(room, agent) in rooms
  }

  /** The binding and the role of a session of this caller: those of its membership in the room, if it names one. */
  predicate Joined(rooms: Rooms, caller: Owner, a: ConnectArgs, b: Binding, role: Role) {
    && b.conversation == a.conversation && b.room == a.room
    && match a.room
       case None => b.roomSession == None && role == Role("equal-participant", None)
       case Some(room) =>
         IsMember(rooms, caller.agent, room) && b.roomSession.Some?
         && rooms[RoomMember(room, caller.agent)] == Membership(b.roomSession.value, role)
  }

  /** Another session of the same room session is neither ended nor silent. */
  predicate RoomHeld(cfg: Config, t: Tables, key: SessionKey, roomSession: Option<string>, now: int) {
    roomSession.Some? && exists k | k in t.sessions ::
      && k != key && !Ended(t.sessions[k].session.state) && !Silent(cfg, t.sessions[k].session, now)
      && t.sessions[k].session.binding.roomSession == roomSession
  }

  /** The owner itself, or another bridge session of the owning agent once the session has ended or fallen silent. */
  predicate MayTakeOver(cfg: Config, s: Session, caller: Owner, now: int) {
    && s.owner.agent == caller.agent
    && (s.owner.bridgeSession == caller.bridgeSession || Ended(s.state) || Silent(cfg, s, now))
  }

  /** When a connect to an existing row succeeds, and why it is refused. */
  lemma ReconnectIff(cfg: Config, t: Tables, rooms: Rooms, caller: Owner, a: ConnectArgs, b: Binding, role: Role,
                     now: Instant)
    requires a.key in t.sessions && Joined(rooms, caller, a, b, role)
    ensures var r, s, held := Connected(cfg, t, rooms, caller, a, now), t.sessions[a.key].session,
                              RoomHeld(cfg, t, a.key, b.roomSession, now.epoch);
            && (r.Ok? <==> !held && IntactRow(cfg, t, a.key) && s.binding == b
                           && MayTakeOver(cfg, s, caller, now.epoch))
            && (r == Err(RoomBusy) <==> held)
            && (r == Err(HashMismatch) <==> !held && !IntactRow(cfg, t, a.key))
            && (r == Err(BindingChanged) <==> !held && IntactRow(cfg, t, a.key) && s.binding != b)
            && (r == Err(StillOwned) <==> !held && IntactRow(cfg, t, a.key) && s.binding == b
                                          && !MayTakeOver(cfg, s, caller, now.epoch))
  {
    HeldIsTaken(cfg, t, a.key, b.roomSession, now.epoch);
    JoinedIsBound(rooms, caller, a, b, role);
    hide RoomTaken, RoomHeld, BindRoom, Joined, Pruned;
  }

  lemma HeldIsTaken(cfg: Config, t: Tables, key: SessionKey, roomSession: Option<string>, now: int)
    ensures RoomTaken(cfg, t, key, roomSession, now) <==> RoomHeld(cfg, t, key, roomSession, now)
  {
  }

  lemma JoinedIsBound(rooms: Rooms, caller: Owner, a: ConnectArgs, b: Binding, role: Role)
    ensures BindRoom(rooms, caller, a) == Ok(RoomBinding(b, role)) <==> Joined(rooms, caller, a, b, role)
    ensures BindRoom(rooms, caller, a) == Err(NotActiveMember) <==>
      a.room.Some? && !IsMember(rooms, caller.agent, a.room.value)
    ensures BindRoom(rooms, caller, a).Err? ==> BindRoom(rooms, caller, a).error == NotActiveMember
  {
  }

  /** A connect for a room is refused at once to whoever is not an active member of it, and only to those. */
  lemma OutsidersRefused(cfg: Config, t: Tables, rooms: Rooms, caller: Owner, a: ConnectArgs, now: Instant)
    ensures Connected(cfg, t, rooms, caller, a, now) == Err(NotActiveMember) <==>
      a.room.Some? && !IsMember(rooms, caller.agent, a.room.value)
  {
    var b := if a.room.Some? && IsMember(rooms, caller.agent, a.room.value)
    then Binding(a.conversation, a.room, Some(rooms[RoomMember(a.room.value, caller.agent)].roomSession))
    else Binding(a.conversation, None, None);
    JoinedIsBound(rooms, caller, a, b, Role("", None));
    hide RoomTaken, BindRoom, Joined, Prunable, OldestPrunable;
  }

  /** When a connect registers a new session. */
  lemma NewConnectIff(cfg: Config, t: Tables, rooms: Rooms, caller: Owner, a: ConnectArgs, b: Binding, role: Role,
                      now: Instant)
    requires a.key !in t.sessions && Joined(rooms, caller, a, b, role)
    ensures var r, held := Connected(cfg, t, rooms, caller, a, now), RoomHeld(cfg, t, a.key, b.roomSession, now.epoch);
            && (r.Ok? <==> !held && Pruned(cfg, t, now.epoch).Ok?)
            && (r == Err(RoomBusy) <==> held)
            && (r == Err(RetentionFull) <==> !held && Pruned(cfg, t, now.epoch) == Err(RetentionFull))
            && (r == Err(HashMismatch) <==> !held && Pruned(cfg, t, now.epoch) == Err(HashMismatch))
  {
    HeldIsTaken(cfg, t, a.key, b.roomSession, now.epoch);
    JoinedIsBound(rooms, caller, a, b, role);
    hide RoomTaken, RoomHeld, BindRoom, Joined, OldestPrunable, Prunable;
  }

  /** The row a connect writes: what the call says, owned by the caller; its start and its events are the row's. */
  lemma ConnectEffect(cfg: Config, t: Tables, rooms: Rooms, caller: Owner, a: ConnectArgs, b: Binding, role: Role,
                      now: Instant)
    requires Joined(rooms, caller, a, b, role) && Connected(cfg, t, rooms, caller, a, now).Ok?
    ensures var u := Connected(cfg, t, rooms, caller, a, now).value;
            && a.key in u.sessions
            && var row := u.sessions[a.key]; var s := row.session;
               && s.key == a.key && s.binding == b && s.role == role && s.profile == a.profile && s.state == a.state
               && s.owner.agent == caller.agent && s.owner.bridgeSession == caller.bridgeSession
               && s.supportsEvents == a.supportsEvents && s.lastSeen == now && row.sha == cfg.sessionSha(s)
               && (Ended(a.state) ==> s.endedUtc == Some(now.utc)) && (!Ended(a.state) ==> s.endedUtc == None)
               && (a.key in t.sessions ==>
                     var was := t.sessions[a.key].session;
                     s.createdUtc == was.createdUtc && s.startedUtc == was.startedUtc && s.latest == was.latest
                     && OthersSame(t, u, a.key) && u.events == t.events)
               && (a.key !in t.sessions ==>
                     s.createdUtc == now.utc && s.startedUtc == now.utc && s.latest == 0
                     && Pruned(cfg, t, now.epoch).Ok?
                     && u == Pruned(cfg, t, now.epoch).value.WithSession(a.key, row))
  {
    JoinedIsBound(rooms, caller, a, b, role);
    hide RoomTaken, BindRoom, Joined, Pruned;
  }

  // ----- retention -----

  /** The sessions retention may remove: those that ended or fell silent. */
  ghost function Removable(cfg: Config, t: Tables, now: int): set<SessionKey> {
    set k | k in t.sessions && (Ended(t.sessions[k].session.state) || Silent(cfg, t.sessions[k].session, now))
  }

  /** Seen earlier; at the same time a desktop session before a terminal session, and then by identifier. */
  predicate Earlier(t: Tables, a: SessionKey, b: SessionKey)
    requires a in t.sessions && b in t.sessions
  {
    var x, y := t.sessions[a].session.lastSeen.epoch, t.sessions[b].session.lastSeen.epoch;
    x < y || (x == y && ((a.source.AuthorizedDesktop? && b.source.AuthorizedTerminal?)
                         || (a.source == b.source && TextLess(a.id, b.id))))
  }

  /** These are the earliest of the removable sessions. */
  ghost predicate Earliest(cfg: Config, t: Tables, now: int, v: set<SessionKey>) {
    v <= Removable(cfg, t, now) && forall a, b | a in v && b in Removable(cfg, t, now) - v :: Earlier(t, a, b)
  }

  /** With room for another session nothing is removed. */
  lemma RoomLeft(cfg: Config, t: Tables, now: int)
    requires |t.sessions| < cfg.maxRetained
    ensures Pruned(cfg, t, now) == Ok(t)
  {
  }

  /**
   A full table is refused exactly if too few sessions are removable; else the earliest of them, as many as a new
   session needs, are removed with their events if all of them are intact.
   */
  lemma PruneIff(cfg: Config, t: Tables, now: int)
    requires |t.sessions| >= cfg.maxRetained
    ensures var n := |t.sessions| - cfg.maxRetained + 1;
            if |Removable(cfg, t, now)| < n then Pruned(cfg, t, now) == Err(RetentionFull)
            else exists v | Earliest(cfg, t, now, v) ::
                |v| == n && Pruned(cfg, t, now) == if forall k | k in v :: IntactRow(cfg, t, k)
                                                   then Ok(Tables(t.sessions - v, t.events - v)) else Err(HashMismatch)
  {
    hide *;
    var n := |t.sessions| - cfg.maxRetained + 1;
    RemovableIsPrunable(cfg, t, now);
    if |Prunable(cfg, t, now)| >= n {
      VictimsEarliest(cfg, t, now, n);
      VictimsDecide(cfg, t, now);
      assert Earliest(cfg, t, now, Elements(OldestPrunable(cfg, t, now, n)));
    }
  }

  lemma RemovableIsPrunable(cfg: Config, t: Tables, now: int)
    ensures Removable(cfg, t, now) == Prunable(cfg, t, now)
    ensures |t.sessions| >= cfg.maxRetained && |Removable(cfg, t, now)| < |t.sessions| - cfg.maxRetained + 1 ==>
              Pruned(cfg, t, now) == Err(RetentionFull)
  {
    assert Removable(cfg, t, now) == Prunable(cfg, t, now);
    hide OldestPrunable;
  }

  lemma VictimsEarliest(cfg: Config, t: Tables, now: int, n: nat)
    requires n <= |Prunable(cfg, t, now)|
    ensures var v := Elements(OldestPrunable(cfg, t, now, n)); |v| == n && Earliest(cfg, t, now, v)
  {
    assert Removable(cfg, t, now) == Prunable(cfg, t, now);
    OldestPrunableMeaning(cfg, t, now, n);
    hide OldestPrunable, Prunable, Removable, Elements;
  }

  lemma VictimsDecide(cfg: Config, t: Tables, now: int)
    requires |t.sessions| >= cfg.maxRetained
    requires |Prunable(cfg, t, now)| >= |t.sessions| - cfg.maxRetained + 1
    ensures var v := Elements(OldestPrunable(cfg, t, now, |t.sessions| - cfg.maxRetained + 1));
            Pruned(cfg, t, now) == if forall k | k in v :: IntactRow(cfg, t, k)
                                   then Ok(Tables(t.sessions - v, t.events - v)) else Err(HashMismatch)
  {
    var victims := OldestPrunable(cfg, t, now, |t.sessions| - cfg.maxRetained + 1);
    OldestPrunableMeaning(cfg, t, now, |t.sessions| - cfg.maxRetained + 1);
    hide OldestPrunable, OldestFirst;
    assert forall k :: k in victims <==> k in Elements(victims);
  }

  // ----- what others cannot do -----

  /** The step is an operation on this session by its owner, or a connect to it by the owning agent. */
  predicate ByOwner(step: Step, key: SessionKey, owner: Owner) {
    match step.op
    case ConnectOp(_, caller, a) => a.key == key && caller.agent == owner.agent
    case PublishOp(caller, a) => a.key == key && caller == owner
    case CloseOp(caller, k, _) => k == key && caller == owner
  }

  /** Whatever changes a row or its events is done by its owner or its agent, or is retention. */
  lemma StepByOther(cfg: Config, t: Tables, step: Step, key: SessionKey)
    requires ValidConfig(cfg) && key in t.sessions && key in After(cfg, t, step).sessions
    requires !ByOwner(step, key, t.sessions[key].session.owner)
    ensures After(cfg, t, step).sessions[key] == t.sessions[key]
    ensures After(cfg, t, step).EventsOf(key) == t.EventsOf(key)
  {
    hide Above, FindEvent, NewEvent, TextFault, SameContent, SelfHashed, BindRoom, RoomTaken, Pruned, OldestFirst;
    if step.op.ConnectOp? && step.op.args.key !in t.sessions {
      PruneMakesRoom(cfg, t, step.now.epoch);
    }
  }

  /**
   Over any run that keeps the session and in which nobody but others publish to it, close it or connect to it, its row
   and its events stay exactly as they were.
   */
  lemma {:induction false} OthersLeaveAlone(cfg: Config, t: Tables, steps: seq<Step>, key: SessionKey)
    requires ValidConfig(cfg) && Kept(cfg, t, steps, key)
    requires forall step | step in steps :: !ByOwner(step, key, t.sessions[key].session.owner)
    ensures key in Run(cfg, t, steps).sessions
    ensures Run(cfg, t, steps).sessions[key] == t.sessions[key] && Run(cfg, t, steps).EventsOf(key) == t.EventsOf(key)
    decreases |steps|
  {
    if steps != [] {
      hide After, ByOwner;
      StepByOther(cfg, t, steps[0], key);
      assert steps[0] in steps && forall step | step in steps[1..] :: step in steps;
      OthersLeaveAlone(cfg, After(cfg, t, steps[0]), steps[1..], key);
    }
  }

  /** A publish or close by anyone but the owner leaves all tables as they were, in any reachable registry. */
  lemma StrangerChangesNothing(cfg: Config, steps: seq<Step>, step: Step, key: SessionKey)
    requires key in Run(cfg, NO_SESSIONS, steps).sessions && !step.op.ConnectOp?
    requires match step.op
             case PublishOp(_, a) => a.key == key
             case CloseOp(_, k, _) => k == key
             case ConnectOp(_, _, _) => false
    requires !ByOwner(step, key, Run(cfg, NO_SESSIONS, steps).sessions[key].session.owner)
    ensures After(cfg, Run(cfg, NO_SESSIONS, steps), step) == Run(cfg, NO_SESSIONS, steps)
  {
    var t := Run(cfg, NO_SESSIONS, steps);
    hide Run;
    match step.op
    case PublishOp(caller, a) => PublishRefusals(cfg, t, caller, a, step.now);
    case CloseOp(caller, k, state) => CloseIff(cfg, t, caller, k, state, step.now);
  }
}
