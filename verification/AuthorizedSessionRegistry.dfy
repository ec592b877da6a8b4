/**
 The registry object of src/peerbridge_mcp/authorized_sessions.py:293-1102, proved against AuthorizedSessions and
 EventReads.
 */
module AuthorizedSessionRegistry {
  import opened Results
  import opened Sorting
  import opened AuthorizedSessions
  import opened EventReads

  function Clamp(low: int, value: int, high: int): (r: int)
    requires low <= high
    ensures low <= r <= high && (low <= value <= high ==> r == value)
    ensures (value < low ==> r == low) && (value > high ==> r == high)
  {
    if value < low then low else if value > high then high else value
  }

  class Registry {
    const cfg: Config
    var sessions: map<SessionKey, SessionRow>
    var events: map<SessionKey, seq<EventRow>>

    function Contents(): Tables
      reads this
    {
      Tables(sessions, events)
    }

    /** Attaches to the tables of a database, which may hold sessions already; the settings are clamped. */
    constructor (stored: Tables, ttlSeconds: int, maxRetained: int, sessionSha: Session -> string,
                 eventSha: Event -> string, redact: string -> string, encodedSize: Event -> nat)
      ensures ValidConfig(cfg)
      ensures cfg.ttl == Clamp(30, ttlSeconds, 3600)
      ensures cfg.maxRetained == Clamp(1, maxRetained, MAX_AUTHORIZED_SESSIONS)
      ensures cfg == Config(cfg.ttl, cfg.maxRetained, sessionSha, eventSha, redact, encodedSize)
      ensures Contents() == stored
    {
      cfg := Config(Clamp(30, ttlSeconds, 3600), Clamp(1, maxRetained, MAX_AUTHORIZED_SESSIONS),
                    sessionSha, eventSha, redact, encodedSize);
      sessions, events := stored.sessions, stored.events;
    }

    /** The retention query: the oldest prunable sessions under a LIMIT. */
    method SelectOldest(now: int, n: nat) returns (rows: seq<SessionKey>)
      requires n <= |Prunable(cfg, Contents(), now)|
      ensures rows == OldestPrunable(cfg, Contents(), now, n)
    {
      hide OldestOrder;
      var prunable := Prunable(cfg, Contents(), now);
      QueryOrders(sessions, prunable);
      rows := OrderBy(prunable, OldestOrder(sessions));
      rows := rows[..n];
    }

    /**
     Deletes the oldest prunable sessions with their events when the table is full; raises when too few are prunable.
     */
    method PruneForNewSession(now: int) returns (r: Result<(), SessionError>)
      modifies this
      ensures match Pruned(cfg, old(Contents()), now)
              case Ok(t) => r.Ok? && Contents() == t
              case Err(e) => r == Err(e) && Contents() == old(Contents())
    {
      hide OldestOrder;
      var required := |sessions| - cfg.maxRetained + 1;
      if required <= 0 {
        return Ok(());
      }
      var prunable := Prunable(cfg, Contents(), now);
      if |prunable| < required {
        return Err(RetentionFull);
      }
      var rows := SelectOldest(now, required);
      hide Prunable, OldestPrunable, SelfHashed;
      if exists k | k in rows :: k in sessions && !SelfHashed(cfg, sessions[k]) {
        return Err(HashMismatch);
      }
      assert Pruned(cfg, Contents(), now) == Ok(Contents().Without(Elements(rows)));
      hide Pruned, Elements;
      DeleteSessions(rows);
      r := Ok(());
    }

    /** Deletes sessions, each after its events. */
    method DeleteSessions(rows: seq<SessionKey>)
      modifies this
      ensures Contents() == old(Contents()).Without(Elements(rows))
    {
      WithoutAll(Contents(), rows);
      for i := 0 to |rows|
        invariant Contents() == old(Contents()).Without(Elements(rows[..i]))
      {
        WithoutOneMore(old(Contents()), rows, i);
        events := events - {rows[i]};
        sessions := sessions - {rows[i]};
      }
    }

    /** Registers a session or reconnects to its row, as the calling bridge session. */
    method Connect(rooms: Rooms, caller: Owner, a: ConnectArgs, now: Instant) returns (r: Result<(), SessionError>)
      modifies this
      ensures match Connected(cfg, old(Contents()), rooms, caller, a, now)
              case Ok(t) => r.Ok? && Contents() == t
              case Err(e) => r == Err(e) && Contents() == old(Contents())
    {
      var bound := BindRoom(rooms, caller, a);
      if bound.Err? {
        return Err(bound.error);
      }
      var rb := bound.value;
      if RoomTaken(cfg, Contents(), a.key, rb.binding.roomSession, now.epoch) {
        return Err(RoomBusy);
      }
      var createdUtc, startedUtc, latest := now.utc, now.utc, 0;
      if a.key !in sessions {
        var pruned := PruneForNewSession(now.epoch);
        if pruned.Err? {
          return Err(pruned.error);
        }
      } else {
        var existing := sessions[a.key];
        var refusal := ReconnectRefusal(cfg, existing, rb.binding, caller, now.epoch);
        if refusal.Some? {
          return Err(refusal.value);
        }
        createdUtc, startedUtc, latest := existing.session.createdUtc, existing.session.startedUtc,
          existing.session.latest;
      }
      sessions := sessions[a.key := ConnectedRow(cfg, a, rb, caller, now, createdUtc, startedUtc, latest)];
      r := Ok(());
    }

    /** Appends one event to the caller's session, or recognises it as already stored. */
    method PublishEvent(caller: Owner, a: PublishArgs, now: Instant) returns (r: Result<Receipt, SessionError>)
      modifies this
      ensures match Published(cfg, old(Contents()), caller, a, now)
              case Ok(p) => r == Ok(p.receipt) && Contents() == p.tables
              case Err(e) => r == Err(e) && Contents() == old(Contents())
    {
      var fault := TextFault(a);
      if fault.Some? {
        return Err(fault.value);
      }
      var refusal := OwnerRefusal(cfg, Contents(), a.key, caller);
      if refusal.Some? {
        return Err(refusal.value);
      }
      var row := sessions[a.key];
      if !row.session.supportsEvents {
        return Err(NoMirroring);
      }
      var stored := Contents().EventsOf(a.key);
      var existing := FindEvent(stored, a.eventId);
      if existing.Some? {
        if !SameContent(cfg, existing.value.event, a) {
          return Err(EventReused);
        }
        return Ok(Receipt(existing.value.event.sequence, existing.value.sha, true));
      }
      var sequence := row.session.latest + 1;
      var event := NewEvent(cfg, a, sequence, now);
      events := events[a.key := stored + [event]];
      sessions := sessions[a.key := row.(session := Refreshed(row.session, a.state, sequence, now))];
      events := events[a.key := Above(events[a.key], sequence - MAX_AUTHORIZED_EVENTS)];
      sessions := sessions[a.key := Sealed(cfg, sessions[a.key].session)];
      r := Ok(Receipt(sequence, event.sha, false));
    }

    /** Ends the caller's session in a terminal state. */
    method Close(caller: Owner, key: SessionKey, state: SessionState, now: Instant)
      returns (r: Result<(), SessionError>)
      modifies this
      ensures match Closed(cfg, old(Contents()), caller, key, state, now)
              case Ok(t) => r.Ok? && Contents() == t
              case Err(e) => r == Err(e) && Contents() == old(Contents())
    {
      if !IsTerminal(state) {
        return Err(NotTerminal);
      }
      var refusal := OwnerRefusal(cfg, Contents(), key, caller);
      if refusal.Some? {
        return Err(refusal.value);
      }
      var row := sessions[key];
      sessions := sessions[key := row.(session := Refreshed(row.session, state, row.session.latest, now))];
      sessions := sessions[key := Sealed(cfg, sessions[key].session)];
      r := Ok(());
    }

    /** Reads one session's events after a cursor, within a count and a byte limit. */
    method ReadEvents(key: SessionKey, after: int, maxEvents: int, maxBytes: int)
      returns (r: Result<Batch, SessionError>)
      ensures r == EventsFor(cfg, Contents().EventsOf(key), after, maxEvents, maxBytes)
    {
      var stored := Contents().EventsOf(key);
      var taken, bytes, intact := ReadRows(cfg, Pending(stored, after), maxEvents, maxBytes);
      r := if intact then Ok(Batch(taken, FirstRetained(stored), bytes)) else Err(HashMismatch);
    }

    /** One session's row and its first page of events after a cursor. */
    method Get(key: SessionKey, after: int, now: int) returns (r: Result<Entry, SessionError>)
      ensures r == (if key !in sessions then Err(NoSuchSession)
                    else if !SelfHashed(cfg, sessions[key]) then Err(HashMismatch)
                    else match EventsFor(cfg, Contents().EventsOf(key), after, MAX_RESPONSE_EVENTS, MAX_RESPONSE_BYTES)
                         case Err(e) => Err(e)
                         case Ok(batch) => Ok(Entry(sessions[key].session, batch,
                                                    IsStale(cfg, sessions[key].session, now))))
    {
      if key !in sessions {
        return Err(NoSuchSession);
      }
      if !SelfHashed(cfg, sessions[key]) {
        return Err(HashMismatch);
      }
      var batch := ReadEvents(key, after, MAX_RESPONSE_EVENTS, MAX_RESPONSE_BYTES);
      if batch.Err? {
        return Err(batch.error);
      }
      r := Ok(Entry(sessions[key].session, batch.value, IsStale(cfg, sessions[key].session, now)));
    }

    /** The rows a listing shows: the newest first, at most `limit` of them. */
    ghost function Newest(keys: set<SessionKey>, limit: int): seq<SessionRow>
      reads this
      requires keys <= sessions.Keys
    {
      QueryOrders(sessions, keys);
      RowsOf(sessions, Limited(Sorted(keys, NewestOrder(sessions)), Clamp(1, limit, MAX_AUTHORIZED_SESSIONS)))
    }

    /** The sessions the agent owns (or all sessions, for the Control Room), newest first, under the shared budgets. */
    method List(owner: Option<string>, limit: int, cursors: map<SessionKey, int>, now: int)
      returns (r: Result<seq<Entry>, SessionError>)
      ensures r == Listed(cfg, Contents(), Newest(Selected(owner), limit), cursors, MAX_RESPONSE_EVENTS,
                          MAX_RESPONSE_BYTES, now)
      ensures r.Ok? ==>
                exists keys :: NewestOf(sessions, owner, limit, keys) && Shows(cfg, sessions, keys, r.value, now)
    {
      NewestMeaning(sessions, owner, Selected(owner), limit);
      hide *;
      var rows := FetchNewest(Selected(owner), limit);
      r := ListRows(rows, cursors, now);
      ListedShows(cfg, Contents(), rows, cursors, MAX_RESPONSE_EVENTS, MAX_RESPONSE_BYTES, now);
    }

    method FetchNewest(keys: set<SessionKey>, limit: int) returns (rows: seq<SessionRow>)
      requires keys <= sessions.Keys
      ensures rows == Newest(keys, limit)
    {
      QueryOrders(sessions, keys);
      var ordered := OrderBy(keys, NewestOrder(sessions));
      rows := RowsOf(sessions, Limited(ordered, Clamp(1, limit, MAX_AUTHORIZED_SESSIONS)));
    }

    method ReadEntry(row: SessionRow, cursors: map<SessionKey, int>, maxEvents: int, maxBytes: int, now: int)
      returns (r: Result<Entry, SessionError>)
      ensures r == EntryFor(cfg, Contents(), row, cursors, maxEvents, maxBytes, now)
    {
      var cursor := Cursor(cursors, row.session.key);
      if !SelfHashed(cfg, row) {
        return Err(HashMismatch);
      }
      if cursor < 0 {
        return Err(BadCursor);
      }
      var batch := ReadEvents(row.session.key, cursor, maxEvents, maxBytes);
      if batch.Err? {
        return Err(batch.error);
      }
      r := Ok(Entry(row.session, batch.value, IsStale(cfg, row.session, now)));
    }

    method ListRows(rows: seq<SessionRow>, cursors: map<SessionKey, int>, now: int)
      returns (r: Result<seq<Entry>, SessionError>)
      ensures r == Listed(cfg, Contents(), rows, cursors, MAX_RESPONSE_EVENTS, MAX_RESPONSE_BYTES, now)
    {
      hide EntryFor, Share;
      var entries: seq<Entry> := [];
      var remainingEvents, remainingBytes := MAX_RESPONSE_EVENTS, MAX_RESPONSE_BYTES;
      ghost var t := Contents();
      ghost var result := Listed(cfg, t, rows, cursors, MAX_RESPONSE_EVENTS, MAX_RESPONSE_BYTES, now);
      assert rows[0..] == rows;
      assert Continues(result, entries, result) by { StartsHere(result); }
      for i := 0 to |rows|
        invariant Continues(result, entries, Listed(cfg, t, rows[i..], cursors, remainingEvents, remainingBytes, now))
      {
        ListTurn(cfg, t, rows, cursors, remainingEvents, remainingBytes, now, result, entries, i);
        var entry := ReadEntry(rows[i], cursors, Share(remainingEvents, |rows| - i), Share(remainingBytes, |rows| - i),
                               now);
        if entry.Err? {
          return Err(entry.error);
        }
        remainingEvents := remainingEvents - |entry.value.batch.rows|;
        remainingBytes := remainingBytes - entry.value.batch.bytes;
        entries := entries + [entry.value];
      }
      assert entries + [] == entries;
      r := Ok(entries);
    }

    function Selected(owner: Option<string>): set<SessionKey>
      reads this
    {
      set k | k in sessions && (owner.None? || sessions[k].session.owner.agent == owner.value)
    }
  }

  /** These are the newest sessions of the agent (or of all), as many as the limit, held between 1 and 64, allows. */
  ghost predicate NewestOf(sessions: map<SessionKey, SessionRow>, owner: Option<string>, limit: int,
                           keys: seq<SessionKey>)
  {
    && (forall i | 0 <= i < |keys| :: IsOf(sessions, keys[i], owner))
    && (forall i, j | 0 <= i < j < |keys| :: keys[i] != keys[j] && SeenNoEarlier(sessions, keys[i], keys[j]))
    && |keys| <= (if limit < 1 then 1 else if limit > 64 then 64 else limit)
    && forall k | IsOf(sessions, k, owner) && k !in keys ::
         |keys| == (if limit < 1 then 1 else if limit > 64 then 64 else limit)
         && forall i | 0 <= i < |keys| :: SeenNoEarlier(sessions, keys[i], k)
  }

  predicate IsOf(sessions: map<SessionKey, SessionRow>, k: SessionKey, owner: Option<string>) {
    k in sessions && (owner.Some? ==> sessions[k].session.owner.agent == owner.value)
  }

  predicate SeenNoEarlier(sessions: map<SessionKey, SessionRow>, a: SessionKey, b: SessionKey) {
    a in sessions && b in sessions && sessions[a].session.lastSeen.epoch >= sessions[b].session.lastSeen.epoch
  }

  /** The entries show these sessions, in this order. */
  ghost predicate Shows(cfg: Config, sessions: map<SessionKey, SessionRow>, keys: seq<SessionKey>, entries: seq<Entry>,
                        now: int)
  {
    |entries| == |keys| && forall i | 0 <= i < |keys| ::
      keys[i] in sessions && ShowsRow(cfg, sessions[keys[i]], entries[i], now)
  }

  predicate ShowsRow(cfg: Config, row: SessionRow, entry: Entry, now: int) {
    entry.session == row.session && (entry.stale <==> now - row.session.lastSeen.epoch > cfg.ttl)
  }

  lemma NewestMeaning(sessions: map<SessionKey, SessionRow>, owner: Option<string>, keys: set<SessionKey>, limit: int)
    requires forall k :: k in keys <==> IsOf(sessions, k, owner)
    ensures keys <= sessions.Keys && StrictOrderOn(NewestOrder(sessions), keys)
    ensures var q := Limited(Sorted(keys, NewestOrder(sessions)), Clamp(1, limit, MAX_AUTHORIZED_SESSIONS));
            NewestOf(sessions, owner, limit, q)
            && |RowsOf(sessions, q)| == |q| && forall i | 0 <= i < |q| :: RowsOf(sessions, q)[i] == sessions[q[i]]
  {
    QueryOrders(sessions, keys);
    var all := Sorted(keys, NewestOrder(sessions));
    AscendingDistinct(all, keys, NewestOrder(sessions));
    OrderIsByTime(sessions, all, keys);
    assert forall k :: k in all <==> IsOf(sessions, k, owner);
    hide *;
    var q := Limited(all, Clamp(1, limit, MAX_AUTHORIZED_SESSIONS));
    FirstAreNewest(sessions, owner, limit, all);
    KeysKnown(sessions, owner, limit, q);
    RowsOfAll(sessions, q);
  }

  lemma KeysKnown(sessions: map<SessionKey, SessionRow>, owner: Option<string>, limit: int, q: seq<SessionKey>)
    requires NewestOf(sessions, owner, limit, q)
    ensures forall k | k in q :: k in sessions
  {
  }

  ghost predicate Ranked(sessions: map<SessionKey, SessionRow>, all: seq<SessionKey>) {
    forall i, j | 0 <= i < j < |all| :: all[i] != all[j] && SeenNoEarlier(sessions, all[i], all[j])
  }

  lemma FirstAreNewest(sessions: map<SessionKey, SessionRow>, owner: Option<string>, limit: int, all: seq<SessionKey>)
    requires Ranked(sessions, all) && forall k :: k in all <==> IsOf(sessions, k, owner)
    ensures NewestOf(sessions, owner, limit, Limited(all, Clamp(1, limit, MAX_AUTHORIZED_SESSIONS)))
  {
    hide IsOf, SeenNoEarlier;
    var q := Limited(all, Clamp(1, limit, MAX_AUTHORIZED_SESSIONS));
    assert forall i | 0 <= i < |q| :: all[i] in q by {
      assert forall i | 0 <= i < |q| :: all[i] == q[i];
    }
    forall k | IsOf(sessions, k, owner) && k !in q
      ensures |q| == Clamp(1, limit, MAX_AUTHORIZED_SESSIONS)
      ensures forall i | 0 <= i < |q| :: SeenNoEarlier(sessions, q[i], k)
    {
      var j :| 0 <= j < |all| && all[j] == k;
    }
  }

  lemma OrderIsByTime(sessions: map<SessionKey, SessionRow>, all: seq<SessionKey>, keys: set<SessionKey>)
    requires IsSortOf(all, keys, NewestOrder(sessions)) && forall i, j | 0 <= i < j < |all| :: all[i] != all[j]
    ensures Ranked(sessions, all)
  {
  }

  lemma {:induction false} RowsOfAll(sessions: map<SessionKey, SessionRow>, q: seq<SessionKey>)
    requires forall k | k in q :: k in sessions
    ensures |RowsOf(sessions, q)| == |q| && forall i | 0 <= i < |q| :: RowsOf(sessions, q)[i] == sessions[q[i]]
  {
    if q != [] {
      assert q[0] in q && forall k | k in q[1..] :: k in q;
      RowsOfAll(sessions, q[1..]);
    }
  }

  /** The entries of a listing are those of its rows, in order. */
  lemma {:induction false} ListedShows(cfg: Config, t: Tables, rows: seq<SessionRow>, cursors: map<SessionKey, int>,
                                       events: int, bytes: int, now: int)
    ensures var r := Listed(cfg, t, rows, cursors, events, bytes, now);
            r.Ok? ==> |r.value| == |rows| && forall i | 0 <= i < |rows| :: ShowsRow(cfg, rows[i], r.value[i], now)
  {
    if rows != [] {
      hide EntryFor, Share, ShowsRow;
      var first := EntryFor(cfg, t, rows[0], cursors, Share(events, |rows|), Share(bytes, |rows|), now);
      if first.Ok? {
        EntryShows(cfg, t, rows[0], cursors, Share(events, |rows|), Share(bytes, |rows|), now);
        ListedShows(cfg, t, rows[1..], cursors, events - |first.value.batch.rows|, bytes - first.value.batch.bytes,
                    now);
      }
    }
  }

  /** An entry needs an intact row and a cursor that is not negative, and its events must be intact. */
  lemma EntryShows(cfg: Config, t: Tables, row: SessionRow, cursors: map<SessionKey, int>, events: int, bytes: int,
                   now: int)
    ensures var r, key := EntryFor(cfg, t, row, cursors, events, bytes, now), row.session.key;
            && (r == Err(BadCursor) <==> cfg.sessionSha(row.session) == row.sha && key in cursors && cursors[key] < 0)
            && (cfg.sessionSha(row.session) != row.sha ==> r == Err(HashMismatch))
            && (r.Ok? ==> ShowsRow(cfg, row, r.value, now)
                          && (key !in cursors || cursors[key] >= 0) && cfg.sessionSha(row.session) == row.sha)
  {
    hide Take, Pending, ReadIntact;
  }

  lemma StartsHere(whole: Result<seq<Entry>, SessionError>)
    ensures Continues(whole, [], whole)
  {
    if whole.Ok? {
      assert [] + whole.value == whole.value;
    }
  }

  function Limited<T>(q: seq<T>, limit: int): seq<T>
    requires limit >= 0
  {
    if |q| <= limit then q else q[..limit]
  }

  function RowsOf(sessions: map<SessionKey, SessionRow>, keys: seq<SessionKey>): seq<SessionRow> {
    if keys == [] then []
    else (if keys[0] in sessions then [sessions[keys[0]]] else []) + RowsOf(sessions, keys[1..])
  }

  /**
   The loop of an event read: it stops at the first row that exceeds a limit, and fails on a row whose digest is wrong.
   */
  method ReadRows(cfg: Config, rows: seq<EventRow>, maxEvents: int, maxBytes: int)
    returns (taken: seq<EventRow>, bytes: nat, intact: bool)
    ensures intact == ReadIntact(cfg, rows, |Take(cfg, rows, maxEvents, maxBytes)|)
    ensures intact ==> taken == Take(cfg, rows, maxEvents, maxBytes) && bytes == Bytes(cfg, taken)
  {
    taken, bytes, intact := [], 0, true;
    ghost var count := |Take(cfg, rows, maxEvents, maxBytes)|;
    for i := 0 to |rows|
      invariant i <= count && taken == rows[..i] && bytes == Bytes(cfg, taken)
      invariant ReadIntact(cfg, rows, i - 1)
    {
      if !Intact(cfg, rows[i]) {
        intact := false;
        return;
      }
      TakeTurn(cfg, rows, maxEvents, maxBytes, i);
      var size := cfg.encodedSize(rows[i].event);
      if i >= NonNegative(maxEvents) || bytes + size > NonNegative(maxBytes) {
        return;
      }
      taken, bytes := taken + [rows[i]], bytes + size;
    }
  }
}
