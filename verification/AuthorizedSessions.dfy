/**
 The registry of external sessions (src/peerbridge_mcp/authorized_sessions.py): the two tables, what each
 operation does to them, and the registry object whose methods carry the operations out.

 One registry serves one scope, so rows of other scopes do not appear. Each method body is one SQLite
 transaction: it either ends with the new tables or raises and leaves the old ones.
 */
module AuthorizedSessions {
  import opened Results
  import opened Sorting

  const MAX_AUTHORIZED_SESSIONS := 64
  const MAX_AUTHORIZED_EVENTS := 1000
  const MAX_EVENT_TEXT_CHARS := 20000
  const MAX_EVENT_SUMMARY_CHARS := 1000

  datatype SourceType = AuthorizedDesktop | AuthorizedTerminal
  datatype SessionState = Detected | Running | Waiting | Completed | Stopped | Failed
  datatype EventStream = SystemStream | Stdout | Stderr
  datatype EventKind = SystemEvent | TerminalEvent | ActivityEvent | AnswerEvent | ErrorEvent

  /** Primary key of the session table; it compares as (source_type, source_session_id). */
  datatype SessionKey = SessionKey(source: SourceType, id: string)
  datatype Owner = Owner(agent: string, bridgeSession: string)
  datatype Binding = Binding(conversation: string, room: Option<string>, roomSession: Option<string>)
  datatype Role = Role(id: string, roleLabel: Option<string>)
  datatype Profile = Profile(adapter: string, displayName: string, clientName: string,
                             clientVersion: Option<string>, requestedRoute: Option<string>,
                             observedRoute: Option<string>, observedRouteSource: Option<string>,
                             model: Option<string>, modelSource: Option<string>)

  /** One reading of the clock: the text kept in the row and the number compared against the adapter lifetime. */
  datatype Instant = Instant(utc: string, epoch: int)

  datatype Session = Session(key: SessionKey, binding: Binding, owner: Owner, profile: Profile, role: Role,
                             state: SessionState, supportsEvents: bool, createdUtc: string, startedUtc: string,
                             endedUtc: Option<string>, lastSeen: Instant, latest: int)
  datatype SessionRow = SessionRow(session: Session, sha: string)

  datatype Event = Event(key: SessionKey, sequence: int, eventId: string, createdUtc: string,
                         stream: EventStream, kind: EventKind, text: string, summary: Option<string>,
                         stateAfter: SessionState, redacted: bool)
  datatype EventRow = EventRow(event: Event, sha: string)

  /** The session table and, for each session, its event rows in sequence order. */
  datatype Tables = Tables(sessions: map<SessionKey, SessionRow>, events: map<SessionKey, seq<EventRow>>) {
    function EventsOf(key: SessionKey): seq<EventRow> {
      if key in events then events[key] else []
    }

    function Without(keys: set<SessionKey>): Tables {
      Tables(sessions - keys, events - keys)
    }

    function WithSession(key: SessionKey, row: SessionRow): Tables {
      this.(sessions := sessions[key := row])
    }
  }

  /** The registry's settings and the functions it takes from elsewhere: digests, redaction, encoded size. */
  datatype Config = Config(ttl: int, maxRetained: int, sessionSha: Session -> string, eventSha: Event -> string,
                           redact: string -> string, encodedSize: Event -> nat)

  predicate ValidConfig(cfg: Config) {
    30 <= cfg.ttl <= 3600 && 1 <= cfg.maxRetained <= MAX_AUTHORIZED_SESSIONS
  }

  datatype SessionError = NotActiveMember | RoomBusy | RetentionFull | HashMismatch | BindingChanged
                        | StillOwned | NoSuchSession | NotOwner | NoMirroring | EventReused
                        | TextRequired | TextTooLong | NotTerminal | BadCursor

  predicate IsTerminal(state: SessionState) {
    state in {Completed, Stopped, Failed}
  }

  predicate IsStale(cfg: Config, s: Session, now: int) {
    s.lastSeen.epoch < now - cfg.ttl
  }

  /** A session that still counts as the room's observable adapter at `now`. */
  predicate IsLive(cfg: Config, s: Session, now: int) {
    !IsTerminal(s.state) && !IsStale(cfg, s, now)
  }

  predicate SelfHashed(cfg: Config, row: SessionRow) {
    cfg.sessionSha(row.session) == row.sha
  }

  function Sealed(cfg: Config, s: Session): SessionRow {
    SessionRow(s, cfg.sessionSha(s))
  }

  // ----- orders used by the queries -----

  predicate KeyLess(a: SessionKey, b: SessionKey) {
    if a.source != b.source then a.source.AuthorizedDesktop? else TextLess(a.id, b.id)
  }

  predicate OldestFirst(rows: map<SessionKey, SessionRow>, a: SessionKey, b: SessionKey) {
    && a in rows && b in rows
    && var x, y := rows[a].session.lastSeen.epoch, rows[b].session.lastSeen.epoch;
    x < y || (x == y && KeyLess(a, b))
  }

  predicate NewestFirst(rows: map<SessionKey, SessionRow>, a: SessionKey, b: SessionKey) {
    && a in rows && b in rows
    && var x, y := rows[a].session.lastSeen.epoch, rows[b].session.lastSeen.epoch;
    x > y || (x == y && KeyLess(a, b))
  }

  function OldestOrder(rows: map<SessionKey, SessionRow>): (SessionKey, SessionKey) -> bool {
    (a, b) => OldestFirst(rows, a, b)
  }

  function NewestOrder(rows: map<SessionKey, SessionRow>): (SessionKey, SessionKey) -> bool {
    (a, b) => NewestFirst(rows, a, b)
  }

  lemma KeyOrder(a: SessionKey, b: SessionKey, c: SessionKey)
    ensures !KeyLess(a, a)
    ensures a == b || KeyLess(a, b) || KeyLess(b, a)
    ensures KeyLess(a, b) && KeyLess(b, c) ==> KeyLess(a, c)
  {
    TextLessOrder(a.id, b.id, c.id);
  }

  lemma QueryOrders(rows: map<SessionKey, SessionRow>, s: set<SessionKey>)
    requires s <= rows.Keys
    ensures StrictOrderOn(OldestOrder(rows), s)
    ensures StrictOrderOn(NewestOrder(rows), s)
  {
    forall a, b, c | a in s && b in s && c in s
      ensures !OldestFirst(rows, a, a) && !NewestFirst(rows, a, a)
      ensures a == b || OldestFirst(rows, a, b) || OldestFirst(rows, b, a)
      ensures a == b || NewestFirst(rows, a, b) || NewestFirst(rows, b, a)
      ensures OldestFirst(rows, a, b) && OldestFirst(rows, b, c) ==> OldestFirst(rows, a, c)
      ensures NewestFirst(rows, a, b) && NewestFirst(rows, b, c) ==> NewestFirst(rows, a, c)
    {
      KeyOrder(a, b, c);
    }
  }

  // ----- connect -----

  datatype Membership = Membership(roomSession: string, role: Role)
  datatype RoomMember = RoomMember(room: string, agent: string)
  type Rooms = map<RoomMember, Membership>

  datatype ConnectArgs = ConnectArgs(key: SessionKey, conversation: string, profile: Profile,
                                     room: Option<string>, state: SessionState, supportsEvents: bool)

  datatype RoomBinding = RoomBinding(binding: Binding, role: Role)

  function BindRoom(rooms: Rooms, caller: Owner, a: ConnectArgs): Result<RoomBinding, SessionError> {
    match a.room
    case None => Ok(RoomBinding(Binding(a.conversation, None, None), Role("equal-participant", None)))
    case Some(room) =>
      var member := RoomMember(room, caller.agent);
      if member !in rooms then Err(NotActiveMember)
      else Ok(RoomBinding(Binding(a.conversation, Some(room), Some(rooms[member].roomSession)), rooms[member].role))
  }

  /** Another session is the live observable adapter of the same room session. */
  predicate RoomTaken(cfg: Config, t: Tables, key: SessionKey, roomSession: Option<string>, now: int) {
    && roomSession.Some?
    && exists k | k in t.sessions ::
         k != key && IsLive(cfg, t.sessions[k].session, now) && t.sessions[k].session.binding.roomSession == roomSession
  }

  function Prunable(cfg: Config, t: Tables, now: int): set<SessionKey> {
    set k | k in t.sessions && (IsTerminal(t.sessions[k].session.state) || IsStale(cfg, t.sessions[k].session, now))
  }

  /** The first `n` prunable sessions, oldest first: what the retention query returns under its LIMIT. */
  ghost function OldestPrunable(cfg: Config, t: Tables, now: int, n: nat): seq<SessionKey>
    requires n <= |Prunable(cfg, t, now)|
  {
    QueryOrders(t.sessions, Prunable(cfg, t, now));
    Sorted(Prunable(cfg, t, now), OldestOrder(t.sessions))[..n]
  }

  lemma OldestPrunableMeaning(cfg: Config, t: Tables, now: int, n: nat)
    requires n <= |Prunable(cfg, t, now)|
    ensures var v := Elements(OldestPrunable(cfg, t, now, n));
            && v <= Prunable(cfg, t, now) && |v| == n
            && forall a, b | a in v && b in Prunable(cfg, t, now) - v :: OldestFirst(t.sessions, a, b)
  {
    QueryOrders(t.sessions, Prunable(cfg, t, now));
    LimitMeaning(Prunable(cfg, t, now), OldestOrder(t.sessions), n);
    forall a, b ensures OldestOrder(t.sessions)(a, b) == OldestFirst(t.sessions, a, b) { }
  }

  ghost function Pruned(cfg: Config, t: Tables, now: int): Result<Tables, SessionError> {
    var required := |t.sessions| - cfg.maxRetained + 1;
    if required <= 0 then Ok(t)
    else if |Prunable(cfg, t, now)| < required then Err(RetentionFull)
    else
      var victims := OldestPrunable(cfg, t, now, required);
      if exists k | k in victims :: k in t.sessions && !SelfHashed(cfg, t.sessions[k]) then Err(HashMismatch)
      else Ok(t.Without(Elements(victims)))
  }

  function ConnectedRow(cfg: Config, a: ConnectArgs, rb: RoomBinding, caller: Owner, now: Instant,
                        createdUtc: string, startedUtc: string, latest: int): SessionRow {
    Sealed(cfg, Session(a.key, rb.binding, caller, a.profile, rb.role, a.state, a.supportsEvents, createdUtc,
                        startedUtc, if IsTerminal(a.state) then Some(now.utc) else None, now, latest))
  }

  /** Why an existing row refuses this caller, if it does. */
  function ReconnectRefusal(cfg: Config, row: SessionRow, binding: Binding, caller: Owner, now: int)
    : Option<SessionError>
  {
    if !SelfHashed(cfg, row) then Some(HashMismatch)
    else if row.session.binding != binding then Some(BindingChanged)
    else if row.session.owner != caller
            && (row.session.owner.agent != caller.agent
                || !(IsStale(cfg, row.session, now) || IsTerminal(row.session.state))) then Some(StillOwned)
    else None
  }

  /** The tables after `connect`, or why it raises. */
  ghost function Connected(cfg: Config, t: Tables, rooms: Rooms, caller: Owner, a: ConnectArgs, now: Instant)
    : Result<Tables, SessionError>
  {
    match BindRoom(rooms, caller, a)
    case Err(e) => Err(e)
    case Ok(rb) =>
      if RoomTaken(cfg, t, a.key, rb.binding.roomSession, now.epoch) then Err(RoomBusy)
      else if a.key !in t.sessions then
        match Pruned(cfg, t, now.epoch)
        case Err(e) => Err(e)
        case Ok(p) => Ok(p.WithSession(a.key, ConnectedRow(cfg, a, rb, caller, now, now.utc, now.utc, 0)))
      else
        var current := t.sessions[a.key];
        match ReconnectRefusal(cfg, current, rb.binding, caller, now.epoch)
        case Some(e) => Err(e)
        case None => Ok(t.WithSession(a.key, ConnectedRow(cfg, a, rb, caller, now, current.session.createdUtc,
                                                          current.session.startedUtc, current.session.latest)))
  }

  // ----- publish and close -----

  /** `text` and `summary` are as the adapter sent them, stripped of outer white space. */
  datatype PublishArgs = PublishArgs(key: SessionKey, eventId: string, stream: EventStream, kind: EventKind,
                                     text: string, summary: string, state: SessionState)
  datatype Receipt = Receipt(sequence: int, eventSha: string, replay: bool)

  function StoredSummary(cfg: Config, a: PublishArgs): Option<string> {
    if a.summary == "" then None else Some(cfg.redact(a.summary))
  }

  function TextFault(a: PublishArgs): Option<SessionError> {
    if a.text == "" then Some(TextRequired)
    else if |a.text| > MAX_EVENT_TEXT_CHARS || |a.summary| > MAX_EVENT_SUMMARY_CHARS then Some(TextTooLong)
    else None
  }

  function FindEvent(rows: seq<EventRow>, eventId: string): Option<EventRow> {
    if rows == [] then None
    else if rows[0].event.eventId == eventId then Some(rows[0])
    else FindEvent(rows[1..], eventId)
  }

  predicate SameContent(cfg: Config, e: Event, a: PublishArgs) {
    && e.stream == a.stream && e.kind == a.kind && e.text == cfg.redact(a.text)
    && e.summary == StoredSummary(cfg, a) && e.stateAfter == a.state
  }

  /** Rows whose sequence is above a bound: what a `sequence>?` query selects, and what eviction leaves. */
  function Above(rows: seq<EventRow>, bound: int): seq<EventRow> {
    if rows == [] then []
    else if rows[0].event.sequence > bound then [rows[0]] + Above(rows[1..], bound)
    else Above(rows[1..], bound)
  }

  function NewEvent(cfg: Config, a: PublishArgs, sequence: int, now: Instant): EventRow {
    var e := Event(a.key, sequence, a.eventId, now.utc, a.stream, a.kind, cfg.redact(a.text), StoredSummary(cfg, a),
                   a.state, cfg.redact(a.text) != a.text || (a.summary != "" && cfg.redact(a.summary) != a.summary));
    EventRow(e, cfg.eventSha(e))
  }

  function Refreshed(s: Session, state: SessionState, latest: int, now: Instant): Session {
    s.(state := state, endedUtc := if IsTerminal(state) then Some(now.utc) else None, lastSeen := now, latest := latest)
  }

  /** Why the row refuses a publish or close by this caller, if it does. */
  function OwnerRefusal(cfg: Config, t: Tables, key: SessionKey, caller: Owner): Option<SessionError> {
    if key !in t.sessions then Some(NoSuchSession)
    else if !SelfHashed(cfg, t.sessions[key]) then Some(HashMismatch)
    else if t.sessions[key].session.owner != caller then Some(NotOwner)
    else None
  }

  datatype Publication = Publication(tables: Tables, receipt: Receipt)

  /** The tables and receipt after `publish_event`, or why it raises. */
  function Published(cfg: Config, t: Tables, caller: Owner, a: PublishArgs, now: Instant)
    : Result<Publication, SessionError>
  {
    if TextFault(a).Some? then Err(TextFault(a).value)
    else if OwnerRefusal(cfg, t, a.key, caller).Some? then Err(OwnerRefusal(cfg, t, a.key, caller).value)
    else if !t.sessions[a.key].session.supportsEvents then Err(NoMirroring)
    else
      match FindEvent(t.EventsOf(a.key), a.eventId)
      case Some(row) =>
        if !SameContent(cfg, row.event, a) then Err(EventReused)
        else Ok(Publication(t, Receipt(row.event.sequence, row.sha, true)))
      case None =>
        var s := t.sessions[a.key].session;
        var row := NewEvent(cfg, a, s.latest + 1, now);
        var kept := Above(t.EventsOf(a.key) + [row], s.latest + 1 - MAX_AUTHORIZED_EVENTS);
        Ok(Publication(Tables(t.sessions[a.key := Sealed(cfg, Refreshed(s, a.state, s.latest + 1, now))],
                              t.events[a.key := kept]),
                       Receipt(s.latest + 1, row.sha, false)))
  }

  /** The tables after `close`, or why it raises. */
  function Closed(cfg: Config, t: Tables, caller: Owner, key: SessionKey, state: SessionState, now: Instant)
    : Result<Tables, SessionError>
  {
    if !IsTerminal(state) then Err(NotTerminal)
    else if OwnerRefusal(cfg, t, key, caller).Some? then Err(OwnerRefusal(cfg, t, key, caller).value)
    else
      var s := t.sessions[key].session;
      Ok(t.WithSession(key, Sealed(cfg, Refreshed(s, state, s.latest, now))))
  }

  lemma WithoutOneMore(t: Tables, keys: seq<SessionKey>, i: nat)
    requires i < |keys|
    ensures t.Without(Elements(keys[..i + 1])) == t.Without(Elements(keys[..i])).Without({keys[i]})
  {
    ElementsAppend(keys, i);
  }

  lemma WithoutAll(t: Tables, keys: seq<SessionKey>)
    ensures t.Without(Elements(keys[..0])) == t
    ensures t.Without(Elements(keys[..|keys|])) == t.Without(Elements(keys))
  {
    assert keys[..|keys|] == keys;
  }

  // ----- the invariant -----

  /** The retained events of a session are exactly the last 1000 (or all) of its sequence, in order and intact. */
  ghost predicate IsWindow(cfg: Config, key: SessionKey, latest: int, rows: seq<EventRow>) {
    && 0 <= latest
    && |rows| == (if latest < MAX_AUTHORIZED_EVENTS then latest else MAX_AUTHORIZED_EVENTS)
    && (forall i | 0 <= i < |rows| ::
          && rows[i].event.sequence == latest - |rows| + 1 + i
          && rows[i].event.key == key
          && rows[i].sha == cfg.eventSha(rows[i].event))
    && (forall i, j | 0 <= i < j < |rows| :: rows[i].event.eventId != rows[j].event.eventId)
  }

  ghost predicate GoodRow(cfg: Config, key: SessionKey, row: SessionRow) {
    && row.session.key == key
    && SelfHashed(cfg, row)
    && (row.session.endedUtc.Some? <==> IsTerminal(row.session.state))
  }

  /** What every reachable pair of tables satisfies. */
  ghost predicate Consistent(cfg: Config, t: Tables) {
    && |t.sessions| <= cfg.maxRetained
    && t.events.Keys <= t.sessions.Keys
    && (forall k | k in t.sessions :: GoodSession(cfg, k, t.sessions[k], t.EventsOf(k)))
  }

  ghost predicate GoodSession(cfg: Config, key: SessionKey, row: SessionRow, rows: seq<EventRow>) {
    GoodRow(cfg, key, row) && IsWindow(cfg, key, row.session.latest, rows)
  }

  lemma {:induction false} AboveIsSuffix(rows: seq<EventRow>, first: int, bound: int)
    requires forall i | 0 <= i < |rows| :: rows[i].event.sequence == first + i
    ensures var n := bound - first + 1;
            Above(rows, bound) == if n <= 0 then rows else if n >= |rows| then [] else rows[n..]
    decreases |rows|
  {
    if rows != [] {
      AboveIsSuffix(rows[1..], first + 1, bound);
    }
  }

  lemma {:induction false} AboveMembers(rows: seq<EventRow>, bound: int)
    ensures forall row | row in Above(rows, bound) :: row in rows
  {
    if rows != [] {
      AboveMembers(rows[1..], bound);
      assert forall row | row in rows[1..] :: row in rows;
    }
  }

  lemma {:induction false} FindEventMeaning(rows: seq<EventRow>, eventId: string)
    ensures match FindEvent(rows, eventId)
            case Some(row) => row in rows && row.event.eventId == eventId
            case None => forall i | 0 <= i < |rows| :: rows[i].event.eventId != eventId
  {
    if rows != [] {
      FindEventMeaning(rows[1..], eventId);
    }
  }

  /** Appending one event and evicting keeps exactly the window that ends at the new sequence. */
  lemma WindowSlides(cfg: Config, key: SessionKey, latest: int, rows: seq<EventRow>, row: EventRow)
    requires IsWindow(cfg, key, latest, rows)
    requires row.event.sequence == latest + 1 && row.event.key == key && row.sha == cfg.eventSha(row.event)
    requires forall i | 0 <= i < |rows| :: rows[i].event.eventId != row.event.eventId
    ensures IsWindow(cfg, key, latest + 1, Above(rows + [row], latest + 1 - MAX_AUTHORIZED_EVENTS))
  {
    var all := rows + [row];
    AboveIsSuffix(all, latest + 1 - |rows|, latest + 1 - MAX_AUTHORIZED_EVENTS);
    var kept := if |rows| == MAX_AUTHORIZED_EVENTS then all[1..] else all;
    assert Above(all, latest + 1 - MAX_AUTHORIZED_EVENTS) == kept;
    WindowOfSuffix(cfg, key, latest, rows, row, kept);
  }

  lemma WindowOfSuffix(cfg: Config, key: SessionKey, latest: int, rows: seq<EventRow>, row: EventRow,
                       kept: seq<EventRow>)
    requires IsWindow(cfg, key, latest, rows)
    requires row.event.sequence == latest + 1 && row.event.key == key && row.sha == cfg.eventSha(row.event)
    requires forall i | 0 <= i < |rows| :: rows[i].event.eventId != row.event.eventId
    requires kept == if |rows| == MAX_AUTHORIZED_EVENTS then (rows + [row])[1..] else rows + [row]
    ensures IsWindow(cfg, key, latest + 1, kept)
  {
  }

  // ----- every operation keeps the tables consistent -----

  /** Tables that differ from consistent ones in one session are consistent if that session is good. */
  lemma OneSessionChanged(cfg: Config, t: Tables, u: Tables, key: SessionKey)
    requires Consistent(cfg, t) && |u.sessions| <= cfg.maxRetained
    requires key in u.sessions && GoodSession(cfg, key, u.sessions[key], u.EventsOf(key))
    requires u.events.Keys <= u.sessions.Keys
    requires forall k | k in u.sessions && k != key ::
               k in t.sessions && u.sessions[k] == t.sessions[k] && u.EventsOf(k) == t.EventsOf(k)
    ensures Consistent(cfg, u)
  {
    forall k | k in u.sessions ensures GoodSession(cfg, k, u.sessions[k], u.EventsOf(k)) {
      assert k == key || GoodSession(cfg, k, t.sessions[k], t.EventsOf(k));
    }
  }

  lemma SameRows<K, V>(m: map<K, V>, key: K, v: V)
    ensures |m[key := v]| == if key in m then |m| else |m| + 1
  {
    assert m[key := v].Keys == m.Keys + {key};
    assert |m[key := v]| == |m[key := v].Keys| && |m| == |m.Keys|;
  }

  /** The tables a connect starts from: pruned for a new key, as they are for a known one. */
  ghost function ConnectBase(cfg: Config, t: Tables, key: SessionKey, now: int): Result<Tables, SessionError> {
    if key in t.sessions then Ok(t) else Pruned(cfg, t, now)
  }

  lemma ConnectBaseMeaning(cfg: Config, t: Tables, key: SessionKey, now: int)
    requires ValidConfig(cfg) && Consistent(cfg, t) && ConnectBase(cfg, t, key, now).Ok?
    ensures var base := ConnectBase(cfg, t, key, now).value;
            && |base.sessions| + (if key in base.sessions then 0 else 1) <= cfg.maxRetained
            && base.events.Keys <= base.sessions.Keys && base.EventsOf(key) == t.EventsOf(key)
            && forall k | k in base.sessions ::
                 k in t.sessions && base.sessions[k] == t.sessions[k] && base.EventsOf(k) == t.EventsOf(k)
  {
    hide GoodSession, Pruned, Prunable, OldestFirst;
    PruneMakesRoom(cfg, t, now);
  }

  /** A connect puts one good row into the tables it starts from. */
  lemma ConnectedRowIn(cfg: Config, t: Tables, rooms: Rooms, caller: Owner, a: ConnectArgs, now: Instant)
    requires Consistent(cfg, t) && Connected(cfg, t, rooms, caller, a, now).Ok?
    ensures ConnectBase(cfg, t, a.key, now.epoch).Ok?
    ensures var u := Connected(cfg, t, rooms, caller, a, now).value;
            && a.key in u.sessions && GoodSession(cfg, a.key, u.sessions[a.key], t.EventsOf(a.key))
            && u == ConnectBase(cfg, t, a.key, now.epoch).value.WithSession(a.key, u.sessions[a.key])
  {
    hide IsWindow, RoomTaken, BindRoom, ReconnectRefusal, Pruned;
    if a.key in t.sessions {
      assert GoodSession(cfg, a.key, t.sessions[a.key], t.EventsOf(a.key));
    } else {
      assert t.EventsOf(a.key) == [];
      NoEventsYet(cfg, a.key);
    }
    hide Consistent;
  }

  lemma ConnectKeepsConsistent(cfg: Config, t: Tables, rooms: Rooms, caller: Owner, a: ConnectArgs, now: Instant)
    requires ValidConfig(cfg) && Consistent(cfg, t)
    ensures var r := Connected(cfg, t, rooms, caller, a, now); r.Ok? ==> Consistent(cfg, r.value)
  {
    hide IsWindow, Connected, ConnectBase, Consistent, Pruned;
    var r := Connected(cfg, t, rooms, caller, a, now);
    if r.Ok? {
      ConnectedRowIn(cfg, t, rooms, caller, a, now);
      ConnectBaseMeaning(cfg, t, a.key, now.epoch);
      var base := ConnectBase(cfg, t, a.key, now.epoch).value;
      SameRows(base.sessions, a.key, r.value.sessions[a.key]);
      OneSessionChanged(cfg, t, r.value, a.key);
    }
  }

  lemma NoEventsYet(cfg: Config, key: SessionKey)
    ensures IsWindow(cfg, key, 0, [])
  {
  }

  lemma WithoutMeaning(t: Tables, v: set<SessionKey>)
    requires v <= t.sessions.Keys
    ensures var p := t.Without(v);
            && |p.sessions| == |t.sessions| - |v|
            && t.sessions.Keys - p.sessions.Keys == v
            && (forall k :: k in p.sessions <==> k in t.sessions && k !in v)
            && (forall k | k in p.sessions :: p.sessions[k] == t.sessions[k])
            && (forall k :: k in p.events <==> k in t.events && k !in v)
            && (forall k | k in p.events :: p.events[k] == t.events[k])
  {
    SmallerMap(t.sessions, v);
  }

  lemma SmallerMap<K, V>(m: map<K, V>, v: set<K>)
    requires v <= m.Keys
    ensures |m - v| == |m| - |v| && m.Keys - (m - v).Keys == v
  {
    assert (m - v).Keys == m.Keys - v;
    CountKeys(m);
    CountKeys(m - v);
    CountRest(m.Keys, v);
  }

  lemma CountKeys<K, V>(m: map<K, V>)
    ensures |m| == |m.Keys|
  {
  }

  lemma CountRest<K>(s: set<K>, v: set<K>)
    requires v <= s
    ensures |s - v| == |s| - |v| && s - (s - v) == v
  {
  }

  /** Retention removes only prunable sessions with their events, and leaves room for one more row. */
  lemma PruneMakesRoom(cfg: Config, t: Tables, now: int)
    requires ValidConfig(cfg)
    ensures match Pruned(cfg, t, now)
            case Err(_) => |t.sessions| >= cfg.maxRetained
            case Ok(p) =>
              && |p.sessions| < cfg.maxRetained
              && (|t.sessions| < cfg.maxRetained ==> p == t)
              && (forall k :: k in p.sessions ==> k in t.sessions && p.sessions[k] == t.sessions[k])
              && (forall k :: k in p.events <==> k in t.events && k !in t.sessions.Keys - p.sessions.Keys)
              && (forall k | k in p.events :: p.events[k] == t.events[k])
              && (forall k | k in t.sessions.Keys - p.sessions.Keys ::
                    && k in Prunable(cfg, t, now)
                    && forall o | o in p.sessions && o in Prunable(cfg, t, now) :: OldestFirst(t.sessions, k, o))
  {
    var required := |t.sessions| - cfg.maxRetained + 1;
    var r := Pruned(cfg, t, now);
    if required > 0 && r.Ok? {
      hide OldestPrunable, OldestFirst, Elements, SelfHashed;
      var v := Elements(OldestPrunable(cfg, t, now, required));
      OldestPrunableMeaning(cfg, t, now, required);
      assert r.value == t.Without(v);
      hide Pruned;
      WithoutMeaning(t, v);
    }
  }

  lemma PublishKeepsConsistent(cfg: Config, t: Tables, caller: Owner, a: PublishArgs, now: Instant)
    requires ValidConfig(cfg) && Consistent(cfg, t)
    ensures var r := Published(cfg, t, caller, a, now); r.Ok? ==> Consistent(cfg, r.value.tables)
  {
    hide IsWindow, TextFault, SameContent, Above, FindEvent;
    var r := Published(cfg, t, caller, a, now);
    if r.Ok? && FindEvent(t.EventsOf(a.key), a.eventId).None? {
      var rows, s := t.EventsOf(a.key), t.sessions[a.key].session;
      var u := r.value.tables;
      assert GoodSession(cfg, a.key, t.sessions[a.key], rows);
      FindEventMeaning(rows, a.eventId);
      WindowSlides(cfg, a.key, s.latest, rows, NewEvent(cfg, a, s.latest + 1, now));
      SameRows(t.sessions, a.key, u.sessions[a.key]);
      OneSessionChanged(cfg, t, u, a.key);
    }
  }

  lemma CloseKeepsConsistent(cfg: Config, t: Tables, caller: Owner, key: SessionKey, state: SessionState, now: Instant)
    requires ValidConfig(cfg) && Consistent(cfg, t)
    ensures var r := Closed(cfg, t, caller, key, state, now); r.Ok? ==> Consistent(cfg, r.value)
  {
    hide IsWindow;
    var r := Closed(cfg, t, caller, key, state, now);
    if r.Ok? {
      assert GoodSession(cfg, key, t.sessions[key], t.EventsOf(key));
      SameRows(t.sessions, key, r.value.sessions[key]);
      OneSessionChanged(cfg, t, r.value, key);
    }
  }

  // ----- idempotent replay -----

  /**
   Publishing the same event again is a replay, with the receipt of the first time and no change,
   exactly while the first event is still among the last 1000 of its session.
   */
  lemma ReplayWindow(cfg: Config, t: Tables, caller: Owner, a: PublishArgs, first: Event, now: Instant)
    requires Consistent(cfg, t) && a.key in t.sessions && 1 <= first.sequence <= t.sessions[a.key].session.latest
    requires first.key == a.key && first.eventId == a.eventId && SameContent(cfg, first, a)
    // the rows the session still keeps at that sequence or with that id are the first event itself
    requires forall row | row in t.EventsOf(a.key)
             && (row.event.sequence == first.sequence || row.event.eventId == a.eventId) :: row.event == first
    requires TextFault(a).None? && OwnerRefusal(cfg, t, a.key, caller).None? && t.sessions[a.key].session.supportsEvents
    ensures Published(cfg, t, caller, a, now) == Ok(Publication(t, Receipt(first.sequence, cfg.eventSha(first), true)))
            <==> t.sessions[a.key].session.latest - first.sequence < MAX_AUTHORIZED_EVENTS
  {
    var rows := t.EventsOf(a.key);
    var latest := t.sessions[a.key].session.latest;
    assert GoodSession(cfg, a.key, t.sessions[a.key], rows);
    FindEventMeaning(rows, a.eventId);
    if latest - first.sequence < MAX_AUTHORIZED_EVENTS {
      var i := first.sequence - (latest - |rows| + 1);
      assert rows[i] in rows && rows[i].event.sequence == first.sequence;
    } else {
      assert forall i | 0 <= i < |rows| :: rows[i] in rows && rows[i].event.sequence > first.sequence;
    }
  }

  /** Publishing twice in a row is publishing once: the second call, at any time, is a replay with the first receipt. */
  lemma PublishThenReplay(cfg: Config, t: Tables, caller: Owner, a: PublishArgs, now: Instant, later: Instant)
    requires ValidConfig(cfg) && Consistent(cfg, t) && Published(cfg, t, caller, a, now).Ok?
    ensures var p := Published(cfg, t, caller, a, now).value;
            Published(cfg, p.tables, caller, a, later)
            == Ok(Publication(p.tables, Receipt(p.receipt.sequence, p.receipt.eventSha, true)))
  {
    hide Above, IsWindow, FindEvent;
    if FindEvent(t.EventsOf(a.key), a.eventId).None? {
      var rows, s := t.EventsOf(a.key), t.sessions[a.key].session;
      var row := NewEvent(cfg, a, s.latest + 1, now);
      assert GoodSession(cfg, a.key, t.sessions[a.key], rows);
      FindEventMeaning(rows, a.eventId);
      NewestIsFound(cfg, a.key, s.latest, rows, row);
    }
  }

  /** The appended event is kept, and is the one its id finds. */
  lemma NewestIsFound(cfg: Config, key: SessionKey, latest: int, rows: seq<EventRow>, row: EventRow)
    requires IsWindow(cfg, key, latest, rows)
    requires row.event.sequence == latest + 1
    requires forall i | 0 <= i < |rows| :: rows[i].event.eventId != row.event.eventId
    ensures FindEvent(Above(rows + [row], latest + 1 - MAX_AUTHORIZED_EVENTS), row.event.eventId) == Some(row)
  {
    var all := rows + [row];
    AboveIsSuffix(all, latest + 1 - |rows|, latest + 1 - MAX_AUTHORIZED_EVENTS);
    hide IsWindow, Above, FindEvent;
    FindsLast(rows, row);
    if |rows| == MAX_AUTHORIZED_EVENTS {
      FindsLast(rows[1..], row);
      assert all[1..] == rows[1..] + [row];
    }
  }

  lemma {:induction false} FindsLast(rows: seq<EventRow>, row: EventRow)
    requires forall i | 0 <= i < |rows| :: rows[i].event.eventId != row.event.eventId
    ensures FindEvent(rows + [row], row.event.eventId) == Some(row)
  {
    if rows != [] {
      assert (rows + [row])[1..] == rows[1..] + [row];
      FindsLast(rows[1..], row);
    }
  }
}
