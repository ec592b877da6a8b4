/**
 Whole runs of the session registry: any sequence of connects, publishes and closes by any callers, in any order,
 with the clock never going back (src/peerbridge_mcp/authorized_sessions.py:347-847).
 */
module SessionRuns {
  import opened Results
  import opened AuthorizedSessions

  datatype Operation = ConnectOp(rooms: Rooms, caller: Owner, args: ConnectArgs)
                     | PublishOp(publisher: Owner, event: PublishArgs)
                     | CloseOp(closer: Owner, key: SessionKey, state: SessionState)
  datatype Step = Step(op: Operation, now: Instant)

  const NO_SESSIONS := Tables(map[], map[])

  /** A refused operation leaves the tables alone. */
  ghost function After(cfg: Config, t: Tables, step: Step): Tables {
    match step.op
    case ConnectOp(rooms, caller, a) =>
      var r := Connected(cfg, t, rooms, caller, a, step.now);
      if r.Ok? then r.value else t
    case PublishOp(caller, a) =>
      var r := Published(cfg, t, caller, a, step.now);
      if r.Ok? then r.value.tables else t
    case CloseOp(caller, key, state) =>
      var r := Closed(cfg, t, caller, key, state, step.now);
      if r.Ok? then r.value else t
  }

  ghost function Run(cfg: Config, t: Tables, steps: seq<Step>): Tables
    decreases |steps|
  {
    if steps == [] then t else Run(cfg, After(cfg, t, steps[0]), steps[1..])
  }

  lemma StepKeepsConsistent(cfg: Config, t: Tables, step: Step)
    requires ValidConfig(cfg) && Consistent(cfg, t)
    ensures Consistent(cfg, After(cfg, t, step))
  {
    match step.op
    case ConnectOp(rooms, caller, a) => ConnectKeepsConsistent(cfg, t, rooms, caller, a, step.now);
    case PublishOp(caller, a) => PublishKeepsConsistent(cfg, t, caller, a, step.now);
    case CloseOp(caller, key, state) => CloseKeepsConsistent(cfg, t, caller, key, state, step.now);
  }

  /**
   Every reachable registry is consistent: digests match, ends are recorded, no orphans, capped, windows contiguous.
   */
  lemma {:induction false} RunsStayConsistent(cfg: Config, t: Tables, steps: seq<Step>)
    requires ValidConfig(cfg) && Consistent(cfg, t)
    ensures Consistent(cfg, Run(cfg, t, steps))
    decreases |steps|
  {
    if steps != [] {
      StepKeepsConsistent(cfg, t, steps[0]);
      RunsStayConsistent(cfg, After(cfg, t, steps[0]), steps[1..]);
    }
  }

  lemma ReachableIsConsistent(cfg: Config, steps: seq<Step>)
    requires ValidConfig(cfg)
    ensures Consistent(cfg, Run(cfg, NO_SESSIONS, steps))
  {
    RunsStayConsistent(cfg, NO_SESSIONS, steps);
  }

  // ----- redaction -----

  predicate RedactedRow(cfg: Config, row: EventRow) {
    cfg.redact(row.event.text) == row.event.text
    && (row.event.summary.Some? ==> cfg.redact(row.event.summary.value) == row.event.summary.value)
  }

  ghost predicate RowsRedacted(cfg: Config, rows: seq<EventRow>) {
    forall i | 0 <= i < |rows| :: RedactedRow(cfg, rows[i])
  }

  ghost predicate AllRedacted(cfg: Config, t: Tables) {
    forall k | k in t.events :: RowsRedacted(cfg, t.events[k])
  }

  lemma PublishedIsRedacted(cfg: Config, rows: seq<EventRow>, a: PublishArgs, sequence: int, now: Instant, bound: int)
    requires RowsRedacted(cfg, rows) && forall x :: cfg.redact(cfg.redact(x)) == cfg.redact(x)
    ensures RowsRedacted(cfg, Above(rows + [NewEvent(cfg, a, sequence, now)], bound))
  {
    var all := rows + [NewEvent(cfg, a, sequence, now)];
    var kept := Above(all, bound);
    AboveMembers(all, bound);
    assert RedactedRow(cfg, NewEvent(cfg, a, sequence, now));
    assert forall x | x in all :: RedactedRow(cfg, x);
    assert forall i | 0 <= i < |kept| :: kept[i] in kept;
  }

  lemma PublishKeepsRedacted(cfg: Config, t: Tables, caller: Owner, a: PublishArgs, now: Instant)
    requires AllRedacted(cfg, t) && forall x :: cfg.redact(cfg.redact(x)) == cfg.redact(x)
    ensures var r := Published(cfg, t, caller, a, now); r.Ok? ==> AllRedacted(cfg, r.value.tables)
  {
    var r := Published(cfg, t, caller, a, now);
    if r.Ok? && FindEvent(t.EventsOf(a.key), a.eventId).None? {
      hide RowsRedacted, NewEvent, Above;
      var sequence := t.sessions[a.key].session.latest + 1;
      assert RowsRedacted(cfg, t.EventsOf(a.key)) by { NoRowsRedacted(cfg); }
      PublishedIsRedacted(cfg, t.EventsOf(a.key), a, sequence, now, sequence - MAX_AUTHORIZED_EVENTS);
    }
  }

  lemma NoRowsRedacted(cfg: Config)
    ensures RowsRedacted(cfg, [])
  {
  }

  lemma ConnectKeepsRedacted(cfg: Config, t: Tables, rooms: Rooms, caller: Owner, a: ConnectArgs, now: Instant)
    requires ValidConfig(cfg) && AllRedacted(cfg, t)
    ensures var r := Connected(cfg, t, rooms, caller, a, now); r.Ok? ==> AllRedacted(cfg, r.value)
  {
    hide RowsRedacted, RoomTaken, BindRoom, ReconnectRefusal, ConnectedRow, Pruned, Prunable, OldestFirst;
    PruneMakesRoom(cfg, t, now.epoch);
  }

  lemma StepKeepsRedacted(cfg: Config, t: Tables, step: Step)
    requires ValidConfig(cfg) && AllRedacted(cfg, t)
    requires forall x :: cfg.redact(cfg.redact(x)) == cfg.redact(x)
    ensures AllRedacted(cfg, After(cfg, t, step))
  {
    hide RowsRedacted, Published, Connected;
    match step.op
    case ConnectOp(rooms, caller, a) => ConnectKeepsRedacted(cfg, t, rooms, caller, a, step.now);
    case PublishOp(caller, a) => PublishKeepsRedacted(cfg, t, caller, a, step.now);
    case CloseOp(_, _, _) =>
  }

  /** In every reachable registry each stored text and summary is one that redaction leaves as it is. */
  lemma {:induction false} RunsStayRedacted(cfg: Config, t: Tables, steps: seq<Step>)
    requires ValidConfig(cfg) && AllRedacted(cfg, t)
    requires forall x :: cfg.redact(cfg.redact(x)) == cfg.redact(x)
    ensures AllRedacted(cfg, Run(cfg, t, steps))
    decreases |steps|
  {
    if steps != [] {
      StepKeepsRedacted(cfg, t, steps[0]);
      RunsStayRedacted(cfg, After(cfg, t, steps[0]), steps[1..]);
    }
  }

  // ----- identity -----

  /** The session is in the table before and after every step of the run. */
  ghost predicate Kept(cfg: Config, t: Tables, steps: seq<Step>, key: SessionKey)
    decreases |steps|
  {
    && key in t.sessions
    && (steps != [] ==> Kept(cfg, After(cfg, t, steps[0]), steps[1..], key))
  }

  /** What no operation changes about a row, and the only way its bridge session changes. */
  ghost predicate SameIdentity(before: Session, after: Session) {
    && after.owner.agent == before.owner.agent
    && after.binding == before.binding
    && after.createdUtc == before.createdUtc && after.startedUtc == before.startedUtc
    && after.latest >= before.latest
  }

  lemma StepKeepsIdentity(cfg: Config, t: Tables, step: Step, key: SessionKey)
    requires ValidConfig(cfg) && key in t.sessions && key in After(cfg, t, step).sessions
    ensures var before, after := t.sessions[key].session, After(cfg, t, step).sessions[key].session;
            && SameIdentity(before, after)
            && (after.owner.bridgeSession != before.owner.bridgeSession ==>
                  && step.op.ConnectOp? && step.op.args.key == key && step.op.caller.agent == before.owner.agent
                  && (IsStale(cfg, before, step.now.epoch) || IsTerminal(before.state)))
  {
    hide Above, FindEvent, NewEvent, TextFault, SameContent, SelfHashed, BindRoom, RoomTaken, Pruned;
    if step.op.ConnectOp? && step.op.args.key !in t.sessions {
      PruneMakesRoom(cfg, t, step.now.epoch);
    }
  }

  /** While a row exists its owner agent, conversation and room binding never change, however long the run. */
  lemma {:induction false} IdentityNeverChanges(cfg: Config, t: Tables, steps: seq<Step>, key: SessionKey)
    requires ValidConfig(cfg) && Kept(cfg, t, steps, key)
    ensures key in Run(cfg, t, steps).sessions
    ensures SameIdentity(t.sessions[key].session, Run(cfg, t, steps).sessions[key].session)
    decreases |steps|
  {
    if steps != [] {
      StepKeepsIdentity(cfg, t, steps[0], key);
      IdentityNeverChanges(cfg, After(cfg, t, steps[0]), steps[1..], key);
    }
  }

  // ----- one live session per room session -----

  ghost predicate SameRoom(a: Session, b: Session) {
    a.binding.roomSession.Some? && a.binding.roomSession == b.binding.roomSession
  }

  ghost predicate Exclusive(cfg: Config, t: Tables, now: int) {
    forall a, b | a in t.sessions && b in t.sessions && a != b
                  && IsLive(cfg, t.sessions[a].session, now) && IsLive(cfg, t.sessions[b].session, now) ::
      !SameRoom(t.sessions[a].session, t.sessions[b].session)
  }

  ghost predicate ClockFrom(steps: seq<Step>, time: int) {
    steps == [] || (time <= steps[0].now.epoch && ClockFrom(steps[1..], steps[0].now.epoch))
  }

  ghost function ClockAt(steps: seq<Step>, time: int): int {
    if steps == [] then time else ClockAt(steps[1..], steps[0].now.epoch)
  }

  /** Every publish of the run targets a session that is live at that moment. */
  ghost predicate PublishesToLive(cfg: Config, t: Tables, steps: seq<Step>)
    decreases |steps|
  {
    steps == [] ||
    (&& (steps[0].op.PublishOp? && steps[0].op.event.key in t.sessions ==>
           IsLive(cfg, t.sessions[steps[0].op.event.key].session, steps[0].now.epoch))
     && PublishesToLive(cfg, After(cfg, t, steps[0]), steps[1..]))
  }

  /** Sessions only stop being live as time passes. */
  lemma TimePasses(cfg: Config, t: Tables, now: int, later: int)
    requires Exclusive(cfg, t, now) && now <= later
    ensures Exclusive(cfg, t, later)
  {
    forall a, b | a in t.sessions && b in t.sessions && a != b
                  && IsLive(cfg, t.sessions[a].session, later) && IsLive(cfg, t.sessions[b].session, later)
      ensures !SameRoom(t.sessions[a].session, t.sessions[b].session)
    {
      assert IsLive(cfg, t.sessions[a].session, now) && IsLive(cfg, t.sessions[b].session, now);
    }
  }

  /**
   Tables whose live sessions, but for one, were live in exclusive tables, and whose one exception has its room to
   itself.
   */
  lemma OneSessionMoved(cfg: Config, t: Tables, u: Tables, key: SessionKey, now: int)
    requires Exclusive(cfg, t, now)
    requires forall k | k in u.sessions && k != key :: k in t.sessions && u.sessions[k] == t.sessions[k]
    requires key in u.sessions && IsLive(cfg, u.sessions[key].session, now)
             ==> !RoomTaken(cfg, t, key, u.sessions[key].session.binding.roomSession, now)
    ensures Exclusive(cfg, u, now)
  {
  }

  lemma StepKeepsExclusive(cfg: Config, t: Tables, step: Step)
    requires ValidConfig(cfg) && Exclusive(cfg, t, step.now.epoch)
    requires step.op.PublishOp? && step.op.event.key in t.sessions
             ==> IsLive(cfg, t.sessions[step.op.event.key].session, step.now.epoch)
    ensures Exclusive(cfg, After(cfg, t, step), step.now.epoch)
  {
    var u := After(cfg, t, step);
    match step.op
    case ConnectOp(rooms, caller, a) =>
      if a.key !in t.sessions {
        PruneMakesRoom(cfg, t, step.now.epoch);
      }
      if Connected(cfg, t, rooms, caller, a, step.now).Ok? {
        OneSessionMoved(cfg, t, u, a.key, step.now.epoch);
      }
    case PublishOp(caller, a) =>
      if a.key in t.sessions {
        OneSessionMoved(cfg, t, u, a.key, step.now.epoch);
      }
    case CloseOp(caller, key, state) =>
      if Closed(cfg, t, caller, key, state, step.now).Ok? {
        OneSessionMoved(cfg, t, u, key, step.now.epoch);
      }
  }

  /**
   If every publish of a run targets a session live at that moment, at most one live session exists per room session
   at the end of the run and at every later time; taking prefixes, at all times of the run.
   */
  lemma {:induction false} OneLiveSessionPerRoom(cfg: Config, t: Tables, steps: seq<Step>, time: int, later: int)
    requires ValidConfig(cfg) && Exclusive(cfg, t, time)
    requires ClockFrom(steps, time) && PublishesToLive(cfg, t, steps)
    requires later >= ClockAt(steps, time)
    ensures Exclusive(cfg, Run(cfg, t, steps), later)
    decreases |steps|
  {
    if steps == [] {
      TimePasses(cfg, t, time, later);
    } else {
      TimePasses(cfg, t, time, steps[0].now.epoch);
      StepKeepsExclusive(cfg, t, steps[0]);
      OneLiveSessionPerRoom(cfg, After(cfg, t, steps[0]), steps[1..], steps[0].now.epoch, later);
    }
  }

  /**
   Without that hypothesis a publish can break it, and does exactly when it leaves its session running in a room
   that another live session holds: the check `connect` makes and `publish_event` does not.
   */
  lemma PublishKeepsExclusiveIff(cfg: Config, t: Tables, caller: Owner, a: PublishArgs, now: Instant)
    requires ValidConfig(cfg) && Exclusive(cfg, t, now.epoch)
    requires var r := Published(cfg, t, caller, a, now); r.Ok? && !r.value.receipt.replay
    ensures Exclusive(cfg, Published(cfg, t, caller, a, now).value.tables, now.epoch)
            <==> IsTerminal(a.state)
                 || !RoomTaken(cfg, t, a.key, t.sessions[a.key].session.binding.roomSession, now.epoch)
  {
    var u := Published(cfg, t, caller, a, now).value.tables;
    var room := t.sessions[a.key].session.binding.roomSession;
    assert forall k | k in t.sessions && k != a.key :: u.sessions[k] == t.sessions[k];
    if !IsTerminal(a.state) && RoomTaken(cfg, t, a.key, room, now.epoch) {
      var k :| k in t.sessions && k != a.key && IsLive(cfg, t.sessions[k].session, now.epoch)
            && t.sessions[k].session.binding.roomSession == room;
      assert IsLive(cfg, u.sessions[a.key].session, now.epoch)
             && SameRoom(u.sessions[a.key].session, u.sessions[k].session);
    } else {
      OneSessionMoved(cfg, t, u, a.key, now.epoch);
    }
  }

  /** The step is a publish that leaves its session running in a room that another live session holds. */
  ghost predicate RevivesInto(cfg: Config, t: Tables, step: Step) {
    && step.op.PublishOp?
    && var a, r := step.op.event, Published(cfg, t, step.op.publisher, step.op.event, step.now);
       && r.Ok? && !r.value.receipt.replay && !IsTerminal(a.state) && a.key in t.sessions
       && RoomTaken(cfg, t, a.key, t.sessions[a.key].session.binding.roomSession, step.now.epoch)
  }

  lemma StepKeepsExclusiveIff(cfg: Config, t: Tables, step: Step)
    requires ValidConfig(cfg) && Exclusive(cfg, t, step.now.epoch)
    ensures Exclusive(cfg, After(cfg, t, step), step.now.epoch) <==> !RevivesInto(cfg, t, step)
  {
    hide Exclusive, RoomTaken, Connected, Closed;
    match step.op
    case PublishOp(caller, a) =>
      var r := Published(cfg, t, caller, a, step.now);
      if r.Ok? && !r.value.receipt.replay {
        PublishKeepsExclusiveIff(cfg, t, caller, a, step.now);
      }
      hide TextFault, Above, FindEvent, NewEvent, SameContent;
    case ConnectOp(_, _, _) => StepKeepsExclusive(cfg, t, step);
    case CloseOp(_, _, _) => StepKeepsExclusive(cfg, t, step);
  }

  /** Rooms are exclusive now and after every further step, and so at all times between, by TimePasses. */
  ghost predicate StaysExclusive(cfg: Config, t: Tables, steps: seq<Step>, time: int)
    decreases |steps|
  {
    && Exclusive(cfg, t, time)
    && (steps != [] ==> StaysExclusive(cfg, After(cfg, t, steps[0]), steps[1..], steps[0].now.epoch))
  }

  ghost predicate NeverRevivesInto(cfg: Config, t: Tables, steps: seq<Step>)
    decreases |steps|
  {
    steps == []
    || (!RevivesInto(cfg, t, steps[0]) && NeverRevivesInto(cfg, After(cfg, t, steps[0]), steps[1..]))
  }

  /** Rooms stay exclusive throughout a run if and only if no publish of it revives a session into a taken room. */
  lemma {:induction false} StaysExclusiveIff(cfg: Config, t: Tables, steps: seq<Step>, time: int)
    requires ValidConfig(cfg) && Exclusive(cfg, t, time) && ClockFrom(steps, time)
    ensures StaysExclusive(cfg, t, steps, time) <==> NeverRevivesInto(cfg, t, steps)
    decreases |steps|
  {
    if steps != [] {
      hide Exclusive, After, RevivesInto;
      var u, now := After(cfg, t, steps[0]), steps[0].now.epoch;
      TimePasses(cfg, t, time, now);
      StepKeepsExclusiveIff(cfg, t, steps[0]);
      if Exclusive(cfg, u, now) {
        StaysExclusiveIff(cfg, u, steps[1..], now);
      } else {
        assert !StaysExclusive(cfg, u, steps[1..], now);
      }
    }
  }

  // A closed session revived by a late publish: connect one, close it, connect another in the same room, publish to the
  // first.

  function SampleConnect(id: string, time: int): Step {
    var profile := Profile("adapter", "name", "client", None, None, None, None, None, None);
    Step(ConnectOp(map[RoomMember("room", "agent") := Membership("room-session", Role("member", None))],
                   Owner("agent", "bridge"),
                   ConnectArgs(SessionKey(AuthorizedTerminal, id), "conversation", profile, Some("room"), Running,
                               true)),
         Instant("utc", time))
  }

  function RevivalRun(): seq<Step> {
    [SampleConnect("one", 1),
     Step(CloseOp(Owner("agent", "bridge"), SessionKey(AuthorizedTerminal, "one"), Stopped), Instant("utc", 2)),
     SampleConnect("two", 3),
     Step(PublishOp(Owner("agent", "bridge"),
                    PublishArgs(SessionKey(AuthorizedTerminal, "one"), "event", Stdout, AnswerEvent, "late", "",
                                Running)),
          Instant("utc", 4))]
  }

  lemma FreshConnect(cfg: Config, t: Tables, id: string, time: int)
    requires SessionKey(AuthorizedTerminal, id) !in t.sessions && |t.sessions| < cfg.maxRetained
    requires !RoomTaken(cfg, t, SessionKey(AuthorizedTerminal, id), Some("room-session"), time)
    ensures var key, u := SessionKey(AuthorizedTerminal, id), After(cfg, t, SampleConnect(id, time));
            && u.sessions.Keys == t.sessions.Keys + {key} && u == t.WithSession(key, u.sessions[key])
            && SelfHashed(cfg, u.sessions[key])
            && var s := u.sessions[key].session;
               s.state == Running && s.lastSeen.epoch == time && s.binding.roomSession == Some("room-session")
               && s.owner == Owner("agent", "bridge") && s.supportsEvents
  {
  }

  lemma RevivalBreaksExclusive(cfg: Config)
    requires ValidConfig(cfg) && cfg.maxRetained >= 2
    ensures ClockFrom(RevivalRun(), 0) && !Exclusive(cfg, Run(cfg, NO_SESSIONS, RevivalRun()), 4)
  {
    var run := RevivalRun();
    var one, two := SessionKey(AuthorizedTerminal, "one"), SessionKey(AuthorizedTerminal, "two");
    FreshConnect(cfg, NO_SESSIONS, "one", 1);
    var t1 := After(cfg, NO_SESSIONS, run[0]);
    var t2 := After(cfg, t1, run[1]);
    assert t2.sessions.Keys == {one} && IsTerminal(t2.sessions[one].session.state);
    assert |t2.sessions| == |t2.sessions.Keys| == 1;
    FreshConnect(cfg, t2, "two", 3);
    var t3 := After(cfg, t2, run[2]);
    var t4 := After(cfg, t3, run[3]);
    assert t4.sessions[one].session.state == Running;
    assert IsLive(cfg, t4.sessions[one].session, 4) && IsLive(cfg, t4.sessions[two].session, 4);
    assert SameRoom(t4.sessions[one].session, t4.sessions[two].session);
    FourSteps(cfg, NO_SESSIONS, run);
    assert run[1].now.epoch == 2 && run[2].now.epoch == 3;
  }

  lemma FourSteps(cfg: Config, t: Tables, run: seq<Step>)
    requires |run| == 4
    ensures Run(cfg, t, run) == After(cfg, After(cfg, After(cfg, After(cfg, t, run[0]), run[1]), run[2]), run[3])
    ensures 0 <= run[0].now.epoch <= run[1].now.epoch <= run[2].now.epoch <= run[3].now.epoch ==> ClockFrom(run, 0)
  {
    var r1, r2, r3 := run[1..], run[2..], run[3..];
    assert r1[1..] == r2 && r2[1..] == r3 && r3[1..] == [];
    var t1 := After(cfg, t, run[0]);
    var t2 := After(cfg, t1, run[1]);
    var t3 := After(cfg, t2, run[2]);
    assert Run(cfg, t3, r3) == After(cfg, t3, run[3]);
    assert Run(cfg, t2, r2) == Run(cfg, t3, r3) && Run(cfg, t1, r1) == Run(cfg, t2, r2);
    if 0 <= run[0].now.epoch <= run[1].now.epoch <= run[2].now.epoch <= run[3].now.epoch {
      assert ClockFrom(r3, run[2].now.epoch);
      assert ClockFrom(r2, run[1].now.epoch);
      assert ClockFrom(r1, run[0].now.epoch);
    }
  }
}
