/**
 Bounded reads of session events (src/peerbridge_mcp/authorized_sessions.py:849-1102): cursors, the gap rule,
 the per-read limits, and the fair-share budget of a listing.
 */
module EventReads {
  import opened Results
  import opened Sorting
  import opened AuthorizedSessions

  const MAX_RESPONSE_EVENTS := 512
  const MAX_RESPONSE_BYTES := 8 * 1024 * 1024

  function NonNegative(n: int): nat {
    if n < 0 then 0 else n
  }

  /** `SELECT MIN(sequence)`, read as 0 when the session keeps no event. */
  function FirstRetained(rows: seq<EventRow>): int {
    if rows == [] then 0
    else if |rows| == 1 || rows[0].event.sequence < FirstRetained(rows[1..]) then rows[0].event.sequence
    else FirstRetained(rows[1..])
  }

  /** The cursor the read really uses: one that fell behind the retained window restarts from its beginning. */
  function EffectiveAfter(rows: seq<EventRow>, after: int): nat {
    var cursor := NonNegative(after);
    var first := FirstRetained(rows);
    if cursor > 0 && first != 0 && first > cursor + 1 then 0 else cursor
  }

  function Pending(rows: seq<EventRow>, after: int): seq<EventRow> {
    Above(rows, EffectiveAfter(rows, after))
  }

  function Bytes(cfg: Config, rows: seq<EventRow>): nat {
    if rows == [] then 0 else cfg.encodedSize(rows[0].event) + Bytes(cfg, rows[1..])
  }

  /** The rows a read returns under a count limit and a byte limit: it stops at the first row that does not fit. */
  function Take(cfg: Config, rows: seq<EventRow>, maxEvents: int, maxBytes: int): (taken: seq<EventRow>)
    ensures taken <= rows
    ensures |taken| <= NonNegative(maxEvents) && Bytes(cfg, taken) <= NonNegative(maxBytes)
  {
    if rows == [] || maxEvents <= 0 || cfg.encodedSize(rows[0].event) > NonNegative(maxBytes) then []
    else
      var rest := Take(cfg, rows[1..], maxEvents - 1, NonNegative(maxBytes) - cfg.encodedSize(rows[0].event));
      [rows[0]] + rest
  }

  /** When a read goes on: after `n` rows there is another one and it fits both limits. */
  lemma {:induction false} TakeContinues(cfg: Config, rows: seq<EventRow>, maxEvents: int, maxBytes: int, n: nat)
    requires n <= |Take(cfg, rows, maxEvents, maxBytes)|
    ensures n < |Take(cfg, rows, maxEvents, maxBytes)|
            <==> n < |rows| && n < NonNegative(maxEvents) && Bytes(cfg, rows[..n + 1]) <= NonNegative(maxBytes)
  {
    if n > 0 {
      var size := cfg.encodedSize(rows[0].event);
      TakeContinues(cfg, rows[1..], maxEvents - 1, NonNegative(maxBytes) - size, n - 1);
      if n < |rows| {
        assert rows[..n + 1][1..] == rows[1..][..n];
      }
    } else if rows != [] {
      assert rows[..1] == [rows[0]] && rows[..1][1..] == [];
    }
  }

  lemma {:induction false} BytesAppend(cfg: Config, rows: seq<EventRow>, row: EventRow)
    ensures Bytes(cfg, rows + [row]) == Bytes(cfg, rows) + cfg.encodedSize(row.event)
  {
    if rows != [] {
      BytesAppend(cfg, rows[1..], row);
      assert (rows + [row])[1..] == rows[1..] + [row];
    }
  }

  /** One turn of the reading loop. */
  lemma TakeTurn(cfg: Config, rows: seq<EventRow>, maxEvents: int, maxBytes: int, n: nat)
    requires n < |rows| && n <= |Take(cfg, rows, maxEvents, maxBytes)|
    ensures rows[..n] + [rows[n]] == rows[..n + 1]
    ensures Bytes(cfg, rows[..n + 1]) == Bytes(cfg, rows[..n]) + cfg.encodedSize(rows[n].event)
    ensures n < |Take(cfg, rows, maxEvents, maxBytes)|
            <==> n < NonNegative(maxEvents) && Bytes(cfg, rows[..n + 1]) <= NonNegative(maxBytes)
  {
    hide Take, Bytes;
    TakeContinues(cfg, rows, maxEvents, maxBytes, n);
    BytesAppend(cfg, rows[..n], rows[n]);
    assert rows[..n] + [rows[n]] == rows[..n + 1];
  }

  predicate Intact(cfg: Config, row: EventRow) {
    cfg.eventSha(row.event) == row.sha
  }

  /** A read checks the digest of every row it returns and of the row it stops at. */
  predicate ReadIntact(cfg: Config, rows: seq<EventRow>, taken: int) {
    forall i | 0 <= i < |rows| && i <= taken :: Intact(cfg, rows[i])
  }

  datatype Batch = Batch(rows: seq<EventRow>, first: int, bytes: nat)

  function EventsFor(cfg: Config, stored: seq<EventRow>, after: int, maxEvents: int, maxBytes: int)
    : Result<Batch, SessionError>
  {
    var rows := Pending(stored, after);
    var taken := Take(cfg, rows, maxEvents, maxBytes);
    if !ReadIntact(cfg, rows, |taken|) then Err(HashMismatch)
    else Ok(Batch(taken, FirstRetained(stored), Bytes(cfg, taken)))
  }

  function Share(remaining: int, sessions: int): int
    requires sessions > 0
  {
    if remaining > 0 then (remaining + sessions - 1) / sessions else 0
  }

  datatype Entry = Entry(session: Session, batch: Batch, stale: bool)

  function Cursor(cursors: map<SessionKey, int>, key: SessionKey): int {
    if key in cursors then cursors[key] else 0
  }

  function EntryFor(cfg: Config, t: Tables, row: SessionRow, cursors: map<SessionKey, int>, maxEvents: int,
                    maxBytes: int, now: int)
    : Result<Entry, SessionError>
  {
    var cursor := Cursor(cursors, row.session.key);
    if !SelfHashed(cfg, row) then Err(HashMismatch)
    else if cursor < 0 then Err(BadCursor)
    else
      match EventsFor(cfg, t.EventsOf(row.session.key), cursor, maxEvents, maxBytes)
      case Err(e) => Err(e)
      case Ok(batch) => Ok(Entry(row.session, batch, IsStale(cfg, row.session, now)))
  }

  /** The entries a listing builds from the rows it fetched, with what is left of the two budgets. */
  function Listed(cfg: Config, t: Tables, rows: seq<SessionRow>, cursors: map<SessionKey, int>,
                  events: int, bytes: int, now: int): Result<seq<Entry>, SessionError> {
    if rows == [] then Ok([])
    else
      match EntryFor(cfg, t, rows[0], cursors, Share(events, |rows|), Share(bytes, |rows|), now)
      case Err(e) => Err(e)
      case Ok(entry) =>
        match Listed(cfg, t, rows[1..], cursors, events - |entry.batch.rows|, bytes - entry.batch.bytes, now)
        case Err(e) => Err(e)
        case Ok(rest) => Ok([entry] + rest)
  }

  /** `whole` is what the loop will return, given the entries so far and the result of its remaining turns. */
  ghost predicate Continues(whole: Result<seq<Entry>, SessionError>, sofar: seq<Entry>,
                            rest: Result<seq<Entry>, SessionError>)
  {
    match rest
    case Err(e) => whole == Err(e)
    case Ok(entries) => whole == Ok(sofar + entries)
  }

  /** One turn of the listing loop. */
  lemma ListTurn(cfg: Config, t: Tables, rows: seq<SessionRow>, cursors: map<SessionKey, int>, events: int, bytes: int,
                 now: int, whole: Result<seq<Entry>, SessionError>, sofar: seq<Entry>, i: nat)
    requires i < |rows| && Continues(whole, sofar, Listed(cfg, t, rows[i..], cursors, events, bytes, now))
    ensures match EntryFor(cfg, t, rows[i], cursors, Share(events, |rows| - i), Share(bytes, |rows| - i), now)
            case Err(e) => whole == Err(e)
            case Ok(entry) =>
              Continues(whole, sofar + [entry],
                        Listed(cfg, t, rows[i + 1..], cursors, events - |entry.batch.rows|, bytes - entry.batch.bytes,
                               now))
  {
    hide EntryFor, Share;
    assert rows[i..][1..] == rows[i + 1..];
    var first := EntryFor(cfg, t, rows[i], cursors, Share(events, |rows| - i), Share(bytes, |rows| - i), now);
    if first.Ok? {
      var entry := first.value;
      ContinuesWith(whole, sofar, entry,
                    Listed(cfg, t, rows[i + 1..], cursors, events - |entry.batch.rows|, bytes - entry.batch.bytes,
                           now));
    }
  }

  lemma ContinuesWith(whole: Result<seq<Entry>, SessionError>, sofar: seq<Entry>, entry: Entry,
                      rest: Result<seq<Entry>, SessionError>)
    requires match rest
             case Err(e) => whole == Err(e)
             case Ok(entries) => whole == Ok(sofar + ([entry] + entries))
    ensures Continues(whole, sofar + [entry], rest)
  {
    if rest.Ok? {
      assert sofar + ([entry] + rest.value) == (sofar + [entry]) + rest.value;
    }
  }

  function TotalEvents(entries: seq<Entry>): nat {
    if entries == [] then 0 else |entries[0].batch.rows| + TotalEvents(entries[1..])
  }

  function TotalBytes(entries: seq<Entry>): nat {
    if entries == [] then 0 else entries[0].batch.bytes + TotalBytes(entries[1..])
  }

  // ----- fair share -----

  lemma TakeFirst(cfg: Config, rows: seq<EventRow>, e: int, b: int)
    requires rows != [] && e > 0 && cfg.encodedSize(rows[0].event) <= NonNegative(b)
    ensures Take(cfg, rows, e, b)
            == [rows[0]] + Take(cfg, rows[1..], e - 1, NonNegative(b) - cfg.encodedSize(rows[0].event))
  {
  }

  lemma TakeNothing(cfg: Config, rows: seq<EventRow>, e: int, b: int)
    requires rows == [] || e <= 0 || cfg.encodedSize(rows[0].event) > NonNegative(b)
    ensures Take(cfg, rows, e, b) == []
  {
  }

  lemma {:induction false} TakeMonotone(cfg: Config, rows: seq<EventRow>, e1: int, b1: int, e2: int, b2: int)
    requires e1 <= e2 && b1 <= b2
    ensures Take(cfg, rows, e1, b1) <= Take(cfg, rows, e2, b2)
  {
    hide Take, Bytes;
    if rows != [] && e1 > 0 && cfg.encodedSize(rows[0].event) <= NonNegative(b1) {
      var size := cfg.encodedSize(rows[0].event);
      TakeFirst(cfg, rows, e1, b1);
      TakeFirst(cfg, rows, e2, b2);
      TakeMonotone(cfg, rows[1..], e1 - 1, NonNegative(b1) - size, e2 - 1, NonNegative(b2) - size);
      PrefixBehind(rows[0], Take(cfg, rows[1..], e1 - 1, NonNegative(b1) - size),
                   Take(cfg, rows[1..], e2 - 1, NonNegative(b2) - size));
    } else {
      TakeNothing(cfg, rows, e1, b1);
    }
  }

  lemma PrefixBehind<T>(x: T, a: seq<T>, b: seq<T>)
    requires a <= b
    ensures [x] + a <= [x] + b
  {
  }

  lemma CeilingBounds(remaining: int, sessions: int)
    requires remaining > 0 && sessions > 0
    ensures remaining <= Share(remaining, sessions) * sessions <= remaining + sessions - 1
  {
  }

  lemma Distribute(a: int, b: int, c: int)
    ensures (a - b) * c == a * c - b * c
  {
  }

  /** Rounding the share up never costs the sessions after it their equal part. */
  lemma ShareLeavesEnough(remaining: int, sessions: int, equal: int)
    requires sessions > 0 && equal >= 0 && remaining >= equal * sessions
    ensures equal <= Share(remaining, sessions) <= remaining
    ensures remaining - Share(remaining, sessions) >= equal * (sessions - 1)
  {
    if remaining > 0 {
      CeilingBounds(remaining, sessions);
      hide Share;
      var share := Share(remaining, sessions);
      Distribute(share, equal, sessions);
      Distribute(sessions, 1, equal);
      RoundedUp(share - equal, remaining - equal * sessions, sessions);
      Scale(0, sessions - 1, equal);
    } else {
      Scale(1, sessions, equal);
    }
  }

  lemma RoundedUp(q: int, n: int, d: int)
    requires d > 0 && n >= 0 && n <= q * d <= n + d - 1
    ensures 0 <= q <= n
  {
    Scale(q, -1, d);
    Scale(n + 1, q, d);
    Scale(1, d, n);
    assert (n + 1) * d == n * d + d;
  }

  lemma Scale(a: int, b: int, c: int)
    requires 0 <= c
    ensures a <= b ==> a * c <= b * c
  {
  }

  /** The session's entry is a prefix of its pending events and holds at least what an equal part would hold. */
  ghost predicate GotPart(cfg: Config, t: Tables, row: SessionRow, cursors: map<SessionKey, int>, entry: Entry,
                          equalEvents: nat, equalBytes: nat) {
    var rows := Pending(t.EventsOf(row.session.key), Cursor(cursors, row.session.key));
    && entry.session == row.session
    && Take(cfg, rows, equalEvents, equalBytes) <= entry.batch.rows <= rows
  }

  ghost predicate AllGotPart(cfg: Config, t: Tables, rows: seq<SessionRow>, cursors: map<SessionKey, int>,
                             entries: seq<Entry>, equalEvents: nat, equalBytes: nat) {
    && |entries| == |rows|
    && forall i | 0 <= i < |rows| :: GotPart(cfg, t, rows[i], cursors, entries[i], equalEvents, equalBytes)
  }

  /** If the session has an undelivered event and it fits in `room` bytes, the entry delivers at least that one. */
  ghost predicate Progresses(cfg: Config, t: Tables, row: SessionRow, cursors: map<SessionKey, int>, entry: Entry,
                             room: nat)
  {
    var rows := Pending(t.EventsOf(row.session.key), Cursor(cursors, row.session.key));
    rows != [] && cfg.encodedSize(rows[0].event) <= room ==> entry.batch.rows != []
  }

  /** The loop of a listing, from any point of it: what is left is never overdrawn and every session gets its part. */
  lemma {:induction false} ListedShares(cfg: Config, t: Tables, rows: seq<SessionRow>, cursors: map<SessionKey, int>,
                                        events: int, bytes: int, now: int, equalEvents: nat, equalBytes: nat)
    requires events >= equalEvents * |rows| && bytes >= equalBytes * |rows|
    ensures var r := Listed(cfg, t, rows, cursors, events, bytes, now);
            r.Ok? ==>
              && AllGotPart(cfg, t, rows, cursors, r.value, equalEvents, equalBytes)
              && TotalEvents(r.value) <= events && TotalBytes(r.value) <= bytes
  {
    hide EntryFor, GotPart, Share;
    var r := Listed(cfg, t, rows, cursors, events, bytes, now);
    if rows != [] && r.Ok? {
      var e, b := Share(events, |rows|), Share(bytes, |rows|);
      ShareLeavesEnough(events, |rows|, equalEvents);
      ShareLeavesEnough(bytes, |rows|, equalBytes);
      var entry := EntryFor(cfg, t, rows[0], cursors, e, b, now).value;
      EntryGotPart(cfg, t, rows[0], cursors, e, b, now, equalEvents, equalBytes);
      ListedShares(cfg, t, rows[1..], cursors, events - |entry.batch.rows|, bytes - entry.batch.bytes, now, equalEvents,
                   equalBytes);
      assert r.value == [entry] + Listed(cfg, t, rows[1..], cursors, events - |entry.batch.rows|,
                                         bytes - entry.batch.bytes, now).value;
      PartsJoin(cfg, t, rows, cursors, r.value, equalEvents, equalBytes);
    }
  }

  lemma EntryGotPart(cfg: Config, t: Tables, row: SessionRow, cursors: map<SessionKey, int>, e: int, b: int, now: int,
                     equalEvents: nat, equalBytes: nat)
    requires equalEvents <= e && equalBytes <= b
    ensures var r := EntryFor(cfg, t, row, cursors, e, b, now);
            r.Ok? ==>
              && GotPart(cfg, t, row, cursors, r.value, equalEvents, equalBytes)
              && |r.value.batch.rows| <= e && r.value.batch.bytes <= b
  {
    hide Take, Pending, ReadIntact, Bytes;
    TakeMonotone(cfg, Pending(t.EventsOf(row.session.key), Cursor(cursors, row.session.key)), equalEvents, equalBytes,
                 e, b);
  }

  lemma PartsJoin(cfg: Config, t: Tables, rows: seq<SessionRow>, cursors: map<SessionKey, int>, entries: seq<Entry>,
                  equalEvents: nat, equalBytes: nat)
    requires rows != [] && entries != []
    requires GotPart(cfg, t, rows[0], cursors, entries[0], equalEvents, equalBytes)
    requires AllGotPart(cfg, t, rows[1..], cursors, entries[1..], equalEvents, equalBytes)
    ensures AllGotPart(cfg, t, rows, cursors, entries, equalEvents, equalBytes)
  {
    forall i | 0 <= i < |rows| ensures GotPart(cfg, t, rows[i], cursors, entries[i], equalEvents, equalBytes) {
      assert i == 0 || GotPart(cfg, t, rows[1..][i - 1], cursors, entries[1..][i - 1], equalEvents, equalBytes);
    }
  }

  /**
   A listing of n sessions returns at most 512 events and 8 MiB. Every session receives at least what an equal split of
   both budgets would give it, whatever the sessions before it used; so a session whose next event fits in an equal part
   of the bytes makes progress.
   */
  lemma FairShare(cfg: Config, t: Tables, rows: seq<SessionRow>, cursors: map<SessionKey, int>, now: int)
    requires 0 < |rows| <= MAX_AUTHORIZED_SESSIONS
    ensures var r := Listed(cfg, t, rows, cursors, MAX_RESPONSE_EVENTS, MAX_RESPONSE_BYTES, now);
            r.Ok? ==>
              && TotalEvents(r.value) <= 512 && TotalBytes(r.value) <= 8388608
              && AllGotPart(cfg, t, rows, cursors, r.value, 512 / |rows|, 8388608 / |rows|)
              && forall i | 0 <= i < |rows| :: Progresses(cfg, t, rows[i], cursors, r.value[i], 8388608 / |rows|)
  {
    var e, b := MAX_RESPONSE_EVENTS / |rows|, MAX_RESPONSE_BYTES / |rows|;
    EqualParts(MAX_RESPONSE_EVENTS, |rows|);
    EqualParts(MAX_RESPONSE_BYTES, |rows|);
    ListedShares(cfg, t, rows, cursors, MAX_RESPONSE_EVENTS, MAX_RESPONSE_BYTES, now, e, b);
    var r := Listed(cfg, t, rows, cursors, MAX_RESPONSE_EVENTS, MAX_RESPONSE_BYTES, now);
    if r.Ok? {
      forall i | 0 <= i < |rows| ensures Progresses(cfg, t, rows[i], cursors, r.value[i], b) {
        assert GotPart(cfg, t, rows[i], cursors, r.value[i], e, b);
      }
    }
  }

  lemma EqualParts(total: nat, n: nat)
    requires n > 0
    ensures (total / n) * n <= total
  {
  }

  // ----- reads of consistent tables -----

  lemma {:induction false} FirstOfWindow(rows: seq<EventRow>, first: int)
    requires rows != [] && forall i | 0 <= i < |rows| :: rows[i].event.sequence == first + i
    ensures FirstRetained(rows) == first
  {
    if |rows| > 1 {
      FirstOfWindow(rows[1..], first + 1);
    }
  }

  predicate Numbered(rows: seq<EventRow>, first: int) {
    forall i | 0 <= i < |rows| :: rows[i].event.sequence == first + i
  }

  lemma WindowIsNumbered(cfg: Config, key: SessionKey, latest: int, rows: seq<EventRow>)
    requires IsWindow(cfg, key, latest, rows)
    ensures Numbered(rows, latest - |rows| + 1) && |rows| <= latest && (latest > 0 ==> rows != [])
  {
  }

  /** What reads of numbered rows see from the start, and after a cursor. */
  lemma NumberedAbove(rows: seq<EventRow>, first: int)
    requires Numbered(rows, first) && 1 <= first
    ensures FirstRetained(rows) == if rows == [] then 0 else first
    ensures Above(rows, 0) == rows
  {
    AboveIsSuffix(rows, first, 0);
    hide Above;
    if rows != [] {
      FirstOfWindow(rows, first);
      hide FirstRetained;
    }
  }

  lemma NumberedAfter(rows: seq<EventRow>, first: int, skipped: nat)
    requires Numbered(rows, first) && skipped <= |rows|
    ensures Above(rows, first + skipped - 1) == rows[skipped..]
  {
    AboveIsSuffix(rows, first, first + skipped - 1);
    hide Above, Numbered;
  }

  /** How many rows of a window are at or before the cursor. */
  function Skipped(first: int, after: int): nat {
    if first > after + 1 then 0 else after + 1 - first
  }

  lemma CursorOfWindow(rows: seq<EventRow>, first: int, after: nat)
    requires FirstRetained(rows) == (if rows == [] then 0 else first) && 1 <= first
    ensures EffectiveAfter(rows, after) == if rows != [] && first > after + 1 then 0 else after
  {
    hide FirstRetained;
  }

  /** A read of a window skips the rows up to the cursor. */
  lemma PendingIsSuffix(cfg: Config, key: SessionKey, latest: int, rows: seq<EventRow>, after: nat)
    requires IsWindow(cfg, key, latest, rows) && after <= latest
    ensures var first := latest - |rows| + 1;
            && FirstRetained(rows) == (if rows == [] then 0 else first)
            && Skipped(first, after) <= |rows| && Pending(rows, after) == rows[Skipped(first, after)..]
  {
    hide IsWindow, Numbered, Above, FirstRetained, EffectiveAfter;
    var first := latest - |rows| + 1;
    WindowIsNumbered(cfg, key, latest, rows);
    NumberedAbove(rows, first);
    CursorOfWindow(rows, first, after);
    if first <= after + 1 {
      NumberedAfter(rows, first, after + 1 - first);
    } else {
      WholeRest(rows);
    }
  }

  lemma WholeRest<T>(q: seq<T>)
    ensures q[0..] == q
  {
  }

  /** On a window, a read starts right after the cursor, or at the first retained event if the cursor fell behind it. */
  lemma PendingOfWindow(cfg: Config, key: SessionKey, latest: int, rows: seq<EventRow>, after: nat)
    requires IsWindow(cfg, key, latest, rows) && after <= latest
    ensures var first := latest - |rows| + 1;
            var from := if first > after + 1 then first else after + 1;
            && FirstRetained(rows) == (if rows == [] then 0 else first)
            && |Pending(rows, after)| == latest - from + 1
            && (forall i | 0 <= i < |Pending(rows, after)| ::
                  Pending(rows, after)[i].event.sequence == from + i && Intact(cfg, Pending(rows, after)[i]))
  {
    hide Pending, Above, FirstRetained;
    PendingIsSuffix(cfg, key, latest, rows, after);
    var skip := Skipped(latest - |rows| + 1, after);
    forall i | 0 <= i < |rows| - skip ensures rows[skip..][i] == rows[skip + i] {
    }
  }
}
