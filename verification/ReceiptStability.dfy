/**
 What a captured collaboration receipt keeps (src/peerbridge_mcp/collaboration_receipt.py:210-234, 355-561): it verifies
 against the database it was captured from, and after later growth of that database exactly while four kinds of row stay
 absent.
 */
module ReceiptStability {
  import opened Results
  import opened Lists
  import opened AuditChain
  import opened CollaborationReceipt

  /**
   Files stay what they were, resolving a resolved path changes nothing, and text digests are 64 hexadecimal digits.
   */
  ghost predicate Settled(env: Env) {
    && (forall p :: env.evidenceAt(p).Some? ==> env.evidenceAt(env.evidenceAt(p).value.path) == env.evidenceAt(p))
    && (forall p :: env.childAt(p).Some? ==> env.childAt(env.childAt(p).value.path) == env.childAt(p))
    && (forall t :: IsHex64(env.textSha(t)))
  }

  // ----- expectations are idempotent -----

  /** Reading a recorded step again gives the same step. */
  lemma ExpectedIdempotent(env: Env, schema: Schema, raw: RawStep)
    requires Settled(env)
    ensures var r := ExpectedSnapshot(env, schema, raw);
            r.Ok? ==> ExpectedSnapshot(env, schema, AsRaw(r.value)) == r
  {
    if raw.body.Some? {
      assert IsHex64(env.textSha(raw.body.value));
    }
    assert OrDefault(raw.room, DEFAULT_ROOM_ID) != "";
  }

  lemma {:induction false} ExpectedAllIdempotent(env: Env, schema: Schema, raws: seq<RawStep>)
    requires Settled(env)
    ensures var r := ExpectedAll(env, schema, raws);
            r.Ok? ==> ExpectedAll(env, schema, AsRawAll(r.value)) == r && |r.value| == |raws|
  {
    if raws != [] && ExpectedAll(env, schema, raws).Ok? {
      var init := raws[..|raws| - 1];
      var steps := ExpectedAll(env, schema, init).value;
      var last := ExpectedSnapshot(env, schema, raws[|raws| - 1]).value;
      ExpectedAllIdempotent(env, schema, init);
      ExpectedIdempotent(env, schema, raws[|raws| - 1]);
      assert (steps + [last])[..|steps|] == steps;
      assert (AsRawAll(steps) + [AsRaw(last)])[..|AsRawAll(steps)|] == AsRawAll(steps);
    }
  }

  // ----- a capture, and verifying what it captured -----

  /** The steps and room a successful capture worked with. */
  ghost predicate Worked(env: Env, db: Database, q: Request, utc: string, r: Receipt, steps: seq<Step>,
                         room: Option<string>, read: Read)
  {
    && !q.schema.Unsupported? && |steps| >= 2
    && ExpectedAll(env, q.schema, q.raws) == Ok(steps)
    && ChainRoom(q.schema, steps, q.room) == Ok(room)
    && ReadTables(env, db, q, steps, room) == Ok(read)
    && Finished(env, q, steps, room, read, utc) == Ok(r)
  }

  lemma CaptureWorked(env: Env, db: Database, q: Request, utc: string)
    returns (steps: seq<Step>, room: Option<string>, read: Read)
    requires Captured(env, db, q, utc).Ok?
    ensures Worked(env, db, q, utc, Captured(env, db, q, utc).value, steps, room, read)
  {
    steps := ExpectedAll(env, q.schema, q.raws).value;
    room := ChainRoom(q.schema, steps, q.room).value;
    read := ReadTables(env, db, q, steps, room).value;
  }

  /** Two readings that a receipt records alike. */
  predicate RecordedAlike(a: Read, b: Read) {
    && a.messages == b.messages && a.receipts == b.receipts && a.routes == b.routes
    && EventSnapshotOf(a.ack) == EventSnapshotOf(b.ack) && a.prefix == b.prefix
  }

  /** The tables read the same as when the receipt was captured. */
  ghost predicate ReadsAlike(env: Env, db: Database, q: Request, steps: seq<Step>, room: Option<string>, read: Read)
    requires |steps| >= 2
  {
    match ReadTables(env, db, q, steps, room)
    case Err(_) => false
    case Ok(again) => RecordedAlike(again, read)
  }

  /** The recorded paths give the recorded files again. */
  lemma FilesAgain(env: Env, q: Request, steps: seq<Step>, room: Option<string>, read: Read, again: Read, r: Receipt,
                   utc: string, later: string)
    requires Settled(env) && Finished(env, q, steps, room, read, utc) == Ok(r) && RecordedAlike(again, read)
    ensures var f := Finished(env, RequestOf(r.body), steps, room, again, later);
            f.Ok? && f.value.body == r.body.(createdUtc := later)
  {
    var q2 := RequestOf(r.body);
    EvidenceAgain(env, q.evidence);
    if q.schema.V3? {
      ChildrenAgain(env, q.children, Participants(read.messages), q.scope, read.routes);
    } else {
      assert q2.children == map[];
    }
  }

  lemma EvidenceAgain(env: Env, paths: map<string, string>)
    requires Settled(env) && ReadEvidence(env, paths).Some?
    ensures var e := ReadEvidence(env, paths).value; ReadEvidence(env, map tag | tag in e :: e[tag].path) == Some(e)
  {
    var e := ReadEvidence(env, paths).value;
    var recorded := map tag | tag in e :: e[tag].path;
    forall tag | tag in recorded ensures env.evidenceAt(recorded[tag]) == Some(e[tag]) {
      assert env.evidenceAt(paths[tag]) == Some(e[tag]);
    }
    assert ReadEvidence(env, recorded).value == e;
  }

  lemma ChildrenAgain(env: Env, paths: map<string, string>, participants: set<string>, scope: string,
                      routes: seq<RouteReceipt>)
    requires Settled(env) && ReadChildren(env, paths, participants, scope, routes).Some?
    ensures var c := ReadChildren(env, paths, participants, scope, routes).value;
            && c.Keys == paths.Keys
            && ReadChildren(env, map tag | tag in c :: c[tag].path, participants, scope, routes) == Some(c)
  {
    var c := ReadChildren(env, paths, participants, scope, routes).value;
    var recorded := map tag | tag in c :: c[tag].path;
    forall tag | tag in recorded ensures env.childAt(recorded[tag]) == Some(c[tag]) {
      assert env.childAt(paths[tag]) == Some(c[tag]);
    }
    assert (map tag | tag in recorded :: env.childAt(recorded[tag]).value) == c;
  }

  lemma NoDifferences(a: Body, b: Body)
    requires a == b.(createdUtc := a.createdUtc)
    ensures Differences(a, b) == []
  {
  }

  lemma DifferencesMeaning(a: Body, b: Body)
    ensures Differences(a, b) == [] ==>
              && a.messages == b.messages && a.receipts == b.receipts && a.routes == b.routes
              && a.finalAck == b.finalAck && a.prefixCount == b.prefixCount
  {
    if a.messages != b.messages {
      assert MessagesKey in Differences(a, b);
    } else if a.receipts != b.receipts {
      assert ReceiptsKey in Differences(a, b);
    } else if a.routes != b.routes {
      assert RoutesKey in Differences(a, b);
    } else if a.finalAck != b.finalAck {
      assert FinalAckKey in Differences(a, b);
    } else if a.prefixCount != b.prefixCount {
      assert PrefixCountKey in Differences(a, b);
    }
  }

  /** A receipt of a supported schema with a right digest verifies exactly if a fresh capture has no difference. */
  lemma VerifiesIffNoDifference(env: Env, db: Database, r: Receipt, utc: string)
    requires !r.body.schema.Unsupported? && env.receiptSha(r.body) == r.sha
    ensures var c := Captured(env, db, RequestOf(r.body), utc);
            VerifiesAt(env, db, r, utc) <==> c.Ok? && Differences(c.value.body, r.body) == []
  {
    hide Captured, RequestOf, Differences;
    var own := Flag(false, SchemaKey) + Flag(false, ReceiptShaKey);
    assert own == [];
    var c := Captured(env, db, RequestOf(r.body), utc);
    if c.Ok? {
      assert own + Differences(c.value.body, r.body) == Differences(c.value.body, r.body);
    }
  }

  /**
   A captured receipt verifies against any database exactly when the tables read alike there: everything else the
   verifier compares is settled by the capture itself.
   */
  lemma VerifiesIffReadsAlike(env: Env, db: Database, q: Request, utc: string, r: Receipt, steps: seq<Step>,
                              room: Option<string>, read: Read, now: Database, later: string)
    requires Settled(env) && Worked(env, db, q, utc, r, steps, room, read)
    ensures VerifiesAt(env, now, r, later) <==> ReadsAlike(env, now, q, steps, room, read)
  {
    RebuildsFrom(env, db, q, utc, r, steps, room, read, now, later);
    FinishedBody(env, q, steps, room, read, utc);
    VerifiesIffNoDifference(env, now, r, later);
    hide ReadTables, Finished, Captured, RequestOf, Differences, RecordedAlike, Settled, VerifiesAt;
    var t := ReadTables(env, now, q, steps, room);
    if t.Ok? {
      ComparesAs(env, q, steps, room, read, t.value, r, utc, later);
    }
  }

  /** The comparison succeeds exactly for readings that are recorded alike. */
  lemma ComparesAs(env: Env, q: Request, steps: seq<Step>, room: Option<string>, read: Read, again: Read, r: Receipt,
                   utc: string, later: string)
    requires Settled(env) && Finished(env, q, steps, room, read, utc) == Ok(r)
    ensures var f := Finished(env, RequestOf(r.body), steps, room, again, later);
            RecordedAlike(again, read) <==> f.Ok? && Differences(f.value.body, r.body) == []
  {
    var f := Finished(env, RequestOf(r.body), steps, room, again, later);
    FinishedBody(env, q, steps, room, read, utc);
    if RecordedAlike(again, read) {
      FilesAgain(env, q, steps, room, read, again, r, utc, later);
      NoDifferences(f.value.body, r.body);
    } else if f.Ok? {
      FinishedBody(env, RequestOf(r.body), steps, room, again, later);
      DifferencesMeaning(f.value.body, r.body);
    }
  }

  lemma FinishedBody(env: Env, q: Request, steps: seq<Step>, room: Option<string>, read: Read, utc: string)
    ensures var f := Finished(env, q, steps, room, read, utc);
            f.Ok? ==>
              var b := f.value.body;
              && f.value.sha == env.receiptSha(b)
              && b.schema == q.schema && b.scope == q.scope && b.task == q.task && b.expected == steps && b.room == room
              && b.messages == read.messages && b.receipts == read.receipts && b.routes == read.routes
              && b.finalAck == EventSnapshotOf(read.ack) && b.prefixCount == read.prefix
  {
  }

  function FinishRead(env: Env, q: Request, steps: seq<Step>, room: Option<string>, t: Result<Read, ReceiptError>,
                      utc: string)
    : Result<Receipt, ReceiptError>
  {
    match t
    case Err(e) => Err(e)
    case Ok(read) => Finished(env, q, steps, room, read, utc)
  }

  lemma CapturedAs(env: Env, db: Database, q: Request, utc: string, steps: seq<Step>, room: Option<string>)
    requires !q.schema.Unsupported? && |steps| >= 2
    requires ExpectedAll(env, q.schema, q.raws) == Ok(steps) && ChainRoom(q.schema, steps, q.room) == Ok(room)
    ensures Captured(env, db, q, utc) == FinishRead(env, q, steps, room, ReadTables(env, db, q, steps, room), utc)
  {
  }

  /** What the verifier rebuilds: the same steps and room, over the tables as they are now. */
  lemma RebuildsFrom(env: Env, db: Database, q: Request, utc: string, r: Receipt, steps: seq<Step>,
                     room: Option<string>, read: Read, now: Database, later: string)
    requires Settled(env) && Worked(env, db, q, utc, r, steps, room, read)
    ensures Captured(env, now, RequestOf(r.body), later)
            == FinishRead(env, RequestOf(r.body), steps, room, ReadTables(env, now, q, steps, room), later)
  {
    var q2 := RequestOf(r.body);
    hide ReadTables, Finished, ExpectedAll, Captured, Settled;
    ExpectedAllIdempotent(env, q.schema, q.raws);
    FinishedBody(env, q, steps, room, read, utc);
    assert ChainRoom(q2.schema, steps, q2.room) == Ok(room);
    SameTables(env, now, q, q2, steps, room);
    CapturedAs(env, now, q2, later, steps, room);
  }

  lemma SameTables(env: Env, db: Database, q: Request, q2: Request, steps: seq<Step>, room: Option<string>)
    requires q2.schema == q.schema && q2.scope == q.scope && q2.task == q.task && |steps| >= 2
    ensures ReadTables(env, db, q2, steps, room) == ReadTables(env, db, q, steps, room)
  {
  }

  /** Capture then verify: a receipt verifies against the database it was captured from. */
  lemma CaptureThenVerify(env: Env, db: Database, q: Request, utc: string, later: string)
    requires Settled(env) && Captured(env, db, q, utc).Ok?
    ensures VerifiesAt(env, db, Captured(env, db, q, utc).value, later)
  {
    var steps, room, read := CaptureWorked(env, db, q, utc);
    VerifiesIffReadsAlike(env, db, q, utc, Captured(env, db, q, utc).value, steps, room, read, db, later);
  }

  // ----- what a receipt attests -----

  /** Message i of the chain, as the database has it and the chain expects it. */
  ghost predicate MessageAttested(env: Env, db: Database, schema: Schema, scope: string, m: Message, step: Step,
                                  prior: seq<Snapshot>, c: Checked)
  {
    && MessageSnapshot(env, schema, m) == Ok(c.snap)
    && c.snap.sender == step.sender && c.snap.recipient == step.recipient && c.snap.subject == step.subject
       && c.snap.bodySha == step.bodySha
    && (step.replyToStep.None? ==> m.replyTo == None)
    && (step.replyToStep.Some? ==>
          At(prior, step.replyToStep.value).Some?
          && m.replyTo == Some(At(prior, step.replyToStep.value).value.messageId))
    && (step.route.None? ==> OrDefault(m.routeSha, "") == "")
    && (step.route.Some? ==>
          OrDefault(m.routeSha, "") != "" && m.provider == step.route.value.provider
          && m.model == step.route.value.model && m.reasoning == step.route.value.reasoning
          && m.routeClass == step.route.value.routeClass)
    && m.acknowledgedUtc.Some? && c.receipt == ReceiptRow(scope, m.messageId, m.recipient, m.acknowledgedUtc.value)
    && ReceiptsFor(db, scope, m.messageId) == [c.receipt]
    && (RouteRequest(m).Some? <==> c.route.Some?)
    && (c.route.Some? ==> c.route.value.row.agent == m.recipient && c.route.value.row.status == "verified"
                          && RoutesFor(db, scope, m.messageId) == [c.route.value.row]
                          && env.routeSha(c.route.value.row.(sha := ""), RouteRequest(m).value.sha)
                             == c.route.value.row.sha)
    && (c.route.None? ==> RoutesFor(db, scope, m.messageId) == [])
  }

  lemma OneAttested(env: Env, db: Database, schema: Schema, scope: string, m: Message, step: Step, prior: seq<Snapshot>,
                    c: Checked)
    requires CheckOne(env, schema, scope, m, ReceiptsFor(db, scope, m.messageId), RoutesFor(db, scope, m.messageId),
                      step, prior) == Ok(c)
    ensures MessageAttested(env, db, schema, scope, m, step, prior, c)
  {
    var receipts, routes := ReceiptsFor(db, scope, m.messageId), RoutesFor(db, scope, m.messageId);
    FilterMeaning(db.receipts, ReceiptOf(scope, m.messageId));
    assert receipts[0] in receipts && receipts == [receipts[0]];
    assert ReceiptOf(scope, m.messageId)(receipts[0]);
    assert |routes| == 1 ==> routes == [routes[0]];
  }

  /**
   A captured receipt attests every message of its chain: content, expected fields and route, the message it replies to,
   exactly one acknowledgement, by the recipient, and exactly one verified route receipt if it was routed.
   */
  lemma {:induction false} CheckAttests(env: Env, db: Database, schema: Schema, scope: string, rows: seq<Message>,
                                        steps: seq<Step>, i: nat)
    requires |rows| == |steps| && CheckAll(env, db, schema, scope, rows, steps).Ok? && i < |rows|
    ensures var checked := CheckAll(env, db, schema, scope, rows, steps).value;
            MessageAttested(env, db, schema, scope, rows[i], steps[i], Snapshots(checked[..i]), checked[i])
    decreases |rows|
  {
    hide CheckOne, MessageAttested;
    var checked := CheckAll(env, db, schema, scope, rows, steps).value;
    var r, s := rows[..|rows| - 1], steps[..|steps| - 1];
    var before := CheckAll(env, db, schema, scope, r, s).value;
    assert checked[..|r|] == before;
    if i == |r| {
      OneAttested(env, db, schema, scope, rows[i], steps[i], Snapshots(before), checked[i]);
    } else {
      CheckAttests(env, db, schema, scope, r, s, i);
      assert checked[..i] == before[..i];
    }
  }

  // ----- growth of the database -----

  predicate AscendingEvents(events: seq<Stored>) {
    forall i, j | 0 <= i < j < |events| :: events[i].sequence < events[j].sequence
  }

  /** A row an acknowledgement may have filled in; everything else about it stays. */
  predicate AcknowledgedLater(was: Message, grown: Message) {
    grown == was || (was.acknowledgedUtc.None? && grown == was.(acknowledgedUtc := grown.acknowledgedUtc))
  }

  /** The database after more use: messages, receipts and events were added and messages were acknowledged. */
  ghost predicate Grew(env: Env, db: Database, now: Database, added: seq<NewEvent>) {
    && |db.messages| <= |now.messages|
    && (forall i | 0 <= i < |db.messages| :: AcknowledgedLater(db.messages[i], now.messages[i]))
    && db.receipts <= now.receipts && db.routes <= now.routes
    && now.events == AppendedAll(env.h, db.events, added)
    && AscendingEvents(now.events)
  }

  function FinalId(rows: seq<Message>): string {
    if rows == [] then "" else rows[|rows| - 1].messageId
  }

  predicate NoneAdded<T>(was: seq<T>, grown: seq<T>, p: T -> bool) {
    forall i | |was| <= i < |grown| :: !p(grown[i])
  }

  /** Growth that leaves the captured chain alone. */
  ghost predicate LeavesAlone(env: Env, db: Database, now: Database, q: Request, room: Option<string>) {
    var rows := TaskMessages(db, q.scope, room, q.task);
    && NoneAdded(db.messages, now.messages, OfTask(q.scope, room, q.task))
    && (forall m | m in rows :: NoneAdded(db.receipts, now.receipts, ReceiptOf(q.scope, m.messageId)))
    && (forall m | m in rows :: NoneAdded(db.routes, now.routes, RouteOf(q.scope, m.messageId)))
    && NoAckAdded(env, db.events, now.events, FinalId(rows))
  }

  /** What a successful check needed of the rows beside a message. */
  ghost predicate HasItsRows(db: Database, scope: string, m: Message, c: Checked) {
    && m.acknowledgedUtc.Some? && c.snap.messageId == m.messageId
    && |ReceiptsFor(db, scope, m.messageId)| == 1
    && |RoutesFor(db, scope, m.messageId)| == if RouteRequest(m).Some? then 1 else 0
  }

  lemma OneNeeds(env: Env, db: Database, schema: Schema, scope: string, m: Message, step: Step, prior: seq<Snapshot>)
    ensures var r := CheckOne(env, schema, scope, m, ReceiptsFor(db, scope, m.messageId),
                              RoutesFor(db, scope, m.messageId), step, prior);
            r.Ok? ==> HasItsRows(db, scope, m, r.value)
  {
    hide ReceiptsFor, RoutesFor, StepFault, ContractOf;
  }

  lemma {:induction false} CheckAllNeeds(env: Env, db: Database, schema: Schema, scope: string, rows: seq<Message>,
                                         steps: seq<Step>)
    requires |rows| == |steps| && CheckAll(env, db, schema, scope, rows, steps).Ok?
    ensures forall i | 0 <= i < |rows| ::
            HasItsRows(db, scope, rows[i], CheckAll(env, db, schema, scope, rows, steps).value[i])
    decreases |rows|
  {
    if rows != [] {
      hide CheckOne, HasItsRows;
      var n := |rows| - 1;
      var r, s := rows[..n], steps[..n];
      CheckAllNeeds(env, db, schema, scope, r, s);
      var before := CheckAll(env, db, schema, scope, r, s).value;
      var all := CheckAll(env, db, schema, scope, rows, steps).value;
      OneNeeds(env, db, schema, scope, rows[n], steps[n], Snapshots(before));
      forall i | 0 <= i < |rows| ensures HasItsRows(db, scope, rows[i], all[i]) {
        assert i == n || (all[i] == before[i] && rows[i] == r[i]);
      }
    }
  }

  lemma {:induction false} CheckAllSame(env: Env, db: Database, now: Database, schema: Schema, scope: string,
                                        rows: seq<Message>, steps: seq<Step>)
    requires |rows| == |steps|
    requires forall i | 0 <= i < |rows| ::
               && ReceiptsFor(now, scope, rows[i].messageId) == ReceiptsFor(db, scope, rows[i].messageId)
               && RoutesFor(now, scope, rows[i].messageId) == RoutesFor(db, scope, rows[i].messageId)
    ensures CheckAll(env, now, schema, scope, rows, steps) == CheckAll(env, db, schema, scope, rows, steps)
    decreases |rows|
  {
    if rows != [] {
      CheckAllSame(env, db, now, schema, scope, rows[..|rows| - 1], steps[..|steps| - 1]);
      var last := rows[|rows| - 1];
      assert ReceiptsFor(now, scope, last.messageId) == ReceiptsFor(db, scope, last.messageId);
    }
  }

  /** The task's messages are the same exactly when none was added, once all of them are acknowledged. */
  lemma TaskMessagesGrown(db: Database, now: Database, scope: string, room: Option<string>, task: string)
    requires |db.messages| <= |now.messages|
    requires forall i | 0 <= i < |db.messages| :: AcknowledgedLater(db.messages[i], now.messages[i])
    requires forall m | m in TaskMessages(db, scope, room, task) :: m.acknowledgedUtc.Some?
    ensures |TaskMessages(now, scope, room, task)| == |TaskMessages(db, scope, room, task)|
            <==> NoneAdded(db.messages, now.messages, OfTask(scope, room, task))
    ensures NoneAdded(db.messages, now.messages, OfTask(scope, room, task))
            ==> TaskMessages(now, scope, room, task) == TaskMessages(db, scope, room, task)
  {
    var p := OfTask(scope, room, task);
    FilterMeaning(db.messages, p);
    var before := now.messages[..|db.messages|];
    forall i | 0 <= i < |db.messages| ensures p(db.messages[i]) == p(before[i])
      && (p(db.messages[i]) ==> db.messages[i] == before[i]) {
      assert AcknowledgedLater(db.messages[i], now.messages[i]);
      assert p(db.messages[i]) ==> db.messages[i] in Filter(db.messages, p);
    }
    FilterPointwise(db.messages, before, p);
    FilterGrown(before, now.messages, p);
  }

  lemma {:induction false} ThroughIsFilter(events: seq<Stored>, more: seq<Stored>, bound: int)
    requires forall i | 0 <= i < |more| :: more[i].sequence > bound
    ensures Through(events + more, bound) == Through(events, bound)
  {
    if events != [] {
      assert (events + more)[1..] == events[1..] + more;
      ThroughIsFilter(events[1..], more, bound);
    } else {
      assert events + more == more;
      NothingThrough(more, bound);
    }
  }

  lemma {:induction false} NothingThrough(events: seq<Stored>, bound: int)
    requires forall i | 0 <= i < |events| :: events[i].sequence > bound
    ensures Through(events, bound) == []
  {
    if events != [] {
      NothingThrough(events[1..], bound);
    }
  }

  lemma {:induction false} FinalAckMeaning(env: Env, events: seq<Stored>, id: string)
    ensures match FinalAck(env, events, id)
            case None => forall i | 0 <= i < |events| :: !IsFinalAck(env, events[i], id)
            case Some(e) => exists k :: 0 <= k < |events| && events[k] == e && IsFinalAck(env, e, id)
                                        && forall i | k < i < |events| :: !IsFinalAck(env, events[i], id)
    decreases |events|
  {
    if events != [] {
      hide IsFinalAck;
      var n := |events| - 1;
      FinalAckMeaning(env, events[..n], id);
      if IsFinalAck(env, events[n], id) {
        assert events[n] == FinalAck(env, events, id).value;
      } else {
        assert FinalAck(env, events, id) == FinalAck(env, events[..n], id);
        hide FinalAck;
        assert forall i | 0 <= i < n :: events[..n][i] == events[i];
      }
    }
  }

  predicate NoAckAdded(env: Env, was: seq<Stored>, grown: seq<Stored>, id: string) {
    forall i | |was| <= i < |grown| :: !IsFinalAck(env, grown[i], id)
  }

  lemma {:induction false} FinalAckExtended(env: Env, a: seq<Stored>, b: seq<Stored>, id: string)
    requires a <= b
    ensures NoAckAdded(env, a, b, id) ==> FinalAck(env, b, id) == FinalAck(env, a, id)
    ensures NoAckAdded(env, a, b, id) || exists j :: |a| <= j < |b| && FinalAck(env, b, id) == Some(b[j])
    decreases |b|
  {
    if |a| < |b| {
      FinalAckExtended(env, a, b[..|b| - 1], id);
    } else {
      assert a == b;
    }
  }

  /** The latest acknowledgement and the chain up to it are what they were exactly when no acknowledgement was added. */
  lemma FinalAckGrown(env: Env, a: seq<Stored>, b: seq<Stored>, id: string)
    requires a <= b && AscendingEvents(b) && FinalAck(env, a, id).Some?
    ensures var ack, later := FinalAck(env, a, id), FinalAck(env, b, id);
            && later.Some?
            && (later.value.sequence == ack.value.sequence <==> NoAckAdded(env, a, b, id))
            && (NoAckAdded(env, a, b, id)
                ==> later == ack && Through(b, ack.value.sequence) == Through(a, ack.value.sequence))
  {
    FinalAckExtended(env, a, b, id);
    FinalAckMeaning(env, a, id);
    var ack := FinalAck(env, a, id).value;
    var k :| 0 <= k < |a| && a[k] == ack;
    assert b[k] == ack;
    assert b == a + b[|a|..];
    ThroughIsFilter(a, b[|a|..], ack.sequence);
  }

  /** One message's receipts and routes are unchanged exactly when none was added for it. */
  lemma RowsGrown(db: Database, now: Database, scope: string, id: string)
    requires db.receipts <= now.receipts && db.routes <= now.routes
    ensures ReceiptsFor(db, scope, id) <= ReceiptsFor(now, scope, id)
            && RoutesFor(db, scope, id) <= RoutesFor(now, scope, id)
    ensures |ReceiptsFor(now, scope, id)| == |ReceiptsFor(db, scope, id)|
            <==> NoneAdded(db.receipts, now.receipts, ReceiptOf(scope, id))
    ensures |RoutesFor(now, scope, id)| == |RoutesFor(db, scope, id)|
            <==> NoneAdded(db.routes, now.routes, RouteOf(scope, id))
  {
    FilterGrown(db.receipts, now.receipts, ReceiptOf(scope, id));
    FilterGrown(db.routes, now.routes, RouteOf(scope, id));
  }

  /**
   The check of the messages succeeds after growth exactly when no row was added beside them, and then gives the same.
   */
  lemma CheckAllGrown(env: Env, db: Database, now: Database, schema: Schema, scope: string, rows: seq<Message>,
                      steps: seq<Step>)
    requires db.receipts <= now.receipts && db.routes <= now.routes
    requires |rows| == |steps| && CheckAll(env, db, schema, scope, rows, steps).Ok?
    ensures CheckAll(env, now, schema, scope, rows, steps).Ok?
            <==> forall m | m in rows :: NoneAdded(db.receipts, now.receipts, ReceiptOf(scope, m.messageId))
                                         && NoneAdded(db.routes, now.routes, RouteOf(scope, m.messageId))
    ensures CheckAll(env, now, schema, scope, rows, steps).Ok?
            ==> CheckAll(env, now, schema, scope, rows, steps) == CheckAll(env, db, schema, scope, rows, steps)
  {
    CheckAllNeeds(env, db, schema, scope, rows, steps);
    forall m | m in rows {
      RowsGrown(db, now, scope, m.messageId);
    }
    if CheckAll(env, now, schema, scope, rows, steps).Ok? {
      CheckAllNeeds(env, now, schema, scope, rows, steps);
      forall i | 0 <= i < |rows|
        ensures ReceiptsFor(now, scope, rows[i].messageId) == ReceiptsFor(db, scope, rows[i].messageId)
        ensures RoutesFor(now, scope, rows[i].messageId) == RoutesFor(db, scope, rows[i].messageId)
      {
        assert rows[i] in rows;
        assert HasItsRows(db, scope, rows[i], CheckAll(env, db, schema, scope, rows, steps).value[i]);
        assert HasItsRows(now, scope, rows[i], CheckAll(env, now, schema, scope, rows, steps).value[i]);
      }
      CheckAllSame(env, db, now, schema, scope, rows, steps);
    } else if forall m | m in rows :: NoneAdded(db.receipts, now.receipts, ReceiptOf(scope, m.messageId))
                                      && NoneAdded(db.routes, now.routes, RouteOf(scope, m.messageId)) {
      assert forall i | 0 <= i < |rows| :: rows[i] in rows;
      CheckAllSame(env, db, now, schema, scope, rows, steps);
    }
  }

  /** What a successful reading went through. */
  ghost predicate ReadBy(env: Env, db: Database, q: Request, steps: seq<Step>, room: Option<string>, read: Read,
                         rows: seq<Message>, checked: seq<Checked>) {
    && rows == TaskMessages(db, q.scope, room, q.task) && |rows| == |steps| >= 2
    && CheckAll(env, db, q.schema, q.scope, rows, steps) == Ok(checked)
    && |checked| == |rows| && checked[|checked| - 1].snap.messageId == FinalId(rows)
    && FinalAck(env, db.events, FinalId(rows)) == Some(read.ack)
    && Through(db.events, read.ack.sequence) != [] && Valid(env.h, Through(db.events, read.ack.sequence))
    && read == Read(Snapshots(checked), ReceiptRows(checked), RouteReceipts(checked), read.ack,
                    |Through(db.events, read.ack.sequence)|)
  }

  lemma ReadByMeaning(env: Env, db: Database, q: Request, steps: seq<Step>, room: Option<string>)
    requires |steps| >= 2
    ensures var rows := TaskMessages(db, q.scope, room, q.task);
            var t := ReadTables(env, db, q, steps, room);
            && (t.Ok? ==> |rows| == |steps| && CheckAll(env, db, q.schema, q.scope, rows, steps).Ok?
                          && ReadBy(env, db, q, steps, room, t.value, rows,
                                    CheckAll(env, db, q.schema, q.scope, rows, steps).value))
            && (forall read: Read, checked :: ReadBy(env, db, q, steps, room, read, rows, checked) ==> t == Ok(read))
  {
    hide CheckOne;
    var rows := TaskMessages(db, q.scope, room, q.task);
    if |rows| == |steps| && CheckAll(env, db, q.schema, q.scope, rows, steps).Ok? {
      CheckAllNeeds(env, db, q.schema, q.scope, rows, steps);
      var checked := CheckAll(env, db, q.schema, q.scope, rows, steps).value;
      assert HasItsRows(db, q.scope, rows[|rows| - 1], checked[|checked| - 1]);
    }
  }

  lemma AllAcknowledged(env: Env, db: Database, schema: Schema, scope: string, rows: seq<Message>, steps: seq<Step>)
    requires |rows| == |steps| && CheckAll(env, db, schema, scope, rows, steps).Ok?
    ensures forall m | m in rows :: m.acknowledgedUtc.Some?
  {
    CheckAllNeeds(env, db, schema, scope, rows, steps);
    forall m | m in rows ensures m.acknowledgedUtc.Some? {
      var i :| 0 <= i < |rows| && rows[i] == m;
      assert HasItsRows(db, scope, rows[i], CheckAll(env, db, schema, scope, rows, steps).value[i]);
    }
  }

  /** Growth that leaves the chain alone leaves what is read from the tables exactly as it was. */
  lemma QuietGrowthReadsSame(env: Env, db: Database, now: Database, q: Request, steps: seq<Step>, room: Option<string>,
                             read: Read, rows: seq<Message>, checked: seq<Checked>)
    requires ReadBy(env, db, q, steps, room, read, rows, checked)
    requires TaskMessages(now, q.scope, room, q.task) == rows
    requires CheckAll(env, now, q.schema, q.scope, rows, steps) == Ok(checked)
    requires FinalAck(env, now.events, FinalId(rows)) == Some(read.ack)
    requires Through(now.events, read.ack.sequence) == Through(db.events, read.ack.sequence)
    ensures ReadTables(env, now, q, steps, room) == Ok(read)
  {
    assert ReadBy(env, now, q, steps, room, read, rows, checked);
    ReadByMeaning(env, now, q, steps, room);
  }

  lemma GrewEvents(env: Env, db: Database, now: Database, added: seq<NewEvent>)
    requires Grew(env, db, now, added)
    ensures db.events <= now.events
  {
    AppendingKeepsFaults(env.h, db.events, added);
  }

  lemma LeftAloneReadsAlike(env: Env, db: Database, now: Database, added: seq<NewEvent>, q: Request, steps: seq<Step>,
                            room: Option<string>, read: Read, rows: seq<Message>, checked: seq<Checked>)
    requires Grew(env, db, now, added) && ReadBy(env, db, q, steps, room, read, rows, checked)
    requires LeavesAlone(env, db, now, q, room)
    ensures ReadTables(env, now, q, steps, room) == Ok(read)
  {
    GrewEvents(env, db, now, added);
    AllAcknowledged(env, db, q.schema, q.scope, rows, steps);
    TaskMessagesGrown(db, now, q.scope, room, q.task);
    CheckAllGrown(env, db, now, q.schema, q.scope, rows, steps);
    FinalAckGrown(env, db.events, now.events, FinalId(rows));
    QuietGrowthReadsSame(env, db, now, q, steps, room, read, rows, checked);
  }

  lemma ReadsAlikeLeftAlone(env: Env, db: Database, now: Database, added: seq<NewEvent>, q: Request, steps: seq<Step>,
                            room: Option<string>, read: Read, rows: seq<Message>, checked: seq<Checked>)
    requires Grew(env, db, now, added) && ReadBy(env, db, q, steps, room, read, rows, checked)
    requires ReadsAlike(env, now, q, steps, room, read)
    ensures LeavesAlone(env, db, now, q, room)
  {
    GrewEvents(env, db, now, added);
    ReadByMeaning(env, now, q, steps, room);
    AllAcknowledged(env, db, q.schema, q.scope, rows, steps);
    TaskMessagesGrown(db, now, q.scope, room, q.task);
    CheckAllGrown(env, db, now, q.schema, q.scope, rows, steps);
    FinalAckGrown(env, db.events, now.events, FinalId(rows));
  }

  /**
   Append-safety, exactly: after any growth of the database a captured receipt still verifies if and only if no message
   was added to its task (and room), no receipt or route receipt for its messages, and no further acknowledgement of the
   final message.
   */
  lemma AppendSafe(env: Env, db: Database, q: Request, utc: string, now: Database, added: seq<NewEvent>, later: string)
    requires Settled(env) && Captured(env, db, q, utc).Ok? && Grew(env, db, now, added)
    ensures var r := Captured(env, db, q, utc).value;
            VerifiesAt(env, now, r, later) <==> LeavesAlone(env, db, now, q, r.body.room)
  {
    var steps, room, read := CaptureWorked(env, db, q, utc);
    var r := Captured(env, db, q, utc).value;
    FinishedBody(env, q, steps, room, read, utc);
    VerifiesIffReadsAlike(env, db, q, utc, r, steps, room, read, now, later);
    ReadByMeaning(env, db, q, steps, room);
    var rows := TaskMessages(db, q.scope, room, q.task);
    var checked := CheckAll(env, db, q.schema, q.scope, rows, steps).value;
    if LeavesAlone(env, db, now, q, room) {
      LeftAloneReadsAlike(env, db, now, added, q, steps, room, read, rows, checked);
    }
    if ReadsAlike(env, now, q, steps, room, read) {
      ReadsAlikeLeftAlone(env, db, now, added, q, steps, room, read, rows, checked);
    }
  }
}
