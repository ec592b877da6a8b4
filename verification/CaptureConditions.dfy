/**
 When a message chain is captured, in terms of the rows alone, and what the receipt then says
 (src/peerbridge_mcp/collaboration_receipt.py:210-234, 237-561).
 */
module CaptureConditions {
  import opened Results
  import opened Lists
  import opened AuditChain
  import opened CollaborationReceipt
  import opened ReceiptStability

  // ----- one message -----

  predicate Routed(m: Message) {
    m.routeSha.Some? && m.routeSha.value != ""
  }

  /** The message replies to the message of the step that the expectation names, counted from the end if negative. */
  predicate RepliesAsExpected(m: Message, step: Step, prior: seq<Message>) {
    match step.replyToStep
    case None => m.replyTo == None
    case Some(i) =>
      || (0 <= i < |prior| && m.replyTo == Some(prior[i].messageId))
      || (-|prior| <= i < 0 && m.replyTo == Some(prior[|prior| + i].messageId))
  }

  /** A step without a route has an unrouted message; one with a route a message that requests it in all four parts. */
  predicate RoutedAsExpected(m: Message, step: Step) {
    match step.route
    case None => !Routed(m)
    case Some(r) =>
      Routed(m) && m.provider == r.provider && m.model == r.model && m.reasoning == r.reasoning
      && m.routeClass == r.routeClass
  }

  predicate InExpectedRoom(schema: Schema, m: Message, step: Step) {
    step.room.Some? ==> (schema.V2? || schema.V3?) && step.room.value == if m.room == "" then "lobby" else m.room
  }

  /** The stored content digest is right under one of the contracts. */
  ghost predicate DigestRight(env: Env, m: Message) {
    exists c :: env.contentSha(ContentOf(m, c)) == m.contentSha
  }

  /** What a contract covers: everything the message says, less the fields that are younger than the contract. */
  lemma ContentCovers(m: Message, c: Contract)
    ensures var content := ContentOf(m, c);
            && content.messageId == m.messageId && content.scope == m.scope && content.task == m.task
            && content.sender == m.sender && content.recipient == m.recipient && content.subject == m.subject
            && content.body == m.body && content.priority == m.priority && content.replyTo == m.replyTo
            && content.artifacts == m.artifacts && content.createdUtc == m.createdUtc
            && (content.room == None <==> c == LegacyV1)
            && (content.room.Some? ==> content.room.value == if m.room == "" then "lobby" else m.room)
            && (content.discussion == None <==> c !in {DiscussionV3, DiscussionVisibilityV4})
            && (content.discussion.Some? ==> content.discussion.value == m.discussion)
            && (content.visibility == None <==> c !in {RoomVisibilityV4, DiscussionVisibilityV4})
            && (content.visibility.Some? ==>
                  content.visibility.value == if m.visibility == "" then "direct" else m.visibility)
            && (content.route.Some? <==> Routed(m))
            && (Routed(m) ==>
                  content.route.value == Route(m.routeProfile, m.recipient, m.provider, m.model, m.reasoning,
                                               m.routeClass, m.routeSha.value))
  {
  }

  predicate IsFor(scope: string, id: string, rowScope: string, rowId: string) {
    rowScope == scope && rowId == id
  }

  /** The message is acknowledged, and its only receipt is the recipient's, of the same time. */
  ghost predicate AcknowledgedOnce(db: Database, scope: string, m: Message) {
    && m.acknowledgedUtc.Some? && m.acknowledgedUtc.value != ""
    && exists i :: 0 <= i < |db.receipts|
         && db.receipts[i] == ReceiptRow(scope, m.messageId, m.recipient, m.acknowledgedUtc.value)
         && forall j | 0 <= j < |db.receipts| && j != i ::
              !IsFor(scope, m.messageId, db.receipts[j].scope, db.receipts[j].messageId)
  }

  /** The row reports, as verified and by the recipient, the route the message requested. */
  predicate ReportsRoute(env: Env, scope: string, m: Message, row: RouteRow)
    requires Routed(m)
  {
    && IsFor(scope, m.messageId, row.scope, row.messageId)
    && row.agent == m.recipient && row.status == "verified"
    && env.routeSha(row.(sha := ""), m.routeSha.value) == row.sha
  }

  /** A routed message has exactly one route receipt, which reports its route; an unrouted one has none. */
  ghost predicate RouteReported(env: Env, db: Database, scope: string, m: Message) {
    if Routed(m) then
      exists i :: 0 <= i < |db.routes| && ReportsRoute(env, scope, m, db.routes[i])
        && forall j | 0 <= j < |db.routes| && j != i ::
             !IsFor(scope, m.messageId, db.routes[j].scope, db.routes[j].messageId)
    else forall j | 0 <= j < |db.routes| :: !IsFor(scope, m.messageId, db.routes[j].scope, db.routes[j].messageId)
  }

  /** The message is the expected one, and what must lie beside it does. */
  ghost predicate MessageFits(env: Env, db: Database, schema: Schema, scope: string, m: Message, step: Step,
                              prior: seq<Message>)
  {
    && DigestRight(env, m)
    && m.sender == step.sender && m.recipient == step.recipient && m.subject == step.subject
    && env.textSha(m.body) == step.bodySha
    && InExpectedRoom(schema, m, step) && RepliesAsExpected(m, step, prior) && RoutedAsExpected(m, step)
    && AcknowledgedOnce(db, scope, m) && RouteReported(env, db, scope, m)
  }

  // ----- rows selected for one message -----

  ghost predicate OnlyAt<T(!new)>(q: seq<T>, p: T -> bool, i: int) {
    0 <= i < |q| && p(q[i]) && forall j | 0 <= j < |q| && j != i :: !p(q[j])
  }

  lemma FilterNone<T(!new)>(q: seq<T>, p: T -> bool)
    ensures Filter(q, p) == [] <==> forall j | 0 <= j < |q| :: !p(q[j])
  {
    FilterMeaning(q, p);
    if Filter(q, p) != [] {
      assert Filter(q, p)[0] in Filter(q, p);
    } else {
      assert forall j | 0 <= j < |q| :: q[j] in q && q[j] !in Filter(q, p);
    }
  }

  lemma {:induction false} FilterOnly<T(!new)>(q: seq<T>, p: T -> bool, x: T)
    ensures Filter(q, p) == [x] <==> exists i :: OnlyAt(q, p, i) && q[i] == x
  {
    if q != [] {
      var n := |q| - 1;
      var init, last := q[..n], q[n];
      FilterOnly(init, p, x);
      FilterNone(init, p);
      hide Filter;
      assert Filter(q, p) == Filter(init, p) + if p(last) then [last] else [] by {
        assert q == init + [last];
        FilterAppend(init, last, p);
      }
      if p(last) {
        assert Filter(q, p) == [x] <==> Filter(init, p) == [] && last == x by {
          AppendIsOne(Filter(init, p), last, x);
        }
        assert OnlyAt(q, p, n) <==> Filter(init, p) == [];
      } else {
        assert Filter(q, p) == Filter(init, p);
        assert forall i :: OnlyAt(q, p, i) <==> OnlyAt(init, p, i);
      }
    }
  }

  lemma AppendIsOne<T>(q: seq<T>, last: T, x: T)
    ensures q + [last] == [x] <==> q == [] && last == x
  {
    if q != [] {
      assert |q + [last]| > 1;
    } else {
      assert q + [last] == [last];
    }
  }

  lemma ReceiptsIff(db: Database, scope: string, m: Message)
    requires m.acknowledgedUtc.Some? && m.acknowledgedUtc.value != ""
    ensures var receipts := ReceiptsFor(db, scope, m.messageId);
            AcknowledgedOnce(db, scope, m) <==>
              |receipts| == 1 && receipts[0].agent == m.recipient
              && Some(receipts[0].acknowledgedUtc) == m.acknowledgedUtc
    ensures AcknowledgedOnce(db, scope, m) ==>
              ReceiptsFor(db, scope, m.messageId)
              == [ReceiptRow(scope, m.messageId, m.recipient, m.acknowledgedUtc.value)]
  {
    var p, x := ReceiptOf(scope, m.messageId), ReceiptRow(scope, m.messageId, m.recipient, m.acknowledgedUtc.value);
    FilterOnly(db.receipts, p, x);
    FilterMeaning(db.receipts, p);
    var receipts := ReceiptsFor(db, scope, m.messageId);
    if |receipts| == 1 {
      assert receipts == [receipts[0]] && receipts[0] in receipts && p(receipts[0]);
    }
    hide Filter;
    if i :| OnlyAt(db.receipts, p, i) && db.receipts[i] == x {
      assert AcknowledgedOnce(db, scope, m);
    }
    if AcknowledgedOnce(db, scope, m) {
      var i :| 0 <= i < |db.receipts| && db.receipts[i] == x
               && forall j | 0 <= j < |db.receipts| && j != i ::
                    !IsFor(scope, m.messageId, db.receipts[j].scope, db.receipts[j].messageId);
      assert OnlyAt(db.receipts, p, i);
    }
  }

  /** The route receipts of the message are what RouteCheck accepts. */
  lemma RoutesIff(env: Env, db: Database, scope: string, m: Message, snap: Snapshot)
    requires snap.route == RouteRequest(m) && snap.recipient == m.recipient
    ensures var r := RouteCheck(env, snap, RoutesFor(db, scope, m.messageId));
            && (r.Ok? <==> RouteReported(env, db, scope, m))
            && (r.Ok? ==> (r.value.Some? <==> Routed(m)))
            && (r.Ok? && Routed(m) ==>
                  r.value.value.requestSha == m.routeSha.value && r.value.value.row in db.routes
                  && ReportsRoute(env, scope, m, r.value.value.row)
                  && forall row | row in db.routes && IsFor(scope, m.messageId, row.scope, row.messageId) ::
                       row == r.value.value.row)
  {
    var p, rows := RouteOf(scope, m.messageId), RoutesFor(db, scope, m.messageId);
    FilterNone(db.routes, p);
    FilterMeaning(db.routes, p);
    if Routed(m) {
      if |rows| == 1 {
        FilterOnly(db.routes, p, rows[0]);
        assert rows == [rows[0]] && rows[0] in rows;
        hide Filter;
        var i :| OnlyAt(db.routes, p, i) && db.routes[i] == rows[0];
        assert RouteCheck(env, snap, rows).Ok? ==> ReportsRoute(env, scope, m, db.routes[i]);
        assert forall j | 0 <= j < |db.routes| && ReportsRoute(env, scope, m, db.routes[j]) :: j == i;
      } else {
        OneReported(env, db, scope, m);
      }
    }
  }

  lemma OneReported(env: Env, db: Database, scope: string, m: Message)
    requires Routed(m) && |RoutesFor(db, scope, m.messageId)| != 1
    ensures !RouteReported(env, db, scope, m)
  {
    var p := RouteOf(scope, m.messageId);
    if RouteReported(env, db, scope, m) {
      var i :| 0 <= i < |db.routes| && ReportsRoute(env, scope, m, db.routes[i])
               && forall j | 0 <= j < |db.routes| && j != i ::
                    !IsFor(scope, m.messageId, db.routes[j].scope, db.routes[j].messageId);
      assert OnlyAt(db.routes, p, i);
      FilterOnly(db.routes, p, db.routes[i]);
      assert false;
    }
  }

  // ----- one step of the check -----

  /** The receipt's copy of the message. */
  ghost predicate IsSnapshotOf(env: Env, schema: Schema, m: Message, s: Snapshot) {
    && s.sequence == m.sequence && s.messageId == m.messageId && s.sender == m.sender && s.recipient == m.recipient
    && s.subject == m.subject && s.bodySha == env.textSha(m.body) && s.priority == m.priority && s.replyTo == m.replyTo
    && s.artifactsSha == env.listSha(m.artifacts) && s.createdUtc == m.createdUtc
    && s.acknowledgedUtc == m.acknowledgedUtc && s.contentSha == m.contentSha
    && s.route == RouteRequest(m)
    && (s.roomPart.Some? <==> schema.V2? || schema.V3?)
    && (s.roomPart.Some? ==>
          && s.roomPart.value.room == (if m.room == "" then "lobby" else m.room)
          && s.roomPart.value.visibility == (if m.visibility == "" then "direct" else m.visibility)
          && env.contentSha(ContentOf(m, s.roomPart.value.contract)) == m.contentSha
          && forall c | env.contentSha(ContentOf(m, c)) == m.contentSha :: NoNewer(c, s.roomPart.value.contract))
  }

  function Age(c: Contract): nat {
    match c
    case DiscussionVisibilityV4 => 0
    case RoomVisibilityV4 => 1
    case DiscussionV3 => 2
    case RoomV2 => 3
    case LegacyV1 => 4
  }

  predicate NoNewer(c: Contract, than: Contract) {
    Age(c) >= Age(than)
  }

  lemma SnapshotIff(env: Env, schema: Schema, m: Message)
    ensures MessageSnapshot(env, schema, m).Ok? <==> DigestRight(env, m)
    ensures MessageSnapshot(env, schema, m).Ok? ==> IsSnapshotOf(env, schema, m, MessageSnapshot(env, schema, m).value)
    ensures MessageSnapshot(env, schema, m).Err? ==> MessageSnapshot(env, schema, m).error == ContentMismatch
  {
    NewestContract(env, m);
    hide ContentOf, ContractOf;
  }

  lemma NewestContract(env: Env, m: Message)
    ensures ContractOf(env, m).Some? <==> DigestRight(env, m)
    ensures ContractOf(env, m).Some? ==>
              var c := ContractOf(env, m).value;
              env.contentSha(ContentOf(m, c)) == m.contentSha
              && forall d | env.contentSha(ContentOf(m, d)) == m.contentSha :: NoNewer(d, c)
  {
    hide ContentOf;
    forall d | env.contentSha(ContentOf(m, d)) == m.contentSha
      ensures ContractOf(env, m).Some? && NoNewer(d, ContractOf(env, m).value)
    {
      match d
      case LegacyV1 =>
      case RoomV2 =>
      case DiscussionV3 =>
      case RoomVisibilityV4 =>
      case DiscussionVisibilityV4 =>
    }
  }

  /** The snapshots are those of the earlier messages, as far as a reply depends on them. */
  predicate SameIds(prior: seq<Snapshot>, rows: seq<Message>) {
    |prior| == |rows| && forall i | 0 <= i < |rows| :: prior[i].messageId == rows[i].messageId
  }

  lemma StepIff(env: Env, schema: Schema, m: Message, snap: Snapshot, step: Step, prior: seq<Snapshot>,
                rows: seq<Message>)
    requires IsSnapshotOf(env, schema, m, snap) && SameIds(prior, rows)
    ensures StepFault(snap, step, prior).None? <==>
      && m.sender == step.sender && m.recipient == step.recipient && m.subject == step.subject
      && env.textSha(m.body) == step.bodySha
      && InExpectedRoom(schema, m, step) && RepliesAsExpected(m, step, rows) && RoutedAsExpected(m, step)
  {
    hide ContentOf;
  }

  /** A message passes exactly if it fits, and the receipt records it, its receipt and its route receipt. */
  lemma OneIff(env: Env, db: Database, schema: Schema, scope: string, m: Message, step: Step, prior: seq<Snapshot>,
               rows: seq<Message>)
    requires SameIds(prior, rows)
    ensures var r := CheckOne(env, schema, scope, m, ReceiptsFor(db, scope, m.messageId),
                              RoutesFor(db, scope, m.messageId), step, prior);
            && (r.Ok? <==> MessageFits(env, db, schema, scope, m, step, rows))
            && (r.Ok? ==> RecordsMessage(env, db, schema, scope, m, r.value))
  {
    SnapshotIff(env, schema, m);
    var s := MessageSnapshot(env, schema, m);
    if s.Ok? {
      StepIff(env, schema, m, s.value, step, prior, rows);
      RoutesIff(env, db, scope, m, s.value);
      if m.acknowledgedUtc.Some? && m.acknowledgedUtc.value != "" {
        ReceiptsIff(db, scope, m);
      }
      hide MessageSnapshot, StepFault, RouteCheck, ReceiptsFor, RoutesFor, RouteReported, RoutedAsExpected,
           RepliesAsExpected, InExpectedRoom, DigestRight, ReportsRoute, RouteRequest, NoNewer, ContentOf;
    }
  }

  /** What the receipt records of a message: its fields, its receipt and, if it is routed, its route receipt. */
  ghost predicate RecordsMessage(env: Env, db: Database, schema: Schema, scope: string, m: Message, c: Checked) {
    && IsSnapshotOf(env, schema, m, c.snap) && m.acknowledgedUtc.Some?
    && c.receipt == ReceiptRow(scope, m.messageId, m.recipient, m.acknowledgedUtc.value)
    && (c.route.Some? <==> Routed(m))
    && (Routed(m) ==> c.route.value.requestSha == m.routeSha.value && c.route.value.row in db.routes
                      && ReportsRoute(env, scope, m, c.route.value.row)
                      && forall row | row in db.routes && IsFor(scope, m.messageId, row.scope, row.messageId) ::
                           row == c.route.value.row)
  }

  ghost predicate AllFit(env: Env, db: Database, schema: Schema, scope: string, rows: seq<Message>, steps: seq<Step>)
    requires |rows| == |steps|
  {
    forall i | 0 <= i < |rows| :: MessageFits(env, db, schema, scope, rows[i], steps[i], rows[..i])
  }

  ghost predicate AllRecorded(env: Env, db: Database, schema: Schema, scope: string, rows: seq<Message>,
                              checked: seq<Checked>)
  {
    |checked| == |rows| && forall i | 0 <= i < |rows| :: RecordsMessage(env, db, schema, scope, rows[i], checked[i])
  }

  /** The chain passes exactly if every message fits its step, and the receipt then records every message. */
  lemma {:induction false} CheckIff(env: Env, db: Database, schema: Schema, scope: string, rows: seq<Message>,
                                    steps: seq<Step>)
    requires |rows| == |steps|
    ensures var r := CheckAll(env, db, schema, scope, rows, steps);
            && (r.Ok? <==> AllFit(env, db, schema, scope, rows, steps))
            && (r.Ok? ==> AllRecorded(env, db, schema, scope, rows, r.value))
    decreases |rows|
  {
    if rows != [] {
      hide *;
      var n := |rows| - 1;
      assert rows[..n + 1] == rows && steps[..n + 1] == steps;
      CheckIff(env, db, schema, scope, rows[..n], steps[..n]);
      FitsOneMore(env, db, schema, scope, rows, steps);
      var before := CheckAll(env, db, schema, scope, rows[..n], steps[..n]);
      if before.Ok? {
        CheckTurn(env, db, schema, scope, rows, steps, n, before.value);
        RecordedIds(env, db, schema, scope, rows[..n], before.value);
        OneIff(env, db, schema, scope, rows[n], steps[n], Snapshots(before.value), rows[..n]);
        RecordedOneMore(env, db, schema, scope, rows, before.value);
      } else {
        CheckStops(env, db, schema, scope, rows, steps, n);
      }
    }
  }

  lemma RecordedOneMore(env: Env, db: Database, schema: Schema, scope: string, rows: seq<Message>, done: seq<Checked>)
    requires rows != [] && AllRecorded(env, db, schema, scope, rows[..|rows| - 1], done)
    ensures forall c | RecordsMessage(env, db, schema, scope, rows[|rows| - 1], c) ::
              AllRecorded(env, db, schema, scope, rows, done + [c])
  {
    hide RecordsMessage;
    var n := |rows| - 1;
    assert forall i | 0 <= i < n :: rows[..n][i] == rows[i];
  }

  lemma FitsOneMore(env: Env, db: Database, schema: Schema, scope: string, rows: seq<Message>, steps: seq<Step>)
    requires |rows| == |steps| > 0
    ensures AllFit(env, db, schema, scope, rows, steps) <==>
      AllFit(env, db, schema, scope, rows[..|rows| - 1], steps[..|rows| - 1])
      && MessageFits(env, db, schema, scope, rows[|rows| - 1], steps[|rows| - 1], rows[..|rows| - 1])
  {
    hide MessageFits;
    var n := |rows| - 1;
    assert forall i | 0 <= i < n :: rows[..n][..i] == rows[..i] && rows[..n][i] == rows[i] && steps[..n][i] == steps[i];
  }

  lemma RecordedIds(env: Env, db: Database, schema: Schema, scope: string, rows: seq<Message>, checked: seq<Checked>)
    requires AllRecorded(env, db, schema, scope, rows, checked)
    ensures SameIds(Snapshots(checked), rows)
  {
    SnapshotsMap(checked);
    hide Snapshots, ContentOf, NoNewer, ReportsRoute;
    forall i | 0 <= i < |rows| ensures checked[i].snap.messageId == rows[i].messageId {
      assert RecordsMessage(env, db, schema, scope, rows[i], checked[i]);
    }
  }

  // ----- expectations -----

  /** 64 lower-case hexadecimal digits. */
  predicate IsDigest(s: string) {
    |s| == 64 && forall i | 0 <= i < |s| :: s[i] in "0123456789abcdef"
  }

  lemma DigestIff(s: string)
    ensures IsHex64(s) <==> IsDigest(s)
  {
  }

  /** The caller's step is usable: sender, recipient and subject, and a body or its digest. */
  predicate Usable(raw: RawStep) {
    && raw.sender.Some? && raw.recipient.Some? && raw.subject.Some?
    && (raw.body.Some? || (raw.bodySha.Some? && IsDigest(raw.bodySha.value)))
  }

  predicate Expects(env: Env, schema: Schema, raw: RawStep, step: Step) {
    && Usable(raw) && step.sender == raw.sender.value && step.recipient == raw.recipient.value
    && step.subject == raw.subject.value && step.replyToStep == raw.replyToStep && step.route == raw.route
    && step.bodySha == (if raw.body.Some? then env.textSha(raw.body.value) else raw.bodySha.value)
    && (step.room.Some? <==> schema.V2? || schema.V3?)
    && (step.room.Some? ==>
          step.room.value == if raw.room.Some? && raw.room.value != "" then raw.room.value else "lobby")
  }

  predicate ExpectsAll(env: Env, schema: Schema, raws: seq<RawStep>, steps: seq<Step>) {
    |steps| == |raws| && forall i | 0 <= i < |raws| :: Expects(env, schema, raws[i], steps[i])
  }

  lemma ExpectedIff(env: Env, schema: Schema, raw: RawStep, step: Step)
    ensures ExpectedSnapshot(env, schema, raw) == Ok(step) <==> Expects(env, schema, raw, step)
  {
    assert !IsHex64("");
    if raw.bodySha.Some? {
      DigestIff(raw.bodySha.value);
    }
    hide IsHex64, IsDigest;
  }

  lemma {:induction false} ExpectedAllIff(env: Env, schema: Schema, raws: seq<RawStep>, steps: seq<Step>)
    ensures ExpectedAll(env, schema, raws) == Ok(steps) <==> ExpectsAll(env, schema, raws, steps)
    decreases |raws|
  {
    hide Expects, ExpectedSnapshot;
    if raws != [] {
      var n := |raws| - 1;
      if |steps| > 0 {
        ExpectedAllIff(env, schema, raws[..n], steps[..|steps| - 1]);
        ExpectedIff(env, schema, raws[n], steps[|steps| - 1]);
        assert steps == steps[..|steps| - 1] + [steps[|steps| - 1]];
      }
      var init, last := ExpectedAll(env, schema, raws[..n]), ExpectedSnapshot(env, schema, raws[n]);
      if init.Ok? && last.Ok? {
        assert (init.value + [last.value])[..|init.value|] == init.value;
      }
    }
  }

  // ----- the whole capture -----

  /** All steps name the room of the receipt, which is the one asked for, if one is; an unbound receipt has none. */
  predicate InRoom(schema: Schema, steps: seq<Step>, asked: Option<string>, room: Option<string>) {
    if schema.V2? || schema.V3? then
      (forall i | 0 <= i < |steps| :: steps[i].room == room) && (asked.Some? ==> asked == room)
    else room == None
  }

  lemma ChainRoomIff(schema: Schema, steps: seq<Step>, asked: Option<string>, room: Option<string>)
    requires steps != []
    ensures ChainRoom(schema, steps, asked) == Ok(room) <==> InRoom(schema, steps, asked, room)
  {
  }

  /** The message belongs to the task and, if the receipt is bound to one, to the room. */
  predicate OfChain(m: Message, scope: string, room: Option<string>, task: string) {
    m.scope == scope && m.task == task && (room.Some? ==> m.room == room.value)
  }

  /** These are the positions, in order, of the elements of r in q. */
  ghost predicate Picks<T(!new)>(q: seq<T>, at: seq<int>, r: seq<T>) {
    && |at| == |r| && (forall i | 0 <= i < |at| :: 0 <= at[i] < |q| && q[at[i]] == r[i])
    && forall i, j | 0 <= i < j < |at| :: at[i] < at[j]
  }

  ghost predicate AllPicked<T(!new)>(q: seq<T>, at: seq<int>, p: T -> bool) {
    forall k | 0 <= k < |q| :: p(q[k]) <==> k in at
  }

  /** The messages of the chain are all those of the task and room, in table order. */
  ghost predicate IsSelection(messages: seq<Message>, rows: seq<Message>, scope: string, room: Option<string>,
                              task: string)
  {
    exists at: seq<int> :: Picks(messages, at, rows) && AllPicked(messages, at, m => OfChain(m, scope, room, task))
  }

  lemma {:induction false} SelectedPositions<T(!new)>(q: seq<T>, p: T -> bool) returns (at: seq<int>)
    ensures Picks(q, at, Filter(q, p)) && AllPicked(q, at, p)
  {
    at := [];
    if q != [] {
      var n := |q| - 1;
      at := SelectedPositions(q[..n], p);
      assert q == q[..n] + [q[n]];
      PickOneMore(q[..n], q[n], at, Filter(q[..n], p), p);
      at := if p(q[n]) then at + [n] else at;
      hide Picks, AllPicked;
    }
  }

  lemma PickOneMore<T(!new)>(q: seq<T>, x: T, at: seq<int>, r: seq<T>, p: T -> bool)
    requires Picks(q, at, r) && AllPicked(q, at, p)
    ensures p(x) ==> Picks(q + [x], at + [|q|], r + [x]) && AllPicked(q + [x], at + [|q|], p)
    ensures !p(x) ==> Picks(q + [x], at, r + []) && AllPicked(q + [x], at, p)
  {
    assert r + [] == r;
    assert forall k | 0 <= k < |q| :: (q + [x])[k] == q[k];
    assert forall i | 0 <= i < |at| :: at[i] in at && at[i] != |q|;
  }

  lemma ChainMessages(db: Database, scope: string, room: Option<string>, task: string)
    ensures IsSelection(db.messages, TaskMessages(db, scope, room, task), scope, room, task)
  {
    var at := SelectedPositions(db.messages, OfTask(scope, room, task));
    assert forall m :: OfTask(scope, room, task)(m) == OfChain(m, scope, room, task);
    hide Filter, Picks;
    assert AllPicked(db.messages, at, m => OfChain(m, scope, room, task));
  }

  /** The latest event that acknowledges the message. */
  ghost predicate LatestAck(env: Env, events: seq<Stored>, id: string, ack: Stored) {
    exists k :: 0 <= k < |events| && events[k] == ack && Acknowledges(env, ack, id)
                && forall i | k < i < |events| :: !Acknowledges(env, events[i], id)
  }

  predicate Acknowledges(env: Env, e: Stored, id: string) {
    e.eventType == "message.acknowledged" && env.messageIdOf(e.payload) == Some(id)
  }

  lemma LatestAckIff(env: Env, events: seq<Stored>, id: string, ack: Stored)
    ensures FinalAck(env, events, id) == Some(ack) <==> LatestAck(env, events, id, ack)
  {
    FinalAckMeaning(env, events, id);
    hide FinalAck;
    assert forall e :: IsFinalAck(env, e, id) == Acknowledges(env, e, id);
    hide IsFinalAck, Acknowledges;
  }

  /** The events up to a sequence: a prefix of the table, cut behind the last such event. */
  lemma {:induction false} ThroughIsPrefix(events: seq<Stored>, bound: int)
    requires AscendingEvents(events)
    ensures Through(events, bound) <= events
    ensures forall i | 0 <= i < |events| :: events[i].sequence <= bound <==> i < |Through(events, bound)|
  {
    if events != [] {
      if events[0].sequence <= bound {
        assert forall i | 0 <= i < |events| - 1 :: events[1..][i] == events[i + 1];
        ThroughIsPrefix(events[1..], bound);
        assert events == [events[0]] + events[1..];
      } else {
        NothingThrough(events, bound);
      }
    }
  }

  /** The child receipt identifies its agent as the route receipt does. */
  predicate ReportsIdentity(c: Child, row: RouteRow) {
    && c.identity.provider == row.provider && c.identity.model == row.model && c.identity.reasoning == row.reasoning
    && (row.routeClass.Some? ==> c.identity.routeClass == row.routeClass)
  }

  ghost function Agents(rows: seq<Message>): set<string> {
    (set m | m in rows :: m.sender) + (set m | m in rows :: m.recipient)
  }

  /** One readable child receipt for each participant, of this scope, that agrees with the routes of its agent. */
  ghost predicate ChildrenFit(env: Env, db: Database, paths: map<string, string>, scope: string, rows: seq<Message>) {
    && (forall tag | tag in paths ::
          env.childAt(paths[tag]).Some? && env.childAt(paths[tag]).value.scope == scope
          && env.childAt(paths[tag]).value.agent in Agents(rows))
    && (forall a, b | a in paths && b in paths && a != b ::
          env.childAt(paths[a]).value.agent != env.childAt(paths[b]).value.agent)
    && (forall agent | agent in Agents(rows) ::
          exists tag :: tag in paths && env.childAt(paths[tag]).value.agent == agent)
    && (forall tag, m, row | tag in paths && m in rows && row in db.routes
                             && IsFor(scope, m.messageId, row.scope, row.messageId)
                             && env.childAt(paths[tag]).value.agent == row.agent ::
          ReportsIdentity(env.childAt(paths[tag]).value, row))
  }

  /** Everything a capture asks of the request, the tables and the files. */
  ghost predicate Capturable(env: Env, db: Database, q: Request, steps: seq<Step>, room: Option<string>, ack: Stored) {
    var rows := TaskMessages(db, q.scope, room, q.task);
    && !q.schema.Unsupported? && ExpectsAll(env, q.schema, q.raws, steps) && |steps| >= 2
    && InRoom(q.schema, steps, q.room, room)
    && |rows| == |steps| && AllFit(env, db, q.schema, q.scope, rows, steps)
    && LatestAck(env, db.events, rows[|rows| - 1].messageId, ack)
    && Through(db.events, ack.sequence) != [] && Valid(env.h, Through(db.events, ack.sequence))
    && (forall tag | tag in q.evidence :: env.evidenceAt(q.evidence[tag]).Some?)
    && (if q.schema.V3? then q.children != map[] && ChildrenFit(env, db, q.children, q.scope, rows)
        else q.children == map[])
  }

  lemma {:induction false} RouteReceiptsMeaning(checked: seq<Checked>)
    ensures forall x :: x in RouteReceipts(checked) <==> exists i :: 0 <= i < |checked| && checked[i].route == Some(x)
  {
    if checked != [] {
      var n := |checked| - 1;
      RouteReceiptsMeaning(checked[..n]);
      forall x ensures x in RouteReceipts(checked) <==> exists i :: 0 <= i < |checked| && checked[i].route == Some(x) {
        if i :| 0 <= i < |checked| && checked[i].route == Some(x) {
          assert i < n ==> checked[..n][i].route == Some(x);
        }
        if x in RouteReceipts(checked[..n]) {
          var i :| 0 <= i < n && checked[..n][i].route == Some(x);
          assert checked[i].route == Some(x);
        }
      }
    }
  }

  /** The row is a route receipt of a message of the chain. */
  ghost predicate RowOfChain(db: Database, scope: string, rows: seq<Message>, row: RouteRow) {
    row in db.routes && exists m :: m in rows && IsFor(scope, m.messageId, row.scope, row.messageId)
  }

  lemma RecordedIsOfChain(env: Env, db: Database, schema: Schema, scope: string, rows: seq<Message>,
                          checked: seq<Checked>, x: RouteReceipt)
    requires AllRecorded(env, db, schema, scope, rows, checked) && x in RouteReceipts(checked)
    ensures RowOfChain(db, scope, rows, x.row)
  {
    hide IsSnapshotOf;
    RouteReceiptsMeaning(checked);
    hide RouteReceipts;
    var i :| 0 <= i < |checked| && checked[i].route == Some(x);
    assert RecordsMessage(env, db, schema, scope, rows[i], checked[i]);
    assert rows[i] in rows;
  }

  /** The recorded route receipts are the route receipts of the chain's messages. */
  lemma RecordedRoutes(env: Env, db: Database, schema: Schema, scope: string, rows: seq<Message>, steps: seq<Step>,
                       checked: seq<Checked>, row: RouteRow)
    requires |rows| == |steps| && AllFit(env, db, schema, scope, rows, steps)
    requires AllRecorded(env, db, schema, scope, rows, checked)
    ensures (exists x :: x in RouteReceipts(checked) && x.row == row) <==> RowOfChain(db, scope, rows, row)
  {
    hide IsSnapshotOf, AcknowledgedOnce, InExpectedRoom, RepliesAsExpected, RoutedAsExpected, DigestRight;
    RouteReceiptsMeaning(checked);
    hide RouteReceipts;
    if x :| x in RouteReceipts(checked) && x.row == row {
      RecordedIsOfChain(env, db, schema, scope, rows, checked, x);
    }
    if RowOfChain(db, scope, rows, row) {
      var m :| m in rows && IsFor(scope, m.messageId, row.scope, row.messageId);
      var i :| 0 <= i < |rows| && rows[i] == m;
      var j :| 0 <= j < |db.routes| && db.routes[j] == row;
      assert MessageFits(env, db, schema, scope, rows[i], steps[i], rows[..i]);
      assert RecordsMessage(env, db, schema, scope, rows[i], checked[i]);
      assert checked[i].route.Some? && checked[i].route.value in RouteReceipts(checked);
    }
  }

  lemma ParticipantsAre(env: Env, db: Database, schema: Schema, scope: string, rows: seq<Message>,
                        checked: seq<Checked>)
    requires AllRecorded(env, db, schema, scope, rows, checked)
    ensures Participants(Snapshots(checked)) == Agents(rows)
  {
    SnapshotsMap(checked);
    hide Snapshots, ContentOf, NoNewer, ReportsRoute;
    var snaps := Snapshots(checked);
    forall i | 0 <= i < |rows|
      ensures snaps[i].sender == rows[i].sender && snaps[i].recipient == rows[i].recipient
    {
      assert RecordsMessage(env, db, schema, scope, rows[i], checked[i]);
    }
    hide RecordsMessage, AllRecorded;
    forall a ensures a in Participants(snaps) <==> a in Agents(rows) {
      if a in Agents(rows) {
        var m :| m in rows && (m.sender == a || m.recipient == a);
        var i :| 0 <= i < |rows| && rows[i] == m;
        assert snaps[i].sender == m.sender;
      }
      if a in Participants(snaps) {
        var i :| 0 <= i < |snaps| && (snaps[i].sender == a || snaps[i].recipient == a);
        assert rows[i] in rows;
      }
    }
  }

  lemma ChildrenIff(env: Env, db: Database, q: Request, rows: seq<Message>, steps: seq<Step>, checked: seq<Checked>)
    requires |rows| == |steps| && AllFit(env, db, q.schema, q.scope, rows, steps)
    requires AllRecorded(env, db, q.schema, q.scope, rows, checked)
    ensures var r := ReadChildren(env, q.children, Participants(Snapshots(checked)), q.scope, RouteReceipts(checked));
            && (r.Some? <==> ChildrenFit(env, db, q.children, q.scope, rows))
            && (r.Some? ==> r.value.Keys == q.children.Keys
                            && forall tag | tag in q.children :: r.value[tag] == env.childAt(q.children[tag]).value)
  {
    ParticipantsAre(env, db, q.schema, q.scope, rows, checked);
    hide AllFit, AllRecorded, Participants, Snapshots, Agents, RouteReceipts, RowOfChain, ChildrenFit, ReadChildren;
    forall row ensures (exists x :: x in RouteReceipts(checked) && x.row == row) <==> RowOfChain(db, q.scope, rows, row)
    {
      RecordedRoutes(env, db, q.schema, q.scope, rows, steps, checked, row);
    }
    ReadChildrenIff(env, db, q.children, Agents(rows), q.scope, RouteReceipts(checked), rows);
  }

  lemma IdentitiesIff(env: Env, db: Database, children: map<string, Child>, scope: string, routes: seq<RouteReceipt>,
                      rows: seq<Message>)
    requires forall row :: (exists x :: x in routes && x.row == row) <==> RowOfChain(db, scope, rows, row)
    ensures (exists tag, i :: tag in children && 0 <= i < |routes| && children[tag].agent == routes[i].row.agent
                              && !IdentityMatches(children[tag], routes[i]))
            <==> exists tag, m, row :: tag in children && m in rows && row in db.routes
                   && IsFor(scope, m.messageId, row.scope, row.messageId)
                   && children[tag].agent == row.agent && !ReportsIdentity(children[tag], row)
  {
    if tag, i :| tag in children && 0 <= i < |routes| && children[tag].agent == routes[i].row.agent
                 && !IdentityMatches(children[tag], routes[i]) {
      assert routes[i] in routes && RowOfChain(db, scope, rows, routes[i].row);
      var m :| m in rows && IsFor(scope, m.messageId, routes[i].row.scope, routes[i].row.messageId);
      assert !ReportsIdentity(children[tag], routes[i].row);
    }
    if tag, m, row :| tag in children && m in rows && row in db.routes
                      && IsFor(scope, m.messageId, row.scope, row.messageId)
                      && children[tag].agent == row.agent && !ReportsIdentity(children[tag], row) {
      assert RowOfChain(db, scope, rows, row);
      var x :| x in routes && x.row == row;
      var i :| 0 <= i < |routes| && routes[i] == x;
      assert !IdentityMatches(children[tag], routes[i]);
    }
  }

  lemma AgentsIff(children: map<string, Child>, participants: set<string>)
    ensures (set tag | tag in children :: children[tag].agent) == participants <==>
      && (forall tag | tag in children :: children[tag].agent in participants)
      && (forall agent | agent in participants :: exists tag :: tag in children && children[tag].agent == agent)
  {
  }

  lemma FitIff(env: Env, db: Database, paths: map<string, string>, children: map<string, Child>, scope: string,
               rows: seq<Message>)
    requires forall tag | tag in paths :: env.childAt(paths[tag]).Some?
    requires children == map tag | tag in paths :: env.childAt(paths[tag]).value
    ensures ChildrenFit(env, db, paths, scope, rows) <==>
      && (forall a, b | a in children && b in children && a != b :: children[a].agent != children[b].agent)
      && (forall tag | tag in children :: children[tag].agent in Agents(rows) && children[tag].scope == scope)
      && (forall agent | agent in Agents(rows) :: exists tag :: tag in children && children[tag].agent == agent)
      && (forall tag, m, row | tag in children && m in rows && row in db.routes
                               && IsFor(scope, m.messageId, row.scope, row.messageId)
                               && children[tag].agent == row.agent ::
            ReportsIdentity(children[tag], row))
  {
    hide Agents, ReportsIdentity, IsFor;
    assert forall tag | tag in paths :: tag in children && children[tag] == env.childAt(paths[tag]).value;
    if ChildrenFit(env, db, paths, scope, rows) {
      forall agent | agent in Agents(rows) ensures exists tag :: tag in children && children[tag].agent == agent {
        var tag :| tag in paths && env.childAt(paths[tag]).value.agent == agent;
        assert tag in children;
      }
    }
  }

  lemma ReadUnfolds(env: Env, paths: map<string, string>, participants: set<string>, scope: string,
                    routes: seq<RouteReceipt>, children: map<string, Child>)
    requires forall tag | tag in paths :: env.childAt(paths[tag]).Some?
    requires children == map tag | tag in paths :: env.childAt(paths[tag]).value
    ensures var r := ReadChildren(env, paths, participants, scope, routes);
            && (r.Some? ==> r.value == children)
            && (r.Some? <==>
                  && (forall a, b | a in children && b in children && a != b :: children[a].agent != children[b].agent)
                  && (set tag | tag in children :: children[tag].agent) == participants
                  && (forall tag | tag in children :: children[tag].scope == scope)
                  && !(exists tag, i :: tag in children && 0 <= i < |routes|
                                        && children[tag].agent == routes[i].row.agent
                                        && !IdentityMatches(children[tag], routes[i])))
  {
    hide IdentityMatches;
  }

  lemma ReadChildrenIff(env: Env, db: Database, paths: map<string, string>, participants: set<string>, scope: string,
                        routes: seq<RouteReceipt>, rows: seq<Message>)
    requires participants == Agents(rows)
    requires forall row :: (exists x :: x in routes && x.row == row) <==> RowOfChain(db, scope, rows, row)
    ensures var r := ReadChildren(env, paths, participants, scope, routes);
            && (r.Some? <==> ChildrenFit(env, db, paths, scope, rows))
            && (r.Some? ==> r.value.Keys == paths.Keys
                            && forall tag | tag in paths :: r.value[tag] == env.childAt(paths[tag]).value)
  {
    if forall tag | tag in paths :: env.childAt(paths[tag]).Some? {
      hide *;
      var children := map tag | tag in paths :: env.childAt(paths[tag]).value;
      ReadUnfolds(env, paths, participants, scope, routes, children);
      IdentitiesIff(env, db, children, scope, routes, rows);
      AgentsIff(children, participants);
      FitIff(env, db, paths, children, scope, rows);
    } else {
      hide ReportsIdentity, IsFor, RowOfChain, Agents, IdentityMatches;
      assert !ChildrenFit(env, db, paths, scope, rows);
    }
  }

  // ----- the theorem -----

  /**
   When a chain is captured: exactly when the expectations are usable and name one room, every message of the task in
   the room fits its step, the last one was acknowledged and the log up to that acknowledgement is a valid chain, and
   the files the receipt refers to are there, with one agreeing child receipt for each participant where the schema
   asks.
   */
  lemma CapturedIff(env: Env, db: Database, q: Request, utc: string)
    ensures Captured(env, db, q, utc).Ok? <==> exists steps, room, ack :: Capturable(env, db, q, steps, room, ack)
  {
    hide *;
    if Captured(env, db, q, utc).Ok? {
      var steps, room, read := CaptureWorked(env, db, q, utc);
      WorkedIsCapturable(env, db, q, utc, Captured(env, db, q, utc).value, steps, room, read);
    }
    if steps, room, ack :| Capturable(env, db, q, steps, room, ack) {
      var r, read := CapturableWorks(env, db, q, utc, steps, room, ack);
    }
  }

  lemma FinishedIff(env: Env, db: Database, q: Request, utc: string, steps: seq<Step>, room: Option<string>,
                    read: Read, rows: seq<Message>, checked: seq<Checked>)
    requires |rows| == |steps| && AllFit(env, db, q.schema, q.scope, rows, steps)
    requires AllRecorded(env, db, q.schema, q.scope, rows, checked)
    requires read.messages == Snapshots(checked) && read.routes == RouteReceipts(checked)
    ensures Finished(env, q, steps, room, read, utc).Ok? <==>
      && (forall tag | tag in q.evidence :: env.evidenceAt(q.evidence[tag]).Some?)
      && (if q.schema.V3? then q.children != map[] && ChildrenFit(env, db, q.children, q.scope, rows)
          else q.children == map[])
  {
    hide AllFit, AllRecorded, Participants, Snapshots, RouteReceipts, ChildrenFit, ReadChildren, EventSnapshotOf;
    ChildrenIff(env, db, q, rows, steps, checked);
  }

  lemma WorkedIsCapturable(env: Env, db: Database, q: Request, utc: string, r: Receipt, steps: seq<Step>,
                           room: Option<string>, read: Read)
    requires Worked(env, db, q, utc, r, steps, room, read)
    ensures Capturable(env, db, q, steps, room, read.ack)
  {
    hide ExpectedAll, ChainRoom, ReadTables, Finished, ExpectsAll, InRoom, AllFit, AllRecorded, LatestAck, Valid,
         Through, TaskMessages, CheckAll, ChildrenFit, FinalAck, Snapshots, RouteReceipts, ReceiptRows;
    var rows := TaskMessages(db, q.scope, room, q.task);
    ReadByMeaning(env, db, q, steps, room);
    var checked := CheckAll(env, db, q.schema, q.scope, rows, steps).value;
    CheckIff(env, db, q.schema, q.scope, rows, steps);
    ExpectedAllIff(env, q.schema, q.raws, steps);
    ChainRoomIff(q.schema, steps, q.room, room);
    LatestAckIff(env, db.events, FinalId(rows), read.ack);
    FinishedIff(env, db, q, utc, steps, room, read, rows, checked);
  }

  lemma CapturableWorks(env: Env, db: Database, q: Request, utc: string, steps: seq<Step>, room: Option<string>,
                        ack: Stored)
    returns (r: Receipt, read: Read)
    requires Capturable(env, db, q, steps, room, ack)
    ensures Captured(env, db, q, utc) == Ok(r) && Worked(env, db, q, utc, r, steps, room, read) && read.ack == ack
  {
    hide ExpectedAll, ChainRoom, ReadTables, Finished, ExpectsAll, InRoom, AllFit, AllRecorded, LatestAck, Valid,
         Through, TaskMessages, CheckAll, ChildrenFit, FinalAck, Snapshots, RouteReceipts, ReceiptRows, Captured;
    var rows := TaskMessages(db, q.scope, room, q.task);
    CheckIff(env, db, q.schema, q.scope, rows, steps);
    var checked := CheckAll(env, db, q.schema, q.scope, rows, steps).value;
    ExpectedAllIff(env, q.schema, q.raws, steps);
    ChainRoomIff(q.schema, steps, q.room, room);
    LatestAckIff(env, db.events, FinalId(rows), ack);
    read := Read(Snapshots(checked), ReceiptRows(checked), RouteReceipts(checked), ack,
                 |Through(db.events, ack.sequence)|);
    LastIsLast(env, db, q.schema, q.scope, rows, checked);
    assert ReadBy(env, db, q, steps, room, read, rows, checked);
    ReadByMeaning(env, db, q, steps, room);
    FinishedIff(env, db, q, utc, steps, room, read, rows, checked);
    r := Finished(env, q, steps, room, read, utc).value;
    CapturedAs(env, db, q, utc, steps, room);
  }

  lemma LastIsLast(env: Env, db: Database, schema: Schema, scope: string, rows: seq<Message>, checked: seq<Checked>)
    requires AllRecorded(env, db, schema, scope, rows, checked) && rows != []
    ensures |checked| == |rows| && checked[|checked| - 1].snap.messageId == FinalId(rows)
  {
    assert RecordsMessage(env, db, schema, scope, rows[|rows| - 1], checked[|rows| - 1]);
    hide ContentOf, NoNewer, ReportsRoute;
  }

  // ----- what the receipt says -----

  /** A captured receipt says what it was asked for and what the tables and files held. */
  lemma CapturedSays(env: Env, db: Database, q: Request, utc: string, r: Receipt, steps: seq<Step>,
                     room: Option<string>, read: Read)
    requires Worked(env, db, q, utc, r, steps, room, read)
    ensures var b, rows := r.body, TaskMessages(db, q.scope, room, q.task);
            && r.sha == env.receiptSha(b)
            && b.schema == q.schema && b.createdUtc == utc && b.databasePath == env.databasePath
            && b.scope == q.scope && b.task == q.task && b.room == room && ExpectsAll(env, q.schema, q.raws, b.expected)
            && |b.messages| == |b.receipts| == |rows|
            && (forall i | 0 <= i < |rows| :: IsSnapshotOf(env, q.schema, rows[i], b.messages[i]))
            && (forall i | 0 <= i < |rows| ::
                  rows[i].acknowledgedUtc.Some?
                  && b.receipts[i] == ReceiptRow(q.scope, rows[i].messageId, rows[i].recipient,
                                                 rows[i].acknowledgedUtc.value))
            && (forall row :: (exists x :: x in b.routes && x.row == row) <==> RowOfChain(db, q.scope, rows, row))
            && b.finalAck == EventSnapshotOf(read.ack) && b.prefixHead == read.ack.chainSha
            && b.prefixCount == |Through(db.events, read.ack.sequence)|
            && b.evidence.Keys == q.evidence.Keys
            && (forall tag | tag in q.evidence :: env.evidenceAt(q.evidence[tag]) == Some(b.evidence[tag]))
            && b.participants == (if q.schema.V3? then Agents(rows) else {})
            && b.children.Keys == q.children.Keys
            && (forall tag | tag in q.children :: env.childAt(q.children[tag]) == Some(b.children[tag]))
  {
    hide ExpectedAll, ChainRoom, ReadTables, Finished, ExpectsAll, InRoom, AllFit, AllRecorded, LatestAck, Valid,
         Through, TaskMessages, CheckAll, ChildrenFit, FinalAck, Snapshots, RouteReceipts, ReceiptRows, RowOfChain,
         IsSnapshotOf, EventSnapshotOf, Agents;
    var rows := TaskMessages(db, q.scope, room, q.task);
    ReadByMeaning(env, db, q, steps, room);
    var checked := CheckAll(env, db, q.schema, q.scope, rows, steps).value;
    CheckIff(env, db, q.schema, q.scope, rows, steps);
    ExpectedAllIff(env, q.schema, q.raws, steps);
    RecordedLists(env, db, q.schema, q.scope, rows, checked);
    FinishedSays(env, db, q, utc, steps, room, read, rows, checked);
    forall row ensures (exists x :: x in RouteReceipts(checked) && x.row == row) <==> RowOfChain(db, q.scope, rows, row)
    {
      RecordedRoutes(env, db, q.schema, q.scope, rows, steps, checked, row);
    }
  }

  lemma RecordedLists(env: Env, db: Database, schema: Schema, scope: string, rows: seq<Message>, checked: seq<Checked>)
    requires AllRecorded(env, db, schema, scope, rows, checked)
    ensures |Snapshots(checked)| == |ReceiptRows(checked)| == |rows|
    ensures forall i | 0 <= i < |rows| ::
              IsSnapshotOf(env, schema, rows[i], Snapshots(checked)[i]) && rows[i].acknowledgedUtc.Some?
              && ReceiptRows(checked)[i]
                 == ReceiptRow(scope, rows[i].messageId, rows[i].recipient, rows[i].acknowledgedUtc.value)
  {
    SnapshotsMap(checked);
    ReceiptsMap(checked);
    hide Snapshots, ReceiptRows, IsSnapshotOf, ReportsRoute;
    forall i | 0 <= i < |rows| ensures RecordsMessage(env, db, schema, scope, rows[i], checked[i]) {
    }
  }

  lemma {:induction false} ReceiptsMap(checked: seq<Checked>)
    ensures |ReceiptRows(checked)| == |checked|
    ensures forall i | 0 <= i < |checked| :: ReceiptRows(checked)[i] == checked[i].receipt
  {
    if checked != [] {
      ReceiptsMap(checked[..|checked| - 1]);
    }
  }

  lemma FinishedSays(env: Env, db: Database, q: Request, utc: string, steps: seq<Step>, room: Option<string>,
                     read: Read, rows: seq<Message>, checked: seq<Checked>)
    requires |rows| == |steps| && AllFit(env, db, q.schema, q.scope, rows, steps)
    requires AllRecorded(env, db, q.schema, q.scope, rows, checked)
    requires read.messages == Snapshots(checked) && read.routes == RouteReceipts(checked)
    requires Finished(env, q, steps, room, read, utc).Ok?
    ensures var r := Finished(env, q, steps, room, read, utc).value;
            var b := r.body;
            && r.sha == env.receiptSha(b)
            && b.schema == q.schema && b.createdUtc == utc && b.databasePath == env.databasePath
            && b.scope == q.scope && b.task == q.task && b.room == room && b.expected == steps
            && b.messages == read.messages && b.receipts == read.receipts && b.routes == read.routes
            && b.finalAck == EventSnapshotOf(read.ack) && b.prefixHead == read.ack.chainSha
            && b.prefixCount == read.prefix
            && b.evidence.Keys == q.evidence.Keys
            && (forall tag | tag in q.evidence :: env.evidenceAt(q.evidence[tag]) == Some(b.evidence[tag]))
            && b.participants == (if q.schema.V3? then Agents(rows) else {})
            && b.children.Keys == q.children.Keys
            && (forall tag | tag in q.children :: env.childAt(q.children[tag]) == Some(b.children[tag]))
  {
    hide AllFit, AllRecorded, Participants, Snapshots, RouteReceipts, ChildrenFit, ReadChildren, EventSnapshotOf,
         Agents;
    ChildrenIff(env, db, q, rows, steps, checked);
    ParticipantsAre(env, db, q.schema, q.scope, rows, checked);
    ChildrenReadable(env, db, q, rows);
  }

  lemma ChildrenReadable(env: Env, db: Database, q: Request, rows: seq<Message>)
    ensures ChildrenFit(env, db, q.children, q.scope, rows) ==>
              forall tag | tag in q.children :: env.childAt(q.children[tag]).Some?
  {
    hide Agents, IsFor, ReportsIdentity;
  }

  // ----- what verifying compares -----

  /** Which keys differ; the room counts where the schema binds one, participants and children where it has them. */
  lemma DifferencesIff(a: Body, b: Body, key: Key)
    ensures key in Differences(a, b) <==>
      match key
      case DatabasePathKey => a.databasePath != b.databasePath
      case ScopeKey => a.scope != b.scope
      case TaskKey => a.task != b.task
      case ExpectedKey => a.expected != b.expected
      case MessagesKey => a.messages != b.messages
      case ReceiptsKey => a.receipts != b.receipts
      case RoutesKey => a.routes != b.routes
      case FinalAckKey => a.finalAck != b.finalAck
      case PrefixCountKey => a.prefixCount != b.prefixCount
      case PrefixHeadKey => a.prefixHead != b.prefixHead
      case EvidenceKey => a.evidence != b.evidence
      case RoomKey => (b.schema.V2? || b.schema.V3?) && a.room != b.room
      case ParticipantsKey => b.schema.V3? && a.participants != b.participants
      case ChildrenKey => b.schema.V3? && a.children != b.children
      case SchemaKey => false
      case ReceiptShaKey => false
      case EvidenceError(_) => false
  {
    ChainDifferencesIff(a, b, key);
    SupportDifferencesIff(a, b, key);
    hide ChainDifferences, SupportDifferences;
  }

  lemma ChainDifferencesIff(a: Body, b: Body, key: Key)
    ensures key in ChainDifferences(a, b) <==>
      match key
      case DatabasePathKey => a.databasePath != b.databasePath
      case ScopeKey => a.scope != b.scope
      case TaskKey => a.task != b.task
      case ExpectedKey => a.expected != b.expected
      case MessagesKey => a.messages != b.messages
      case ReceiptsKey => a.receipts != b.receipts
      case RoutesKey => a.routes != b.routes
      case _ => false
  {
    InSeven(Flag(a.databasePath != b.databasePath, DatabasePathKey), Flag(a.scope != b.scope, ScopeKey),
            Flag(a.task != b.task, TaskKey), Flag(a.expected != b.expected, ExpectedKey),
            Flag(a.messages != b.messages, MessagesKey), Flag(a.receipts != b.receipts, ReceiptsKey),
            Flag(a.routes != b.routes, RoutesKey), key);
    FlagIff(a.databasePath != b.databasePath, DatabasePathKey, key);
    FlagIff(a.scope != b.scope, ScopeKey, key);
    FlagIff(a.task != b.task, TaskKey, key);
    FlagIff(a.expected != b.expected, ExpectedKey, key);
    FlagIff(a.messages != b.messages, MessagesKey, key);
    FlagIff(a.receipts != b.receipts, ReceiptsKey, key);
    FlagIff(a.routes != b.routes, RoutesKey, key);
    hide Flag;
  }

  lemma FlagIff(c: bool, k: Key, key: Key)
    ensures key in Flag(c, k) <==> c && key == k
  {
  }

  lemma InSeven<T>(a: seq<T>, b: seq<T>, c: seq<T>, d: seq<T>, e: seq<T>, f: seq<T>, g: seq<T>, x: T)
    ensures x in a + b + c + d + e + f + g <==> x in a || x in b || x in c || x in d || x in e || x in f || x in g
  {
  }

  lemma SupportDifferencesIff(a: Body, b: Body, key: Key)
    ensures key in SupportDifferences(a, b) <==>
      || (key == FinalAckKey && a.finalAck != b.finalAck) || (key == PrefixCountKey && a.prefixCount != b.prefixCount)
      || (key == PrefixHeadKey && a.prefixHead != b.prefixHead) || (key == EvidenceKey && a.evidence != b.evidence)
      || (key == RoomKey && (b.schema.V2? || b.schema.V3?) && a.room != b.room)
      || (key == ParticipantsKey && b.schema.V3? && a.participants != b.participants)
      || (key == ChildrenKey && b.schema.V3? && a.children != b.children)
  {
    InSeven(Flag(a.finalAck != b.finalAck, FinalAckKey), Flag(a.prefixCount != b.prefixCount, PrefixCountKey),
            Flag(a.prefixHead != b.prefixHead, PrefixHeadKey), Flag(a.evidence != b.evidence, EvidenceKey),
            Flag(RoomBound(b.schema) && a.room != b.room, RoomKey),
            Flag(b.schema.V3? && a.participants != b.participants, ParticipantsKey),
            Flag(b.schema.V3? && a.children != b.children, ChildrenKey), key);
    FlagIff(a.finalAck != b.finalAck, FinalAckKey, key);
    FlagIff(a.prefixCount != b.prefixCount, PrefixCountKey, key);
    FlagIff(a.prefixHead != b.prefixHead, PrefixHeadKey, key);
    FlagIff(a.evidence != b.evidence, EvidenceKey, key);
    FlagIff(RoomBound(b.schema) && a.room != b.room, RoomKey, key);
    FlagIff(b.schema.V3? && a.participants != b.participants, ParticipantsKey, key);
    FlagIff(b.schema.V3? && a.children != b.children, ChildrenKey, key);
    hide Flag;
  }

  /** The receipt says the same as the other, in everything its schema records but the time. */
  predicate SaysSame(a: Body, b: Body) {
    && a.databasePath == b.databasePath && a.scope == b.scope && a.task == b.task && a.expected == b.expected
    && a.messages == b.messages && a.receipts == b.receipts && a.routes == b.routes && a.finalAck == b.finalAck
    && a.prefixCount == b.prefixCount && a.prefixHead == b.prefixHead && a.evidence == b.evidence
    && (b.schema.V2? || b.schema.V3? ==> a.room == b.room)
    && (b.schema.V3? ==> a.participants == b.participants && a.children == b.children)
  }

  lemma NoDifferenceIff(a: Body, b: Body)
    ensures Differences(a, b) == [] <==> SaysSame(a, b)
  {
    if !SaysSame(a, b) {
      SomeDifference(a, b);
    }
  }

  lemma SomeDifference(a: Body, b: Body)
    requires !SaysSame(a, b)
    ensures Differences(a, b) != []
  {
    DifferencesIff(a, b, DatabasePathKey);
    DifferencesIff(a, b, ScopeKey);
    DifferencesIff(a, b, TaskKey);
    DifferencesIff(a, b, ExpectedKey);
    DifferencesIff(a, b, MessagesKey);
    DifferencesIff(a, b, ReceiptsKey);
    DifferencesIff(a, b, RoutesKey);
    DifferencesIff(a, b, FinalAckKey);
    DifferencesIff(a, b, PrefixCountKey);
    DifferencesIff(a, b, PrefixHeadKey);
    DifferencesIff(a, b, EvidenceKey);
    DifferencesIff(a, b, RoomKey);
    DifferencesIff(a, b, ParticipantsKey);
    DifferencesIff(a, b, ChildrenKey);
    hide Differences;
  }

  /**
   Any receipt, however it came about, verifies exactly if its schema is supported, its digest is right, and capturing
   its own chain and paths again says the same: an edited receipt with a recomputed digest verifies only if it is true.
   */
  lemma VerifiesIffTrue(env: Env, db: Database, r: Receipt, utc: string)
    ensures VerifiesAt(env, db, r, utc) <==>
      && !r.body.schema.Unsupported? && env.receiptSha(r.body) == r.sha
      && var c := Captured(env, db, RequestOf(r.body), utc); c.Ok? && SaysSame(c.value.body, r.body)
  {
    if !r.body.schema.Unsupported? && env.receiptSha(r.body) == r.sha {
      VerifiesIffNoDifference(env, db, r, utc);
      var c := Captured(env, db, RequestOf(r.body), utc);
      if c.Ok? {
        NoDifferenceIff(c.value.body, r.body);
      }
    } else {
      WrongSeal(env, db, r, utc);
    }
  }

  lemma WrongSeal(env: Env, db: Database, r: Receipt, utc: string)
    requires r.body.schema.Unsupported? || env.receiptSha(r.body) != r.sha
    ensures !VerifiesAt(env, db, r, utc)
  {
    var own := Flag(r.body.schema.Unsupported?, SchemaKey) + Flag(env.receiptSha(r.body) != r.sha, ReceiptShaKey);
    assert |own| > 0;
    hide Captured, RequestOf, Differences;
  }
}
