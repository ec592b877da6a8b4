/**
 Step indexes that point outside a message chain (src/peerbridge_mcp/collaboration_receipt.py:320-331, 498-561): the
 exact receipts and databases at which the verifier is stopped by an error it does not catch.
 */
module ReplyIndexes {
  import opened Results
  import opened Lists
  import opened AuditChain
  import opened CollaborationReceipt

  /** A list of n earlier messages has no position with this index, counted from either end. */
  predicate OutsideOf(index: Option<int>, n: int) {
    index.Some? && !(-n <= index.value < n)
  }

  /**
   The messages before i are as expected, message i has the expected fields, and its step replies to no earlier
   message.
   */
  predicate StopsAt(env: Env, db: Database, schema: Schema, scope: string, rows: seq<Message>, steps: seq<Step>, i: int)
    requires |rows| == |steps|
  {
    && 0 <= i < |rows|
    && CheckAll(env, db, schema, scope, rows[..i], steps[..i]).Ok?
    && MessageSnapshot(env, schema, rows[i]).Ok?
    && SameFields(MessageSnapshot(env, schema, rows[i]).value, steps[i])
    && OutsideOf(steps[i].replyToStep, i)
  }

  /** The receipt's chain is well-formed, the task has as many messages, and the comparison stops at one of them. */
  ghost predicate Stops(env: Env, db: Database, q: Request) {
    && !q.schema.Unsupported?
    && var expected := ExpectedAll(env, q.schema, q.raws);
       && expected.Ok? && |expected.value| >= 2
       && var room := ChainRoom(q.schema, expected.value, q.room);
          && room.Ok?
          && var rows := TaskMessages(db, q.scope, room.value, q.task);
             && |rows| == |expected.value|
             && exists i :: StopsAt(env, db, q.schema, q.scope, rows, expected.value, i)
  }

  lemma CheckOneStops(env: Env, schema: Schema, scope: string, m: Message, receipts: seq<ReceiptRow>,
                      routes: seq<RouteRow>, step: Step, prior: seq<Snapshot>)
    ensures CheckOne(env, schema, scope, m, receipts, routes, step, prior) == Err(ReplyIndex)
            <==> MessageSnapshot(env, schema, m).Ok? && SameFields(MessageSnapshot(env, schema, m).value, step)
                 && OutsideOf(step.replyToStep, |prior|)
  {
    hide ContractOf, SameFields;
  }

  /** The loop over the messages stops exactly at such a message. */
  lemma {:induction false} CheckAllStops(env: Env, db: Database, schema: Schema, scope: string, rows: seq<Message>,
                                         steps: seq<Step>)
    requires |rows| == |steps|
    ensures CheckAll(env, db, schema, scope, rows, steps) == Err(ReplyIndex)
            <==> exists i :: StopsAt(env, db, schema, scope, rows, steps, i)
    decreases |rows|
  {
    hide CheckOne, SameFields, MessageSnapshot;
    if rows != [] {
      var n := |rows| - 1;
      var r, s := rows[..n], steps[..n];
      CheckAllStops(env, db, schema, scope, r, s);
      assert forall i | 0 <= i < n :: r[..i] == rows[..i] && s[..i] == steps[..i];
      assert forall i | 0 <= i < n ::
          StopsAt(env, db, schema, scope, r, s, i) <==> StopsAt(env, db, schema, scope, rows, steps, i);
      var before := CheckAll(env, db, schema, scope, r, s);
      if before.Ok? {
        SnapshotsMap(before.value);
        CheckOneStops(env, schema, scope, rows[n], ReceiptsFor(db, scope, rows[n].messageId),
                      RoutesFor(db, scope, rows[n].messageId), steps[n], Snapshots(before.value));
        assert StopsAt(env, db, schema, scope, rows, steps, n)
               <==> CheckAll(env, db, schema, scope, rows, steps) == Err(ReplyIndex);
      } else {
        assert !StopsAt(env, db, schema, scope, rows, steps, n);
      }
    }
  }

  lemma {:induction false} ExpectedNeverStops(env: Env, schema: Schema, raws: seq<RawStep>)
    ensures ExpectedAll(env, schema, raws) != Err(ReplyIndex)
  {
    if raws != [] {
      ExpectedNeverStops(env, schema, raws[..|raws| - 1]);
    }
  }

  lemma FinishedNeverStops(env: Env, q: Request, steps: seq<Step>, room: Option<string>, read: Read, utc: string)
    ensures Finished(env, q, steps, room, read, utc) != Err(ReplyIndex)
  {
    hide ReadEvidence, ReadChildren;
  }

  /** Reading the tables stops exactly where the loop over the messages does. */
  lemma ReadStops(env: Env, db: Database, q: Request, steps: seq<Step>, room: Option<string>)
    requires |steps| >= 2
    ensures var rows := TaskMessages(db, q.scope, room, q.task);
            ReadTables(env, db, q, steps, room) == Err(ReplyIndex)
            <==> |rows| == |steps| && exists i :: StopsAt(env, db, q.schema, q.scope, rows, steps, i)
  {
    hide CheckAll, FinalAck, Valid, StopsAt, TaskMessages;
    var rows := TaskMessages(db, q.scope, room, q.task);
    if |rows| == |steps| {
      CheckAllStops(env, db, q.schema, q.scope, rows, steps);
    }
  }

  /**
   The verifier is stopped without a result if and only if some message of the chain is reached, has the expected
   fields, and its recorded step replies to a position outside the messages before it.
   */
  lemma VerifierStopsIff(env: Env, db: Database, r: Receipt, utc: string)
    ensures Verified(env, db, r, utc).None? <==> Stops(env, db, RequestOf(r.body))
  {
    hide ReadTables, Finished, RequestOf, StopsAt, TaskMessages, ExpectedAll;
    var q := RequestOf(r.body);
    ExpectedNeverStops(env, q.schema, q.raws);
    if !q.schema.Unsupported? && ExpectedAll(env, q.schema, q.raws).Ok? {
      var steps := ExpectedAll(env, q.schema, q.raws).value;
      if |steps| >= 2 && ChainRoom(q.schema, steps, q.room).Ok? {
        var room := ChainRoom(q.schema, steps, q.room).value;
        ReadStops(env, db, q, steps, room);
        if ReadTables(env, db, q, steps, room).Ok? {
          FinishedNeverStops(env, q, steps, room, ReadTables(env, db, q, steps, room).value, utc);
        }
      }
    }
  }

  // ----- receipts that never stop it -----

  /** Every step replies to nothing or to a message before it. */
  predicate RepliesInside(steps: seq<Step>) {
    forall i | 0 <= i < |steps| :: !OutsideOf(steps[i].replyToStep, i)
  }

  lemma {:induction false} ExpectedKeepsReplies(env: Env, schema: Schema, steps: seq<Step>)
    ensures var r := ExpectedAll(env, schema, AsRawAll(steps));
            r.Ok? ==> |r.value| == |steps| && forall i | 0 <= i < |steps| ::
              r.value[i].replyToStep == steps[i].replyToStep
  {
    if steps != [] {
      var init, last := steps[..|steps| - 1], steps[|steps| - 1];
      ExpectedKeepsReplies(env, schema, init);
      assert (AsRawAll(init) + [AsRaw(last)])[..|AsRawAll(init)|] == AsRawAll(init);
    }
  }

  /**
   A receipt whose steps reply to messages before them gets a result on every database. Steps here have the types a
   captured receipt gives them; a reply index that is no integer raises in the program.
   */
  lemma InsideNeverStops(env: Env, db: Database, r: Receipt, utc: string)
    requires RepliesInside(r.body.expected)
    ensures Verified(env, db, r, utc).Some?
  {
    VerifierStopsIff(env, db, r, utc);
    ExpectedKeepsReplies(env, r.body.schema, r.body.expected);
  }

  lemma {:induction false} CheckedInside(env: Env, db: Database, schema: Schema, scope: string, rows: seq<Message>,
                                         steps: seq<Step>)
    requires |rows| == |steps| && CheckAll(env, db, schema, scope, rows, steps).Ok?
    ensures RepliesInside(steps)
    decreases |rows|
  {
    hide CheckOne;
    if rows != [] {
      var n := |rows| - 1;
      CheckedInside(env, db, schema, scope, rows[..n], steps[..n]);
      var before := CheckAll(env, db, schema, scope, rows[..n], steps[..n]).value;
      SnapshotsMap(before);
      OneInside(env, schema, scope, rows[n], ReceiptsFor(db, scope, rows[n].messageId),
                RoutesFor(db, scope, rows[n].messageId), steps[n], Snapshots(before));
      forall i | 0 <= i < |steps| ensures !OutsideOf(steps[i].replyToStep, i) {
        assert i == n || steps[i] == steps[..n][i];
      }
    }
  }

  lemma OneInside(env: Env, schema: Schema, scope: string, m: Message, receipts: seq<ReceiptRow>, routes: seq<RouteRow>,
                  step: Step, prior: seq<Snapshot>)
    requires CheckOne(env, schema, scope, m, receipts, routes, step, prior).Ok?
    ensures !OutsideOf(step.replyToStep, |prior|)
  {
    hide MessageSnapshot, SameFields, RouteCheck, RouteFault;
  }

  /** In particular a captured receipt: whatever becomes of the database, verifying it gives a result. */
  lemma CapturedNeverStops(env: Env, db: Database, q: Request, utc: string, now: Database, later: string)
    requires Captured(env, db, q, utc).Ok?
    ensures Verified(env, now, Captured(env, db, q, utc).value, later).Some?
  {
    var r := Captured(env, db, q, utc).value;
    CapturedInside(env, db, q, utc);
    hide Captured, Verified, RepliesInside;
    InsideNeverStops(env, now, r, later);
  }

  lemma CapturedInside(env: Env, db: Database, q: Request, utc: string)
    requires Captured(env, db, q, utc).Ok?
    ensures RepliesInside(Captured(env, db, q, utc).value.body.expected)
  {
    hide CheckAll, RepliesInside, ReadEvidence, ReadChildren, FinalAck, Valid;
    var steps := ExpectedAll(env, q.schema, q.raws).value;
    var room := ChainRoom(q.schema, steps, q.room).value;
    CheckedInside(env, db, q.schema, q.scope, TaskMessages(db, q.scope, room, q.task), steps);
  }

  // ----- a receipt that stops it -----

  /** An acknowledged, unrouted message with a right content digest. */
  function Sample(env: Env, sequence: int, id: string, sender: string, recipient: string): Message {
    var m := Message(sequence, id, "scope", "lobby", "task", sender, recipient, "subject", "body", "normal", None, [],
                     None,
                     None, None, None, None, None, Discussion(None, None, None), "direct", "2026-01-01T00:00:00Z",
                     Some("2026-01-01T00:00:01Z"), "");
    m.(contentSha := env.contentSha(ContentOf(m, LegacyV1)))
  }

  /** Two such messages, the first with its receipt. */
  function SampleDatabase(env: Env): Database {
    Database([Sample(env, 1, "first", "a", "b"), Sample(env, 2, "second", "b", "a")],
             [ReceiptRow("scope", "first", "b", "2026-01-01T00:00:01Z")], [], [])
  }

  function SampleStep(env: Env, sender: string, recipient: string, replyToStep: Option<int>): Step {
    Step(sender, recipient, "subject", env.textSha("body"), replyToStep, None, None)
  }

  lemma SampleMessages(env: Env)
    ensures var db := SampleDatabase(env); TaskMessages(db, "scope", None, "task") == db.messages
  {
    var p := OfTask("scope", None, "task");
    var first, second := Sample(env, 1, "first", "a", "b"), Sample(env, 2, "second", "b", "a");
    FilterAppend([], first, p);
    FilterAppend([first], second, p);
    assert [] + [first] == [first] && [first] + [second] == SampleDatabase(env).messages;
  }

  lemma SampleSnapshot(env: Env, sequence: int, id: string, sender: string, recipient: string, replyToStep: Option<int>)
    ensures var m := Sample(env, sequence, id, sender, recipient);
            var s := MessageSnapshot(env, V1, m);
            && s.Ok? && SameFields(s.value, SampleStep(env, sender, recipient, replyToStep))
            && s.value.messageId == id && s.value.replyTo == None && s.value.route == None
            && s.value.acknowledgedUtc == Some("2026-01-01T00:00:01Z") && s.value.recipient == recipient
  {
    var m := Sample(env, sequence, id, sender, recipient);
    assert ContentOf(m, LegacyV1) == ContentOf(m.(contentSha := ""), LegacyV1);
  }

  /** The first message is as expected. */
  lemma SampleFirst(env: Env)
    ensures var db := SampleDatabase(env);
            CheckAll(env, db, V1, "scope", [db.messages[0]], [SampleStep(env, "a", "b", None)]).Ok?
  {
    var db := SampleDatabase(env);
    var m, step := db.messages[0], SampleStep(env, "a", "b", None);
    SampleSnapshot(env, 1, "first", "a", "b", None);
    FilterAppend([], db.receipts[0], ReceiptOf("scope", "first"));
    assert [] + [db.receipts[0]] == db.receipts && ReceiptsFor(db, "scope", "first") == db.receipts;
    assert RoutesFor(db, "scope", "first") == [];
    hide MessageSnapshot, SameFields, ContentOf, ReceiptsFor, RoutesFor;
    assert CheckOne(env, V1, "scope", m, db.receipts, [], step, []).Ok?;
    assert [m][..0] == [] && [step][..0] == [];
    assert CheckAll(env, db, V1, "scope", [], []) == Ok([]);
  }

  /** A two-step receipt that expects these messages, the second in reply to step 5, stops the verifier. */
  lemma StepFiveStops(env: Env, r: Receipt, utc: string)
    requires IsHex64(env.textSha("body"))
    requires r.body.schema.V1? && r.body.scope == "scope" && r.body.task == "task"
    requires r.body.expected == [SampleStep(env, "a", "b", None), SampleStep(env, "b", "a", Some(5))]
    ensures Verified(env, SampleDatabase(env), r, utc).None?
  {
    var db := SampleDatabase(env);
    var steps := r.body.expected;
    SampleMessages(env);
    SampleFirst(env);
    SampleSnapshot(env, 2, "second", "b", "a", Some(5));
    SampleExpected(env, steps[0], steps[1]);
    hide MessageSnapshot, SameFields, ContentOf, TaskMessages, ExpectedAll, CheckAll, IsHex64;
    assert db.messages[..1] == [db.messages[0]] && steps[..1] == [steps[0]] && steps == [steps[0], steps[1]];
    assert StopsAt(env, db, V1, "scope", db.messages, steps, 1);
    hide StopsAt;
    VerifierStopsIff(env, db, r, utc);
  }

  lemma SampleExpected(env: Env, a: Step, b: Step)
    requires IsHex64(a.bodySha) && IsHex64(b.bodySha) && a.room.None? && b.room.None?
    ensures ExpectedAll(env, V1, AsRawAll([a, b])) == Ok([a, b])
  {
    assert [a, b][..1] == [a] && [a][..0] == [];
    assert AsRawAll([a]) == [AsRaw(a)] by {
      assert AsRawAll([]) == [];
    }
    assert AsRawAll([a, b]) == [AsRaw(a), AsRaw(b)];
    assert [AsRaw(a), AsRaw(b)][..1] == [AsRaw(a)] && [AsRaw(a)][..0] == [];
    assert ExpectedAll(env, V1, []) == Ok([]);
    assert ExpectedSnapshot(env, V1, AsRaw(a)) == Ok(a) && ExpectedSnapshot(env, V1, AsRaw(b)) == Ok(b);
    assert [] + [a] == [a] && [a] + [b] == [a, b];
    assert ExpectedAll(env, V1, [AsRaw(a)]) == Ok([a]);
  }
}
