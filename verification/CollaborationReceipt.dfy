/**
 Receipts for message chains (src/peerbridge_mcp/collaboration_receipt.py): capturing one from the database, and
 verifying it later by capturing again and comparing.
 */
module CollaborationReceipt {
  import opened Results
  import opened AuditChain
  import opened Lists

  const DEFAULT_ROOM_ID := "lobby"
  const ACKNOWLEDGED := "message.acknowledged"

  datatype Schema = V1 | V2 | V3 | Unsupported(text: string)

  datatype Route = Route(profileId: Option<string>, target: string, provider: Option<string>, model: Option<string>,
                         reasoning: Option<string>, routeClass: Option<string>, sha: string)
  datatype Discussion = Discussion(id: Option<string>, round: Option<int>, role: Option<string>)

  datatype Message = Message(sequence: int, messageId: string, scope: string, room: string, task: string,
                             sender: string, recipient: string, subject: string, body: string, priority: string,
                             replyTo: Option<string>, artifacts: seq<string>, routeProfile: Option<string>,
                             provider: Option<string>, model: Option<string>, reasoning: Option<string>,
                             routeClass: Option<string>, routeSha: Option<string>, discussion: Discussion,
                             visibility: string, createdUtc: string, acknowledgedUtc: Option<string>,
                             contentSha: string)

  datatype ReceiptRow = ReceiptRow(scope: string, messageId: string, agent: string, acknowledgedUtc: string)
  datatype RouteRow = RouteRow(scope: string, messageId: string, agent: string, session: string,
                               provider: Option<string>, model: Option<string>, reasoning: Option<string>,
                               routeClass: Option<string>, status: string, acknowledgedUtc: string, sha: string)

  /** The four tables; messages and events are listed by ascending sequence, and the events are those of one scope. */
  datatype Database = Database(messages: seq<Message>, receipts: seq<ReceiptRow>, routes: seq<RouteRow>,
                               events: seq<Stored>)

  /** What a content digest covers; a contract leaves out the fields that did not exist when it was introduced. */
  datatype Content = Content(messageId: string, scope: string, room: Option<string>, task: string, sender: string,
                             recipient: string, subject: string, body: string, priority: string,
                             replyTo: Option<string>, artifacts: seq<string>, route: Option<Route>,
                             discussion: Option<Discussion>, visibility: Option<string>, createdUtc: string)
  datatype Contract = LegacyV1 | RoomV2 | DiscussionV3 | RoomVisibilityV4 | DiscussionVisibilityV4

  datatype Evidence = Evidence(path: string, size: nat, sha: string)
  datatype Identity = Identity(provider: Option<string>, model: Option<string>, reasoning: Option<string>,
                               routeClass: Option<string>)
  datatype Child = Child(path: string, size: nat, fileSha: string, schema: string, sha: string, agent: string,
                         scope: string, identity: Identity, strength: string)

  /** Digests, the message id inside an event payload, and the files a receipt refers to. */
  datatype Env = Env(h: Digests, textSha: string -> string, listSha: seq<string> -> string,
                     contentSha: Content -> string, routeSha: (RouteRow, string) -> string, receiptSha: Body -> string,
                     messageIdOf: string -> Option<string>, databasePath: string, resolve: string -> string,
                     evidenceAt: string -> Option<Evidence>, childAt: string -> Option<Child>)

  datatype ReceiptError = UnsupportedSchema | StepLacksFields | StepNeedsBody | TooShort | SeveralRooms | WrongRoom
                        | MessageCount | ContentMismatch | StepMismatch | ReplyIndex | NotAcknowledged | ReceiptCount
                        | ReceiptMismatch | RouteReceiptCount | RouteReceiptMismatch | NoFinalAck | BrokenChain
                        | EvidenceRefused | ChildRequired | ChildRefused | ChildNotAllowed

  // ----- expectations -----

  datatype ExpectedRoute = ExpectedRoute(provider: Option<string>, model: Option<string>, reasoning: Option<string>,
                                         routeClass: Option<string>)
  /** One step of the expected chain as the caller writes it. */
  datatype RawStep = RawStep(sender: Option<string>, recipient: Option<string>, subject: Option<string>,
                             body: Option<string>, bodySha: Option<string>, replyToStep: Option<int>,
                             route: Option<ExpectedRoute>, room: Option<string>)
  datatype Step = Step(sender: string, recipient: string, subject: string, bodySha: string, replyToStep: Option<int>,
                       route: Option<ExpectedRoute>, room: Option<string>)

  predicate IsHex64(s: string) {
    |s| == 64 && forall c | c in s :: c in "0123456789abcdef"
  }

  predicate RoomBound(schema: Schema) {
    schema.V2? || schema.V3?
  }

  /** `value or default` for a text that may be absent or empty. */
  function OrDefault(text: Option<string>, default: string): string {
    if text == None || text == Some("") then default else text.value
  }

  function ExpectedSnapshot(env: Env, schema: Schema, raw: RawStep): Result<Step, ReceiptError> {
    if raw.sender.None? || raw.recipient.None? || raw.subject.None? then Err(StepLacksFields)
    else if raw.body.None? && !IsHex64(raw.bodySha.GetOr("")) then Err(StepNeedsBody)
    else
      var sha := if raw.body.Some? then env.textSha(raw.body.value) else raw.bodySha.GetOr("");
      Ok(Step(raw.sender.value, raw.recipient.value, raw.subject.value, sha, raw.replyToStep, raw.route,
              if RoomBound(schema) then Some(OrDefault(raw.room, DEFAULT_ROOM_ID)) else None))
  }

  /** A recorded step read back from a receipt. */
  function AsRaw(step: Step): RawStep {
    RawStep(Some(step.sender), Some(step.recipient), Some(step.subject), None, Some(step.bodySha), step.replyToStep,
            step.route, step.room)
  }

  function ExpectedAll(env: Env, schema: Schema, raws: seq<RawStep>): Result<seq<Step>, ReceiptError> {
    if raws == [] then Ok([])
    else
      match ExpectedAll(env, schema, raws[..|raws| - 1])
      case Err(e) => Err(e)
      case Ok(steps) =>
        match ExpectedSnapshot(env, schema, raws[|raws| - 1])
        case Err(e) => Err(e)
        case Ok(step) => Ok(steps + [step])
  }

  function AsRawAll(steps: seq<Step>): seq<RawStep> {
    if steps == [] then [] else AsRawAll(steps[..|steps| - 1]) + [AsRaw(steps[|steps| - 1])]
  }

  // ----- snapshots -----

  function RouteRequest(m: Message): Option<Route> {
    if OrDefault(m.routeSha, "") == "" then None
    else Some(Route(m.routeProfile, m.recipient, m.provider, m.model, m.reasoning, m.routeClass, m.routeSha.value))
  }

  function ContentOf(m: Message, contract: Contract): Content {
    var room := if m.room == "" then DEFAULT_ROOM_ID else m.room;
    var visibility := if m.visibility == "" then "direct" else m.visibility;
    Content(m.messageId, m.scope, if contract.LegacyV1? then None else Some(room), m.task, m.sender, m.recipient,
            m.subject, m.body, m.priority, m.replyTo, m.artifacts, RouteRequest(m),
            if contract.DiscussionV3? || contract.DiscussionVisibilityV4? then Some(m.discussion) else None,
            if contract.RoomVisibilityV4? || contract.DiscussionVisibilityV4? then Some(visibility) else None,
            m.createdUtc)
  }

  /** The newest contract under which the stored content digest is right. */
  function ContractOf(env: Env, m: Message): Option<Contract> {
    if env.contentSha(ContentOf(m, DiscussionVisibilityV4)) == m.contentSha then Some(DiscussionVisibilityV4)
    else if env.contentSha(ContentOf(m, RoomVisibilityV4)) == m.contentSha then Some(RoomVisibilityV4)
    else if env.contentSha(ContentOf(m, DiscussionV3)) == m.contentSha then Some(DiscussionV3)
    else if env.contentSha(ContentOf(m, RoomV2)) == m.contentSha then Some(RoomV2)
    else if env.contentSha(ContentOf(m, LegacyV1)) == m.contentSha then Some(LegacyV1)
    else None
  }

  datatype RoomPart = RoomPart(room: string, visibility: string, contract: Contract)
  datatype Snapshot = Snapshot(sequence: int, messageId: string, sender: string, recipient: string, subject: string,
                               bodySha: string, priority: string, replyTo: Option<string>, artifactsSha: string,
                               route: Option<Route>, createdUtc: string, acknowledgedUtc: Option<string>,
                               contentSha: string, roomPart: Option<RoomPart>)

  function MessageSnapshot(env: Env, schema: Schema, m: Message): Result<Snapshot, ReceiptError> {
    match ContractOf(env, m)
    case None => Err(ContentMismatch)
    case Some(contract) =>
      Ok(Snapshot(m.sequence, m.messageId, m.sender, m.recipient, m.subject, env.textSha(m.body), m.priority, m.replyTo,
                  env.listSha(m.artifacts), RouteRequest(m), m.createdUtc, m.acknowledgedUtc, m.contentSha,
                  if RoomBound(schema)
                  then Some(RoomPart(if m.room == "" then DEFAULT_ROOM_ID else m.room,
                                     if m.visibility == "" then "direct" else m.visibility, contract))
                  else None))
  }

  /** A list position as Python reads it: negative positions count from the end, others outside the list raise. */
  function At<T>(q: seq<T>, i: int): Option<T> {
    if 0 <= i < |q| then Some(q[i])
    else if -|q| <= i < 0 then Some(q[|q| + i])
    else None
  }

  function RouteFault(expected: Option<ExpectedRoute>, actual: Option<Route>): bool {
    match expected
    case None => actual.Some?
    case Some(r) =>
      actual.None? || r != ExpectedRoute(actual.value.provider, actual.value.model, actual.value.reasoning,
                                         actual.value.routeClass)
  }

  /** The message has the expected sender, recipient, subject, body and room. */
  predicate SameFields(snap: Snapshot, step: Step) {
    && snap.sender == step.sender && snap.recipient == step.recipient
    && snap.subject == step.subject && snap.bodySha == step.bodySha
    && (step.room.Some? ==> snap.roomPart.Some? && snap.roomPart.value.room == step.room.value)
  }

  /** `_assert_step`: why the message is not the expected one, if it is not. */
  function StepFault(snap: Snapshot, step: Step, prior: seq<Snapshot>): Option<ReceiptError> {
    if !SameFields(snap, step) then Some(StepMismatch)
    else if step.replyToStep.Some? && At(prior, step.replyToStep.value).None? then Some(ReplyIndex)
    else if snap.replyTo != (if step.replyToStep.None? then None
                             else Some(At(prior, step.replyToStep.value).value.messageId)) then Some(StepMismatch)
    else if RouteFault(step.route, snap.route) then Some(StepMismatch)
    else None
  }

  // ----- what one message must have beside it -----

  datatype RouteReceipt = RouteReceipt(row: RouteRow, requestSha: string)
  datatype Checked = Checked(snap: Snapshot, receipt: ReceiptRow, route: Option<RouteReceipt>)

  function ReceiptOf(scope: string, id: string): ReceiptRow -> bool {
    (r: ReceiptRow) => r.scope == scope && r.messageId == id
  }

  function RouteOf(scope: string, id: string): RouteRow -> bool {
    (r: RouteRow) => r.scope == scope && r.messageId == id
  }

  function ReceiptsFor(db: Database, scope: string, id: string): seq<ReceiptRow> {
    Filter(db.receipts, ReceiptOf(scope, id))
  }

  function RoutesFor(db: Database, scope: string, id: string): seq<RouteRow> {
    Filter(db.routes, RouteOf(scope, id))
  }

  function RouteCheck(env: Env, snap: Snapshot, rows: seq<RouteRow>): Result<Option<RouteReceipt>, ReceiptError> {
    match snap.route
    case None => if rows != [] then Err(RouteReceiptCount) else Ok(None)
    case Some(route) =>
      if |rows| != 1 then Err(RouteReceiptCount)
      else if env.routeSha(rows[0].(sha := ""), route.sha) != rows[0].sha || rows[0].agent != snap.recipient
              || rows[0].status != "verified" then Err(RouteReceiptMismatch)
      else Ok(Some(RouteReceipt(rows[0], route.sha)))
  }

  function CheckOne(env: Env, schema: Schema, scope: string, m: Message, receipts: seq<ReceiptRow>,
                    routes: seq<RouteRow>, step: Step, prior: seq<Snapshot>)
    : Result<Checked, ReceiptError>
  {
    match MessageSnapshot(env, schema, m)
    case Err(e) => Err(e)
    case Ok(snap) =>
      if StepFault(snap, step, prior).Some? then Err(StepFault(snap, step, prior).value)
      else if OrDefault(snap.acknowledgedUtc, "") == "" then Err(NotAcknowledged)
      else if |receipts| != 1 then Err(ReceiptCount)
      else if receipts[0].agent != snap.recipient || Some(receipts[0].acknowledgedUtc) != snap.acknowledgedUtc then
        Err(ReceiptMismatch)
      else
        match RouteCheck(env, snap, routes)
        case Err(e) => Err(e)
        case Ok(route) => Ok(Checked(snap, receipts[0], route))
  }

  function Snapshots(checked: seq<Checked>): seq<Snapshot> {
    if checked == [] then [] else Snapshots(checked[..|checked| - 1]) + [checked[|checked| - 1].snap]
  }

  function ReceiptRows(checked: seq<Checked>): seq<ReceiptRow> {
    if checked == [] then [] else ReceiptRows(checked[..|checked| - 1]) + [checked[|checked| - 1].receipt]
  }

  function RouteReceipts(checked: seq<Checked>): seq<RouteReceipt> {
    if checked == [] then []
    else
      var last := checked[|checked| - 1];
      RouteReceipts(checked[..|checked| - 1]) + if last.route.Some? then [last.route.value] else []
  }

  /** The loop over the task's messages and the expected steps, side by side. */
  function CheckAll(env: Env, db: Database, schema: Schema, scope: string, rows: seq<Message>, steps: seq<Step>)
    : (r: Result<seq<Checked>, ReceiptError>)
    requires |rows| == |steps|
    ensures r.Ok? ==> |r.value| == |rows|
  {
    if rows == [] then Ok([])
    else
      match CheckAll(env, db, schema, scope, rows[..|rows| - 1], steps[..|steps| - 1])
      case Err(e) => Err(e)
      case Ok(checked) =>
        var m := rows[|rows| - 1];
        match CheckOne(env, schema, scope, m, ReceiptsFor(db, scope, m.messageId), RoutesFor(db, scope, m.messageId),
                       steps[|steps| - 1], Snapshots(checked))
        case Err(e) => Err(e)
        case Ok(one) => Ok(checked + [one])
  }

  function OfTask(scope: string, room: Option<string>, task: string): Message -> bool {
    (m: Message) => m.scope == scope && m.task == task && (room.None? || m.room == room.value)
  }

  function TaskMessages(db: Database, scope: string, room: Option<string>, task: string): seq<Message> {
    Filter(db.messages, OfTask(scope, room, task))
  }

  predicate IsFinalAck(env: Env, e: Stored, id: string) {
    e.eventType == ACKNOWLEDGED && env.messageIdOf(e.payload) == Some(id)
  }

  /** `_final_ack_event`: the latest acknowledgement of the message. */
  function FinalAck(env: Env, events: seq<Stored>, id: string): Option<Stored> {
    if events == [] then None
    else if IsFinalAck(env, events[|events| - 1], id) then Some(events[|events| - 1])
    else FinalAck(env, events[..|events| - 1], id)
  }

  // ----- the receipt -----

  datatype Body = Body(schema: Schema, createdUtc: string, databasePath: string, scope: string, task: string,
                       expected: seq<Step>, messages: seq<Snapshot>, receipts: seq<ReceiptRow>,
                       routes: seq<RouteReceipt>, finalAck: EventSnapshot, prefixCount: nat, prefixHead: string,
                       evidence: map<string, Evidence>, room: Option<string>, participants: set<string>,
                       children: map<string, Child>)
  datatype Receipt = Receipt(body: Body, sha: string)
  datatype EventSnapshot = EventSnapshot(sequence: int, eventId: string, eventType: string, actor: string,
                                         taskId: Option<string>, createdUtc: string, payloadSha: string,
                                         prevSha: string, chainSha: string)

  function EventSnapshotOf(e: Stored): EventSnapshot {
    EventSnapshot(e.sequence, e.eventId, e.eventType, e.actor, e.taskId, e.createdUtc, e.payloadSha, e.prevSha,
                  e.chainSha)
  }

  /** What is asked of a capture. */
  datatype Request = Request(scope: string, task: string, raws: seq<RawStep>, evidence: map<string, string>,
                             children: map<string, string>, schema: Schema, room: Option<string>)

  /** The room all steps name, if the schema binds one. */
  function ChainRoom(schema: Schema, steps: seq<Step>, room: Option<string>): Result<Option<string>, ReceiptError>
    requires steps != []
  {
    if !RoomBound(schema) then Ok(None)
    else if exists i :: 0 <= i < |steps| && steps[i].room != steps[0].room then Err(SeveralRooms)
    else if room.Some? && room != steps[0].room then Err(WrongRoom)
    else Ok(steps[0].room)
  }

  function Participants(messages: seq<Snapshot>): set<string> {
    (set i | 0 <= i < |messages| :: messages[i].sender) + (set i | 0 <= i < |messages| :: messages[i].recipient)
  }

  function ReadEvidence(env: Env, paths: map<string, string>): Option<map<string, Evidence>> {
    if forall tag | tag in paths :: env.evidenceAt(paths[tag]).Some?
    then Some(map tag | tag in paths :: env.evidenceAt(paths[tag]).value)
    else None
  }

  predicate IdentityMatches(c: Child, route: RouteReceipt) {
    && c.identity.provider == route.row.provider && c.identity.model == route.row.model
    && c.identity.reasoning == route.row.reasoning
    && (route.row.routeClass.Some? ==> c.identity.routeClass == route.row.routeClass)
  }

  /**
   `_verified_child_receipts`: one verified child for every participant, of this scope, with the identity its routes
   report.
   */
  function ReadChildren(env: Env, paths: map<string, string>, participants: set<string>, scope: string,
                        routes: seq<RouteReceipt>)
    : Option<map<string, Child>>
  {
    if exists tag :: tag in paths && env.childAt(paths[tag]).None? then None
    else
      var children := map tag | tag in paths :: env.childAt(paths[tag]).value;
      if (exists a, b :: a in children && b in children && a != b && children[a].agent == children[b].agent)
         || (set tag | tag in children :: children[tag].agent) != participants
         || (exists tag :: tag in children && children[tag].scope != scope)
         || (exists tag, i :: tag in children && 0 <= i < |routes| && children[tag].agent == routes[i].row.agent
                               && !IdentityMatches(children[tag], routes[i]))
      then None
      else Some(children)
  }

  /** What the capture reads from the tables. */
  datatype Read = Read(messages: seq<Snapshot>, receipts: seq<ReceiptRow>, routes: seq<RouteReceipt>, ack: Stored,
                       prefix: nat)

  ghost function ReadTables(env: Env, db: Database, q: Request, steps: seq<Step>, room: Option<string>)
    : Result<Read, ReceiptError>
    requires |steps| >= 2
  {
    var rows := TaskMessages(db, q.scope, room, q.task);
    if |rows| != |steps| then Err(MessageCount)
    else
      match CheckAll(env, db, q.schema, q.scope, rows, steps)
      case Err(e) => Err(e)
      case Ok(checked) =>
        match FinalAck(env, db.events, checked[|checked| - 1].snap.messageId)
        case None => Err(NoFinalAck)
        case Some(ack) =>
          var prefix := Through(db.events, ack.sequence);
          if prefix == [] || !Valid(env.h, prefix) then Err(BrokenChain)
          else Ok(Read(Snapshots(checked), ReceiptRows(checked), RouteReceipts(checked), ack, |prefix|))
  }

  /** The rest of the capture: files, child receipts, the digest. */
  function Finished(env: Env, q: Request, steps: seq<Step>, room: Option<string>, read: Read, utc: string)
    : Result<Receipt, ReceiptError>
  {
    var participants := Participants(read.messages);
    var evidence := ReadEvidence(env, q.evidence);
    if evidence.None? then Err(EvidenceRefused)
    else if q.schema.V3? && q.children == map[] then Err(ChildRequired)
    else if !q.schema.V3? && q.children != map[] then Err(ChildNotAllowed)
    else
      var children := if q.schema.V3? then ReadChildren(env, q.children, participants, q.scope, read.routes)
        else Some(map[]);
      if children.None? then Err(ChildRefused)
      else
        var body := Body(q.schema, utc, env.databasePath, q.scope, q.task, steps, read.messages, read.receipts,
                         read.routes,
                         EventSnapshotOf(read.ack), read.prefix, read.ack.chainSha, evidence.value, room,
                         if q.schema.V3? then participants else {}, children.value);
        Ok(Receipt(body, env.receiptSha(body)))
  }

  ghost function Captured(env: Env, db: Database, q: Request, utc: string): Result<Receipt, ReceiptError> {
    if q.schema.Unsupported? then Err(UnsupportedSchema)
    else
      match ExpectedAll(env, q.schema, q.raws)
      case Err(e) => Err(e)
      case Ok(steps) =>
        if |steps| < 2 then Err(TooShort)
        else
          match ChainRoom(q.schema, steps, q.room)
          case Err(e) => Err(e)
          case Ok(room) =>
            match ReadTables(env, db, q, steps, room)
            case Err(e) => Err(e)
            case Ok(read) => Finished(env, q, steps, room, read, utc)
  }

  // ----- verification -----

  datatype Key = SchemaKey | ReceiptShaKey | DatabasePathKey | ScopeKey | TaskKey | ExpectedKey | MessagesKey
               | ReceiptsKey | RoutesKey | FinalAckKey | PrefixCountKey | PrefixHeadKey | EvidenceKey | RoomKey
               | ParticipantsKey | ChildrenKey | EvidenceError(error: ReceiptError)

  /** What the verifier asks for again: the recorded chain and the recorded paths. */
  function RequestOf(body: Body): Request {
    Request(body.scope, body.task, AsRawAll(body.expected), map tag | tag in body.evidence :: body.evidence[tag].path,
            map tag | tag in body.children :: body.children[tag].path, body.schema, body.room)
  }

  function Flag(c: bool, key: Key): seq<Key> {
    if c then [key] else []
  }

  function Differences(a: Body, b: Body): seq<Key> {
    ChainDifferences(a, b) + SupportDifferences(a, b)
  }

  function ChainDifferences(a: Body, b: Body): seq<Key> {
    Flag(a.databasePath != b.databasePath, DatabasePathKey) + Flag(a.scope != b.scope, ScopeKey)
      + Flag(a.task != b.task, TaskKey)
    + Flag(a.expected != b.expected, ExpectedKey) + Flag(a.messages != b.messages, MessagesKey)
    + Flag(a.receipts != b.receipts, ReceiptsKey) + Flag(a.routes != b.routes, RoutesKey)
  }

  function SupportDifferences(a: Body, b: Body): seq<Key> {
    Flag(a.finalAck != b.finalAck, FinalAckKey)
    + Flag(a.prefixCount != b.prefixCount, PrefixCountKey) + Flag(a.prefixHead != b.prefixHead, PrefixHeadKey)
    + Flag(a.evidence != b.evidence, EvidenceKey) + Flag(RoomBound(b.schema) && a.room != b.room, RoomKey)
    + Flag(b.schema.V3? && a.participants != b.participants, ParticipantsKey)
      + Flag(b.schema.V3? && a.children != b.children, ChildrenKey)
  }

  /**
   The verifier's errors, or none at all when it is stopped by a step index outside the chain, which it does not catch.
   */
  ghost function Verified(env: Env, db: Database, r: Receipt, utc: string): Option<seq<Key>> {
    var own := Flag(r.body.schema.Unsupported?, SchemaKey) + Flag(env.receiptSha(r.body) != r.sha, ReceiptShaKey);
    match Captured(env, db, RequestOf(r.body), utc)
    case Ok(rebuilt) => Some(own + Differences(rebuilt.body, r.body))
    case Err(ReplyIndex) => None
    case Err(e) => Some(own + [EvidenceError(e)])
  }

  ghost predicate VerifiesAt(env: Env, db: Database, r: Receipt, utc: string) {
    Verified(env, db, r, utc) == Some([])
  }

  // ----- the loops -----

  /** An error on some of the rows is the error of the whole list. */
  lemma {:induction false} CheckStops(env: Env, db: Database, schema: Schema, scope: string, rows: seq<Message>,
                                      steps: seq<Step>, n: nat)
    requires n <= |rows| == |steps| && CheckAll(env, db, schema, scope, rows[..n], steps[..n]).Err?
    ensures CheckAll(env, db, schema, scope, rows, steps) == CheckAll(env, db, schema, scope, rows[..n], steps[..n])
    decreases |rows|
  {
    if n == |rows| {
      assert rows[..n] == rows && steps[..n] == steps;
    } else {
      var r, s := rows[..|rows| - 1], steps[..|steps| - 1];
      assert r[..n] == rows[..n] && s[..n] == steps[..n];
      CheckStops(env, db, schema, scope, r, s, n);
    }
  }

  /** One more message: the check goes on with it, or stops with its error. */
  lemma CheckTurn(env: Env, db: Database, schema: Schema, scope: string, rows: seq<Message>, steps: seq<Step>, i: nat,
                  done: seq<Checked>)
    requires i < |rows| == |steps| && CheckAll(env, db, schema, scope, rows[..i], steps[..i]) == Ok(done)
    ensures var one := CheckOne(env, schema, scope, rows[i], ReceiptsFor(db, scope, rows[i].messageId),
                                RoutesFor(db, scope, rows[i].messageId), steps[i], Snapshots(done));
            if one.Err? then CheckAll(env, db, schema, scope, rows, steps) == Err(one.error)
            else CheckAll(env, db, schema, scope, rows[..i + 1], steps[..i + 1]) == Ok(done + [one.value])
  {
    hide CheckOne;
    assert rows[..i + 1][..i] == rows[..i] && steps[..i + 1][..i] == steps[..i];
    if CheckAll(env, db, schema, scope, rows[..i + 1], steps[..i + 1]).Err? {
      CheckStops(env, db, schema, scope, rows, steps, i + 1);
    }
  }

  lemma ListsAppend(done: seq<Checked>, c: Checked)
    ensures Snapshots(done + [c]) == Snapshots(done) + [c.snap]
    ensures ReceiptRows(done + [c]) == ReceiptRows(done) + [c.receipt]
    ensures RouteReceipts(done + [c]) == RouteReceipts(done) + if c.route.Some? then [c.route.value] else []
  {
    assert (done + [c])[..|done|] == done;
  }

  /** The loop of `capture_collaboration_receipt`, which fills three lists or stops at the first refused message. */
  method CheckMessages(env: Env, db: Database, schema: Schema, scope: string, rows: seq<Message>, steps: seq<Step>)
    returns (messages: seq<Snapshot>, receipts: seq<ReceiptRow>, routes: seq<RouteReceipt>, error: Option<ReceiptError>)
    requires |rows| == |steps|
    ensures match CheckAll(env, db, schema, scope, rows, steps)
            case Err(e) => error == Some(e)
            case Ok(c) =>
              && error == None
              && messages == Snapshots(c) && receipts == ReceiptRows(c) && routes == RouteReceipts(c)
  {
    hide CheckOne;
    messages, receipts, routes, error := [], [], [], None;
    ghost var done: seq<Checked> := [];
    for i := 0 to |rows|
      invariant error == None
      invariant CheckAll(env, db, schema, scope, rows[..i], steps[..i]) == Ok(done)
      invariant messages == Snapshots(done) && receipts == ReceiptRows(done) && routes == RouteReceipts(done)
    {
      var m := rows[i];
      var one := CheckOne(env, schema, scope, m, ReceiptsFor(db, scope, m.messageId), RoutesFor(db, scope, m.messageId),
                          steps[i], messages);
      CheckTurn(env, db, schema, scope, rows, steps, i, done);
      if one.Err? {
        error := Some(one.error);
        return;
      }
      ListsAppend(done, one.value);
      done := done + [one.value];
      messages := messages + [one.value.snap];
      receipts := receipts + [one.value.receipt];
      if one.value.route.Some? {
        routes := routes + [one.value.route.value];
      }
    }
    assert rows[..|rows|] == rows && steps[..|steps|] == steps;
  }

  /** `_final_ack_event`: the search from the newest event down. */
  method FinalAckEvent(env: Env, events: seq<Stored>, id: string) returns (r: Option<Stored>)
    ensures r == FinalAck(env, events, id)
  {
    var i := |events|;
    assert events[..i] == events;
    while i > 0
      invariant 0 <= i <= |events|
      invariant FinalAck(env, events, id) == FinalAck(env, events[..i], id)
    {
      assert events[..i][..i - 1] == events[..i - 1];
      i := i - 1;
      if IsFinalAck(env, events[i], id) {
        return Some(events[i]);
      }
    }
    r := None;
  }

  method Capture(env: Env, db: Database, q: Request, utc: string) returns (r: Result<Receipt, ReceiptError>)
    ensures r == Captured(env, db, q, utc)
  {
    if q.schema.Unsupported? {
      return Err(UnsupportedSchema);
    }
    var expected := ExpectedAll(env, q.schema, q.raws);
    if expected.Err? {
      return Err(expected.error);
    }
    var steps := expected.value;
    if |steps| < 2 {
      return Err(TooShort);
    }
    var room := ChainRoom(q.schema, steps, q.room);
    if room.Err? {
      return Err(room.error);
    }
    var read := ReadDatabase(env, db, q, steps, room.value);
    if read.Err? {
      return Err(read.error);
    }
    r := Finished(env, q, steps, room.value, read.value, utc);
  }

  method ReadDatabase(env: Env, db: Database, q: Request, steps: seq<Step>, room: Option<string>)
    returns (r: Result<Read, ReceiptError>)
    requires |steps| >= 2
    ensures r == ReadTables(env, db, q, steps, room)
  {
    var rows := TaskMessages(db, q.scope, room, q.task);
    if |rows| != |steps| {
      return Err(MessageCount);
    }
    var messages, receipts, routes, error := CheckMessages(env, db, q.schema, q.scope, rows, steps);
    if error.Some? {
      return Err(error.value);
    }
    ghost var checked := CheckAll(env, db, q.schema, q.scope, rows, steps).value;
    SnapshotsMap(checked);
    var ack := FinalAckEvent(env, db.events, messages[|messages| - 1].messageId);
    if ack.None? {
      return Err(NoFinalAck);
    }
    var prefix := VerifyPrefix(env.h, db.events, ack.value.sequence);
    if prefix.Err? {
      return Err(BrokenChain);
    }
    r := Ok(Read(messages, receipts, routes, ack.value, |prefix.value|));
  }

  lemma {:induction false} SnapshotsMap(checked: seq<Checked>)
    ensures |Snapshots(checked)| == |checked|
    ensures forall i | 0 <= i < |checked| :: Snapshots(checked)[i] == checked[i].snap
  {
    if checked != [] {
      SnapshotsMap(checked[..|checked| - 1]);
    }
  }

  method Verify(env: Env, db: Database, r: Receipt, utc: string) returns (errors: Option<seq<Key>>)
    ensures errors == Verified(env, db, r, utc)
  {
    var own := Flag(r.body.schema.Unsupported?, SchemaKey) + Flag(env.receiptSha(r.body) != r.sha, ReceiptShaKey);
    var rebuilt := Capture(env, db, RequestOf(r.body), utc);
    match rebuilt {
      case Ok(again) => errors := Some(own + Differences(again.body, r.body));
      case Err(e) => errors := if e == ReplyIndex then None else Some(own + [EvidenceError(e)]);
    }
  }
}
