/**
 The store of imported conversations (src/peerbridge_mcp/conversation_import.py:595-766): create-only records under a
 quota, and the listing of them.
 */
module ImportStore {
  import opened Results
  import opened Sorting
  import opened ImportedHistory

  const MAX_IMPORT_BYTES := 16 * 1024 * 1024
  const MAX_IMPORT_RECORD_BYTES := 32 * 1024 * 1024
  const MAX_IMPORT_RECORDS := 512
  const MAX_IMPORT_STORE_BYTES := 256 * 1024 * 1024
  const MAX_SELECTED := 20

  datatype Body = Body(importId: string, scope: string, provider: string, sourceName: string, sourceBytes: int,
                       sourceSha: string, conversationId: string, conversation: Conversation, importedUtc: string)
  datatype Record = Record(body: Body, sha: string)

  /** A file of the store directory; it may hold anything, and is a record only if its content reads as one. */
  datatype File = File(size: nat, record: Option<Record>)
  type Files = map<string, File>

  /** Digests, the encoded size of a record, and the redaction of names and identifiers. */
  datatype StoreEnv = StoreEnv(recordSha: Body -> string, size: Record -> nat,
                               idOf: (string, string, string, string) -> string, safeName: string -> string,
                               safeId: string -> string)

  datatype ImportError = BadSelection | UnknownSelection | TooLarge | Invalid | WrongScope | Conflict | Quota

  /** What one call imports, apart from the conversations: fixed for all of them. */
  datatype Import = Import(scope: string, provider: string, sourceName: string, sourceBytes: int, sourceSha: string,
                           importedUtc: string)

  datatype Status = Created | Existing
  datatype Receipt = Receipt(status: Status, importId: string, recordSha: string)

  function CandidateOf(env: StoreEnv, call: Import, c: Conversation): Record {
    var id := env.idOf(call.provider, call.scope, call.sourceSha, c.id);
    var body := Body(id, call.scope, call.provider, env.safeName(call.sourceName), call.sourceBytes, call.sourceSha,
                     env.safeId(c.id), c, call.importedUtc);
    Record(body, env.recordSha(body))
  }

  /** The part of a record that an import of the same source must find unchanged. */
  function Immutable(body: Body): Body {
    body.(sourceName := "", importedUtc := "")
  }

  /** `_verify_record`. */
  function RecordFault(env: StoreEnv, file: File, scope: string): Option<ImportError> {
    match file.record
    case None => Some(Invalid)
    case Some(r) => if env.recordSha(r.body) != r.sha then Some(Invalid)
      else if r.body.scope != scope then Some(WrongScope) else None
  }

  ghost function TotalBytes(files: Files): nat {
    if files == map[] then 0
    else
      var id :| id in files;
      files[id].size + TotalBytes(files - {id})
  }

  lemma {:induction false} TotalWithout(files: Files, id: string)
    requires id in files
    ensures TotalBytes(files) == files[id].size + TotalBytes(files - {id})
    decreases |files|
  {
    var picked :| picked in files && TotalBytes(files) == files[picked].size + TotalBytes(files - {picked});
    if picked != id {
      assert |files - {picked}| < |files| by { RemovedOne(files, picked); }
      TotalWithout(files - {picked}, id);
      assert |files - {id}| < |files| by { RemovedOne(files, id); }
      TotalWithout(files - {id}, picked);
      assert files - {picked} - {id} == files - {id} - {picked};
    }
  }

  lemma RemovedOne<V>(m: map<string, V>, key: string)
    requires key in m
    ensures |m - {key}| == |m| - 1
  {
    assert m.Keys == (m - {key}).Keys + {key};
    assert |m| == |m.Keys| && |m - {key}| == |(m - {key}).Keys|;
  }

  lemma TotalWith(files: Files, id: string, file: File)
    requires id !in files
    ensures TotalBytes(files[id := file]) == TotalBytes(files) + file.size && |files[id := file]| == |files| + 1
  {
    TotalWithout(files[id := file], id);
    assert files[id := file] - {id} == files;
    RemovedOne(files[id := file], id);
  }

  /** The quota a new record of this size would break. */
  ghost predicate OverQuota(files: Files, size: nat) {
    |files| >= MAX_IMPORT_RECORDS || (files != map[] && TotalBytes(files) + size > MAX_IMPORT_STORE_BYTES)
  }

  datatype Stored = Stored(files: Files, receipt: Receipt)

  ghost function ImportedOne(env: StoreEnv, files: Files, scope: string, candidate: Record)
    : Result<Stored, ImportError>
  {
    var id := candidate.body.importId;
    if env.size(candidate) > MAX_IMPORT_RECORD_BYTES then Err(TooLarge)
    else if id in files then
      if RecordFault(env, files[id], scope).Some? then Err(RecordFault(env, files[id], scope).value)
      else if Immutable(files[id].record.value.body) != Immutable(candidate.body) then Err(Conflict)
      else Ok(Stored(files, Receipt(Existing, id, files[id].record.value.sha)))
    else if OverQuota(files, env.size(candidate)) then Err(Quota)
    else Ok(Stored(files[id := File(env.size(candidate), Some(candidate))], Receipt(Created, id, candidate.sha)))
  }

  /**
   The store and the receipts after importing the conversations in turn; a refused one ends the call, but what was
   created stays.
   */
  datatype Outcome = Outcome(files: Files, receipts: Result<seq<Receipt>, ImportError>)

  ghost function ImportedAll(env: StoreEnv, files: Files, call: Import, conversations: seq<Conversation>): Outcome {
    if conversations == [] then Outcome(files, Ok([]))
    else
      var before := ImportedAll(env, files, call, conversations[..|conversations| - 1]);
      ImportedNext(env, before, call.scope, CandidateOf(env, call, conversations[|conversations| - 1]))
  }

  ghost function ImportedNext(env: StoreEnv, before: Outcome, scope: string, candidate: Record): Outcome {
    match before.receipts
    case Err(_) => before
    case Ok(receipts) =>
      match ImportedOne(env, before.files, scope, candidate)
      case Err(e) => Outcome(before.files, Err(e))
      case Ok(s) => Outcome(s.files, Ok(receipts + [s.receipt]))
  }

  // ----- the store object -----

  class Store {
    const env: StoreEnv
    var files: Files

    constructor (env: StoreEnv, files: Files)
      ensures this.env == env && this.files == files
    {
      this.env := env;
      this.files := files;
    }

    /** The walk over the store's files, which stops at the first one that shows the quota to be exceeded. */
    method CheckQuota(size: nat) returns (over: bool)
      ensures over <==> OverQuota(files, size)
    {
      var rest := files;
      var count, total := 0, 0;
      while rest != map[]
        invariant rest.Keys <= files.Keys && count == |files| - |rest| && total == TotalBytes(files) - TotalBytes(rest)
        invariant count < MAX_IMPORT_RECORDS && (count > 0 ==> total + size <= MAX_IMPORT_STORE_BYTES)
        invariant count == 0 ==> rest == files
        decreases |rest|
      {
        var id :| id in rest;
        TotalWithout(rest, id);
        RemovedOne(rest, id);
        count := count + 1;
        total := total + rest[id].size;
        rest := rest - {id};
        if count >= MAX_IMPORT_RECORDS || total + size > MAX_IMPORT_STORE_BYTES {
          return true;
        }
      }
      over := false;
    }

    method ImportOne(scope: string, candidate: Record) returns (r: Result<Receipt, ImportError>)
      modifies this`files
      ensures match ImportedOne(env, old(files), scope, candidate)
              case Err(e) => r == Err(e) && files == old(files)
              case Ok(s) => r == Ok(s.receipt) && files == s.files
    {
      var id := candidate.body.importId;
      if env.size(candidate) > MAX_IMPORT_RECORD_BYTES {
        return Err(TooLarge);
      }
      if id in files {
        var fault := RecordFault(env, files[id], scope);
        if fault.Some? {
          return Err(fault.value);
        }
        var existing := files[id].record.value;
        if Immutable(existing.body) != Immutable(candidate.body) {
          return Err(Conflict);
        }
        return Ok(Receipt(Existing, id, existing.sha));
      }
      var over := CheckQuota(env.size(candidate));
      if over {
        return Err(Quota);
      }
      files := files[id := File(env.size(candidate), Some(candidate))];
      r := Ok(Receipt(Created, id, candidate.sha));
    }

    /** The storing loop of `import_conversation_export`. */
    method ImportAll(call: Import, conversations: seq<Conversation>) returns (r: Result<seq<Receipt>, ImportError>)
      modifies this`files
      ensures Outcome(files, r) == ImportedAll(env, old(files), call, conversations)
    {
      ghost var start := files;
      var receipts: seq<Receipt> := [];
      for i := 0 to |conversations|
        invariant Outcome(files, Ok(receipts)) == ImportedAll(env, start, call, conversations[..i])
      {
        assert conversations[..i + 1][..i] == conversations[..i];
        var one := ImportOne(call.scope, CandidateOf(env, call, conversations[i]));
        if one.Err? {
          RefusedStays(env, start, call, conversations, i + 1);
          return Err(one.error);
        }
        receipts := receipts + [one.value];
      }
      assert conversations[..|conversations|] == conversations;
      r := Ok(receipts);
    }
  }

  lemma {:induction false} RefusedStays(env: StoreEnv, files: Files, call: Import, conversations: seq<Conversation>,
                                        n: nat)
    requires n <= |conversations| && ImportedAll(env, files, call, conversations[..n]).receipts.Err?
    ensures ImportedAll(env, files, call, conversations) == ImportedAll(env, files, call, conversations[..n])
    decreases |conversations|
  {
    if n == |conversations| {
      assert conversations[..n] == conversations;
    } else {
      assert conversations[..|conversations| - 1][..n] == conversations[..n];
      RefusedStays(env, files, call, conversations[..|conversations| - 1], n);
    }
  }

  // ----- selection -----

  /** The selected conversations in the order of their first mention, or why the selection is refused. */
  function Selected(conversations: seq<Conversation>, chosen: seq<string>): Result<seq<Conversation>, ImportError> {
    var order := FirstMentions(chosen);
    if order == [] || |order| > MAX_SELECTED then Err(BadSelection)
    else if exists id :: id in order && Find(conversations, id).None? then Err(UnknownSelection)
    else Ok(seq(|order|, i requires 0 <= i < |order| => assert order[i] in order; Find(conversations, order[i]).value))
  }

  function FirstMentions(chosen: seq<string>): seq<string> {
    if chosen == [] then []
    else
      var r := FirstMentions(chosen[..|chosen| - 1]);
      var last := chosen[|chosen| - 1];
      if last == "" || last in r then r else r + [last]
  }

  /** A dictionary of the conversations by id: the last one of an id wins. */
  function Find(conversations: seq<Conversation>, id: string): Option<Conversation> {
    if conversations == [] then None
    else
      var last := conversations[|conversations| - 1];
      if last.id == id then Some(last) else Find(conversations[..|conversations| - 1], id)
  }

  predicate HasId(conversations: seq<Conversation>, id: string) {
    exists i :: 0 <= i < |conversations| && conversations[i].id == id
  }

  /** A selection keeps the order of first mention, each conversation once, and only conversations of the export. */
  lemma SelectedMeaning(conversations: seq<Conversation>, chosen: seq<string>)
    requires Selected(conversations, chosen).Ok?
    ensures var r := Selected(conversations, chosen).value;
            && 0 < |r| <= MAX_SELECTED
            && (forall i | 0 <= i < |r| :: r[i] in conversations)
            && (forall i, j | 0 <= i < j < |r| :: r[i].id != r[j].id)
            && (forall id | id != "" :: id in chosen <==> HasId(r, id))
  {
    var order, r := FirstMentions(chosen), Selected(conversations, chosen).value;
    FirstMentionsMeaning(chosen);
    forall i | 0 <= i < |order| ensures r[i] in conversations && r[i].id == order[i] {
      assert order[i] in order && Find(conversations, order[i]).Some?;
      FindMeaning(conversations, order[i]);
    }
    SameIds(order, r);
  }

  lemma SameIds(order: seq<string>, r: seq<Conversation>)
    requires |order| == |r| && forall i | 0 <= i < |r| :: r[i].id == order[i]
    ensures forall id :: id in order <==> HasId(r, id)
  {
    forall id ensures id in order <==> HasId(r, id) {
      if id in order {
        var i :| 0 <= i < |order| && order[i] == id;
        assert r[i].id == id;
      }
    }
  }

  lemma {:induction false} FirstMentionsMeaning(chosen: seq<string>)
    ensures forall id :: id in FirstMentions(chosen) <==> id in chosen && id != ""
    ensures forall i, j | 0 <= i < j < |FirstMentions(chosen)| :: FirstMentions(chosen)[i] != FirstMentions(chosen)[j]
  {
    if chosen != [] {
      FirstMentionsMeaning(chosen[..|chosen| - 1]);
      assert chosen == chosen[..|chosen| - 1] + [chosen[|chosen| - 1]];
    }
  }

  lemma {:induction false} FindMeaning(conversations: seq<Conversation>, id: string)
    ensures Find(conversations, id).Some?
            ==> Find(conversations, id).value in conversations && Find(conversations, id).value.id == id
  {
    if conversations != [] {
      FindMeaning(conversations[..|conversations| - 1], id);
      assert conversations == conversations[..|conversations| - 1] + [conversations[|conversations| - 1]];
    }
  }

  // ----- create-only, bounded, idempotent -----

  predicate WithinQuota(count: nat, total: nat) {
    count <= MAX_IMPORT_RECORDS && total <= MAX_IMPORT_STORE_BYTES
  }

  /** No file is ever changed or removed. */
  predicate Keeps(before: Files, after: Files) {
    forall id | id in before :: id in after && after[id] == before[id]
  }

  lemma OneKeeps(env: StoreEnv, files: Files, scope: string, candidate: Record)
    requires WithinQuota(|files|, TotalBytes(files))
    ensures var r := ImportedOne(env, files, scope, candidate);
            r.Ok? ==> Keeps(files, r.value.files) && WithinQuota(|r.value.files|, TotalBytes(r.value.files))
  {
    var r := ImportedOne(env, files, scope, candidate);
    if r.Ok? && r.value.receipt.status.Created? {
      TotalWith(files, candidate.body.importId, File(env.size(candidate), Some(candidate)));
      assert files == map[] ==> TotalBytes(files) == 0;
    }
  }

  /** Whatever is imported, and whether or not it succeeds, every file stays as it was and the quotas hold. */
  lemma {:induction false} ImportingKeeps(env: StoreEnv, files: Files, call: Import, conversations: seq<Conversation>)
    requires WithinQuota(|files|, TotalBytes(files))
    ensures var o := ImportedAll(env, files, call, conversations);
            Keeps(files, o.files) && |o.files| <= 512 && TotalBytes(o.files) <= 268435456
    decreases |conversations|
  {
    if conversations != [] {
      var init := conversations[..|conversations| - 1];
      ImportingKeeps(env, files, call, init);
      var before := ImportedAll(env, files, call, init);
      OneKeeps(env, before.files, call.scope, CandidateOf(env, call, conversations[|conversations| - 1]));
    }
  }

  /** The conversation is in the store with exactly the content this import would give it. */
  predicate IsStored(env: StoreEnv, files: Files, call: Import, c: Conversation) {
    var body := CandidateOf(env, call, c).body;
    && body.importId in files
    && RecordFault(env, files[body.importId], call.scope).None?
    && Immutable(files[body.importId].record.value.body) == Immutable(body)
  }

  ghost predicate AllStored(env: StoreEnv, files: Files, call: Import, conversations: seq<Conversation>) {
    forall i | 0 <= i < |conversations| :: IsStored(env, files, call, conversations[i])
  }

  lemma StoredAfter(env: StoreEnv, files: Files, later: Files, call: Import, conversations: seq<Conversation>)
    requires Keeps(files, later) && AllStored(env, files, call, conversations)
    ensures AllStored(env, later, call, conversations)
  {
    hide CandidateOf, RecordFault, Immutable;
  }

  lemma AllStoredOneMore(env: StoreEnv, files: Files, call: Import, conversations: seq<Conversation>)
    requires conversations != [] && AllStored(env, files, call, conversations[..|conversations| - 1])
    requires IsStored(env, files, call, conversations[|conversations| - 1])
    ensures AllStored(env, files, call, conversations)
  {
    hide IsStored;
    var init := conversations[..|conversations| - 1];
    assert forall i | 0 <= i < |init| :: init[i] == conversations[i];
  }

  lemma OneIsStored(env: StoreEnv, files: Files, call: Import, c: Conversation)
    ensures var r := ImportedOne(env, files, call.scope, CandidateOf(env, call, c));
            r.Ok? ==> IsStored(env, r.value.files, call, c)
  {
  }

  /** A successful import leaves every one of its conversations stored. */
  lemma {:induction false} ImportingStores(env: StoreEnv, files: Files, call: Import, conversations: seq<Conversation>)
    requires WithinQuota(|files|, TotalBytes(files))
    ensures var o := ImportedAll(env, files, call, conversations);
            o.receipts.Ok? ==> |o.receipts.value| == |conversations| && AllStored(env, o.files, call, conversations)
    decreases |conversations|
  {
    if conversations != [] {
      hide ImportedOne, CandidateOf, WithinQuota, TotalBytes, AllStored, Keeps, IsStored;
      var init, last := conversations[..|conversations| - 1], conversations[|conversations| - 1];
      ImportingStores(env, files, call, init);
      ImportingKeeps(env, files, call, init);
      var before := ImportedAll(env, files, call, init);
      OneKeeps(env, before.files, call.scope, CandidateOf(env, call, last));
      OneIsStored(env, before.files, call, last);
      var after := ImportedAll(env, files, call, conversations);
      if after.receipts.Ok? {
        StoredAfter(env, before.files, after.files, call, init);
        AllStoredOneMore(env, after.files, call, conversations);
      }
    }
  }

  /** The same export imported again, at any time and under any file name. */
  predicate SameSource(a: Import, b: Import) {
    a.scope == b.scope && a.provider == b.provider && a.sourceBytes == b.sourceBytes && a.sourceSha == b.sourceSha
  }

  predicate Fits(env: StoreEnv, call: Import, c: Conversation) {
    env.size(CandidateOf(env, call, c)) <= MAX_IMPORT_RECORD_BYTES
  }

  /** The receipt reports the stored record of this conversation as existing. */
  predicate ReportsExisting(env: StoreEnv, files: Files, call: Import, c: Conversation, receipt: Receipt) {
    var id := CandidateOf(env, call, c).body.importId;
    id in files && files[id].record.Some? && receipt == Receipt(Existing, id, files[id].record.value.sha)
  }

  predicate AllExisting(env: StoreEnv, files: Files, call: Import, conversations: seq<Conversation>,
                        receipts: seq<Receipt>)
  {
    |receipts| == |conversations| && forall i | 0 <= i < |receipts| ::
      ReportsExisting(env, files, call, conversations[i], receipts[i])
  }

  lemma StoredImportExists(env: StoreEnv, files: Files, first: Import, again: Import, c: Conversation)
    requires SameSource(first, again) && IsStored(env, files, first, c)
    ensures var r := ImportedOne(env, files, again.scope, CandidateOf(env, again, c));
            && (r.Ok? <==> Fits(env, again, c))
            && (r.Ok? ==> r.value.files == files && ReportsExisting(env, files, again, c, r.value.receipt))
  {
    assert Immutable(CandidateOf(env, first, c).body) == Immutable(CandidateOf(env, again, c).body);
  }

  predicate AllFit(env: StoreEnv, call: Import, conversations: seq<Conversation>) {
    forall i | 0 <= i < |conversations| :: Fits(env, call, conversations[i])
  }

  lemma AllStoredButLast(env: StoreEnv, files: Files, call: Import, conversations: seq<Conversation>)
    requires conversations != [] && AllStored(env, files, call, conversations)
    ensures AllStored(env, files, call, conversations[..|conversations| - 1])
    ensures IsStored(env, files, call, conversations[|conversations| - 1])
  {
    hide IsStored;
  }

  lemma AllFitOneMore(env: StoreEnv, call: Import, conversations: seq<Conversation>)
    requires conversations != []
    ensures AllFit(env, call, conversations)
            <==> AllFit(env, call, conversations[..|conversations| - 1])
                 && Fits(env, call, conversations[|conversations| - 1])
  {
    hide Fits;
    var init := conversations[..|conversations| - 1];
    assert forall i | 0 <= i < |init| :: init[i] == conversations[i];
  }

  lemma AllExistingOneMore(env: StoreEnv, files: Files, call: Import, conversations: seq<Conversation>,
                           receipts: seq<Receipt>, receipt: Receipt)
    requires conversations != [] && AllExisting(env, files, call, conversations[..|conversations| - 1], receipts)
    requires ReportsExisting(env, files, call, conversations[|conversations| - 1], receipt)
    ensures AllExisting(env, files, call, conversations, receipts + [receipt])
  {
    hide ReportsExisting;
    var init := conversations[..|conversations| - 1];
    assert forall i | 0 <= i < |init| :: init[i] == conversations[i];
  }

  lemma {:induction false} StoredImportsExist(env: StoreEnv, files: Files, first: Import, again: Import,
                                              conversations: seq<Conversation>)
    requires SameSource(first, again)
    requires AllStored(env, files, first, conversations)
    ensures var o := ImportedAll(env, files, again, conversations);
            && o.files == files
            && (o.receipts.Ok? <==> AllFit(env, again, conversations))
            && (o.receipts.Ok? ==> AllExisting(env, files, again, conversations, o.receipts.value))
    decreases |conversations|
  {
    if conversations != [] {
      hide AllStored, AllFit, AllExisting, IsStored, Fits, ImportedOne, CandidateOf, SameSource, ReportsExisting;
      var init, last := conversations[..|conversations| - 1], conversations[|conversations| - 1];
      AllStoredButLast(env, files, first, conversations);
      StoredImportsExist(env, files, first, again, init);
      StoredImportExists(env, files, first, again, last);
      AllFitOneMore(env, again, conversations);
      var before, one := ImportedAll(env, files, again, init),
        ImportedOne(env, files, again.scope, CandidateOf(env, again, last));
      if before.receipts.Ok? && one.Ok? {
        AllExistingOneMore(env, files, again, conversations, before.receipts.value, one.value.receipt);
      }
    }
  }

  /**
   Importing is create-only and idempotent: after a successful import, importing the same export again changes nothing,
   and reports every conversation as existing exactly when each newly built record still fits the size limit.
   */
  lemma ReimportExists(env: StoreEnv, files: Files, first: Import, again: Import, conversations: seq<Conversation>)
    requires WithinQuota(|files|, TotalBytes(files)) && SameSource(first, again)
    requires ImportedAll(env, files, first, conversations).receipts.Ok?
    ensures var stored := ImportedAll(env, files, first, conversations).files;
            var o := ImportedAll(env, stored, again, conversations);
            && o.files == stored
            && (o.receipts.Ok? <==> AllFit(env, again, conversations))
            && (o.receipts.Ok? ==> AllExisting(env, stored, again, conversations, o.receipts.value))
  {
    ImportingStores(env, files, first, conversations);
    StoredImportsExist(env, ImportedAll(env, files, first, conversations).files, first, again, conversations);
  }

  // ----- listing -----

  predicate Listable(env: StoreEnv, file: File, scope: string) {
    file.size <= MAX_IMPORT_BYTES && RecordFault(env, file, scope).None?
  }

  function ListableIds(env: StoreEnv, files: Files, scope: string): set<string> {
    set id | id in files && Listable(env, files[id], scope)
  }

  /** Newest import first, then greatest import id, then file name. */
  predicate ListedBefore(files: Files, a: string, b: string) {
    && a in files && b in files && files[a].record.Some? && files[b].record.Some?
    && var x, y := files[a].record.value.body, files[b].record.value.body;
    TextLess(y.importedUtc, x.importedUtc)
    || (x.importedUtc == y.importedUtc
        && (TextLess(y.importId, x.importId) || (x.importId == y.importId && TextLess(a, b))))
  }

  function ListingOrder(files: Files): (string, string) -> bool {
    (a, b) => ListedBefore(files, a, b)
  }

  lemma ListingIsOrdered(env: StoreEnv, files: Files, scope: string)
    ensures StrictOrderOn(ListingOrder(files), ListableIds(env, files, scope))
  {
    forall a, b, c | a in ListableIds(env, files, scope) && b in ListableIds(env, files, scope)
      && c in ListableIds(env, files, scope)
      ensures !ListedBefore(files, a, a)
      ensures a == b || ListedBefore(files, a, b) || ListedBefore(files, b, a)
      ensures ListedBefore(files, a, b) && ListedBefore(files, b, c) ==> ListedBefore(files, a, c)
    {
      var x, y, z := files[a].record.value.body, files[b].record.value.body, files[c].record.value.body;
      TextLessOrder(x.importedUtc, y.importedUtc, z.importedUtc);
      TextLessOrder(x.importId, y.importId, z.importId);
      TextLessOrder(a, b, c);
    }
  }

  /** `list_conversation_imports`: the newest 128 listable records of the scope. */
  method ListImports(env: StoreEnv, files: Files, scope: string) returns (ids: seq<string>)
    ensures forall id | id in ids :: id in ListableIds(env, files, scope)
    ensures |ids| == (if |ListableIds(env, files, scope)| < MAX_CONVERSATIONS then |ListableIds(env, files, scope)|
                      else MAX_CONVERSATIONS)
    ensures forall a, b | a in ids && b in ListableIds(env, files, scope) && b !in ids :: ListedBefore(files, a, b)
  {
    ListingIsOrdered(env, files, scope);
    var listable := ListableIds(env, files, scope);
    var all := OrderBy(listable, ListingOrder(files));
    var n := if |all| < MAX_CONVERSATIONS then |all| else MAX_CONVERSATIONS;
    LimitMeaning(listable, ListingOrder(files), n);
    ids := all[..n];
    assert forall id :: id in ids <==> id in Elements(ids);
    forall a, b | a in ids && b in listable && b !in ids ensures ListedBefore(files, a, b) {
      assert ListingOrder(files)(a, b);
    }
  }

  /**
   A record the import accepts, up to 32 MiB, is one the listing can ever show if and only if it is at most 16 MiB.
   */
  lemma ImportedThenListable(env: StoreEnv, files: Files, scope: string, candidate: Record)
    requires candidate.sha == env.recordSha(candidate.body) && candidate.body.scope == scope
             && candidate.body.importId !in files
    requires ImportedOne(env, files, scope, candidate).Ok?
    ensures candidate.body.importId in ListableIds(env, ImportedOne(env, files, scope, candidate).value.files, scope)
            <==> env.size(candidate) <= MAX_IMPORT_BYTES
  {
  }

  /** For instance, an empty store accepts a record between the two limits and never lists it. */
  lemma StoredNotListed(env: StoreEnv, scope: string, candidate: Record)
    requires candidate.sha == env.recordSha(candidate.body) && candidate.body.scope == scope
    requires MAX_IMPORT_BYTES < env.size(candidate) <= MAX_IMPORT_RECORD_BYTES
    ensures var r := ImportedOne(env, map[], scope, candidate);
            && r.Ok? && r.value.receipt.status.Created?
            && ListableIds(env, r.value.files, scope) == {}
  {
    assert TotalBytes(map[]) == 0;
    assert ImportedOne(env, map[], scope, candidate).Ok?;
  }
}
