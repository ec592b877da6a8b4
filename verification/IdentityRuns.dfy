/**
 Sequential runs of issuing and revoking identity capabilities (src/peerbridge_mcp/agent_identity.py:365-378, 399-522,
 745-943), with the capability files left untouched.
 */
module IdentityRuns {
  import opened Results
  import opened Sorting
  import opened AgentIdentity

  const ID_LENGTH := 41
  const TOKEN_LENGTH := 64
  const UTC_LENGTH := 20
  const DIGEST_LENGTH := 64
  const DRAWN_BYTES := 493
  const LONG_NAME := 200

  datatype Operation = EnsureOp(request: Binding, drawn: Fresh) | RevokeOp(key: Key, utc: string)

  ghost function After(env: Env, s: State, op: Operation): State {
    match op
    case EnsureOp(request, drawn) => Ensured(env, s, request, drawn).0
    case RevokeOp(key, utc) => AfterRevoke(s, key, utc)
  }

  ghost function Run(env: Env, s: State, ops: seq<Operation>): State
    decreases |ops|
  {
    if ops == [] then s else Run(env, After(env, s, ops[0]), ops[1..])
  }

  /** Digests are 64 lower-case hexadecimal digits. */
  ghost predicate GoodDigests(env: Env) {
    (forall t :: IsSha(env.tokenSha(t))) && (forall d :: IsSha(env.descriptorSha(d)))
  }

  /** A drawn id was never used; ids, tokens and times have the lengths the program gives them. */
  predicate IsFresh(s: State, drawn: Fresh) {
    && IsSafeId(drawn.id) && |drawn.id| == ID_LENGTH && |drawn.token| == TOKEN_LENGTH && |drawn.utc| == UTC_LENGTH
    && PathFor(drawn.id) !in s.files
    && forall k | k in s.rows :: k.id != drawn.id
  }

  ghost predicate AllFresh(env: Env, s: State, ops: seq<Operation>)
    decreases |ops|
  {
    ops == [] || ((ops[0].EnsureOp? ==> IsFresh(s, ops[0].drawn)) && AllFresh(env, After(env, s, ops[0]), ops[1..]))
  }

  // ----- the length of a new file -----

  function FileBytes(b: Binding): nat {
    BindingBytes(b) + DRAWN_BYTES
  }

  predicate FitsFile(b: Binding) {
    FileBytes(b) <= MAX_CAPABILITY_FILE_BYTES
  }

  /** The length of a new file is known from the binding alone, before anything is drawn. */
  lemma NewFileBytes(env: Env, s: State, b: Binding, drawn: Fresh)
    requires GoodDigests(env) && IsFresh(s, drawn)
    ensures NewFile(env, b, drawn).bytes == FileBytes(b)
  {
    hide BindingBytes;
    var f := NewFile(env, b, drawn);
    assert |f.sha| == |f.descriptor.tokenSha| == DIGEST_LENGTH;
    assert |f.descriptor.path| == |"identity-capabilities/"| + ID_LENGTH + |".json"|;
  }

  // ----- the invariant -----

  /** The row and its file belong together, and the file is no longer than one written for its binding. */
  ghost predicate Intact(env: Env, s: State, k: Key)
    requires k in s.rows
  {
    var r := s.rows[k];
    && IsSafeId(k.scope) && IsSafeId(r.agent) && r.path in s.files
    && var f := s.files[r.path];
       && f.descriptor.id == k.id && r.tokenSha == f.descriptor.tokenSha && r.sha == f.sha
       && ContentFault(env, f, r.root, k.scope, r.agent, r.path).None?
       && (!f.descriptor.legacy ==> f.bytes <= FileBytes(NormalBinding(f.descriptor)))
  }

  ghost predicate AllIntact(env: Env, s: State) {
    forall k | k in s.rows :: Intact(env, s, k)
  }

  ghost function BindingAt(s: State, k: Key): Binding
    requires k in s.rows && s.rows[k].path in s.files
  {
    NormalBinding(s.files[s.rows[k].path].descriptor)
  }

  predicate ReadableAt(s: State, k: Key)
    requires k in s.rows && s.rows[k].path in s.files
  {
    IsReadable(s.files[s.rows[k].path])
  }

  predicate IsCurrent(s: State, k: Key) {
    && k in s.rows && s.rows[k].path in s.files
    && s.rows[k].revokedUtc.None? && !s.files[s.rows[k].path].descriptor.legacy
  }

  /** At most one unrevoked v2 capability exists for each exact binding. */
  ghost predicate OnePerBinding(s: State) {
    forall a, b | IsCurrent(s, a) && IsCurrent(s, b) && BindingAt(s, a) == BindingAt(s, b) :: a == b
  }

  ghost predicate Sound(env: Env, s: State) {
    AllIntact(env, s) && OnePerBinding(s)
  }

  /** An intact row's file verifies exactly while the row is not revoked and the file not too long, and as that row. */
  lemma IntactVerifies(env: Env, s: State, k: Key)
    requires k in s.rows && Intact(env, s, k)
    ensures var r := s.rows[k];
            var v := Verified(env, s, r.root, k.scope, r.agent, r.path);
            && (v.Ok? <==> r.revokedUtc.None? && ReadableAt(s, k))
            && (v.Ok? ==> v.value.key == k && v.value.binding == BindingAt(s, k)
                          && v.value.legacy == s.files[r.path].descriptor.legacy)
    ensures BindingAt(s, k).root == s.rows[k].root && BindingAt(s, k).scope == k.scope
            && BindingAt(s, k).agent == s.rows[k].agent
  {
    hide BindingBytes, SortedTools, FieldFault;
  }

  lemma {:induction false} FirstFittingMeaning(env: Env, s: State, b: Binding, keys: seq<Key>)
    ensures match FirstFitting(env, s, b, keys)
            case None => forall k | k in keys :: !Fits(env, s, b, k)
            case Some(k) => k in keys && Fits(env, s, b, k)
  {
    if keys != [] {
      FirstFittingMeaning(env, s, b, keys[1..]);
    }
  }

  lemma CurrentFits(env: Env, s: State, b: Binding, k: Key)
    requires AllIntact(env, s) && IsCurrent(s, k) && BindingAt(s, k) == b && ReadableAt(s, k)
    ensures k in Candidates(s, b) && Fits(env, s, b, k)
  {
    IntactVerifies(env, s, k);
  }

  /** The search finds a current capability of the binding if and only if there is one that can be read. */
  lemma FoundMeaning(env: Env, s: State, b: Binding)
    requires AllIntact(env, s)
    ensures match Found(env, s, b)
            case None => forall k | IsCurrent(s, k) && BindingAt(s, k) == b :: !ReadableAt(s, k)
            case Some(k) => IsCurrent(s, k) && BindingAt(s, k) == b && ReadableAt(s, k) && Fits(env, s, b, k)
  {
    CandidatesOrdered(s, b);
    var keys := Sorted(Candidates(s, b), NewestFirst(s.rows));
    FirstFittingMeaning(env, s, b, keys);
    if Found(env, s, b).Some? {
      var k := Found(env, s, b).value;
      assert k in Candidates(s, b);
      IntactVerifies(env, s, k);
    } else {
      forall k | IsCurrent(s, k) && BindingAt(s, k) == b ensures !ReadableAt(s, k) {
        if ReadableAt(s, k) {
          CurrentFits(env, s, b, k);
        }
      }
    }
  }

  // ----- one step -----

  /** An accepted request is in normal form, and asking for its normal form again changes nothing. */
  lemma NormalRequest(request: Binding)
    requires Requested(request).Ok?
    ensures var b := Requested(request).value;
            FieldFault(b).None? && SortedTools(b.tools) == b.tools && IsSafeId(b.scope) && IsSafeId(b.agent)
  {
    SortedToolsStable(request.tools);
    hide SortedTools, IsSafeId, IsRoute, IsSha, IsOptionalId, ToolsOk;
  }

  /** A file just created is registered for the requested binding. */
  lemma CreatedIntact(env: Env, s: State, request: Binding, drawn: Fresh)
    requires GoodDigests(env) && Requested(request).Ok? && IsFresh(s, drawn)
    ensures var b := Requested(request).value;
            var t := Created(env, s, b, drawn);
            var k := Key(b.scope, drawn.id);
            && k in t.rows && t.rows[k].path == PathFor(drawn.id) && Intact(env, t, k) && IsCurrent(t, k)
            && BindingAt(t, k) == b && (ReadableAt(t, k) <==> FitsFile(b))
  {
    hide BindingBytes, DrawnBytes, FieldFault, Requested, SortedTools, IsSafeId, IsSha, PathFor;
    var b := Requested(request).value;
    var f := NewFile(env, b, drawn);
    NormalRequest(request);
    NewFileBytes(env, s, b, drawn);
    assert ContentFault(env, f, b.root, b.scope, b.agent, PathFor(drawn.id)).None?;
    assert NormalBinding(f.descriptor) == b;
    hide ContentFault, NormalBinding, FileBytes;
  }

  /** And it verifies exactly if it is not too long. */
  lemma CreatedVerifies(env: Env, s: State, request: Binding, drawn: Fresh)
    requires GoodDigests(env) && Requested(request).Ok? && IsFresh(s, drawn)
    ensures var b := Requested(request).value;
            var t := Created(env, s, b, drawn);
            Verified(env, t, b.root, b.scope, b.agent, PathFor(drawn.id))
            == if FitsFile(b) then
              Ok(Capability(Key(b.scope, drawn.id), PathFor(drawn.id), NewFile(env, b, drawn).sha, false, b))
               else Err(FileTooLong)
  {
    var b := Requested(request).value;
    var t := Created(env, s, b, drawn);
    NormalRequest(request);
    CreatedIntact(env, s, request, drawn);
    hide BindingBytes, DrawnBytes, FieldFault, Requested, SortedTools, IsSafeId, IsSha, FitsFile, BindingAt;
    IntactVerifies(env, t, Key(b.scope, drawn.id));
  }

  lemma CreatedKeepsOthers(env: Env, s: State, b: Binding, drawn: Fresh, k: Key)
    requires k in s.rows && Intact(env, s, k) && IsFresh(s, drawn)
    ensures var t := Created(env, s, b, drawn);
            && k in t.rows && t.rows[k] == s.rows[k] && Intact(env, t, k)
            && (IsCurrent(t, k) <==> IsCurrent(s, k)) && BindingAt(t, k) == BindingAt(s, k)
  {
    hide NewFile, NewRow, ContentFault, FileBytes, NormalBinding;
  }

  /** Some unrevoked capability has this binding. */
  ghost predicate HasCurrent(s: State, b: Binding) {
    exists k :: IsCurrent(s, k) && BindingAt(s, k) == b
  }

  lemma AllIntactCreated(env: Env, s: State, request: Binding, drawn: Fresh)
    requires GoodDigests(env) && AllIntact(env, s) && IsFresh(s, drawn) && Requested(request).Ok?
    ensures AllIntact(env, Created(env, s, Requested(request).value, drawn))
  {
    var b := Requested(request).value;
    var t := Created(env, s, b, drawn);
    var added := Key(b.scope, drawn.id);
    assert forall k | k in t.rows :: k == added || k in s.rows;
    hide Requested, Intact, IsFresh, NewFile, NewRow, FitsFile, Created;
    CreatedIntact(env, s, request, drawn);
    forall k | k in s.rows ensures k in t.rows && Intact(env, t, k) {
      CreatedKeepsOthers(env, s, b, drawn, k);
    }
  }

  /** Creating keeps one row per binding exactly if there was none of this binding. */
  lemma CreatedOneIff(env: Env, s: State, request: Binding, drawn: Fresh)
    requires GoodDigests(env) && Sound(env, s) && IsFresh(s, drawn) && Requested(request).Ok?
    ensures var b := Requested(request).value;
            OnePerBinding(Created(env, s, b, drawn)) <==> !HasCurrent(s, b)
  {
    var b := Requested(request).value;
    var t := Created(env, s, b, drawn);
    var added := Key(b.scope, drawn.id);
    assert added !in s.rows && forall k | k in t.rows :: k == added || k in s.rows;
    hide Requested, Intact, BindingAt, IsFresh, NewFile, NewRow, FitsFile, Created, OnePerBinding, HasCurrent;
    CreatedIntact(env, s, request, drawn);
    forall k | k in s.rows
      ensures IsCurrent(t, k) <==> IsCurrent(s, k)
      ensures IsCurrent(t, k) ==> BindingAt(t, k) == BindingAt(s, k)
    {
      CreatedKeepsOthers(env, s, b, drawn, k);
    }
    AddedOneIff(s, t, added, b);
  }

  lemma AddedOneIff(s: State, t: State, added: Key, b: Binding)
    requires OnePerBinding(s) && IsCurrent(t, added) && BindingAt(t, added) == b && !IsCurrent(s, added)
    requires forall k | IsCurrent(t, k) :: k == added || IsCurrent(s, k)
    requires forall k | IsCurrent(s, k) :: IsCurrent(t, k) && BindingAt(t, k) == BindingAt(s, k)
    ensures OnePerBinding(t) <==> !HasCurrent(s, b)
  {
    hide BindingAt;
    if HasCurrent(s, b) {
      var k :| IsCurrent(s, k) && BindingAt(s, k) == b;
      assert k != added && IsCurrent(t, k) && BindingAt(t, k) == BindingAt(t, added);
    }
  }

  /**
   An unrevoked capability of the requested binding exists whose file cannot be read back: it was written too long.
   */
  ghost predicate Repeats(s: State, request: Binding) {
    Requested(request).Ok?
    && exists k :: IsCurrent(s, k) && BindingAt(s, k) == Requested(request).value && !ReadableAt(s, k)
  }

  /** An ensure keeps at most one capability per binding if and only if it does not repeat one written too long. */
  lemma EnsureKeepsSoundIff(env: Env, s: State, request: Binding, drawn: Fresh)
    requires GoodDigests(env) && Sound(env, s) && IsFresh(s, drawn)
    ensures var t := Ensured(env, s, request, drawn).0;
            AllIntact(env, t) && (OnePerBinding(t) <==> !Repeats(s, request))
  {
    if Requested(request).Ok? {
      var b := Requested(request).value;
      FoundMeaning(env, s, b);
      if Found(env, s, b).None? {
        AllIntactCreated(env, s, request, drawn);
        CreatedOneIff(env, s, request, drawn);
      }
    }
  }

  /** Only a request whose file does not fit repeats. */
  lemma FittingNeverRepeats(env: Env, s: State, request: Binding)
    requires AllIntact(env, s) && (Requested(request).Ok? ==> FitsFile(Requested(request).value))
    ensures !Repeats(s, request)
  {
    hide BindingBytes, Requested;
    forall k | IsCurrent(s, k) && Requested(request).Ok? && BindingAt(s, k) == Requested(request).value
      ensures ReadableAt(s, k)
    {
      assert Intact(env, s, k);
    }
  }

  lemma RevokeKeepsRow(env: Env, s: State, key: Key, utc: string, k: Key)
    requires k in s.rows && Intact(env, s, k)
    ensures var t := AfterRevoke(s, key, utc);
            && k in t.rows && Intact(env, t, k)
            && (IsCurrent(t, k) ==> IsCurrent(s, k) && BindingAt(t, k) == BindingAt(s, k))
  {
    hide ContentFault, NormalBinding, FileBytes, IsSafeId;
  }

  lemma RevokeKeepsSound(env: Env, s: State, key: Key, utc: string)
    requires Sound(env, s)
    ensures Sound(env, AfterRevoke(s, key, utc))
  {
    var t := AfterRevoke(s, key, utc);
    assert t.rows.Keys == s.rows.Keys;
    hide AfterRevoke, Intact, IsCurrent, BindingAt;
    forall k | k in t.rows
      ensures Intact(env, t, k) && (IsCurrent(t, k) ==> IsCurrent(s, k) && BindingAt(t, k) == BindingAt(s, k))
    {
      assert Intact(env, s, k);
      RevokeKeepsRow(env, s, key, utc, k);
    }
  }

  // ----- runs -----

  /** The state is sound now and after every further operation. */
  ghost predicate StaysSound(env: Env, s: State, ops: seq<Operation>)
    decreases |ops|
  {
    Sound(env, s) && (ops != [] ==> StaysSound(env, After(env, s, ops[0]), ops[1..]))
  }

  ghost predicate NeverRepeats(env: Env, s: State, ops: seq<Operation>)
    decreases |ops|
  {
    ops == []
    || ((ops[0].EnsureOp? ==> !Repeats(s, ops[0].request)) && NeverRepeats(env, After(env, s, ops[0]), ops[1..]))
  }

  /**
   Over a whole run each row stays with its file and at most one unrevoked v2 capability exists per exact binding, if
   and only if no ensure repeats a request whose capability was written too long and has not been revoked.
   */
  lemma {:induction false} StaysSoundIff(env: Env, s: State, ops: seq<Operation>)
    requires GoodDigests(env) && Sound(env, s) && AllFresh(env, s, ops)
    ensures StaysSound(env, s, ops) <==> NeverRepeats(env, s, ops)
    decreases |ops|
  {
    if ops != [] {
      var t := After(env, s, ops[0]);
      match ops[0] {
        case EnsureOp(request, drawn) => EnsureKeepsSoundIff(env, s, request, drawn);
        case RevokeOp(key, utc) => RevokeKeepsSound(env, s, key, utc);
      }
      if Sound(env, t) {
        StaysSoundIff(env, t, ops[1..]);
      } else {
        assert !StaysSound(env, t, ops[1..]);
      }
    }
  }

  /** Every well-formed request of the run asks for a binding whose file fits. */
  ghost predicate AllFit(ops: seq<Operation>) {
    forall i | 0 <= i < |ops| && ops[i].EnsureOp? && Requested(ops[i].request).Ok? ::
      FitsFile(Requested(ops[i].request).value)
  }

  /**
   In particular it holds at the end of every run whose requests all fit, which can be told from the requests alone.
   */
  lemma {:induction false} RunsStaySound(env: Env, s: State, ops: seq<Operation>)
    requires GoodDigests(env) && Sound(env, s) && AllFresh(env, s, ops) && AllFit(ops)
    ensures Sound(env, Run(env, s, ops)) && StaysSound(env, s, ops)
    decreases |ops|
  {
    if ops != [] {
      hide Requested, FitsFile, Sound;
      match ops[0] {
        case EnsureOp(request, drawn) => FittingKeepsSound(env, s, request, drawn);
        case RevokeOp(key, utc) => RevokeKeepsSound(env, s, key, utc);
      }
      assert forall i | 0 <= i < |ops[1..]| :: ops[1..][i] == ops[i + 1];
      RunsStaySound(env, After(env, s, ops[0]), ops[1..]);
    }
  }

  lemma FittingKeepsSound(env: Env, s: State, request: Binding, drawn: Fresh)
    requires GoodDigests(env) && Sound(env, s) && IsFresh(s, drawn)
    requires Requested(request).Ok? ==> FitsFile(Requested(request).value)
    ensures Sound(env, Ensured(env, s, request, drawn).0)
  {
    FittingNeverRepeats(env, s, request);
    EnsureKeepsSoundIff(env, s, request, drawn);
  }

  /** From an empty registry. */
  lemma ReachableIsSound(env: Env, ops: seq<Operation>)
    requires GoodDigests(env) && AllFresh(env, State(map[], map[]), ops)
    ensures StaysSound(env, State(map[], map[]), ops) <==> NeverRepeats(env, State(map[], map[]), ops)
    ensures AllFit(ops) ==> Sound(env, Run(env, State(map[], map[]), ops))
  {
    StaysSoundIff(env, State(map[], map[]), ops);
    if AllFit(ops) {
      RunsStaySound(env, State(map[], map[]), ops);
    }
  }

  // ----- what a caller of ensure gets -----

  /**
   A request gets a capability, bound to exactly what it asked for, if and only if it is well-formed and either has one
   that can be read or its new file fits; a new file that does not fit is registered all the same and then refused.
   */
  lemma EnsureDelivers(env: Env, s: State, request: Binding, drawn: Fresh)
    requires GoodDigests(env) && AllIntact(env, s) && IsFresh(s, drawn)
    ensures var (t, r) := Ensured(env, s, request, drawn);
            && (r.Ok? <==> Requested(request).Ok?
                           && (Found(env, s, Requested(request).value).Some? || FitsFile(Requested(request).value)))
            && (r.Ok? ==> !r.value.legacy && r.value.binding == Requested(request).value && IsCurrent(t, r.value.key)
                          && BindingAt(t, r.value.key) == r.value.binding)
            && (Requested(request).Ok? && r.Err? ==>
                  r == Err(FileTooLong) && t == Created(env, s, Requested(request).value, drawn)
                  && Key(Requested(request).value.scope, drawn.id) in t.rows)
  {
    if Requested(request).Ok? {
      var b := Requested(request).value;
      FoundMeaning(env, s, b);
      match Found(env, s, b) {
        case None =>
          CreatedIntact(env, s, request, drawn);
          CreatedVerifies(env, s, request, drawn);
        case Some(k) => IntactVerifies(env, s, k);
      }
      hide Requested, Found, FitsFile, NewFile;
    }
  }

  /**
   The same request again, with whatever would be drawn, returns the same capability and changes nothing, if and only if
   the first call returned a capability.
   */
  lemma EnsureIdempotent(env: Env, s: State, request: Binding, drawn: Fresh, again: Binding, redrawn: Fresh)
    requires GoodDigests(env) && Sound(env, s) && IsFresh(s, drawn)
    requires Requested(request).Ok? && Requested(again) == Requested(request)
    requires IsFresh(Ensured(env, s, request, drawn).0, redrawn)
    ensures var (t, r) := Ensured(env, s, request, drawn);
            Ensured(env, t, again, redrawn) == (t, r) <==> r.Ok?
  {
    var b := Requested(request).value;
    var t := Ensured(env, s, request, drawn).0;
    EnsureDelivers(env, s, request, drawn);
    if Ensured(env, s, request, drawn).1.Ok? {
      DeliveredAgain(env, s, request, drawn, again, redrawn);
    } else {
      hide Requested, Found, BindingAt, FitsFile;
      TooLongAgain(env, s, request, drawn, again, redrawn);
    }
  }

  lemma DeliveredAgain(env: Env, s: State, request: Binding, drawn: Fresh, again: Binding, redrawn: Fresh)
    requires GoodDigests(env) && Sound(env, s) && IsFresh(s, drawn)
    requires Requested(request).Ok? && Requested(again) == Requested(request)
    requires Ensured(env, s, request, drawn).1.Ok?
    ensures Ensured(env, Ensured(env, s, request, drawn).0, again, redrawn) == Ensured(env, s, request, drawn)
  {
    var b := Requested(request).value;
    var t := Ensured(env, s, request, drawn).0;
    EnsureDelivers(env, s, request, drawn);
    SoundAfterDelivery(env, s, request, drawn);
    FoundMeaning(env, t, b);
    hide Requested, Found, BindingAt, Fits, FitsFile;
    SameCapability(env, s, t, request, drawn, Found(env, t, b).value);
  }

  lemma SoundAfterDelivery(env: Env, s: State, request: Binding, drawn: Fresh)
    requires GoodDigests(env) && Sound(env, s) && IsFresh(s, drawn) && Requested(request).Ok?
    requires Ensured(env, s, request, drawn).1.Ok?
    ensures Sound(env, Ensured(env, s, request, drawn).0)
  {
    EnsureDelivers(env, s, request, drawn);
    if Found(env, s, Requested(request).value).None? {
      FittingKeepsSound(env, s, request, drawn);
    }
  }

  /** What the first call returned is what verifying the row found by the second call gives. */
  lemma SameCapability(env: Env, s: State, t: State, request: Binding, drawn: Fresh, k: Key)
    requires GoodDigests(env) && Sound(env, s) && IsFresh(s, drawn) && Requested(request).Ok?
    requires t == Ensured(env, s, request, drawn).0 && Sound(env, t) && Ensured(env, s, request, drawn).1.Ok?
    requires IsCurrent(t, k) && BindingAt(t, k) == Requested(request).value
    ensures var b := Requested(request).value;
            Verified(env, t, b.root, b.scope, b.agent, t.rows[k].path) == Ensured(env, s, request, drawn).1
  {
    var b := Requested(request).value;
    FoundMeaning(env, s, b);
    EnsureDelivers(env, s, request, drawn);
    var c := Ensured(env, s, request, drawn).1.value;
    assert c.key == k;
    match Found(env, s, b) {
      case None =>
        CreatedIntact(env, s, request, drawn);
        CreatedVerifies(env, s, request, drawn);
      case Some(first) => IntactVerifies(env, s, first);
    }
  }

  /** A request whose file does not fit is refused each time, and each time leaves one more unrevoked row behind. */
  lemma TooLongAgain(env: Env, s: State, request: Binding, drawn: Fresh, again: Binding, redrawn: Fresh)
    requires GoodDigests(env) && AllIntact(env, s) && IsFresh(s, drawn)
    requires Requested(request).Ok? && Requested(again) == Requested(request)
    requires Found(env, s, Requested(request).value).None? && !FitsFile(Requested(request).value)
    requires IsFresh(Ensured(env, s, request, drawn).0, redrawn)
    ensures var b := Requested(request).value;
            var (t, first) := Ensured(env, s, request, drawn);
            var (u, second) := Ensured(env, t, again, redrawn);
            && first == second == Err(FileTooLong) && t != u
            && var x, y := Key(b.scope, drawn.id), Key(b.scope, redrawn.id);
               x != y && IsCurrent(u, x) && IsCurrent(u, y) && BindingAt(u, x) == BindingAt(u, y) == b
  {
    var b := Requested(request).value;
    var t := Created(env, s, b, drawn);
    var x := Key(b.scope, drawn.id);
    FoundMeaning(env, s, b);
    CreatedIntact(env, s, request, drawn);
    CreatedVerifies(env, s, request, drawn);
    assert Ensured(env, s, request, drawn) == (t, Err(FileTooLong));
    AllIntactCreated(env, s, request, drawn);
    StillNotFound(env, s, request, drawn);
    CreatedIntact(env, t, again, redrawn);
    CreatedVerifies(env, t, again, redrawn);
    CreatedKeepsOthers(env, t, b, redrawn, x);
  }

  lemma StillNotFound(env: Env, s: State, request: Binding, drawn: Fresh)
    requires GoodDigests(env) && AllIntact(env, s) && IsFresh(s, drawn) && Requested(request).Ok?
    requires Found(env, s, Requested(request).value).None? && !FitsFile(Requested(request).value)
    ensures Found(env, Created(env, s, Requested(request).value, drawn), Requested(request).value).None?
  {
    var b := Requested(request).value;
    var t := Created(env, s, b, drawn);
    FoundMeaning(env, s, b);
    AllIntactCreated(env, s, request, drawn);
    FoundMeaning(env, t, b);
    CreatedIntact(env, s, request, drawn);
    if Found(env, t, b).Some? {
      var k := Found(env, t, b).value;
      assert k in s.rows;
      CreatedKeepsOthers(env, s, b, drawn, k);
      assert false;
    }
  }

  // ----- revocation -----

  ghost predicate IsRevoked(s: State, k: Key) {
    k in s.rows && s.rows[k].revokedUtc.Some?
  }

  lemma StepStaysRevoked(env: Env, s: State, op: Operation, k: Key)
    requires (op.EnsureOp? ==> IsFresh(s, op.drawn)) && IsRevoked(s, k)
    ensures IsRevoked(After(env, s, op), k)
  {
    hide Requested, Found, Verified, NewFile, NewRow, IsSafeId;
  }

  /** A revoked row stays revoked. */
  lemma {:induction false} StaysRevoked(env: Env, s: State, ops: seq<Operation>, k: Key)
    requires AllFresh(env, s, ops) && IsRevoked(s, k)
    ensures IsRevoked(Run(env, s, ops), k)
    decreases |ops|
  {
    if ops != [] {
      hide IsRevoked, IsFresh, After;
      StepStaysRevoked(env, s, ops[0], k);
      StaysRevoked(env, After(env, s, ops[0]), ops[1..], k);
    }
  }

  lemma VerifiedIsUnrevoked(env: Env, s: State, root: string, scope: string, agent: string, path: string)
    requires Verified(env, s, root, scope, agent, path).Ok?
    ensures !IsRevoked(s, Verified(env, s, root, scope, agent, path).value.key)
  {
    hide FieldFault, NormalBinding, IsSafeId, IsSha;
  }

  /** Revocation is permanent: whatever runs after it, no file at any path verifies as that capability again. */
  lemma RevokedNeverVerifies(env: Env, s: State, key: Key, utc: string, ops: seq<Operation>, root: string,
                             scope: string, agent: string, path: string)
    requires IsSafeId(key.scope) && IsSafeId(key.id) && key in s.rows
    requires AllFresh(env, AfterRevoke(s, key, utc), ops)
    ensures var v := Verified(env, Run(env, AfterRevoke(s, key, utc), ops), root, scope, agent, path);
            v.Ok? ==> v.value.key != key
  {
    var revoked := AfterRevoke(s, key, utc);
    assert IsRevoked(revoked, key);
    hide *;
    StaysRevoked(env, revoked, ops, key);
    var end := Run(env, revoked, ops);
    if Verified(env, end, root, scope, agent, path).Ok? {
      VerifiedIsUnrevoked(env, end, root, scope, agent, path);
    }
  }

  // ----- an allow-list that is accepted and does not fit -----

  /** 128 tool names of 200 letters, each with a b at another place. */
  function LongToolNames(): seq<string> {
    seq(MAX_CAPABILITY_TOOLS, i => seq(LONG_NAME, j => if i == j then 'b' else 'a'))
  }

  lemma LongToolNamesOk()
    ensures ToolsOk(LongToolNames()) && |LongToolNames()| == MAX_CAPABILITY_TOOLS
    ensures forall t | t in LongToolNames() :: |t| == LONG_NAME
  {
    var q := LongToolNames();
    assert LETTERS_AND_DIGITS[26] == 'a' && LETTERS_AND_DIGITS[27] == 'b';
    forall t | t in q ensures IsSafeId(t) {
      var i :| 0 <= i < |q| && q[i] == t;
    }
    forall i, j | 0 <= i < j < |q| ensures q[i] != q[j] {
      assert q[i][i] == 'b' && q[j][i] == 'a';
    }
  }

  lemma {:induction false} TextsAtLeast(q: seq<string>)
    requires forall i | 0 <= i < |q| :: |q[i]| >= LONG_NAME
    ensures TextsBytes(q) >= |q| * (LONG_NAME + 3)
  {
    if q != [] {
      TextsAtLeast(q[..|q| - 1]);
    }
  }

  /** Whatever else a request with these tools asks for, its file does not fit. */
  lemma LongToolsDoNotFit(b: Binding)
    requires b.tools == LongToolNames()
    ensures !FitsFile(b.(tools := SortedTools(b.tools)))
  {
    LongToolNamesOk();
    hide LongToolNames;
    LongListsDoNotFit(b);
  }

  lemma LongListsDoNotFit(b: Binding)
    requires ToolsOk(b.tools) && |b.tools| == MAX_CAPABILITY_TOOLS && forall t | t in b.tools :: |t| >= LONG_NAME
    ensures !FitsFile(b.(tools := SortedTools(b.tools)))
  {
    var sorted := SortedTools(b.tools);
    SortedLongTools(b.tools);
    hide SortedTools, TextsBytes, ToolsOk;
    TextsAtLeast(sorted);
    assert ListBytes(sorted) > MAX_CAPABILITY_FILE_BYTES;
    hide ListBytes;
    assert BindingBytes(b.(tools := sorted)) >= MemberBytes("allowed_tools", ListBytes(sorted));
  }

  lemma SortedLongTools(tools: seq<string>)
    requires ToolsOk(tools) && forall t | t in tools :: |t| >= LONG_NAME
    ensures var sorted := SortedTools(tools);
            |sorted| == |tools| && forall i | 0 <= i < |sorted| :: |sorted[i]| >= LONG_NAME
  {
    var sorted := SortedTools(tools);
    DistinctSize(tools);
    forall i | 0 <= i < |sorted| ensures |sorted[i]| >= LONG_NAME {
      assert sorted[i] in sorted && sorted[i] in Elements(tools);
    }
  }

  function LongRequest(root: string, scope: string, agent: string, issuer: string): Binding {
    Binding(root, scope, agent, LongToolNames(), issuer, None, None, None, None, None)
  }

  lemma LongRequestOk(root: string, scope: string, agent: string, issuer: string)
    requires IsSafeId(scope) && IsSafeId(agent) && IsSafeId(issuer)
    ensures var r := Requested(LongRequest(root, scope, agent, issuer)); r.Ok? && !FitsFile(r.value)
  {
    hide LongToolNames, SortedTools, FitsFile, IsSafeId, ToolsOk;
    var b := LongRequest(root, scope, agent, issuer);
    LongToolNamesOk();
    assert FieldFault(b).None?;
    assert Requested(b) == Ok(b.(tools := SortedTools(b.tools)));
    LongToolsDoNotFit(b);
  }

  /**
   From an empty registry, a well-formed request with this allow-list is refused twice and leaves two unrevoked
   capabilities of one binding, so ensuring is not idempotent and one capability per binding is not kept.
   */
  lemma LongToolsRegisteredTwice(env: Env, root: string, scope: string, agent: string, issuer: string, drawn: Fresh,
                                 redrawn: Fresh)
    requires IsSafeId(scope) && IsSafeId(agent) && IsSafeId(issuer)
    requires GoodDigests(env) && IsFresh(State(map[], map[]), drawn) && IsFresh(State(map[], map[]), redrawn)
    requires drawn.id != redrawn.id
    ensures var request := LongRequest(root, scope, agent, issuer);
            var (t, first) := Ensured(env, State(map[], map[]), request, drawn);
            var (u, second) := Ensured(env, t, request, redrawn);
            && Requested(request).Ok? && first == second == Err(FileTooLong)
            && Sound(env, t) && !OnePerBinding(u)
  {
    var empty := State(map[], map[]);
    var request := LongRequest(root, scope, agent, issuer);
    LongRequestOk(root, scope, agent, issuer);
    EmptyFindsNothing(env, Requested(request).value);
    StillFresh(env, empty, Requested(request).value, drawn, redrawn);
    hide LongRequest, Requested, FitsFile, Found, IsFresh;
    EnsureKeepsSoundIff(env, empty, request, drawn);
    EnsureDelivers(env, empty, request, drawn);
    assert !Repeats(empty, request);
    hide Ensured, BindingAt;
    TooLongAgain(env, empty, request, drawn, request, redrawn);
  }

  lemma EmptyFindsNothing(env: Env, b: Binding)
    ensures Found(env, State(map[], map[]), b).None?
  {
    FoundMeaning(env, State(map[], map[]), b);
  }

  lemma StillFresh(env: Env, s: State, b: Binding, drawn: Fresh, redrawn: Fresh)
    requires IsFresh(s, drawn) && IsFresh(s, redrawn) && drawn.id != redrawn.id
    ensures IsFresh(Created(env, s, b, drawn), redrawn)
  {
    hide NewFile, NewRow, IsSafeId;
    if PathFor(drawn.id) == PathFor(redrawn.id) {
      PathNamesId(drawn.id, redrawn.id);
    }
  }

  lemma PathNamesId(a: string, b: string)
    requires |a| == |b| && PathFor(a) == PathFor(b)
    ensures a == b
  {
    var n := |"identity-capabilities/"|;
    assert PathFor(a)[n..n + |a|] == a && PathFor(b)[n..n + |b|] == b;
  }
}
