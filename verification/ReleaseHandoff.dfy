/**
 Release handoff checkpoints (scripts/capture_release_handoff.py): files that each name the digest of the one before,
 how one is built and written, and how the chain behind one is verified.
 */
module ReleaseHandoff {
  import opened Results

  const SCHEMA := "peerbridge-release-handoff/v1"
  const MAX_CHECKPOINT_BYTES := 256 * 1024

  /** A file bound by its path inside the project, its size and its digest. */
  datatype Binding = Binding(path: string, bytes: nat, sha: string)
  datatype Previous = NoPrevious | Previous(binding: Binding) | NotABinding

  /** `git` is the text of the recorded working-tree state. */
  datatype Body = Body(schema: string, release: string, package: string, index: int, phase: string, nextPhase: string,
                       git: string, authorities: seq<Binding>, previous: Previous, backup: Option<Binding>,
                       evidence: seq<Binding>)
  datatype Checkpoint = Checkpoint(body: Body, sha: string)

  /** A project tree: file contents by normalised path inside the root. */
  type Files = map<string, string>

  /** JSON, digests, the secret scan, and the resolution of a path to its normalised form inside the root. */
  datatype Env = Env(parse: string -> Option<Checkpoint>, rendered: Checkpoint -> string, compact: Checkpoint -> string,
                     bodySha: Body -> string, fileSha: string -> string, hasSecret: string -> bool,
                     inside: string -> Option<string>)

  /** Rendering is read back as the same checkpoint, and a normalised path is its own normal form. */
  ghost predicate Faithful(env: Env) {
    && (forall c :: env.parse(env.rendered(c)) == Some(c))
    && (forall p :: env.inside(p).Some? ==> env.inside(env.inside(p).value) == env.inside(p))
  }

  ghost predicate Collisionless(env: Env) {
    forall a, b :: env.fileSha(a) == env.fileSha(b) ==> a == b
  }

  datatype HandoffError = BadIdentifier | EscapesRoot | NotAFile | Unreadable | TooLarge | WrongSchema | ShaMismatch
                        | HasSecret | DuplicateBinding | OtherRelease | OtherPackage | AlreadyExists | Cycle
                        | Discontinuous | IdentityChanged | EndsEarly | BadPrevious | Drifted

  function BindingOf(env: Env, files: Files, value: string): Result<Binding, HandoffError> {
    match env.inside(value)
    case None => Err(EscapesRoot)
    case Some(path) =>
      if path !in files then Err(NotAFile) else Ok(Binding(path, |files[path]|, env.fileSha(files[path])))
  }

  /** `_read_checkpoint` on a file's content. */
  function ReadContent(env: Env, raw: string): Result<Checkpoint, HandoffError> {
    match env.parse(raw)
    case None => Err(Unreadable)
    case Some(c) =>
      if |raw| > MAX_CHECKPOINT_BYTES then Err(TooLarge)
      else if c.body.schema != SCHEMA then Err(WrongSchema)
      else if env.bodySha(c.body) != c.sha then Err(ShaMismatch)
      else if env.hasSecret(raw) then Err(HasSecret)
      else Ok(c)
  }

  function Read(env: Env, files: Files, path: string): Result<Checkpoint, HandoffError> {
    if path !in files then Err(Unreadable) else ReadContent(env, files[path])
  }

  // ----- verification -----

  /** What the loop carries from one checkpoint to the next. */
  datatype Due = Due(index: int, release: string, package: string)

  /** The checkpoint before this one, none at the start of the chain, or why the chain is refused here. */
  function Link(env: Env, files: Files, current: string, due: Option<Due>)
    : Result<(Due, Option<string>), HandoffError>
  {
    match Read(env, files, current)
    case Err(e) => Err(e)
    case Ok(c) =>
      var x := due.GetOr(Due(c.body.index, c.body.release, c.body.package));
      if c.body.index != x.index then Err(Discontinuous)
      else if c.body.release != x.release || c.body.package != x.package then Err(IdentityChanged)
      else
        match c.body.previous
        case NoPrevious => if x.index != 1 then Err(EndsEarly) else Ok((x, None))
        case NotABinding => Err(BadPrevious)
        case Previous(b) =>
          match BindingOf(env, files, b.path)
          case Err(e) => Err(e)
          case Ok(actual) => if actual != b then Err(Drifted) else Ok((x, Some(actual.path)))
  }

  datatype Report = Report(release: string, package: string, count: nat)

  /**
   An unbroken chain, newest first: indices run n..1 under one release identity, each checkpoint binds the content of
   the next one, and only the last has no predecessor.
   */
  ghost predicate Chain(env: Env, files: Files, chain: seq<string>, release: string, package: string) {
    && chain != []
    && (forall i | 0 <= i < |chain| :: IsLink(env, files, chain, i, release, package))
  }

  ghost predicate IsLink(env: Env, files: Files, chain: seq<string>, i: nat, release: string, package: string)
    requires i < |chain|
  {
    && Read(env, files, chain[i]).Ok?
    && var body := Read(env, files, chain[i]).value.body;
    && body.index == |chain| - i && body.release == release && body.package == package
    && if i == |chain| - 1 then body.previous == NoPrevious
       else chain[i + 1] in files && env.inside(chain[i + 1]) == Some(chain[i + 1])
            && body.previous == Previous(Binding(chain[i + 1], |files[chain[i + 1]]|, env.fileSha(files[chain[i + 1]])))
  }

  /** What has been walked from the latest checkpoint: the same without its end. */
  ghost predicate Walked(env: Env, files: Files, walked: seq<string>, current: string, due: Due, first: int) {
    && due.index == first - |walked|
    && (forall i | 0 <= i < |walked| :: WalkedLink(env, files, walked + [current], i, due, first))
  }

  ghost predicate WalkedLink(env: Env, files: Files, path: seq<string>, i: nat, due: Due, first: int)
    requires i + 1 < |path|
  {
    && Read(env, files, path[i]).Ok?
    && var body := Read(env, files, path[i]).value.body;
    && body.index == first - i && body.release == due.release && body.package == due.package
    && path[i + 1] in files && env.inside(path[i + 1]) == Some(path[i + 1])
    && body.previous == Previous(Binding(path[i + 1], |files[path[i + 1]]|, env.fileSha(files[path[i + 1]])))
  }

  lemma WalkOn(env: Env, files: Files, walked: seq<string>, current: string, due: Due, first: int, next: string)
    requires Faithful(env) && Walked(env, files, walked, current, due, first)
    requires Link(env, files, current, Some(due)) == Ok((due, Some(next)))
    ensures Walked(env, files, walked + [current], next, due.(index := due.index - 1), first)
  {
    var path := walked + [current] + [next];
    var nextDue := due.(index := due.index - 1);
    forall i | 0 <= i < |path| - 1 ensures WalkedLink(env, files, path, i, nextDue, first) {
      assert i == |walked| || WalkedLink(env, files, walked + [current], i, due, first);
      assert i == |walked| || (path[i] == (walked + [current])[i] && path[i + 1] == (walked + [current])[i + 1]);
    }
  }

  lemma WalkEnds(env: Env, files: Files, walked: seq<string>, current: string, due: Due, first: int)
    requires Walked(env, files, walked, current, due, first)
    requires Link(env, files, current, Some(due)) == Ok((due, None))
    ensures Chain(env, files, walked + [current], due.release, due.package) && |walked| + 1 == first
  {
    var chain := walked + [current];
    forall i | 0 <= i < |chain| ensures IsLink(env, files, chain, i, due.release, due.package) {
      assert i == |walked| || WalkedLink(env, files, chain, i, due, first);
    }
  }

  /**
   `verify_chain`: whatever the files are it ends, and it passes exactly on unbroken chains, reporting their length.
   */
  method VerifyChain(env: Env, files: Files, latest: string)
    returns (r: Result<Report, HandoffError>, ghost chain: seq<string>)
    requires Faithful(env)
    ensures r.Ok? ==> |chain| == r.value.count && Chain(env, files, chain, r.value.release, r.value.package)
                      && env.inside(latest) == Some(chain[0])
    ensures r.Ok? ==>
              forall c, release, package ::
                Chain(env, files, c, release, package) && c[0] == chain[0] ==> |c| == r.value.count
    ensures r.Err? ==>
              forall c, release, package ::
                Chain(env, files, c, release, package) ==> env.inside(latest) != Some(c[0])
  {
    chain := [];
    var start := env.inside(latest);
    if start.None? {
      return Err(EscapesRoot), [];
    }
    var current := start.value;
    var seen: set<string> := {};
    var due: Option<Due> := None;
    var count := 0;
    ghost var first := 0;
    while true
      invariant count == |chain| && seen <= files.Keys && (forall p :: p in chain <==> p in seen)
      invariant env.inside(current) == Some(current)
      invariant due.None? <==> count == 0
      invariant count == 0 ==> current == start.value
      invariant count > 0 ==> chain[0] == start.value && Walked(env, files, chain, current, due.value, first)
      decreases files.Keys - seen
    {
      if current in seen {
        CycleIsNoChain(env, files, chain, current, due.value, first);
        return Err(Cycle), chain;
      }
      var link := Link(env, files, current, due);
      if link.Err? {
        if count == 0 {
          FirstIsNoChain(env, files, current, link.error);
        } else {
          BrokenIsNoChain(env, files, chain, current, due.value, first, link.error);
        }
        return Err(link.error), chain;
      }
      var x := link.value.0;
      if count == 0 {
        first := x.index;
      }
      assert Walked(env, files, chain, current, x, first);
      assert Link(env, files, current, Some(x)) == link;
      seen := seen + {current};
      count := count + 1;
      if link.value.1.None? {
        WalkEnds(env, files, chain, current, x, first);
        chain := chain + [current];
        ChainUnique(env, files, chain, x.release, x.package);
        return Ok(Report(x.release, x.package, count)), chain;
      }
      WalkOn(env, files, chain, current, x, first, link.value.1.value);
      chain := chain + [current];
      current := link.value.1.value;
      due := Some(x.(index := x.index - 1));
    }
  }

  // ----- why a refusal means there is no chain -----

  /** A chain from the same file passes through the same files with the same expectations. */
  lemma {:induction false} ChainFollowsWalk(env: Env, files: Files, walked: seq<string>, current: string, due: Due,
                                            first: int, c: seq<string>, release: string, package: string, n: nat)
    requires Walked(env, files, walked, current, due, first) && Chain(env, files, c, release, package)
    requires walked != [] && c[0] == walked[0] && n <= |walked|
    ensures |c| == first && release == due.release && package == due.package
    ensures n < |c| && c[n] == (walked + [current])[n]
  {
    assert WalkedLink(env, files, walked + [current], 0, due, first) && IsLink(env, files, c, 0, release, package);
    if n > 0 {
      ChainFollowsWalk(env, files, walked, current, due, first, c, release, package, n - 1);
      assert WalkedLink(env, files, walked + [current], n - 1, due, first);
      assert IsLink(env, files, c, n - 1, release, package);
    }
  }

  lemma BrokenIsNoChain(env: Env, files: Files, walked: seq<string>, current: string, due: Due, first: int,
                        e: HandoffError)
    requires Walked(env, files, walked, current, due, first) && walked != []
    requires Link(env, files, current, Some(due)) == Err(e)
    ensures forall c, release, package :: Chain(env, files, c, release, package) ==> c[0] != walked[0]
  {
    forall c, release, package | Chain(env, files, c, release, package) ensures c[0] != walked[0] {
      if c[0] == walked[0] {
        ChainFollowsWalk(env, files, walked, current, due, first, c, release, package, |walked|);
        LinkHolds(env, files, c, release, package, |walked|);
      }
    }
  }

  lemma LinkHolds(env: Env, files: Files, c: seq<string>, release: string, package: string, i: nat)
    requires Chain(env, files, c, release, package) && i < |c|
    ensures Link(env, files, c[i], Some(Due(|c| - i, release, package))).Ok?
  {
    assert IsLink(env, files, c, i, release, package);
  }

  lemma FirstIsNoChain(env: Env, files: Files, current: string, e: HandoffError)
    requires Link(env, files, current, None) == Err(e)
    ensures forall c, release, package :: Chain(env, files, c, release, package) ==> c[0] != current
  {
    forall c, release, package | Chain(env, files, c, release, package) ensures c[0] != current {
      LinkHolds(env, files, c, release, package, 0);
      assert IsLink(env, files, c, 0, release, package);
    }
  }

  /** A chain never visits a file twice: a file has one index. */
  lemma ChainDistinct(env: Env, files: Files, c: seq<string>, release: string, package: string)
    requires Chain(env, files, c, release, package)
    ensures forall i, j | 0 <= i < j < |c| :: c[i] != c[j]
  {
    forall i, j | 0 <= i < j < |c| ensures c[i] != c[j] {
      assert IsLink(env, files, c, i, release, package) && IsLink(env, files, c, j, release, package);
    }
  }

  lemma CycleIsNoChain(env: Env, files: Files, walked: seq<string>, current: string, due: Due, first: int)
    requires Walked(env, files, walked, current, due, first) && walked != [] && current in walked
    ensures forall c, release, package :: Chain(env, files, c, release, package) ==> c[0] != walked[0]
  {
    var k :| 0 <= k < |walked| && walked[k] == current;
    forall c, release, package | Chain(env, files, c, release, package) ensures c[0] != walked[0] {
      if c[0] == walked[0] {
        ChainFollowsWalk(env, files, walked, current, due, first, c, release, package, |walked|);
        ChainFollowsWalk(env, files, walked, current, due, first, c, release, package, k);
        ChainDistinct(env, files, c, release, package);
      }
    }
  }

  // ----- two trees -----

  /**
   Two trees that agree on the latest checkpoint, and in both of which it heads a chain, agree on every checkpoint of
   it; in one tree a chain is determined by its latest checkpoint alone.
   */
  lemma {:induction false} SameLatestSameChain(env: Env, files: Files, other: Files, a: seq<string>, b: seq<string>,
                                               r1: string, p1: string, r2: string, p2: string, n: nat)
    requires Collisionless(env) || files == other
    requires Chain(env, files, a, r1, p1) && Chain(env, other, b, r2, p2)
    requires a[0] == b[0] && Read(env, files, a[0]).Ok? && a[0] in other && files[a[0]] == other[a[0]]
    requires n < |a|
    ensures |a| == |b| && r1 == r2 && p1 == p2
    ensures a[n] == b[n] && a[n] in files && b[n] in other && files[a[n]] == other[b[n]]
  {
    assert IsLink(env, files, a, 0, r1, p1) && IsLink(env, other, b, 0, r2, p2);
    if n > 0 {
      SameLatestSameChain(env, files, other, a, b, r1, p1, r2, p2, n - 1);
      assert IsLink(env, files, a, n - 1, r1, p1) && IsLink(env, other, b, n - 1, r2, p2);
      assert env.fileSha(files[a[n]]) == env.fileSha(other[b[n]]);
    }
  }

  lemma ChainUnique(env: Env, files: Files, a: seq<string>, release: string, package: string)
    requires Chain(env, files, a, release, package)
    ensures forall b, r, p :: Chain(env, files, b, r, p) && b[0] == a[0] ==> |b| == |a|
  {
    forall b, r, p | Chain(env, files, b, r, p) && b[0] == a[0] ensures |b| == |a| {
      assert IsLink(env, files, a, 0, release, package);
      SameLatestSameChain(env, files, files, a, b, release, package, r, p, 0);
    }
  }

  // ----- building and writing -----

  const LETTERS_AND_DIGITS := "ABCDEFGHIJKLMNOPQRSTUVWXYZabcdefghijklmnopqrstuvwxyz0123456789"

  predicate IsIdentifier(s: string) {
    && 1 <= |s| <= 100 && s[0] in LETTERS_AND_DIGITS
    && forall c | c in s[1..] :: c in LETTERS_AND_DIGITS || c in "._-"
  }

  /** What a capture is asked for; the identifiers are as normalised, and no authority means the default ones. */
  datatype Request = Request(release: string, package: string, phase: string, nextPhase: string,
                             authorities: seq<string>, previous: Option<string>, backup: Option<string>,
                             evidence: seq<string>, git: string)

  const DEFAULT_AUTHORITIES := ["ROADMAP.md", "docs/ALPHA_5_2_REQUIREMENTS.md",
                                "docs/DESKTOP_FEATURE_GAP_REGISTER_20260815.md"]

  function BindAll(env: Env, files: Files, values: seq<string>): Result<seq<Binding>, HandoffError> {
    if values == [] then Ok([])
    else
      match BindAll(env, files, values[..|values| - 1])
      case Err(e) => Err(e)
      case Ok(bs) =>
        match BindingOf(env, files, values[|values| - 1])
        case Err(e) => Err(e)
        case Ok(b) => Ok(bs + [b])
  }

  predicate HasDuplicates(bs: seq<Binding>) {
    exists i, j :: 0 <= i < j < |bs| && bs[i].path == bs[j].path
  }

  /** The place in the chain: the previous checkpoint must be readable and of the same release. */
  function PlaceAfter(env: Env, files: Files, q: Request): Result<(int, Previous), HandoffError> {
    match q.previous
    case None => Ok((1, NoPrevious))
    case Some(value) =>
      match env.inside(value)
      case None => Err(EscapesRoot)
      case Some(path) =>
        match Read(env, files, path)
        case Err(e) => Err(e)
        case Ok(c) =>
          if c.body.release != q.release then Err(OtherRelease)
          else if c.body.package != q.package then Err(OtherPackage)
          else
            match BindingOf(env, files, path)
            case Err(e) => Err(e)
            case Ok(b) => Ok((c.body.index + 1, Previous(b)))
  }

  /** `build_checkpoint`. */
  function Built(env: Env, files: Files, q: Request): Result<Checkpoint, HandoffError> {
    if !IsIdentifier(q.release) || !IsIdentifier(q.package) || !IsIdentifier(q.phase) || !IsIdentifier(q.nextPhase) then
      Err(BadIdentifier)
    else
      match BindAll(env, files, if q.authorities == [] then DEFAULT_AUTHORITIES else q.authorities)
      case Err(e) => Err(e)
      case Ok(authorities) =>
        if HasDuplicates(authorities) then Err(DuplicateBinding)
        else
          match PlaceAfter(env, files, q)
          case Err(e) => Err(e)
          case Ok((index, previous)) =>
            match BindAll(env, files, q.evidence)
            case Err(e) => Err(e)
            case Ok(evidence) =>
              if HasDuplicates(evidence) then Err(DuplicateBinding)
              else if q.backup.Some? && BindingOf(env, files, q.backup.value).Err? then
                Err(BindingOf(env, files, q.backup.value).error)
              else
                var backup := if q.backup.None? then None else Some(BindingOf(env, files, q.backup.value).value);
                Encoded(env, Body(SCHEMA, q.release, q.package, index, q.phase, q.nextPhase, q.git, authorities,
                                  previous, backup, evidence))
  }

  function Encoded(env: Env, body: Body): Result<Checkpoint, HandoffError> {
    var c := Checkpoint(body, env.bodySha(body));
    if |env.compact(c)| > MAX_CHECKPOINT_BYTES then Err(TooLarge)
    else if env.hasSecret(env.compact(c)) then Err(HasSecret)
    else Ok(c)
  }

  /** The rendered form of a checkpoint can be read back. */
  predicate Writable(env: Env, c: Checkpoint) {
    |env.rendered(c)| <= MAX_CHECKPOINT_BYTES && !env.hasSecret(env.rendered(c))
  }

  /**
   The rendered form is indented and so longer than the form whose size is checked when a checkpoint is built, by some
   number of bytes. A checkpoint whose size when built is within that number of the limit is built and then refused.
   */
  lemma BuiltThenRefused(env: Env, body: Body, indentation: nat)
    requires var c := Checkpoint(body, env.bodySha(body));
             && |env.rendered(c)| >= |env.compact(c)| + indentation
             && MAX_CHECKPOINT_BYTES - indentation < |env.compact(c)| <= MAX_CHECKPOINT_BYTES
             && !env.hasSecret(env.compact(c))
    ensures Encoded(env, body).Ok? && !Writable(env, Encoded(env, body).value)
  {
  }

  /**
   The project tree as the script changes it. A failed write of a new file leaves the file behind: the name stays used.
   */
  class Project {
    const env: Env
    var files: Files

    constructor (env: Env, files: Files)
      ensures this.env == env && this.files == files
    {
      this.env := env;
      this.files := files;
    }

    /**
     `write_checkpoint` to a resolved path: create-only, and passing exactly when the path was free and the rendered
     form, which is longer than the form whose size was checked when it was built, still fits and carries no secret.
     */
    method Write(path: string, c: Checkpoint) returns (r: Result<Checkpoint, HandoffError>)
      requires Faithful(env) && c.body.schema == SCHEMA && c.sha == env.bodySha(c.body)
      modifies this`files
      ensures path in old(files) ==> r == Err(AlreadyExists) && files == old(files)
      ensures path !in old(files) ==> files == old(files)[path := env.rendered(c)]
      ensures r.Ok? <==> path !in old(files) && Writable(env, c)
      ensures r.Ok? ==> r.value == c
    {
      if path in files {
        return Err(AlreadyExists);
      }
      files := files[path := env.rendered(c)];
      r := Read(env, files, path);
    }

    /** Capture a checkpoint after a verified chain and write it to a new path in the root: the chain is one longer. */
    method Extend(q: Request, output: string) returns (r: Result<Checkpoint, HandoffError>)
      requires Faithful(env)
      modifies this`files
      ensures r.Ok? <==>
                Built(env, old(files), q).Ok? && output !in old(files)
                && Writable(env, Built(env, old(files), q).value)
      ensures r.Ok? ==> Built(env, old(files), q) == r && files == old(files)[output := env.rendered(r.value)]
      ensures r.Ok? && env.inside(output) == Some(output) ==>
                forall chain | Chain(env, old(files), chain, q.release, q.package) && q.previous.Some?
                               && env.inside(q.previous.value) == Some(chain[0]) ::
                  Chain(env, files, [output] + chain, q.release, q.package)
    {
      var built := Built(env, files, q);
      if built.Err? {
        return built;
      }
      ghost var before := files;
      BuiltIsSealed(env, files, q);
      r := Write(output, built.value);
      if r.Ok? && env.inside(output) == Some(output) {
        forall chain | Chain(env, before, chain, q.release, q.package) && q.previous.Some?
                       && env.inside(q.previous.value) == Some(chain[0])
          ensures Chain(env, files, [output] + chain, q.release, q.package)
        {
          ExtendsChain(env, before, q, output, chain);
        }
      }
    }
  }

  lemma BuiltIsSealed(env: Env, files: Files, q: Request)
    ensures var b := Built(env, files, q);
            b.Ok? ==> b.value.body.schema == SCHEMA && b.value.sha == env.bodySha(b.value.body)
                      && b.value.body.release == q.release && b.value.body.package == q.package
                      && PlaceAfter(env, files, q) == Ok((b.value.body.index, b.value.body.previous))
  {
  }

  /** Adding a file keeps every chain that was there. */
  lemma ChainKept(env: Env, files: Files, chain: seq<string>, release: string, package: string, path: string,
                  content: string)
    requires Chain(env, files, chain, release, package) && path !in files
    ensures Chain(env, files[path := content], chain, release, package)
  {
    var after := files[path := content];
    forall i | 0 <= i < |chain| ensures IsLink(env, after, chain, i, release, package) {
      assert IsLink(env, files, chain, i, release, package);
      assert i + 1 < |chain| ==> IsLink(env, files, chain, i + 1, release, package);
    }
  }

  /** A written checkpoint that was built after the head of a chain of n is the head of a chain of n + 1. */
  lemma ExtendsChain(env: Env, files: Files, q: Request, output: string, chain: seq<string>)
    requires Faithful(env) && Chain(env, files, chain, q.release, q.package)
    requires q.previous.Some? && env.inside(q.previous.value) == Some(chain[0])
    requires Built(env, files, q).Ok? && Writable(env, Built(env, files, q).value)
    requires output !in files && env.inside(output) == Some(output)
    ensures Chain(env, files[output := env.rendered(Built(env, files, q).value)], [output] + chain, q.release,
                  q.package)
  {
    var c := Built(env, files, q).value;
    var after := files[output := env.rendered(c)];
    var longer := [output] + chain;
    BuiltIsSealed(env, files, q);
    ChainKept(env, files, chain, q.release, q.package, output, env.rendered(c));
    assert IsLink(env, files, chain, 0, q.release, q.package);
    assert Read(env, after, output) == Ok(c);
    forall i | 0 <= i < |longer| ensures IsLink(env, after, longer, i, q.release, q.package) {
      assert i == 0 || (longer[i] == chain[i - 1] && IsLink(env, after, chain, i - 1, q.release, q.package));
      assert i == 0 || i == |longer| - 1 || longer[i + 1] == chain[i];
    }
  }
}
