/**
 The continuity manifest of a release (scripts/verify_continuity_manifest.py): recording a tracked tree in it, and
 verifying a tree against it.
 */
module ContinuityManifest {
  import opened Results
  import opened Lists
  import opened Sorting
  import opened HashFraming

  const SCHEMA := "peerbridge-continuity-manifest/v1"
  const EVIDENCE_SCHEMA := "peerbridge.test-evidence.v1"
  const ROOT_ALGORITHM := "sha256(path\\0bytes\\0sha256\\n for sorted entries)"
  const LOCAL_ALPHA := "local-alpha"
  const RELEASE_READY_CLAIMS := {"automatic_provider_reply_ready", "local_alpha_acceptance_ready",
                                 "local_alpha_release_ready",
                                 "strict_package_gate_ready", "operator_physical_acceptance_ready"}

  datatype Entry = Entry(path: string, bytes: int, sha: string)
  datatype Counts = Counts(collected: int, failed: int, passed: int, skipped: int)
  datatype TestEvidence = TestEvidence(complete: bool, schema: string, status: string, command: string,
                                       createdAt: string, root: string, counts: Counts)
  datatype Claims = Claims(ready: map<string, bool>, remoteReady: bool, certifiedRoot: Option<string>,
                           evidence: Option<TestEvidence>, counts: Option<Counts>)
  datatype Manifest = Manifest(schema: string, excludesSelf: string, sources: seq<Entry>, documents: seq<Entry>,
                               count: int, root: string, algorithm: string, profile: Option<string>,
                               authorities: seq<Entry>, claims: Claims, generatedUtc: string)

  /**
   The tracked paths, the files they resolve to inside the root, the files absolute paths resolve to, and the
   manifest's own path.
   */
  datatype Tree = Tree(tracked: set<string>, files: map<string, string>, external: map<string, string>, self: string) {
    function Payload(): set<string> {
      tracked - {self}
    }
  }

  /** Digest of a text, lower-casing, and the two text checks of test evidence. */
  datatype Env = Env(sha: string -> string, lower: string -> string, isBlank: string -> bool, isUtc: string -> bool)

  /** Digests are 64 lower-case hexadecimal digits. */
  ghost predicate GoodDigests(env: Env) {
    forall x :: |env.sha(x)| == 64 && env.lower(env.sha(x)) == env.sha(x) && '\n' !in env.sha(x)
  }

  ghost predicate Collisionless(env: Env) {
    forall x, y :: env.sha(x) == env.sha(y) ==> x == y
  }

  predicate CanonicalPath(path: string) {
    path != "" && '\\' !in path && !("./" <= path)
  }

  /** Git lists paths in canonical form; no file name contains NUL. */
  predicate GitTree(tree: Tree) {
    forall p | p in tree.tracked :: CanonicalPath(p) && NUL !in p
  }

  datatype ManifestError = WrongSchema | WrongSelf | NothingTracked | SelfUntracked | FileMissing | BadEntry
                         | NotCanonical | DuplicateEntry | Drift | InventoryMismatch | CountMismatch | WrongAlgorithm
                         | RootDrift | EvidenceRefused | ProfileRefused

  // ----- rows of a tree -----

  function RowAt(env: Env, tree: Tree, path: string): Row
    requires path in tree.files
  {
    Row(path, |tree.files[path]|, env.sha(tree.files[path]))
  }

  function RowsAt(env: Env, tree: Tree, paths: set<string>): (rows: set<Row>)
    requires paths <= tree.files.Keys
    ensures PathsDistinct(rows)
  {
    set p | p in paths :: RowAt(env, tree, p)
  }

  function EntryOf(row: Row): Entry {
    Entry(row.path, row.bytes, row.sha)
  }

  function EntriesOf(rows: seq<Row>): (entries: seq<Entry>)
    ensures |entries| == |rows| && forall i | 0 <= i < |rows| :: entries[i] == EntryOf(rows[i])
  {
    seq(|rows|, i requires 0 <= i < |rows| => EntryOf(rows[i]))
  }

  function PathOf(): Row -> string {
    (row: Row) => row.path
  }

  predicate EndsWith(s: string, end: string) {
    |end| <= |s| && s[|s| - |end|..] == end
  }

  function IsDocument(env: Env): Row -> bool {
    (row: Row) => EndsWith(env.lower(row.path), ".md")
  }

  // ----- test evidence -----

  predicate EvidenceOk(env: Env, e: TestEvidence, root: string) {
    && e.complete && e.schema == EVIDENCE_SCHEMA && e.status == "PASS"
    && !env.isBlank(e.command) && |e.command| <= 4096 && NUL !in e.command
    && env.isUtc(e.createdAt) && e.root == root
    && e.counts.collected >= 0 && e.counts.skipped >= 0 && e.counts.failed == 0 && e.counts.passed > 0
    && e.counts.collected == e.counts.passed + e.counts.skipped
  }

  // ----- refresh -----

  predicate Refreshable(m: Manifest, tree: Tree) {
    && m.schema == SCHEMA && m.excludesSelf == tree.self && tree.self in tree.tracked
    && tree.Payload() <= tree.files.Keys
  }

  ghost function PayloadRows(env: Env, tree: Tree): seq<Row>
    requires tree.Payload() <= tree.files.Keys
  {
    SortedRows(RowsAt(env, tree, tree.Payload()))
  }

  ghost function RootOf(env: Env, tree: Tree, paths: set<string>): string
    requires paths <= tree.files.Keys
  {
    PayloadRoot(env.sha, RowsAt(env, tree, paths))
  }

  ghost function RefreshedFrom(env: Env, m: Manifest, tree: Tree, e: TestEvidence, certify: bool, utc: string): Manifest
    requires tree.Payload() <= tree.files.Keys
  {
    var rows := PayloadRows(env, tree);
    var root := RootOf(env, tree, tree.Payload());
    m.(claims := Claims(m.claims.ready + (map c | c in RELEASE_READY_CLAIMS :: certify), false,
                        if certify then Some(root) else None,
                        Some(e), Some(e.counts)),
       sources := EntriesOf(Filter(rows, Not(IsDocument(env)))), documents := EntriesOf(Filter(rows, IsDocument(env))),
       count := |rows|, root := root, generatedUtc := utc)
  }

  // ----- verification -----

  predicate EntryMatches(env: Env, e: Entry, files: map<string, string>) {
    && e.path != "" && |e.sha| == 64 && e.bytes >= 0
    && e.path in files && |files[e.path]| == e.bytes && env.sha(files[e.path]) == env.lower(e.sha)
  }

  function Relative(m: Manifest): seq<Entry> {
    m.sources + m.documents
  }

  function PathsOf(entries: seq<Entry>): set<string> {
    set i | 0 <= i < |entries| :: entries[i].path
  }

  predicate DistinctPaths(entries: seq<Entry>) {
    forall i, j | 0 <= i < j < |entries| :: entries[i].path != entries[j].path
  }

  predicate ProfileOk(env: Env, m: Manifest, profile: string) {
    && m.profile == Some(profile) && profile == LOCAL_ALPHA
    && (forall c | c in RELEASE_READY_CLAIMS :: c in m.claims.ready && m.claims.ready[c])
    && m.claims.counts.Some? && m.claims.counts.value.failed == 0 && m.claims.counts.value.passed > 0
    && m.claims.counts.value.collected == m.claims.counts.value.passed + m.claims.counts.value.skipped
    && m.claims.certifiedRoot == Some(m.root)
    && m.claims.evidence.Some? && EvidenceOk(env, m.claims.evidence.value, m.root)
    && m.claims.evidence.value.counts == m.claims.counts.value
  }

  predicate AuthoritiesOk(env: Env, m: Manifest, tree: Tree) {
    forall i | 0 <= i < |m.authorities| :: EntryMatches(env, m.authorities[i], tree.external)
  }

  predicate RelativeOk(env: Env, m: Manifest, tree: Tree) {
    var entries := Relative(m);
    forall i | 0 <= i < |entries| :: CanonicalPath(entries[i].path) && EntryMatches(env, entries[i], tree.files)
  }

  /** What a verified manifest says about the tree, independently of the order in which it is checked. */
  ghost predicate Passes(env: Env, m: Manifest, tree: Tree, profile: Option<string>) {
    && m.schema == SCHEMA && m.excludesSelf == tree.self && tree.tracked != {}
    && RelativeOk(env, m, tree) && DistinctPaths(Relative(m)) && AuthoritiesOk(env, m, tree)
    && PathsOf(Relative(m)) == tree.Payload() && m.count == |Relative(m)|
    && m.algorithm == ROOT_ALGORITHM
    && PathsOf(Relative(m)) <= tree.files.Keys && m.root == RootOf(env, tree, PathsOf(Relative(m)))
    && (profile.Some? ==> ProfileOk(env, m, profile.value))
  }

  datatype Report = Report(root: string, tracked: nat, verified: nat)

  /** The checks of one entry that do not depend on the others. */
  function EntryFault(env: Env, e: Entry, files: map<string, string>, relative: bool): Option<ManifestError> {
    if e.path == "" || |e.sha| != 64 || e.bytes < 0 then Some(BadEntry)
    else if relative && !CanonicalPath(e.path) then Some(NotCanonical)
    else if e.path !in files then Some(FileMissing)
    else if |files[e.path]| != e.bytes || env.sha(files[e.path]) != env.lower(e.sha) then Some(Drift)
    else None
  }

  lemma EntryFaultMeaning(env: Env, e: Entry, files: map<string, string>, relative: bool)
    ensures EntryFault(env, e, files, relative).None?
            <==> EntryMatches(env, e, files) && (relative ==> CanonicalPath(e.path))
    ensures EntryMatches(env, e, files) ==> e.path in files
  {
  }

  /** The loop over the relative entries: it collects the rows of the files and the paths seen. */
  method VerifyEntries(env: Env, entries: seq<Entry>, tree: Tree) returns (r: Result<seq<Row>, ManifestError>)
    ensures r.Ok? <==> DistinctPaths(entries)
                       && forall i | 0 <= i < |entries| ::
                            CanonicalPath(entries[i].path) && EntryMatches(env, entries[i], tree.files)
    ensures r.Ok? ==> PathsOf(entries) <= tree.files.Keys && Elements(r.value) == RowsAt(env, tree, PathsOf(entries))
                      && |r.value| == |entries|
  {
    hide EntryFault, EntryMatches, CanonicalPath, PathsOf;
    var rows: seq<Row> := [];
    var seen: set<string> := {};
    assert PathsOf([]) == {} by { NoPaths(); }
    for k := 0 to |entries|
      invariant DistinctPaths(entries[..k]) && seen == PathsOf(entries[..k])
      invariant forall i | 0 <= i < k :: CanonicalPath(entries[i].path) && EntryMatches(env, entries[i], tree.files)
      invariant forall i | 0 <= i < k :: entries[i].path in tree.files
      invariant |rows| == k && forall i | 0 <= i < k :: rows[i] == RowAt(env, tree, entries[i].path)
    {
      var e := entries[k];
      var fault := EntryFault(env, e, tree.files, true);
      EntryFaultMeaning(env, e, tree.files, true);
      if fault.Some? {
        return Err(fault.value);
      }
      PathsAppend(entries, k);
      if e.path in seen {
        return Err(DuplicateEntry);
      }
      seen := seen + {e.path};
      rows := rows + [RowAt(env, tree, e.path)];
    }
    assert entries[..|entries|] == entries;
    RowsCollected(env, entries, tree, rows);
    r := Ok(rows);
  }

  lemma NoPaths()
    ensures PathsOf([]) == {}
  {
  }

  lemma PathsAppend(entries: seq<Entry>, k: nat)
    requires k < |entries|
    ensures PathsOf(entries[..k + 1]) == PathsOf(entries[..k]) + {entries[k].path}
    ensures entries[k].path in PathsOf(entries[..k]) <==> exists i :: 0 <= i < k && entries[i].path == entries[k].path
  {
    assert forall i | 0 <= i < k :: entries[..k + 1][i] == entries[..k][i];
    assert entries[..k + 1][k] == entries[k];
  }

  lemma RowsCollected(env: Env, entries: seq<Entry>, tree: Tree, rows: seq<Row>)
    requires |rows| == |entries|
    requires forall i | 0 <= i < |entries| ::
               entries[i].path in tree.files && rows[i] == RowAt(env, tree, entries[i].path)
    ensures PathsOf(entries) <= tree.files.Keys && Elements(rows) == RowsAt(env, tree, PathsOf(entries))
  {
    forall row ensures row in Elements(rows) <==> row in RowsAt(env, tree, PathsOf(entries)) {
      if row in Elements(rows) {
        var i :| 0 <= i < |rows| && rows[i] == row;
        assert entries[i].path in PathsOf(entries);
      }
      if row in RowsAt(env, tree, PathsOf(entries)) {
        var i :| 0 <= i < |entries| && row == RowAt(env, tree, entries[i].path);
        assert rows[i] == row;
      }
    }
  }

  method VerifyAuthorities(env: Env, m: Manifest, tree: Tree) returns (fault: Option<ManifestError>)
    ensures fault.None? <==> AuthoritiesOk(env, m, tree)
  {
    for i := 0 to |m.authorities|
      invariant forall k | 0 <= k < i :: EntryMatches(env, m.authorities[k], tree.external)
    {
      fault := EntryFault(env, m.authorities[i], tree.external, false);
      if fault.Some? {
        return;
      }
    }
    fault := None;
  }

  /** `verify_manifest` passes exactly the manifests that describe the tree. */
  method VerifyManifest(env: Env, m: Manifest, tree: Tree, profile: Option<string>)
    returns (r: Result<Report, ManifestError>)
    ensures r.Ok? <==> Passes(env, m, tree, profile)
    ensures r.Ok? ==> r.value == Report(m.root, |Relative(m)|, |Relative(m)| + |m.authorities|)
  {
    if m.schema != SCHEMA {
      return Err(WrongSchema);
    }
    var entries := Relative(m);
    var verified := VerifyEntries(env, entries, tree);
    if verified.Err? {
      return Err(verified.error);
    }
    var fault := VerifyAuthorities(env, m, tree);
    if fault.Some? {
      return Err(fault.value);
    }
    if m.excludesSelf != tree.self {
      return Err(WrongSelf);
    }
    if tree.tracked == {} {
      return Err(NothingTracked);
    }
    if PathsOf(entries) != tree.Payload() {
      return Err(InventoryMismatch);
    }
    if m.count != |verified.value| {
      return Err(CountMismatch);
    }
    if m.algorithm != ROOT_ALGORITHM {
      return Err(WrongAlgorithm);
    }
    var root := PayloadRootOf(env.sha, verified.value);
    if m.root != root {
      return Err(RootDrift);
    }
    if profile.Some? && !ProfileOk(env, m, profile.value) {
      return Err(ProfileRefused);
    }
    r := Ok(Report(root, |entries|, |entries| + |m.authorities|));
  }

  // ----- the manifest file -----

  class ManifestFile {
    const env: Env
    var manifest: Manifest

    constructor (env: Env, m: Manifest)
      ensures this.env == env && manifest == m
    {
      this.env := env;
      manifest := m;
    }

    /** `refresh_manifest`: records the tree, or refuses and leaves the file as it is. */
    method Refresh(tree: Tree, e: TestEvidence, certify: bool, utc: string) returns (fault: Option<ManifestError>)
      modifies this`manifest
      ensures fault.None? <==> Refreshable(old(manifest), tree) && EvidenceOk(env, e, RootOf(env, tree, tree.Payload()))
      ensures manifest == if fault.None? then RefreshedFrom(env, old(manifest), tree, e, certify, utc)
              else old(manifest)
    {
      if manifest.schema != SCHEMA {
        return Some(WrongSchema);
      }
      if manifest.excludesSelf != tree.self {
        return Some(WrongSelf);
      }
      if tree.tracked == {} {
        return Some(NothingTracked);
      }
      if tree.self !in tree.tracked {
        return Some(SelfUntracked);
      }
      if !(tree.Payload() <= tree.files.Keys) {
        return Some(FileMissing);
      }
      var found := RowsAt(env, tree, tree.Payload());
      PathsOrdered(found);
      var rows := OrderBy(found, ByPath);
      SortedHasAll(found, rows);
      var root := PayloadRootOf(env.sha, rows);
      if !EvidenceOk(env, e, root) {
        return Some(EvidenceRefused);
      }
      var claims := Claims(manifest.claims.ready + (map c | c in RELEASE_READY_CLAIMS :: certify), false,
                           if certify then Some(root) else None, Some(e), Some(e.counts));
      manifest := manifest.(claims := claims, sources := EntriesOf(Filter(rows, Not(IsDocument(env)))),
                            documents := EntriesOf(Filter(rows, IsDocument(env))), count := |rows|, root := root,
                              generatedUtc := utc);
      fault := None;
    }
  }

  lemma SortedHasAll(found: set<Row>, rows: seq<Row>)
    requires PathsDistinct(found) && rows == SortedRows(found)
    ensures Elements(rows) == found && DistinctBy(rows, PathOf())
  {
    PathsOrdered(found);
    AscendingDistinct(rows, found, ByPath);
    forall i, j | 0 <= i < j < |rows| ensures PathOf()(rows[i]) != PathOf()(rows[j]) {
      assert rows[i] in found && rows[j] in found;
    }
  }

  // ----- refresh, then verify -----

  /** The tree as it was when it was recorded, except for the manifest itself and files outside the root. */
  predicate Unchanged(tree: Tree, later: Tree) {
    && later.tracked == tree.tracked && later.self == tree.self
    && forall p | p in tree.Payload() && p in tree.files :: p in later.files && later.files[p] == tree.files[p]
  }

  /** A refresh records the sources first, then the documents. */
  lemma RefreshedRelative(env: Env, m: Manifest, tree: Tree, e: TestEvidence, certify: bool, utc: string)
    requires tree.Payload() <= tree.files.Keys
    ensures var rows := PayloadRows(env, tree);
            Relative(RefreshedFrom(env, m, tree, e, certify, utc))
            == EntriesOf(Filter(rows, Not(IsDocument(env)))) + EntriesOf(Filter(rows, IsDocument(env)))
  {
    hide PayloadRows, EntriesOf, Filter;
  }

  lemma SameElements<T>(p: seq<T>, q: seq<T>)
    requires forall x :: x in p <==> x in q
    ensures Elements(p) == Elements(q)
  {
  }

  /** The recorded entries are the rows of the payload, each once. */
  lemma RecordedEntries(env: Env, m: Manifest, tree: Tree, e: TestEvidence, certify: bool, utc: string)
    returns (parts: seq<Row>)
    requires tree.Payload() <= tree.files.Keys
    ensures var entries := Relative(RefreshedFrom(env, m, tree, e, certify, utc));
            && |entries| == |parts| == |PayloadRows(env, tree)|
            && (forall i | 0 <= i < |parts| :: entries[i] == EntryOf(parts[i]))
            && DistinctBy(parts, PathOf()) && Elements(parts) == RowsAt(env, tree, tree.Payload())
  {
    var rows := PayloadRows(env, tree);
    var a, b := Filter(rows, Not(IsDocument(env))), Filter(rows, IsDocument(env));
    parts := a + b;
    SortedHasAll(RowsAt(env, tree, tree.Payload()), rows);
    hide *;
    RefreshedRelative(env, m, tree, e, certify, utc);
    EntriesJoin(a, b);
    FilterPartition(rows, PathOf(), IsDocument(env));
    SameElements(parts, rows);
  }

  lemma EntriesJoin(a: seq<Row>, b: seq<Row>)
    ensures EntriesOf(a) + EntriesOf(b) == EntriesOf(a + b)
  {
  }

  lemma RecordedPaths(env: Env, tree: Tree, entries: seq<Entry>, parts: seq<Row>)
    requires tree.Payload() <= tree.files.Keys && |entries| == |parts|
    requires forall i | 0 <= i < |parts| :: entries[i] == EntryOf(parts[i])
    requires DistinctBy(parts, PathOf()) && Elements(parts) == RowsAt(env, tree, tree.Payload())
    ensures PathsOf(entries) == tree.Payload() && DistinctPaths(entries)
    ensures forall i | 0 <= i < |parts| ::
              parts[i].path in tree.Payload() && parts[i] == RowAt(env, tree, parts[i].path)
  {
    forall i | 0 <= i < |parts| ensures parts[i].path in tree.Payload() && parts[i] == RowAt(env, tree, parts[i].path) {
      assert parts[i] in Elements(parts);
    }
    forall p | p in tree.Payload() ensures p in PathsOf(entries) {
      assert RowAt(env, tree, p) in Elements(parts);
      var i :| 0 <= i < |parts| && parts[i] == RowAt(env, tree, p);
      assert entries[i].path == p;
    }
    forall i, j | 0 <= i < j < |entries| ensures entries[i].path != entries[j].path {
      assert PathOf()(parts[i]) != PathOf()(parts[j]);
    }
  }

  lemma SameRowsLater(env: Env, tree: Tree, later: Tree)
    requires tree.Payload() <= tree.files.Keys && Unchanged(tree, later)
    ensures tree.Payload() <= later.files.Keys
            && RowsAt(env, later, tree.Payload()) == RowsAt(env, tree, tree.Payload())
  {
    assert forall p | p in tree.Payload() :: RowAt(env, later, p) == RowAt(env, tree, p);
  }

  /** The part of verification that concerns the payload always passes after a refresh of an unchanged tree. */
  lemma PayloadPasses(env: Env, m: Manifest, tree: Tree, e: TestEvidence, certify: bool, utc: string, later: Tree)
    requires GoodDigests(env) && GitTree(tree) && Refreshable(m, tree) && Unchanged(tree, later)
    ensures var r := RefreshedFrom(env, m, tree, e, certify, utc);
            && RelativeOk(env, r, later) && DistinctPaths(Relative(r)) && PathsOf(Relative(r)) == later.Payload()
            && r.count == |Relative(r)| && PathsOf(Relative(r)) <= later.files.Keys
            && r.root == RootOf(env, later, PathsOf(Relative(r)))
  {
    var r := RefreshedFrom(env, m, tree, e, certify, utc);
    var entries := Relative(r);
    var parts := RecordedEntries(env, m, tree, e, certify, utc);
    RecordedPaths(env, tree, entries, parts);
    SameRowsLater(env, tree, later);
    forall i | 0 <= i < |entries| ensures CanonicalPath(entries[i].path) && EntryMatches(env, entries[i], later.files) {
      assert parts[i] == RowAt(env, tree, parts[i].path);
    }
  }

  /**
   Refresh, then verify, on an unchanged tree: it passes exactly when the external authorities and the algorithm label
   are in order; with a release profile, exactly when moreover the refresh certified it, for a manifest of that one
   profile.
   */
  lemma RefreshThenVerify(env: Env, m: Manifest, tree: Tree, e: TestEvidence, certify: bool, utc: string, later: Tree,
                          profile: Option<string>)
    requires GoodDigests(env) && GitTree(tree) && Refreshable(m, tree) && Unchanged(tree, later)
    requires EvidenceOk(env, e, RootOf(env, tree, tree.Payload()))
    ensures Passes(env, RefreshedFrom(env, m, tree, e, certify, utc), later, profile)
            <==> AuthoritiesOk(env, m, later) && m.algorithm == ROOT_ALGORITHM
                 && (profile.Some? ==> profile == Some(LOCAL_ALPHA) && m.profile == profile && certify)
  {
    var r := RefreshedFrom(env, m, tree, e, certify, utc);
    PayloadPasses(env, m, tree, e, certify, utc, later);
    CertifiedProfile(env, m, tree, e, certify, utc);
    assert AuthoritiesOk(env, r, later) <==> AuthoritiesOk(env, m, later);
    hide RelativeOk, AuthoritiesOk, RootOf, DistinctPaths, PathsOf, Relative, RefreshedFrom;
    assert r.schema == SCHEMA && r.excludesSelf == later.self
           && r.algorithm == m.algorithm by { Untouched(env, m, tree, e, certify, utc); }
  }

  lemma Untouched(env: Env, m: Manifest, tree: Tree, e: TestEvidence, certify: bool, utc: string)
    requires tree.Payload() <= tree.files.Keys
    ensures var r := RefreshedFrom(env, m, tree, e, certify, utc);
            r.schema == m.schema && r.excludesSelf == m.excludesSelf && r.algorithm == m.algorithm
              && r.profile == m.profile
            && r.authorities == m.authorities
  {
  }

  lemma CertifiedProfile(env: Env, m: Manifest, tree: Tree, e: TestEvidence, certify: bool, utc: string)
    requires tree.Payload() <= tree.files.Keys && EvidenceOk(env, e, RootOf(env, tree, tree.Payload()))
    ensures var r := RefreshedFrom(env, m, tree, e, certify, utc);
            forall profile :: ProfileOk(env, r, profile)
              <==> profile == LOCAL_ALPHA && m.profile == Some(profile) && certify
  {
    var r := RefreshedFrom(env, m, tree, e, certify, utc);
    assert "strict_package_gate_ready" in RELEASE_READY_CLAIMS;
    assert forall c | c in RELEASE_READY_CLAIMS :: c in r.claims.ready && r.claims.ready[c] == certify;
  }

  // ----- change detection -----

  /**
   One manifest that passes for two trees: they track the same files with the same content. So any change makes
   verification fail.
   */
  lemma PassesDeterminesTree(env: Env, m: Manifest, a: Tree, b: Tree, p: Option<string>, q: Option<string>)
    requires Collisionless(env) && Passes(env, m, a, p) && Passes(env, m, b, q)
    ensures SamePayload(a, b)
  {
    forall path | path in a.Payload() ensures path in a.files && path in b.files && a.files[path] == b.files[path] {
      var entries := Relative(m);
      var i :| 0 <= i < |entries| && entries[i].path == path;
      assert EntryMatches(env, entries[i], a.files) && EntryMatches(env, entries[i], b.files);
    }
  }

  /**
   The aggregate root alone identifies the payload: manifests that pass with the same root describe the same files.
   */
  lemma RootDeterminesTree(env: Env, m: Manifest, n: Manifest, a: Tree, b: Tree)
    requires Collisionless(env) && GoodDigests(env) && GitTree(a) && GitTree(b)
    requires Passes(env, m, a, None) && Passes(env, n, b, None)
    ensures m.root == n.root <==> SamePayload(a, b)
  {
    SameRootSameRows(env.sha, RowsAt(env, a, a.Payload()), RowsAt(env, b, b.Payload()));
    RowsDetermineTree(env, a, b);
  }

  predicate SamePayload(a: Tree, b: Tree) {
    && a.Payload() == b.Payload()
    && forall path | path in a.Payload() :: path in a.files && path in b.files && a.files[path] == b.files[path]
  }

  lemma RowsDetermineTree(env: Env, a: Tree, b: Tree)
    requires Collisionless(env) && a.Payload() <= a.files.Keys && b.Payload() <= b.files.Keys
    ensures RowsAt(env, a, a.Payload()) == RowsAt(env, b, b.Payload()) <==> SamePayload(a, b)
  {
    var x, y := RowsAt(env, a, a.Payload()), RowsAt(env, b, b.Payload());
    if x == y {
      forall path | path in a.Payload() ensures path in b.Payload() && a.files[path] == b.files[path] {
        assert RowAt(env, a, path) in y;
      }
      forall path | path in b.Payload() ensures path in a.Payload() {
        assert RowAt(env, b, path) in x;
      }
    }
    if SamePayload(a, b) {
      assert forall path | path in a.Payload() :: RowAt(env, a, path) == RowAt(env, b, path);
    }
  }
}
