/**
 What a verified and a refreshed manifest say, entry by entry (scripts/verify_continuity_manifest.py:101-409).
 */
module ManifestConditions {
  import opened Results
  import opened Lists
  import opened Sorting
  import opened HashFraming
  import opened ContinuityManifest

  /** The entry describes a file: a path, a digest of 64 characters in either case, and the right length. */
  predicate Describes(env: Env, e: Entry, files: map<string, string>) {
    && |e.path| > 0 && |e.sha| == 64 && e.bytes >= 0 && e.path in files
    && e.bytes == |files[e.path]| && env.lower(e.sha) == env.sha(files[e.path])
  }

  /** The path is written the way Git lists it. */
  predicate WrittenAsGit(path: string) {
    |path| > 0 && (forall i | 0 <= i < |path| :: path[i] != '\\') && !(|path| >= 2 && path[0] == '.' && path[1] == '/')
  }

  /** A run of all tests without failures, of this payload. */
  predicate IsPassingRun(env: Env, e: TestEvidence, root: string) {
    && e.complete && e.schema == "peerbridge.test-evidence.v1" && e.status == "PASS" && e.root == root
    && !env.isBlank(e.command) && |e.command| <= 4096 && (forall i | 0 <= i < |e.command| :: e.command[i] != '\0')
    && env.isUtc(e.createdAt)
    && e.counts.failed == 0 && e.counts.passed >= 1 && e.counts.skipped >= 0
    && e.counts.collected == e.counts.passed + e.counts.skipped
  }

  lemma PassingRunIff(env: Env, e: TestEvidence, root: string)
    ensures EvidenceOk(env, e, root) <==> IsPassingRun(env, e, root)
  {
  }

  /** The claims of a certified release of the only profile, bound to the root the manifest records. */
  predicate CertifiesRelease(env: Env, m: Manifest, profile: string) {
    && profile == "local-alpha" && m.profile == Some("local-alpha")
    && (forall c | c in {"automatic_provider_reply_ready", "local_alpha_acceptance_ready", "local_alpha_release_ready",
                         "strict_package_gate_ready", "operator_physical_acceptance_ready"} ::
          c in m.claims.ready && m.claims.ready[c])
    && m.claims.certifiedRoot == Some(m.root)
    && m.claims.evidence.Some? && m.claims.counts == Some(m.claims.evidence.value.counts)
    && IsPassingRun(env, m.claims.evidence.value, m.root)
  }

  lemma CertifiesIff(env: Env, m: Manifest, profile: string)
    ensures ProfileOk(env, m, profile) <==> CertifiesRelease(env, m, profile)
  {
    if m.claims.evidence.Some? {
      PassingRunIff(env, m.claims.evidence.value, m.root);
      hide IsPassingRun;
    }
  }

  /** Every tracked file but the manifest has exactly one entry, and every entry is one of them. */
  ghost predicate ListsPayload(tree: Tree, entries: seq<Entry>) {
    && (forall i | 0 <= i < |entries| :: entries[i].path in tree.tracked && entries[i].path != tree.self)
    && (forall i, j | 0 <= i < |entries| && 0 <= j < |entries| && i != j :: entries[i].path != entries[j].path)
    && (forall p | p in tree.tracked && p != tree.self :: exists i :: 0 <= i < |entries| && entries[i].path == p)
  }

  /** What a passing manifest says of the tree. */
  ghost predicate DescribesTree(env: Env, m: Manifest, tree: Tree, profile: Option<string>) {
    var entries := m.sources + m.documents;
    && m.schema == "peerbridge-continuity-manifest/v1" && m.excludesSelf == tree.self && |tree.tracked| > 0
    && (forall i | 0 <= i < |entries| :: WrittenAsGit(entries[i].path) && Describes(env, entries[i], tree.files))
    && ListsPayload(tree, entries) && m.count == |m.sources| + |m.documents|
    && (forall i | 0 <= i < |m.authorities| :: Describes(env, m.authorities[i], tree.external))
    && m.algorithm == "sha256(path\\0bytes\\0sha256\\n for sorted entries)"
    && tree.tracked - {tree.self} <= tree.files.Keys && m.root == RootOf(env, tree, tree.tracked - {tree.self})
    && (profile.Some? ==> CertifiesRelease(env, m, profile.value))
  }

  lemma PathsIff(tree: Tree, entries: seq<Entry>)
    ensures PathsOf(entries) == tree.Payload() && DistinctPaths(entries) <==> ListsPayload(tree, entries)
  {
    if PathsOf(entries) == tree.Payload() && DistinctPaths(entries) {
      forall i | 0 <= i < |entries| ensures entries[i].path in tree.tracked && entries[i].path != tree.self {
        assert entries[i].path in PathsOf(entries);
      }
      forall p | p in tree.tracked && p != tree.self ensures exists i :: 0 <= i < |entries| && entries[i].path == p {
        assert p in PathsOf(entries);
      }
      forall i, j | 0 <= i < |entries| && 0 <= j < |entries| && i != j ensures entries[i].path != entries[j].path {
        assert i < j || j < i;
      }
    }
    if ListsPayload(tree, entries) {
      forall p ensures p in PathsOf(entries) <==> p in tree.Payload() {
        if p in tree.Payload() {
          var i :| 0 <= i < |entries| && entries[i].path == p;
        }
      }
    }
  }

  lemma EntryIff(env: Env, e: Entry, files: map<string, string>)
    ensures EntryMatches(env, e, files) <==> Describes(env, e, files)
    ensures CanonicalPath(e.path) <==> WrittenAsGit(e.path)
  {
    if |e.path| >= 2 {
      assert "./" <= e.path <==> e.path[0] == '.' && e.path[1] == '/';
    }
  }

  lemma EntriesIff(env: Env, m: Manifest, tree: Tree)
    ensures RelativeOk(env, m, tree) <==>
      forall i | 0 <= i < |m.sources + m.documents| ::
        WrittenAsGit((m.sources + m.documents)[i].path) && Describes(env, (m.sources + m.documents)[i], tree.files)
    ensures AuthoritiesOk(env, m, tree) <==>
      forall i | 0 <= i < |m.authorities| :: Describes(env, m.authorities[i], tree.external)
  {
    hide EntryMatches, Describes, CanonicalPath, WrittenAsGit;
    forall e ensures EntryMatches(env, e, tree.files) <==> Describes(env, e, tree.files)
      ensures EntryMatches(env, e, tree.external) <==> Describes(env, e, tree.external)
      ensures CanonicalPath(e.path) <==> WrittenAsGit(e.path)
    {
      EntryIff(env, e, tree.files);
      EntryIff(env, e, tree.external);
    }
  }

  /** A manifest passes exactly if it describes the tree, entry by entry. */
  lemma PassesIff(env: Env, m: Manifest, tree: Tree, profile: Option<string>)
    ensures Passes(env, m, tree, profile) <==> DescribesTree(env, m, tree, profile)
  {
    EntriesIff(env, m, tree);
    PathsIff(tree, m.sources + m.documents);
    if profile.Some? {
      CertifiesIff(env, m, profile.value);
    }
    assert |tree.tracked| > 0 <==> tree.tracked != {};
    hide RelativeOk, AuthoritiesOk, PathsOf, DistinctPaths, ListsPayload, ProfileOk, CertifiesRelease, RootOf,
         Describes, WrittenAsGit;
  }

  // ----- refreshing -----

  /** The path ends in ".md", in either case. */
  predicate IsMarkdown(env: Env, path: string) {
    var p := env.lower(path);
    |p| >= 3 && p[|p| - 3] == '.' && p[|p| - 2] == 'm' && p[|p| - 1] == 'd'
  }

  lemma MarkdownIff(env: Env, row: Row)
    ensures IsDocument(env)(row) <==> IsMarkdown(env, row.path)
  {
    var p := env.lower(row.path);
    if |p| >= 3 {
      assert p[|p| - 3..] == [p[|p| - 3], p[|p| - 2], p[|p| - 1]];
    }
  }

  /** The entry records the tracked file it names. */
  predicate Records(env: Env, e: Entry, tree: Tree) {
    && e.path in tree.tracked && e.path != tree.self && e.path in tree.files
    && e.bytes == |tree.files[e.path]| && e.sha == env.sha(tree.files[e.path])
  }

  /**
   What a refresh records: each tracked file but the manifest, Markdown files as documents and all others as sources,
   their number and root, the test run, and every readiness claim as certified or not, with the root if certified.
   */
  lemma RefreshRecords(env: Env, m: Manifest, tree: Tree, e: TestEvidence, certify: bool, utc: string)
    requires Refreshable(m, tree)
    ensures var r := RefreshedFrom(env, m, tree, e, certify, utc);
            && ListsPayload(tree, r.sources + r.documents)
            && (forall x | x in r.sources :: Records(env, x, tree) && !IsMarkdown(env, x.path))
            && (forall x | x in r.documents :: Records(env, x, tree) && IsMarkdown(env, x.path))
            && r.count == |r.sources| + |r.documents| && r.root == RootOf(env, tree, tree.tracked - {tree.self})
            && r.generatedUtc == utc && !r.claims.remoteReady
            && r.claims.evidence == Some(e) && r.claims.counts == Some(e.counts)
            && r.claims.certifiedRoot == (if certify then Some(r.root) else None)
            && (forall c | c in {"automatic_provider_reply_ready", "local_alpha_acceptance_ready",
                                 "local_alpha_release_ready", "strict_package_gate_ready",
                                 "operator_physical_acceptance_ready"} ::
                  c in r.claims.ready && r.claims.ready[c] == certify)
            && r.schema == m.schema && r.excludesSelf == m.excludesSelf && r.algorithm == m.algorithm
            && r.profile == m.profile && r.authorities == m.authorities
  {
    var r := RefreshedFrom(env, m, tree, e, certify, utc);
    var rows := PayloadRows(env, tree);
    var a, b := Filter(rows, Not(IsDocument(env))), Filter(rows, IsDocument(env));
    assert r.sources == EntriesOf(a) && r.documents == EntriesOf(b);
    var parts := RecordedEntries(env, m, tree, e, certify, utc);
    RecordedPaths(env, tree, Relative(r), parts);
    PathsIff(tree, Relative(r));
    SortedHasAll(RowsAt(env, tree, tree.Payload()), rows);
    hide PayloadRows, ListsPayload, PathsOf, DistinctPaths;
    PartsRecord(env, tree, rows, Not(IsDocument(env)));
    PartsRecord(env, tree, rows, IsDocument(env));
  }

  lemma PartsRecord(env: Env, tree: Tree, rows: seq<Row>, p: Row -> bool)
    requires tree.Payload() <= tree.files.Keys && Elements(rows) == RowsAt(env, tree, tree.Payload())
    requires p == Not(IsDocument(env)) || p == IsDocument(env)
    ensures forall x | x in EntriesOf(Filter(rows, p)) :: Records(env, x, tree)
    ensures p == Not(IsDocument(env)) ==> forall x | x in EntriesOf(Filter(rows, p)) :: !IsMarkdown(env, x.path)
    ensures p == IsDocument(env) ==> forall x | x in EntriesOf(Filter(rows, p)) :: IsMarkdown(env, x.path)
  {
    var part := Filter(rows, p);
    FilterMeaning(rows, p);
    hide Filter;
    forall x | x in EntriesOf(part) ensures exists row :: row in rows && p(row) && x == EntryOf(row) {
      var i :| 0 <= i < |part| && EntriesOf(part)[i] == x;
      assert part[i] in part;
    }
    forall row | row in rows
      ensures Records(env, EntryOf(row), tree) && (IsDocument(env)(row) <==> IsMarkdown(env, row.path))
    {
      MarkdownIff(env, row);
      assert row in Elements(rows);
    }
    hide IsDocument, IsMarkdown, Records;
  }
}
