/**
 When a release checkpoint is accepted and built, in terms of the files and the request
 (scripts/capture_release_handoff.py:46-240).
 */
module HandoffConditions {
  import opened Results
  import opened ReleaseHandoff

  // ----- reading -----

  /** The file holds this checkpoint: it parses to it, is not too long, names the schema, and carries its own digest. */
  predicate HoldsCheckpoint(env: Env, files: Files, path: string, c: Checkpoint) {
    && path in files && env.parse(files[path]) == Some(c) && |files[path]| <= 262144
    && c.body.schema == "peerbridge-release-handoff/v1" && c.sha == env.bodySha(c.body)
    && !env.hasSecret(files[path])
  }

  lemma ReadIff(env: Env, files: Files, path: string, c: Checkpoint)
    ensures Read(env, files, path) == Ok(c) <==> HoldsCheckpoint(env, files, path, c)
  {
  }

  // ----- bindings -----

  /** The binding names the file the value resolves to inside the root, with its size and digest. */
  predicate Binds(env: Env, files: Files, value: string, b: Binding) {
    && env.inside(value) == Some(b.path) && b.path in files
    && b.bytes == |files[b.path]| && b.sha == env.fileSha(files[b.path])
  }

  predicate BindsEach(env: Env, files: Files, values: seq<string>, bs: seq<Binding>) {
    |bs| == |values| && forall i | 0 <= i < |values| :: Binds(env, files, values[i], bs[i])
  }

  predicate DifferentFiles(bs: seq<Binding>) {
    forall i, j | 0 <= i < |bs| && 0 <= j < |bs| && i != j :: bs[i].path != bs[j].path
  }

  lemma BindingIff(env: Env, files: Files, value: string, b: Binding)
    ensures BindingOf(env, files, value) == Ok(b) <==> Binds(env, files, value, b)
  {
  }

  lemma {:induction false} BindAllIff(env: Env, files: Files, values: seq<string>, bs: seq<Binding>)
    ensures BindAll(env, files, values) == Ok(bs) <==> BindsEach(env, files, values, bs)
    decreases |values|
  {
    hide Binds, BindingOf;
    if values != [] {
      var n := |values| - 1;
      var init, last := BindAll(env, files, values[..n]), BindingOf(env, files, values[n]);
      if |bs| > 0 {
        BindAllIff(env, files, values[..n], bs[..|bs| - 1]);
        BindingIff(env, files, values[n], bs[|bs| - 1]);
        assert bs == bs[..|bs| - 1] + [bs[|bs| - 1]];
      }
      if init.Ok? && last.Ok? {
        assert (init.value + [last.value])[..|init.value|] == init.value;
      }
    }
  }

  lemma DuplicatesIff(bs: seq<Binding>)
    ensures HasDuplicates(bs) <==> !DifferentFiles(bs)
  {
    if i, j :| 0 <= i < |bs| && 0 <= j < |bs| && i != j && bs[i].path == bs[j].path {
      assert i < j || j < i;
    }
  }

  // ----- building -----

  predicate IsAlphanumeric(c: char) {
    c in "ABCDEFGHIJKLMNOPQRSTUVWXYZabcdefghijklmnopqrstuvwxyz0123456789"
  }

  /** 1 to 100 letters, digits, dots, underscores and hyphens, the first a letter or digit. */
  predicate WellFormedId(s: string) {
    && 0 < |s| <= 100 && IsAlphanumeric(s[0])
    && forall i | 0 <= i < |s| :: IsAlphanumeric(s[i]) || s[i] == '.' || s[i] == '_' || s[i] == '-'
  }

  lemma IdIff(s: string)
    ensures IsIdentifier(s) <==> WellFormedId(s)
  {
    assert forall c :: c in "._-" <==> c == '.' || c == '_' || c == '-';
    assert forall c :: c in LETTERS_AND_DIGITS <==> IsAlphanumeric(c);
    if |s| > 0 {
      assert forall i | 0 < i < |s| :: s[i] == s[1..][i - 1];
    }
    hide IsAlphanumeric;
  }

  /** The place in the chain: first without a predecessor, else after a checkpoint of the same release and package. */
  ghost predicate Follows(env: Env, files: Files, q: Request, index: int, previous: Previous) {
    match q.previous
    case None => index == 1 && previous == NoPrevious
    case Some(value) =>
      exists b, before :: Binds(env, files, value, b) && HoldsCheckpoint(env, files, b.path, before)
                          && before.body.release == q.release && before.body.package == q.package
                          && index == before.body.index + 1 && previous == Previous(b)
  }

  lemma PlaceIff(env: Env, files: Files, q: Request, index: int, previous: Previous)
    requires Faithful(env)
    ensures PlaceAfter(env, files, q) == Ok((index, previous)) <==> Follows(env, files, q, index, previous)
  {
    if q.previous.Some? && env.inside(q.previous.value).Some? {
      var path := env.inside(q.previous.value).value;
      var r := Read(env, files, path);
      if r.Ok? {
        ReadIff(env, files, path, r.value);
        if path in files {
          var b := Binding(path, |files[path]|, env.fileSha(files[path]));
          assert Binds(env, files, q.previous.value, b) && BindingOf(env, files, path) == Ok(b);
        }
      }
      if b, before :| Binds(env, files, q.previous.value, b) && HoldsCheckpoint(env, files, b.path, before)
                      && before.body.release == q.release && before.body.package == q.package
                      && index == before.body.index + 1 && previous == Previous(b) {
        ReadIff(env, files, b.path, before);
      }
    }
  }

  /** What a checkpoint built for this request says, and what it takes. */
  ghost predicate BuiltFor(env: Env, files: Files, q: Request, c: Checkpoint) {
    var b := c.body;
    && b.schema == "peerbridge-release-handoff/v1" && b.release == q.release && b.package == q.package
    && b.phase == q.phase && b.nextPhase == q.nextPhase && b.git == q.git
    && WellFormedId(q.release) && WellFormedId(q.package) && WellFormedId(q.phase) && WellFormedId(q.nextPhase)
    && BindsEach(env, files, if |q.authorities| > 0 then q.authorities else DEFAULT_AUTHORITIES, b.authorities)
    && DifferentFiles(b.authorities) && BindsEach(env, files, q.evidence, b.evidence) && DifferentFiles(b.evidence)
    && Follows(env, files, q, b.index, b.previous)
    && (b.backup.Some? <==> q.backup.Some?)
    && (q.backup.Some? ==> Binds(env, files, q.backup.value, b.backup.value))
    && c.sha == env.bodySha(b) && |env.compact(c)| <= 262144 && !env.hasSecret(env.compact(c))
  }

  /**
   A checkpoint is built exactly if the identifiers are well formed, every named file is a different one inside the
   root, the predecessor is a checkpoint of the same release and package, and the result is small enough and carries no
   secret; it is then the only one that says so.
   */
  lemma BuiltIff(env: Env, files: Files, q: Request, c: Checkpoint)
    requires Faithful(env)
    ensures Built(env, files, q) == Ok(c) <==> BuiltFor(env, files, q, c)
  {
    PartsIff(env, files, q, c);
    UnfoldsTo(env, files, q, c);
    hide *;
  }

  /** The parts of a build, as the source goes through them. */
  predicate Parts(env: Env, files: Files, q: Request, c: Checkpoint) {
    var b := c.body;
    && b == Body(SCHEMA, q.release, q.package, b.index, q.phase, q.nextPhase, q.git, b.authorities, b.previous,
                 b.backup, b.evidence)
    && IsIdentifier(q.release) && IsIdentifier(q.package) && IsIdentifier(q.phase) && IsIdentifier(q.nextPhase)
    && BindAll(env, files, if q.authorities == [] then DEFAULT_AUTHORITIES else q.authorities) == Ok(b.authorities)
    && !HasDuplicates(b.authorities) && BindAll(env, files, q.evidence) == Ok(b.evidence)
    && !HasDuplicates(b.evidence) && PlaceAfter(env, files, q) == Ok((b.index, b.previous))
    && (q.backup.None? ==> b.backup.None?)
    && (q.backup.Some? ==> b.backup.Some? && BindingOf(env, files, q.backup.value) == Ok(b.backup.value))
    && c.sha == env.bodySha(b) && |env.compact(c)| <= MAX_CHECKPOINT_BYTES && !env.hasSecret(env.compact(c))
  }

  lemma UnfoldsTo(env: Env, files: Files, q: Request, c: Checkpoint)
    ensures Built(env, files, q) == Ok(c) <==> Parts(env, files, q, c)
  {
    if Parts(env, files, q, c) {
      EncodedIff(env, c.body, c);
      hide IsIdentifier, BindAll, HasDuplicates, PlaceAfter, BindingOf, Encoded;
    } else if Built(env, files, q) == Ok(c) {
      BuiltHasParts(env, files, q);
    }
  }

  lemma EncodedIff(env: Env, body: Body, c: Checkpoint)
    ensures Encoded(env, body) == Ok(c) <==>
      c.body == body && c.sha == env.bodySha(body) && |env.compact(c)| <= MAX_CHECKPOINT_BYTES
      && !env.hasSecret(env.compact(c))
  {
  }

  lemma BuiltHasParts(env: Env, files: Files, q: Request)
    requires Built(env, files, q).Ok?
    ensures Parts(env, files, q, Built(env, files, q).value)
  {
    var c := Built(env, files, q).value;
    EncodedIff(env, c.body, c);
    hide IsIdentifier, BindAll, HasDuplicates, PlaceAfter, BindingOf;
  }

  /** The parts of a build, each with what it takes. */
  lemma PartsIff(env: Env, files: Files, q: Request, c: Checkpoint)
    requires Faithful(env)
    ensures BuiltFor(env, files, q, c) <==> Parts(env, files, q, c)
  {
    IdIff(q.release);
    IdIff(q.package);
    IdIff(q.phase);
    IdIff(q.nextPhase);
    BindAllIff(env, files, if q.authorities == [] then DEFAULT_AUTHORITIES else q.authorities, c.body.authorities);
    BindAllIff(env, files, q.evidence, c.body.evidence);
    DuplicatesIff(c.body.authorities);
    DuplicatesIff(c.body.evidence);
    PlaceIff(env, files, q, c.body.index, c.body.previous);
    if q.backup.Some? && c.body.backup.Some? {
      BindingIff(env, files, q.backup.value, c.body.backup.value);
    }
    hide WellFormedId, IsIdentifier, BindAll, BindsEach, HasDuplicates, DifferentFiles, PlaceAfter, Follows, Binds,
         BindingOf, Faithful;
  }
}
