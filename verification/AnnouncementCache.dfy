/**
 The announcement cache (src/peerbridge_mcp/announcements.py:268-278, 358-474): merging, bounding, saving and loading.
 */
module AnnouncementCache {
  import opened Results
  import opened Lists
  import opened Sorting

  const MAX_CACHED_ANNOUNCEMENTS := 150
  const MAX_CACHE_BYTES := 1024 * 1024

  /** Timestamps are the instants they stand for. */
  datatype Announcement = Announcement(id: string, locale: string, title: string, body: string, severity: string,
                                       link: Option<string>, published: int, expires: Option<int>)
  datatype Identity = Identity(locale: string, id: string)

  function IdentityOf(a: Announcement): Identity {
    Identity(a.locale, a.id)
  }

  /** Validation of one row, and the encoding of the cache file, which `parse` reads back. */
  datatype Env = Env(validate: Announcement -> Option<Announcement>, encode: (seq<Announcement>, int) -> string,
                     parse: string -> Option<seq<Announcement>>)

  ghost predicate Faithful(env: Env) {
    && (forall a :: env.validate(a).Some? ==>
          env.validate(env.validate(a).value) == env.validate(a)
            && IdentityOf(env.validate(a).value).locale == a.locale)
    && (forall rows, t :: env.parse(env.encode(rows, t)) == Some(rows))
  }

  datatype AnnouncementError = TooLarge | Unreadable | TooManyRows | BadRow | DuplicateIds

  predicate Active(a: Announcement, now: int) {
    a.published <= now && (a.expires.None? || now < a.expires.value)
  }

  /** Order of publication, then locale, then id. */
  predicate Earlier(a: Announcement, b: Announcement) {
    a.published < b.published
    || (a.published == b.published && (TextLess(a.locale, b.locale) || (a.locale == b.locale && TextLess(a.id, b.id))))
  }

  predicate Later(a: Announcement, b: Announcement) {
    Earlier(b, a)
  }

  ghost predicate IdentitiesDistinct(rows: set<Announcement>) {
    forall a, b | a in rows && b in rows && a != b :: IdentityOf(a) != IdentityOf(b)
  }

  lemma RowsOrdered(rows: set<Announcement>)
    requires IdentitiesDistinct(rows)
    ensures StrictOrderOn(Earlier, rows) && StrictOrderOn(Later, rows)
  {
    forall a, b, c | a in rows && b in rows && c in rows
      ensures !Earlier(a, a)
      ensures a == b || Earlier(a, b) || Earlier(b, a)
      ensures Earlier(a, b) && Earlier(b, c) ==> Earlier(a, c)
    {
      TextLessOrder(a.locale, b.locale, c.locale);
      TextLessOrder(a.id, b.id, c.id);
    }
  }

  ghost function InOrder(rows: set<Announcement>): seq<Announcement>
    requires IdentitiesDistinct(rows)
  {
    RowsOrdered(rows);
    Sorted(rows, Earlier)
  }

  // ----- loading -----

  function ValidatedAll(env: Env, rows: seq<Announcement>): Option<seq<Announcement>> {
    if rows == [] then Some([])
    else
      match ValidatedAll(env, rows[..|rows| - 1])
      case None => None
      case Some(parsed) =>
        match env.validate(rows[|rows| - 1])
        case None => None
        case Some(row) => Some(parsed + [row])
  }

  function ActiveAt(now: int): Announcement -> bool {
    (a: Announcement) => Active(a, now)
  }

  predicate NoDuplicates(rows: seq<Announcement>) {
    forall i, j | 0 <= i < j < |rows| :: IdentityOf(rows[i]) != IdentityOf(rows[j])
  }

  lemma SubsetDistinct(rows: seq<Announcement>, some: set<Announcement>)
    requires NoDuplicates(rows) && some <= Elements(rows)
    ensures IdentitiesDistinct(some)
  {
    forall a, b | a in some && b in some && a != b ensures IdentityOf(a) != IdentityOf(b) {
      assert a in Elements(rows) && b in Elements(rows);
      var i :| 0 <= i < |rows| && rows[i] == a;
      var j :| 0 <= j < |rows| && rows[j] == b;
      assert i < j || j < i;
    }
  }

  function ActiveOf(rows: seq<Announcement>, now: int): set<Announcement> {
    set a | a in rows && Active(a, now)
  }

  lemma ActiveDistinct(rows: seq<Announcement>, now: int)
    requires NoDuplicates(rows)
    ensures IdentitiesDistinct(ActiveOf(rows, now))
  {
    SubsetDistinct(rows, ActiveOf(rows, now));
  }

  /** `_decode_cache`, after the size bound: the active rows in order of publication. */
  ghost function Decoded(env: Env, raw: string, now: int): Result<seq<Announcement>, AnnouncementError> {
    if |raw| > MAX_CACHE_BYTES then Err(TooLarge)
    else
      match env.parse(raw)
      case None => Err(Unreadable)
      case Some(rows) =>
        if |rows| > MAX_CACHED_ANNOUNCEMENTS then Err(TooManyRows)
        else
          match ValidatedAll(env, rows)
          case None => Err(BadRow)
          case Some(parsed) =>
            if !NoDuplicates(parsed) then Err(DuplicateIds)
            else ActiveDistinct(parsed, now); Ok(InOrder(ActiveOf(parsed, now)))
  }

  /** What loading the file gives: nothing from no file, and an error from a bad one. */
  ghost function Loaded(env: Env, file: Option<string>, now: int): Result<seq<Announcement>, AnnouncementError> {
    match file
    case None => Ok([])
    case Some(raw) => Decoded(env, raw, now)
  }

  // ----- merging -----

  type Merged = map<Identity, Announcement>

  predicate Keyed(m: Merged) {
    forall k | k in m :: IdentityOf(m[k]) == k
  }

  function CachedMap(rows: seq<Announcement>): (m: Merged)
    ensures Keyed(m)
  {
    if rows == [] then map[] else CachedMap(rows[..|rows| - 1])[IdentityOf(rows[|rows| - 1]) := rows[|rows| - 1]]
  }

  /** One incoming row: it replaces the row of its identity if it is active, and removes it otherwise. */
  function MergedWith(m: Merged, a: Announcement, now: int): Merged {
    if Active(a, now) then m[IdentityOf(a) := a] else m - {IdentityOf(a)}
  }

  function Overlaid(env: Env, m: Merged, incoming: seq<Announcement>, now: int): Option<Merged> {
    if incoming == [] then Some(m)
    else
      match Overlaid(env, m, incoming[..|incoming| - 1], now)
      case None => None
      case Some(before) =>
        match env.validate(incoming[|incoming| - 1])
        case None => None
        case Some(a) => Some(MergedWith(before, a, now))
  }

  /** The last incoming row of an identity. */
  function LastOf(env: Env, incoming: seq<Announcement>, k: Identity): Option<Announcement> {
    if incoming == [] then None
    else
      match env.validate(incoming[|incoming| - 1])
      case Some(a) => if IdentityOf(a) == k then Some(a) else LastOf(env, incoming[..|incoming| - 1], k)
      case None => LastOf(env, incoming[..|incoming| - 1], k)
  }

  /**
   For every identity the last incoming row decides: present if it is active, absent if it is not; without one the
   cached row stays.
   */
  lemma {:induction false} OverlayMeaning(env: Env, m: Merged, incoming: seq<Announcement>, now: int, k: Identity)
    requires Overlaid(env, m, incoming, now).Some?
    ensures var o := Overlaid(env, m, incoming, now).value;
            match LastOf(env, incoming, k)
            case None => (k in o <==> k in m) && (k in m ==> o[k] == m[k])
            case Some(a) => (k in o <==> Active(a, now)) && (k in o ==> o[k] == a)
  {
    if incoming != [] {
      OverlayMeaning(env, m, incoming[..|incoming| - 1], now, k);
    }
  }

  /** Every row of the merged map is active, valid, and filed under its identity. */
  predicate Merging(env: Env, m: Merged, now: int) {
    forall k | k in m :: IdentityOf(m[k]) == k && Active(m[k], now) && env.validate(m[k]) == Some(m[k])
  }

  lemma {:induction false} OverlayKeeps(env: Env, m: Merged, incoming: seq<Announcement>, now: int)
    requires Faithful(env) && Merging(env, m, now) && Overlaid(env, m, incoming, now).Some?
    ensures Merging(env, Overlaid(env, m, incoming, now).value, now)
  {
    if incoming != [] {
      OverlayKeeps(env, m, incoming[..|incoming| - 1], now);
    }
  }

  lemma {:induction false} CachedMapMeaning(env: Env, rows: seq<Announcement>, now: int)
    requires forall a | a in rows :: Active(a, now) && env.validate(a) == Some(a)
    ensures Merging(env, CachedMap(rows), now)
  {
    if rows != [] {
      assert forall a | a in rows[..|rows| - 1] :: a in rows;
      assert rows[|rows| - 1] in rows;
      CachedMapMeaning(env, rows[..|rows| - 1], now);
    }
  }

  function ValuesOf(m: Merged): set<Announcement> {
    set k | k in m :: m[k]
  }

  lemma ValuesDistinct(m: Merged)
    requires Keyed(m)
    ensures IdentitiesDistinct(ValuesOf(m))
  {
  }

  // ----- the bounded list -----

  function Suffix<T>(q: seq<T>, n: nat): seq<T> {
    if n < |q| then q[|q| - n..] else q
  }

  lemma SuffixIs<T>(q: seq<T>, n: nat)
    requires n <= |q|
    ensures Suffix(q, n) == q[|q| - n..] && |Suffix(q, n)| == n
  {
  }

  lemma SuffixLength<T>(q: seq<T>, n: nat)
    ensures |Suffix(q, n)| == if n < |q| then n else |q|
  {
  }

  lemma SuffixOfSuffix<T>(q: seq<T>, m: nat, n: nat)
    requires n <= m
    ensures Suffix(Suffix(q, m), n) == Suffix(q, n)
  {
  }

  lemma SuffixOfRest<T>(q: seq<T>, n: nat)
    requires n < |q|
    ensures Suffix(q[1..], n) == Suffix(q, n)
  {
  }

  /** The longest suffix whose encoding fits. */
  function Fitting(env: Env, rows: seq<Announcement>, utc: int): seq<Announcement> {
    if rows == [] || |env.encode(rows, utc)| <= MAX_CACHE_BYTES then rows else Fitting(env, rows[1..], utc)
  }

  /** The n newest rows do not fit. */
  predicate TooBig(env: Env, all: seq<Announcement>, n: nat, now: int)
    requires n <= |all|
  {
    |env.encode(Suffix(all, n), now)| > MAX_CACHE_BYTES
  }

  lemma {:induction false} FittingMeaning(env: Env, rows: seq<Announcement>, utc: int)
    ensures var f := Fitting(env, rows, utc);
            && |f| <= |rows| && f == Suffix(rows, |f|)
            && (f != [] ==> |env.encode(f, utc)| <= MAX_CACHE_BYTES)
            && (forall n | |f| < n <= |rows| :: TooBig(env, rows, n, utc))
  {
    hide Suffix;
    SuffixIs(rows, |rows|);
    assert rows[0..] == rows;
    if rows != [] && |env.encode(rows, utc)| > MAX_CACHE_BYTES {
      var f := Fitting(env, rows, utc);
      FittingMeaning(env, rows[1..], utc);
      SuffixOfRest(rows, |f|);
      hide Fitting;
      forall n | |f| < n <= |rows| ensures TooBig(env, rows, n, utc) {
        if n < |rows| {
          SuffixOfRest(rows, n);
          assert TooBig(env, rows[1..], n, utc);
        }
      }
    }
  }

  ghost function CachedRows(env: Env, file: Option<string>, now: int): seq<Announcement> {
    match Loaded(env, file, now)
    case Ok(rows) => rows
    case Err(_) => []
  }

  /** All rows a save merges, in order: cached rows (none from an unreadable cache) overlaid by the incoming ones. */
  ghost function MergedRows(env: Env, file: Option<string>, incoming: seq<Announcement>, now: int)
    : Option<seq<Announcement>>
  {
    match Overlaid(env, CachedMap(CachedRows(env, file, now)), incoming, now)
    case None => None
    case Some(m) => if IdentitiesDistinct(ValuesOf(m)) then Some(InOrder(ValuesOf(m))) else None
  }

  lemma {:induction false} OverlayKeyed(env: Env, m: Merged, incoming: seq<Announcement>, now: int)
    requires Keyed(m)
    ensures Overlaid(env, m, incoming, now).Some? ==> Keyed(Overlaid(env, m, incoming, now).value)
  {
    if incoming != [] {
      OverlayKeyed(env, m, incoming[..|incoming| - 1], now);
    }
  }

  // ----- the cache object -----

  /** What a save writes for the merged rows: the newest 150 of them, and of those as many of the newest as fit. */
  function Bounded(env: Env, merged: seq<Announcement>, utc: int): seq<Announcement> {
    Fitting(env, Suffix(merged, MAX_CACHED_ANNOUNCEMENTS), utc)
  }

  class Cache {
    const env: Env
    var file: Option<string>

    constructor (env: Env, file: Option<string>)
      ensures this.env == env && this.file == file
    {
      this.env := env;
      this.file := file;
    }

    /** `load_announcement_cache`. */
    method Load(now: int) returns (r: Result<seq<Announcement>, AnnouncementError>)
      ensures r == Loaded(env, file, now)
    {
      if file.None? {
        return Ok([]);
      }
      if |file.value| > MAX_CACHE_BYTES {
        return Err(TooLarge);
      }
      var rows := env.parse(file.value);
      if rows.None? {
        return Err(Unreadable);
      }
      if |rows.value| > MAX_CACHED_ANNOUNCEMENTS {
        return Err(TooManyRows);
      }
      var parsed := ValidateRows(env, rows.value);
      if parsed.None? {
        return Err(BadRow);
      }
      if !NoDuplicates(parsed.value) {
        return Err(DuplicateIds);
      }
      ActiveDistinct(parsed.value, now);
      RowsOrdered(ActiveOf(parsed.value, now));
      var active := OrderBy(ActiveOf(parsed.value, now), Earlier);
      r := Ok(active);
    }

    /** `save_announcement_cache`: returns the saved rows, or refuses and leaves the file as it is. */
    method Save(incoming: seq<Announcement>, now: int) returns (r: Result<seq<Announcement>, AnnouncementError>)
      requires Faithful(env)
      modifies this`file
      ensures match MergedRows(env, old(file), incoming, now)
              case None => r == Err(BadRow) && file == old(file)
              case Some(all) =>
                var rows := Bounded(env, all, now);
                if |env.encode(rows, now)| > MAX_CACHE_BYTES then r == Err(TooLarge) && file == old(file)
                else r == Ok(rows) && file == Some(env.encode(rows, now))
    {
      var loaded := Load(now);
      var cached := if loaded.Ok? then loaded.value else [];
      var merged := Merge(env, cached, incoming, now);
      MergeIsKeyed(env, cached, incoming, now);
      if merged.None? {
        return Err(BadRow);
      }
      var rows := Newest(merged.value);
      ghost var all := rows;
      while rows != [] && |env.encode(rows, now)| > MAX_CACHE_BYTES
        invariant Fitting(env, rows, now) == Fitting(env, all, now)
      {
        rows := rows[1..];
      }
      if |env.encode(rows, now)| > MAX_CACHE_BYTES {
        return Err(TooLarge);
      }
      file := Some(env.encode(rows, now));
      r := Ok(rows);
    }
  }

  method ValidateRows(env: Env, rows: seq<Announcement>) returns (parsed: Option<seq<Announcement>>)
    ensures parsed == ValidatedAll(env, rows)
  {
    var done: seq<Announcement> := [];
    for i := 0 to |rows|
      invariant ValidatedAll(env, rows[..i]) == Some(done)
    {
      var row := env.validate(rows[i]);
      assert rows[..i + 1][..i] == rows[..i];
      if row.None? {
        InvalidStays(env, rows, i + 1);
        return None;
      }
      done := done + [row.value];
    }
    assert rows[..|rows|] == rows;
    parsed := Some(done);
  }

  lemma {:induction false} InvalidStays(env: Env, rows: seq<Announcement>, n: nat)
    requires n <= |rows| && ValidatedAll(env, rows[..n]).None?
    ensures ValidatedAll(env, rows).None?
    decreases |rows|
  {
    if n == |rows| {
      assert rows[..n] == rows;
    } else {
      assert rows[..|rows| - 1][..n] == rows[..n];
      InvalidStays(env, rows[..|rows| - 1], n);
    }
  }

  /** The `merged` dictionary: cached rows, then the incoming ones over them. */
  method Merge(env: Env, cached: seq<Announcement>, incoming: seq<Announcement>, now: int) returns (m: Option<Merged>)
    ensures m == Overlaid(env, CachedMap(cached), incoming, now)
  {
    var merged: Merged := map[];
    for i := 0 to |cached|
      invariant merged == CachedMap(cached[..i])
    {
      assert cached[..i + 1][..i] == cached[..i];
      merged := merged[IdentityOf(cached[i]) := cached[i]];
    }
    assert cached[..|cached|] == cached;
    for i := 0 to |incoming|
      invariant Overlaid(env, CachedMap(cached), incoming[..i], now) == Some(merged)
    {
      var row := env.validate(incoming[i]);
      assert incoming[..i + 1][..i] == incoming[..i];
      if row.None? {
        RefusedStays(env, CachedMap(cached), incoming, now, i + 1);
        return None;
      }
      merged := MergedWith(merged, row.value, now);
    }
    assert incoming[..|incoming|] == incoming;
    m := Some(merged);
  }

  lemma {:induction false} RefusedStays(env: Env, m: Merged, incoming: seq<Announcement>, now: int, n: nat)
    requires n <= |incoming| && Overlaid(env, m, incoming[..n], now).None?
    ensures Overlaid(env, m, incoming, now).None?
    decreases |incoming|
  {
    if n == |incoming| {
      assert incoming[..n] == incoming;
    } else {
      assert incoming[..|incoming| - 1][..n] == incoming[..n];
      RefusedStays(env, m, incoming[..|incoming| - 1], now, n);
    }
  }

  lemma MergeIsKeyed(env: Env, cached: seq<Announcement>, incoming: seq<Announcement>, now: int)
    ensures var o := Overlaid(env, CachedMap(cached), incoming, now);
            o.Some? ==> Keyed(o.value) && IdentitiesDistinct(ValuesOf(o.value))
  {
    OverlayKeyed(env, CachedMap(cached), incoming, now);
    if Overlaid(env, CachedMap(cached), incoming, now).Some? {
      ValuesDistinct(Overlaid(env, CachedMap(cached), incoming, now).value);
    }
  }

  /** Sort newest first, keep 150, sort oldest first. */
  method Newest(m: Merged) returns (rows: seq<Announcement>)
    requires Keyed(m) && IdentitiesDistinct(ValuesOf(m))
    ensures rows == Suffix(InOrder(ValuesOf(m)), MAX_CACHED_ANNOUNCEMENTS)
  {
    var values := ValuesOf(m);
    RowsOrdered(values);
    var newest := OrderBy(values, Later);
    var n := if |newest| < MAX_CACHED_ANNOUNCEMENTS then |newest| else MAX_CACHED_ANNOUNCEMENTS;
    newest := newest[..n];
    NewestAreSuffix(values, n);
    rows := OrderBy(Elements(newest), Earlier);
  }

  function Reversed<T>(q: seq<T>): (r: seq<T>)
    ensures |r| == |q| && forall i | 0 <= i < |q| :: r[i] == q[|q| - 1 - i]
  {
    seq(|q|, i requires 0 <= i < |q| => q[|q| - 1 - i])
  }

  lemma ReversedSorts(values: set<Announcement>)
    requires IdentitiesDistinct(values)
    ensures StrictOrderOn(Earlier, values) && StrictOrderOn(Later, values)
    ensures Sorted(values, Later) == Reversed(Sorted(values, Earlier))
  {
    RowsOrdered(values);
    var q := Sorted(values, Earlier);
    ReversedElements(q);
    ReversedAscends(q);
    hide *;
    SortUnique(Sorted(values, Later), Reversed(q), values, Later);
  }

  lemma ReversedElements<T>(q: seq<T>)
    ensures forall x :: x in Reversed(q) <==> x in q
  {
    var r := Reversed(q);
    forall x ensures x in r <==> x in q {
      if x in q {
        var i :| 0 <= i < |q| && q[i] == x;
        assert r[|q| - 1 - i] == x;
      }
    }
  }

  lemma ReversedAscends(q: seq<Announcement>)
    requires Ascending(q, Earlier)
    ensures Ascending(Reversed(q), Later)
  {
    hide TextLess, Reversed;
  }

  lemma NewestAreSuffix(values: set<Announcement>, n: nat)
    requires IdentitiesDistinct(values) && n <= |values|
    ensures StrictOrderOn(Later, values) && StrictOrderOn(Earlier, values)
    ensures var newest := Elements(Sorted(values, Later)[..n]);
            IdentitiesDistinct(newest) && StrictOrderOn(Earlier, newest)
              && Sorted(newest, Earlier) == Suffix(Sorted(values, Earlier), n)
  {
    hide Earlier, Later, StrictOrderOn, IdentitiesDistinct, Reversed, Suffix;
    ReversedSorts(values);
    var q := Sorted(values, Earlier);
    ReversedPrefix(q, n);
    assert Elements(Suffix(q, n)) <= values by {
      assert forall x | x in q[|q| - n..] :: x in q;
    }
    PartDistinct(values, Elements(Suffix(q, n)));
    var newest, suffix := Elements(Reversed(q)[..n]), Suffix(q, n);
    RowsOrdered(newest);
    SortUnique(Sorted(newest, Earlier), suffix, newest, Earlier);
  }

  lemma PartDistinct(values: set<Announcement>, part: set<Announcement>)
    requires IdentitiesDistinct(values) && part <= values
    ensures IdentitiesDistinct(part)
  {
  }

  lemma ReversedPrefix<T>(q: seq<T>, n: nat)
    requires n <= |q|
    ensures Elements(Reversed(q)[..n]) == Elements(Suffix(q, n))
    ensures Suffix(q, n) == q[|q| - n..]
  {
    var a, b := Reversed(q)[..n], Suffix(q, n);
    assert b == q[|q| - n..];
    forall x ensures x in a <==> x in b {
      if x in a {
        var i :| 0 <= i < n && a[i] == x;
        assert b[n - 1 - i] == x;
      }
      if x in b {
        var i :| 0 <= i < n && b[i] == x;
        assert a[n - 1 - i] == x;
      }
    }
  }

  // ----- what is saved, and loading it again -----

  /** Rows as the cache keeps them: valid, active, in strict order. */
  ghost predicate Kept(env: Env, rows: seq<Announcement>, now: int) {
    && Ascending(rows, Earlier) && NoDuplicates(rows)
    && forall a | a in rows :: Active(a, now) && env.validate(a) == Some(a)
  }

  lemma {:induction false} ValidatedMeaning(env: Env, rows: seq<Announcement>)
    requires Faithful(env)
    ensures ValidatedAll(env, rows).Some?
            ==> forall a | a in ValidatedAll(env, rows).value :: env.validate(a) == Some(a)
    ensures (forall a | a in rows :: env.validate(a) == Some(a)) ==> ValidatedAll(env, rows) == Some(rows)
  {
    if rows != [] {
      ValidatedMeaning(env, rows[..|rows| - 1]);
      assert rows == rows[..|rows| - 1] + [rows[|rows| - 1]];
    }
  }

  lemma LoadedAreKept(env: Env, file: Option<string>, now: int)
    requires Faithful(env)
    ensures Kept(env, CachedRows(env, file, now), now)
  {
    if file.Some? && Loaded(env, file, now).Ok? {
      var rows := env.parse(file.value).value;
      var parsed := ValidatedAll(env, rows).value;
      ValidatedMeaning(env, rows);
      ActiveDistinct(parsed, now);
      InOrderKept(env, ActiveOf(parsed, now), now);
    }
  }

  lemma InOrderKept(env: Env, rows: set<Announcement>, now: int)
    requires IdentitiesDistinct(rows) && forall a | a in rows :: Active(a, now) && env.validate(a) == Some(a)
    ensures Kept(env, InOrder(rows), now)
  {
    RowsOrdered(rows);
    AscendingDistinct(InOrder(rows), rows, Earlier);
    forall i, j | 0 <= i < j < |InOrder(rows)| ensures IdentityOf(InOrder(rows)[i]) != IdentityOf(InOrder(rows)[j]) {
      assert InOrder(rows)[i] in rows && InOrder(rows)[j] in rows;
    }
  }

  lemma MergedAreKept(env: Env, file: Option<string>, incoming: seq<Announcement>, now: int)
    requires Faithful(env) && MergedRows(env, file, incoming, now).Some?
    ensures Kept(env, MergedRows(env, file, incoming, now).value, now)
  {
    var cached := CachedRows(env, file, now);
    LoadedAreKept(env, file, now);
    CachedMapMeaning(env, cached, now);
    OverlayKeeps(env, CachedMap(cached), incoming, now);
    var m := Overlaid(env, CachedMap(cached), incoming, now).value;
    InOrderKept(env, ValuesOf(m), now);
  }

  lemma SuffixKept(env: Env, rows: seq<Announcement>, now: int, n: nat)
    requires Kept(env, rows, now) && n <= |rows|
    ensures Kept(env, rows[n..], now)
  {
    assert forall a | a in rows[n..] :: a in rows;
  }

  /**
   A save keeps, of the merged rows in order, the longest run of newest ones that is at most 150 long and encodes within
   1 MiB; they are active, valid, in strict order and of different identities.
   */
  lemma SavedMeaning(env: Env, file: Option<string>, incoming: seq<Announcement>, now: int)
    requires Faithful(env) && MergedRows(env, file, incoming, now).Some?
    requires |env.encode(Bounded(env, MergedRows(env, file, incoming, now).value, now), now)| <= MAX_CACHE_BYTES
    ensures var all := MergedRows(env, file, incoming, now).value;
            var rows := Bounded(env, all, now);
            && Kept(env, rows, now) && |rows| <= MAX_CACHED_ANNOUNCEMENTS && |rows| <= |all|
               && rows == all[|all| - |rows|..]
            && (forall n | |rows| < n <= |all| && n <= MAX_CACHED_ANNOUNCEMENTS :: TooBig(env, all, n, now))
  {
    hide Kept, MergedRows, Suffix, Fitting;
    var all := MergedRows(env, file, incoming, now).value;
    var recent := Suffix(all, MAX_CACHED_ANNOUNCEMENTS);
    var rows := Bounded(env, all, now);
    MergedAreKept(env, file, incoming, now);
    FittingMeaning(env, recent, now);
    SuffixLength(all, MAX_CACHED_ANNOUNCEMENTS);
    SuffixOfSuffix(all, MAX_CACHED_ANNOUNCEMENTS, |rows|);
    SuffixIs(all, |rows|);
    SuffixKept(env, all, now, |all| - |rows|);
    forall n | |rows| < n <= |all| && n <= MAX_CACHED_ANNOUNCEMENTS ensures TooBig(env, all, n, now) {
      SuffixOfSuffix(all, MAX_CACHED_ANNOUNCEMENTS, n);
      assert TooBig(env, recent, n, now);
    }
  }

  /** Published earlier, or at the same time in an earlier locale, or there with a smaller id. */
  predicate PublishedBefore(a: Announcement, b: Announcement) {
    || a.published < b.published
    || (a.published == b.published && TextLess(a.locale, b.locale))
    || (a.published == b.published && a.locale == b.locale && TextLess(a.id, b.id))
  }

  /** What a cache lists is in order of publication. */
  lemma ListedByPublication(rows: set<Announcement>)
    requires IdentitiesDistinct(rows)
    ensures var q := InOrder(rows);
            && (forall a :: a in q <==> a in rows)
            && forall i, j | 0 <= i < j < |q| :: PublishedBefore(q[i], q[j])
  {
    RowsOrdered(rows);
    assert IsSortOf(InOrder(rows), rows, Earlier);
    hide TextLess;
  }

  /** A save drops only rows published before every row it keeps. */
  lemma NewestAreKept(env: Env, file: Option<string>, incoming: seq<Announcement>, now: int)
    requires Faithful(env) && MergedRows(env, file, incoming, now).Some?
    ensures var all := MergedRows(env, file, incoming, now).value;
            var rows := Bounded(env, all, now);
            && (forall a | a in rows :: a in all)
            && forall a, b | a in all && a !in rows && b in rows :: PublishedBefore(a, b)
  {
    var all := MergedRows(env, file, incoming, now).value;
    MergedAreKept(env, file, incoming, now);
    KeptByPublication(env, all, now);
    BoundedIsSuffix(env, all, now);
    hide *;
    NewestOfSuffix(all, |Bounded(env, all, now)|);
  }

  ghost predicate ByPublication(q: seq<Announcement>) {
    forall i, j | 0 <= i < j < |q| :: PublishedBefore(q[i], q[j])
  }

  lemma KeptByPublication(env: Env, rows: seq<Announcement>, now: int)
    requires Kept(env, rows, now)
    ensures ByPublication(rows)
  {
    hide TextLess;
  }

  lemma BoundedIsSuffix(env: Env, all: seq<Announcement>, now: int)
    ensures var rows := Bounded(env, all, now); |rows| <= |all| && rows == all[|all| - |rows|..]
  {
    hide Suffix, Fitting;
    FittingMeaning(env, Suffix(all, MAX_CACHED_ANNOUNCEMENTS), now);
    SuffixLength(all, MAX_CACHED_ANNOUNCEMENTS);
    SuffixOfSuffix(all, MAX_CACHED_ANNOUNCEMENTS, |Bounded(env, all, now)|);
    SuffixIs(all, |Bounded(env, all, now)|);
  }

  lemma NewestOfSuffix(all: seq<Announcement>, n: nat)
    requires n <= |all| && ByPublication(all)
    ensures var rows := all[|all| - n..];
            && (forall a | a in rows :: a in all)
            && forall a, b | a in all && a !in rows && b in rows :: PublishedBefore(a, b)
  {
    hide PublishedBefore;
    var rows := all[|all| - n..];
    forall a, b | a in all && a !in rows && b in rows ensures PublishedBefore(a, b) {
      var i :| 0 <= i < |all| && all[i] == a;
      var j :| 0 <= j < n && rows[j] == b;
      assert i < |all| - n by {
        assert forall k | 0 <= k < n :: rows[k] == all[|all| - n + k];
      }
      assert all[|all| - n + j] == b;
    }
  }

  /** Published by now and not expired. */
  predicate IsCurrent(a: Announcement, now: int) {
    a.published <= now && (a.expires == None || a.expires.value > now)
  }

  /**
   When a cache file loads, and what it then lists: at most 1 MiB that parses to at most 150 rows, all of them valid and
   of different identities; the list is made of exactly the current ones.
   */
  lemma DecodedIff(env: Env, raw: string, now: int)
    ensures var r := Decoded(env, raw, now);
            && (r.Ok? <==>
                  && |raw| <= 1048576 && env.parse(raw).Some? && |env.parse(raw).value| <= 150
                  && AllValid(env, env.parse(raw).value) && IdentitiesDiffer(env, env.parse(raw).value))
            && (r == Err(TooLarge) <==> |raw| > 1048576)
            && (r == Err(Unreadable) <==> |raw| <= 1048576 && env.parse(raw).None?)
            && (r == Err(TooManyRows) <==> |raw| <= 1048576 && env.parse(raw).Some? && |env.parse(raw).value| > 150)
            && (r == Err(BadRow) <==> |raw| <= 1048576 && env.parse(raw).Some? && |env.parse(raw).value| <= 150
                                      && !AllValid(env, env.parse(raw).value))
            && (r.Ok? ==> forall a :: a in r.value <==> IsCurrent(a, now) && Holds(env, env.parse(raw).value, a))
  {
    if env.parse(raw).Some? {
      var rows := env.parse(raw).value;
      ValidatedIff(env, rows);
      if ValidatedAll(env, rows).Some? && NoDuplicates(ValidatedAll(env, rows).value) {
        var parsed := ValidatedAll(env, rows).value;
        ActiveDistinct(parsed, now);
        ListedByPublication(ActiveOf(parsed, now));
        forall a ensures a in ActiveOf(parsed, now) <==> IsCurrent(a, now) && Holds(env, rows, a) {
          ListsIff(env, rows, a);
        }
      }
    }
    hide InOrder, ActiveOf, IdentitiesDistinct, Holds, ValidatedAll, PublishedBefore;
  }

  ghost predicate AllValid(env: Env, rows: seq<Announcement>) {
    forall i | 0 <= i < |rows| :: env.validate(rows[i]).Some?
  }

  ghost predicate IdentitiesDiffer(env: Env, rows: seq<Announcement>)
    requires AllValid(env, rows)
  {
    forall i, j | 0 <= i < j < |rows| ::
      IdentityOf(env.validate(rows[i]).value) != IdentityOf(env.validate(rows[j]).value)
  }

  ghost predicate Holds(env: Env, rows: seq<Announcement>, a: Announcement) {
    exists i :: 0 <= i < |rows| && env.validate(rows[i]) == Some(a)
  }

  lemma {:induction false} ValidatedIff(env: Env, rows: seq<Announcement>)
    ensures ValidatedAll(env, rows).Some? <==> AllValid(env, rows)
    ensures ValidatedAll(env, rows).Some? ==>
              var parsed := ValidatedAll(env, rows).value;
              |parsed| == |rows| && (forall i | 0 <= i < |rows| :: env.validate(rows[i]) == Some(parsed[i]))
              && (NoDuplicates(parsed) <==> IdentitiesDiffer(env, rows))
  {
    if rows != [] {
      ValidatedIff(env, rows[..|rows| - 1]);
      assert rows == rows[..|rows| - 1] + [rows[|rows| - 1]];
    }
  }

  lemma ListsIff(env: Env, rows: seq<Announcement>, a: Announcement)
    requires ValidatedAll(env, rows).Some?
    ensures a in ValidatedAll(env, rows).value <==> Holds(env, rows, a)
  {
    ValidatedIff(env, rows);
    hide ValidatedAll, NoDuplicates, IdentitiesDiffer;
    var parsed := ValidatedAll(env, rows).value;
    if a in parsed {
      var i :| 0 <= i < |parsed| && parsed[i] == a;
      assert env.validate(rows[i]) == Some(a);
    }
  }

  lemma LastIsLatest(env: Env, rows: seq<Announcement>, now: int)
    requires Kept(env, rows, now) && rows != []
    ensures var init := rows[..|rows| - 1];
            Kept(env, init, now) && forall a | a in init :: Earlier(a, rows[|rows| - 1])
  {
    hide Earlier, Active;
    var init := rows[..|rows| - 1];
    forall a | a in init ensures a in rows && Earlier(a, rows[|rows| - 1]) {
      var k :| 0 <= k < |init| && init[k] == a;
      assert rows[k] == a;
    }
  }

  lemma {:induction false} FilterKept(env: Env, rows: seq<Announcement>, now: int, later: int)
    requires Kept(env, rows, now)
    ensures var f := Filter(rows, ActiveAt(later));
            && Ascending(f, Earlier)
            && (forall a :: a in f <==> a in ActiveOf(rows, later))
  {
    FilterMeaning(rows, ActiveAt(later));
    if rows != [] {
      var init, last := rows[..|rows| - 1], rows[|rows| - 1];
      LastIsLatest(env, rows, now);
      hide Kept, Earlier;
      FilterKept(env, init, now, later);
      FilterMeaning(init, ActiveAt(later));
      var g := Filter(init, ActiveAt(later));
      assert forall i | 0 <= i < |g| :: g[i] in g && g[i] in init;
    }
  }

  /** Sorting what is still active of saved rows is selecting it in the order it was saved. */
  lemma KeptReloads(env: Env, rows: seq<Announcement>, now: int, later: int)
    requires Kept(env, rows, now)
    ensures IdentitiesDistinct(ActiveOf(rows, later))
    ensures InOrder(ActiveOf(rows, later)) == Filter(rows, ActiveAt(later))
  {
    hide Earlier, IdentitiesDistinct, ActiveOf, Filter;
    ActiveDistinct(rows, later);
    RowsOrdered(ActiveOf(rows, later));
    FilterKept(env, rows, now, later);
    hide Kept;
    SortUnique(InOrder(ActiveOf(rows, later)), Filter(rows, ActiveAt(later)), ActiveOf(rows, later), Earlier);
  }

  lemma KeptDecodes(env: Env, rows: seq<Announcement>, now: int, later: int)
    requires Faithful(env) && Kept(env, rows, now) && |rows| <= MAX_CACHED_ANNOUNCEMENTS
    requires |env.encode(rows, now)| <= MAX_CACHE_BYTES
    ensures Decoded(env, env.encode(rows, now), later) == Ok(Filter(rows, ActiveAt(later)))
  {
    ValidatedMeaning(env, rows);
    KeptReloads(env, rows, now, later);
    hide ValidatedAll, IdentitiesDistinct, InOrder, ActiveOf, Filter, Ascending;
  }

  /**
   Save, then load: at the same time the saved rows come back exactly; at any later time exactly those of them that have
   not expired, in the same order.
   */
  lemma SaveThenLoad(env: Env, rows: seq<Announcement>, now: int, later: int)
    requires Faithful(env) && Kept(env, rows, now) && |rows| <= MAX_CACHED_ANNOUNCEMENTS
    requires |env.encode(rows, now)| <= MAX_CACHE_BYTES && now <= later
    ensures var r := Loaded(env, Some(env.encode(rows, now)), later);
            && r == Ok(Filter(rows, ActiveAt(later)))
            && (later == now ==> r == Ok(rows))
            && (forall a | a in rows :: a in r.value <==> a.expires.None? || later < a.expires.value)
  {
    KeptDecodes(env, rows, now, later);
    FilterMeaning(rows, ActiveAt(later));
    if later == now {
      AllActive(rows, now);
    }
    hide Decoded, Kept, Filter;
  }

  lemma {:induction false} AllActive(rows: seq<Announcement>, now: int)
    requires forall a | a in rows :: Active(a, now)
    ensures Filter(rows, ActiveAt(now)) == rows
  {
    if rows != [] {
      assert rows == rows[..|rows| - 1] + [rows[|rows| - 1]];
      AllActive(rows[..|rows| - 1], now);
    }
  }
}
