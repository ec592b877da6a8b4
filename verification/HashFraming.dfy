/**
 The byte strings that are hashed for a set of files (scripts/release_check.py:497-506,
 scripts/verify_continuity_manifest.py:37-43): both framings can be decoded, so equal digests mean equal files.
 */
module HashFraming {
  import opened Results
  import opened Sorting
  import opened Texts

  // ----- eight-byte length prefixes -----

  type Byte = b: int | 0 <= b < 256
  type Bytes = seq<Byte>

  const LENGTH_BYTES := 8

  function Pow256(n: nat): nat {
    if n == 0 then 1 else 256 * Pow256(n - 1)
  }

  /** `n.to_bytes(width, "big")`. */
  function BigEndian(n: nat, width: nat): (b: Bytes)
    ensures |b| == width
  {
    if width == 0 then [] else BigEndian(n / 256, width - 1) + [n % 256]
  }

  function FromBigEndian(b: Bytes): nat {
    if b == [] then 0 else FromBigEndian(b[..|b| - 1]) * 256 + b[|b| - 1]
  }

  lemma {:induction false} BigEndianRoundTrip(n: nat, width: nat)
    requires n < Pow256(width)
    ensures FromBigEndian(BigEndian(n, width)) == n
  {
    if width > 0 {
      BigEndianRoundTrip(n / 256, width - 1);
      assert BigEndian(n, width)[..width - 1] == BigEndian(n / 256, width - 1);
    }
  }

  datatype File = File(path: Bytes, payload: Bytes)

  /** Lengths that `to_bytes(8, "big")` accepts. */
  predicate Measurable(f: File) {
    |f.path| < Pow256(LENGTH_BYTES) && |f.payload| < Pow256(LENGTH_BYTES)
  }

  predicate AllMeasurable(files: seq<File>) {
    forall i | 0 <= i < |files| :: Measurable(files[i])
  }

  lemma TailMeasurable(files: seq<File>)
    requires AllMeasurable(files) && files != []
    ensures Measurable(files[0]) && AllMeasurable(files[1..])
  {
    hide Measurable;
    assert forall i | 0 <= i < |files[1..]| :: files[1..][i] == files[i + 1];
  }

  function Prefixed(b: Bytes): Bytes {
    BigEndian(|b|, LENGTH_BYTES) + b
  }

  function Framed(files: seq<File>): Bytes {
    if files == [] then []
    else Framed(files[..|files| - 1]) + (Prefixed(files[|files| - 1].path) + Prefixed(files[|files| - 1].payload))
  }

  /** `release_source_tree_sha256`: what the loop feeds to the digest. */
  method Feed(files: seq<File>) returns (fed: Bytes)
    ensures fed == Framed(files)
  {
    fed := [];
    for i := 0 to |files|
      invariant fed == Framed(files[..i])
    {
      ghost var before := fed;
      fed := fed + BigEndian(|files[i].path|, LENGTH_BYTES);
      fed := fed + files[i].path;
      fed := fed + BigEndian(|files[i].payload|, LENGTH_BYTES);
      fed := fed + files[i].payload;
      assert fed == before + (Prefixed(files[i].path) + Prefixed(files[i].payload));
      assert files[..i + 1][..i] == files[..i];
    }
    assert files[..|files|] == files;
  }

  /** The prefix is the length in eight bytes, the most significant first. */
  lemma PrefixedSays(b: Bytes)
    ensures |Prefixed(b)| == 8 + |b| && Prefixed(b)[8..] == b
    ensures forall i | 0 <= i < 8 :: Prefixed(b)[i] == Shifted(|b|, 7 - i) % 256
  {
    BigEndianDigits(|b|, 8);
    hide BigEndian;
    assert forall i | 0 <= i < 8 :: Prefixed(b)[i] == BigEndian(|b|, 8)[i];
  }

  function Shifted(n: nat, bytes: nat): nat {
    if bytes == 0 then n else Shifted(n / 256, bytes - 1)
  }

  lemma {:induction false} BigEndianDigits(n: nat, width: nat)
    ensures forall i | 0 <= i < width :: BigEndian(n, width)[i] == Shifted(n, width - 1 - i) % 256
  {
    if width > 0 {
      BigEndianDigits(n / 256, width - 1);
      forall i | 0 <= i < width ensures BigEndian(n, width)[i] == Shifted(n, width - 1 - i) % 256 {
        if i < width - 1 {
          assert BigEndian(n, width)[i] == BigEndian(n / 256, width - 1)[i];
        }
      }
    }
  }

  /** Reads one length and that many bytes. */
  function TakePrefixed(b: Bytes): Option<(Bytes, Bytes)> {
    if |b| < LENGTH_BYTES then None
    else
      var n := FromBigEndian(b[..LENGTH_BYTES]);
      if |b| - LENGTH_BYTES < n then None else Some((b[LENGTH_BYTES..LENGTH_BYTES + n], b[LENGTH_BYTES + n..]))
  }

  /** The decoder: nothing but the bytes, read from the front. */
  function Unframed(b: Bytes): Option<seq<File>>
    decreases |b|
  {
    if b == [] then Some([])
    else
      match TakePrefixed(b)
      case None => None
      case Some((path, rest)) =>
        match TakePrefixed(rest)
        case None => None
        case Some((payload, tail)) =>
          match Unframed(tail)
          case None => None
          case Some(files) => Some([File(path, payload)] + files)
  }

  lemma TakesPrefixed(b: Bytes, rest: Bytes)
    requires |b| < Pow256(LENGTH_BYTES)
    ensures TakePrefixed(Prefixed(b) + rest) == Some((b, rest))
  {
    var all := Prefixed(b) + rest;
    BigEndianRoundTrip(|b|, LENGTH_BYTES);
    assert all[..LENGTH_BYTES] == BigEndian(|b|, LENGTH_BYTES);
    assert all[LENGTH_BYTES..LENGTH_BYTES + |b|] == b && all[LENGTH_BYTES + |b|..] == rest;
  }

  lemma {:induction false} FramedFromFront(files: seq<File>)
    requires files != []
    ensures Framed(files) == Prefixed(files[0].path) + (Prefixed(files[0].payload) + Framed(files[1..]))
    decreases |files|
  {
    hide Prefixed;
    var init, last := files[..|files| - 1], files[|files| - 1];
    var r := Prefixed(last.path) + Prefixed(last.payload);
    assert Framed(files) == Framed(init) + r;
    if init == [] {
      assert files[1..] == [] && Framed(init) == [];
      assert [] + r == r == Prefixed(last.path) + (Prefixed(last.payload) + []);
    } else {
      FramedFromFront(init);
      var rest := files[1..];
      assert rest[..|rest| - 1] == init[1..] && rest[|rest| - 1] == last;
      assert Framed(rest) == Framed(init[1..]) + r;
      hide Framed;
      Reassociate(Prefixed(files[0].path), Prefixed(files[0].payload), Framed(init[1..]), r);
    }
  }

  lemma Reassociate<T>(p: seq<T>, q: seq<T>, s: seq<T>, r: seq<T>)
    ensures (p + (q + s)) + r == p + (q + (s + r))
  {
  }

  /** The decoder reads one file and goes on with the rest. */
  lemma UnframesFirst(files: seq<File>)
    requires files != [] && Measurable(files[0]) && Unframed(Framed(files[1..])) == Some(files[1..])
    ensures Unframed(Framed(files)) == Some(files)
  {
    hide Framed;
    var f, rest := files[0], Framed(files[1..]);
    var afterPath := Prefixed(f.payload) + rest;
    var all := Prefixed(f.path) + afterPath;
    TakesPrefixed(f.path, afterPath);
    TakesPrefixed(f.payload, rest);
    assert all != [];
    hide Prefixed, TakePrefixed;
    assert Unframed(all) == Some([File(f.path, f.payload)] + files[1..]);
    hide Unframed;
    FramedFromFront(files);
    assert [File(f.path, f.payload)] + files[1..] == files;
  }

  /** Length-prefixed framing is inverted by its decoder. */
  lemma {:induction false} FramingRoundTrip(files: seq<File>)
    requires AllMeasurable(files)
    ensures Unframed(Framed(files)) == Some(files)
    decreases |files|
  {
    if files != [] {
      hide *;
      TailMeasurable(files);
      FramingRoundTrip(files[1..]);
      UnframesFirst(files);
    }
  }

  ghost predicate CollisionlessOnBytes(sha: Bytes -> string) {
    forall a, b :: sha(a) == sha(b) ==> a == b
  }

  /** Two source trees with the same digest have the same files in the same order. */
  lemma SameDigestSameFiles(sha: Bytes -> string, a: seq<File>, b: seq<File>)
    requires CollisionlessOnBytes(sha)
    requires AllMeasurable(a) && AllMeasurable(b)
    ensures sha(Framed(a)) == sha(Framed(b)) <==> a == b
  {
    FramingRoundTrip(a);
    FramingRoundTrip(b);
  }

  // ----- rows of text -----

  const NUL: char := '\0'

  datatype Row = Row(path: string, bytes: nat, sha: string)

  /** Paths contain no NUL (no file system allows it) and digests no line feed. */
  predicate Framable(r: Row) {
    NUL !in r.path && '\n' !in r.sha
  }

  predicate AllFramable(rows: seq<Row>) {
    forall i | 0 <= i < |rows| :: Framable(rows[i])
  }

  lemma TailFramable(rows: seq<Row>)
    requires AllFramable(rows) && rows != []
    ensures Framable(rows[0]) && AllFramable(rows[1..])
  {
    hide Framable;
    assert forall i | 0 <= i < |rows[1..]| :: rows[1..][i] == rows[i + 1];
  }

  function RowText(r: Row): string {
    r.path + [NUL] + (Decimal(r.bytes) + [NUL] + (r.sha + ['\n']))
  }

  function RowsText(rows: seq<Row>): string {
    if rows == [] then "" else RowText(rows[0]) + RowsText(rows[1..])
  }

  /** A row is its path, decimal size and digest, a NUL after each of the first two and a line feed at the end. */
  lemma RowTextSays(r: Row)
    ensures RowText(r) == r.path + "\0" + Decimal(r.bytes) + "\0" + r.sha + "\n"
  {
    assert [NUL] == "\0" && ['\n'] == "\n";
  }

  /** Reads one row. */
  function TakeRow(s: string): Option<(Row, string)> {
    match SplitAt(s, NUL)
    case None => None
    case Some((path, afterPath)) =>
      match SplitAt(afterPath, NUL)
      case None => None
      case Some((digits, afterSize)) =>
        match SplitAt(afterSize, '\n')
        case None => None
        case Some((sha, rest)) =>
          if forall c :: c in digits ==> IsDigit(c) then Some((Row(path, DecimalValue(digits), sha), rest)) else None
  }

  lemma TakesRow(r: Row, rest: string)
    requires Framable(r)
    ensures TakeRow(RowText(r) + rest) == Some((r, rest))
  {
    var digits := Decimal(r.bytes);
    var afterSize := r.sha + ['\n'] + rest;
    var afterPath := digits + [NUL] + afterSize;
    assert RowText(r) + rest == r.path + [NUL] + afterPath;
    SplitAtFirst(r.path, NUL, afterPath);
    assert NUL !in digits;
    SplitAtFirst(digits, NUL, afterSize);
    SplitAtFirst(r.sha, '\n', rest);
    DecimalRoundTrip(r.bytes);
  }

  /** The decoder of the rows; `n` bounds their number. */
  function RowsOf(s: string, n: nat): Option<seq<Row>>
    decreases n
  {
    if s == "" then Some([])
    else if n == 0 then None
    else
      match TakeRow(s)
      case None => None
      case Some((row, rest)) =>
        match RowsOf(rest, n - 1)
        case None => None
        case Some(rows) => Some([row] + rows)
  }

  /** The decoder reads one row and goes on with the rest. */
  lemma RowsOfFirst(r: Row, rest: string, n: nat)
    requires Framable(r) && RowsOf(rest, n).Some?
    ensures RowsOf(RowText(r) + rest, n + 1) == Some([r] + RowsOf(rest, n).value)
  {
    TakesRow(r, rest);
    assert RowText(r) + rest != "";
    hide RowText, TakeRow;
  }

  /** Row framing is inverted by its decoder, for any bound that is large enough; the length of the text is one. */
  lemma {:induction false} RowsRoundTrip(rows: seq<Row>, n: nat)
    requires AllFramable(rows) && n >= |rows|
    ensures RowsOf(RowsText(rows), n) == Some(rows)
  {
    if rows != [] {
      hide RowText, RowsOf, AllFramable;
      var first, rest := rows[0], rows[1..];
      TailFramable(rows);
      RowsRoundTrip(rest, n - 1);
      assert RowsText(rows) == RowText(first) + RowsText(rest);
      RowsOfFirst(first, RowsText(rest), n - 1);
      assert rows == [first] + rest;
    }
  }

  lemma RowsTextInjective(a: seq<Row>, b: seq<Row>)
    requires AllFramable(a) && AllFramable(b)
    ensures RowsText(a) == RowsText(b) ==> a == b
  {
    var n := if |a| > |b| then |a| else |b|;
    RowsRoundTrip(a, n);
    RowsRoundTrip(b, n);
  }

  // ----- the payload root -----

  predicate ByPath(a: Row, b: Row) {
    TextLess(a.path, b.path)
  }

  ghost predicate PathsDistinct(rows: set<Row>) {
    forall a, b | a in rows && b in rows && a != b :: a.path != b.path
  }

  lemma PathsOrdered(rows: set<Row>)
    requires PathsDistinct(rows)
    ensures StrictOrderOn(ByPath, rows)
  {
    forall a, b, c | a in rows && b in rows && c in rows
      ensures !ByPath(a, a)
      ensures a == b || ByPath(a, b) || ByPath(b, a)
      ensures ByPath(a, b) && ByPath(b, c) ==> ByPath(a, c)
    {
      TextLessOrder(a.path, b.path, c.path);
    }
  }

  ghost function SortedRows(rows: set<Row>): seq<Row>
    requires PathsDistinct(rows)
  {
    PathsOrdered(rows);
    Sorted(rows, ByPath)
  }

  /** The aggregate root is a function of the set of rows: their order, and repetitions of a row, do not matter. */
  ghost function PayloadRoot(sha: string -> string, rows: set<Row>): string
    requires PathsDistinct(rows)
  {
    sha(RowsText(SortedRows(rows)))
  }

  /** `_payload_root` on a list of rows, in whatever order they come. */
  method PayloadRootOf(sha: string -> string, rows: seq<Row>) returns (root: string)
    requires PathsDistinct(Elements(rows))
    ensures root == PayloadRoot(sha, Elements(rows))
  {
    PathsOrdered(Elements(rows));
    var sorted := OrderBy(Elements(rows), ByPath);
    hide RowText, RowsText, PathsDistinct, ByPath, Elements;
    var text := "";
    JoinStarts(sorted);
    for i := 0 to |sorted|
      invariant text + RowsText(sorted[i..]) == RowsText(sorted)
    {
      JoinsOneMore(text, sorted, i);
      text := text + RowText(sorted[i]);
    }
    JoinEnds(text, sorted);
    root := sha(text);
  }

  lemma JoinStarts(rows: seq<Row>)
    ensures "" + RowsText(rows[0..]) == RowsText(rows)
  {
    assert rows[0..] == rows;
  }

  /** The text joined so far and the text of the rows still to come. */
  lemma JoinsOneMore(text: string, rows: seq<Row>, i: nat)
    requires i < |rows|
    ensures (text + RowText(rows[i])) + RowsText(rows[i + 1..]) == text + RowsText(rows[i..])
  {
    hide RowText;
    assert rows[i..][1..] == rows[i + 1..];
    assert RowsText(rows[i..]) == RowText(rows[i]) + RowsText(rows[i + 1..]);
  }

  lemma JoinEnds(text: string, rows: seq<Row>)
    ensures text + RowsText(rows[|rows|..]) == text
  {
  }

  /** With a digest that has no collisions, two sets of files have the same root exactly when they are the same. */
  lemma SameRootSameRows(sha: string -> string, a: set<Row>, b: set<Row>)
    requires forall x, y :: sha(x) == sha(y) ==> x == y
    requires PathsDistinct(a) && PathsDistinct(b)
    requires (forall r | r in a :: Framable(r)) && (forall r | r in b :: Framable(r))
    ensures PayloadRoot(sha, a) == PayloadRoot(sha, b) <==> a == b
  {
    PathsOrdered(a);
    PathsOrdered(b);
    var p, q := SortedRows(a), SortedRows(b);
    hide RowsText, Framable;
    assert AllFramable(p) by {
      assert forall i | 0 <= i < |p| :: p[i] in p;
    }
    assert AllFramable(q) by {
      assert forall i | 0 <= i < |q| :: q[i] in q;
    }
    RowsTextInjective(p, q);
    if p == q {
      assert forall r :: r in a <==> r in p;
    }
  }
}
