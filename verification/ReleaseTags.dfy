/**
 Release tags (scripts/release_check.py:317-337): the version grammar, the tag of a version, and which versions share
 one. What counts as a digit is a parameter: the regular expression takes every decimal digit of Unicode.
 */
module ReleaseTags {
  import opened Results
  import opened Texts

  datatype Phase = Alpha | Beta | Candidate

  /**
   A version the grammar matches: release segments, an optional pre-release phase with its number, an optional post
   number.
   */
  datatype Version = Version(release: string, pre: Option<(Phase, string)>, post: Option<string>)

  /** A digit is none of the other characters of the grammar and of tags; the ASCII digits are digits. */
  ghost predicate GoodDigits(digit: char -> bool) {
    (forall c | c in ".-abrcpost" :: !digit(c)) && (forall c | c in "0123456789" :: digit(c))
  }

  predicate IsDigits(digit: char -> bool, s: string) {
    s != "" && forall c | c in s :: digit(c)
  }

  predicate IsReleaseChar(digit: char -> bool, c: char) {
    digit(c) || c == '.'
  }

  /** Digits separated by single dots. */
  predicate IsRelease(digit: char -> bool, s: string) {
    && s != "" && digit(s[0]) && digit(s[|s| - 1])
    && (forall c | c in s :: IsReleaseChar(digit, c))
    && (forall i | 0 <= i < |s| - 1 :: s[i] == '.' ==> digit(s[i + 1]))
  }

  predicate WellFormed(digit: char -> bool, v: Version) {
    && IsRelease(digit, v.release)
    && (v.pre.Some? ==> IsDigits(digit, v.pre.value.1))
    && (v.post.Some? ==> IsDigits(digit, v.post.value))
  }

  function PhaseLetter(p: Phase): string {
    match p
    case Alpha => "a"
    case Beta => "b"
    case Candidate => "rc"
  }

  function PhaseLabel(p: Phase): string {
    match p
    case Alpha => "alpha"
    case Beta => "beta"
    case Candidate => "rc"
  }

  function PostText(post: Option<string>, mark: string): string {
    if post.None? then "" else mark + post.value
  }

  /** The text of a version in the grammar of the regular expression. */
  function VersionText(v: Version): string {
    v.release + (if v.pre.None? then "" else PhaseLetter(v.pre.value.0) + v.pre.value.1) + PostText(v.post, ".post")
  }

  function TagOf(v: Version): string {
    if v.pre.None? then "v" + v.release + PostText(v.post, ".post")
    else "v" + v.release + "-" + PhaseLabel(v.pre.value.0) + "." + v.pre.value.1 + PostText(v.post, ".")
  }

  ghost predicate Matches(digit: char -> bool, text: string, v: Version) {
    WellFormed(digit, v) && VersionText(v) == text
  }

  /** `expected_release_tag`; a text the grammar does not match is used as it is. */
  ghost function ExpectedReleaseTag(digit: char -> bool, text: string): string {
    if exists v :: Matches(digit, text, v)
    then
      var v :| Matches(digit, text, v);
      TagOf(v)
    else "v" + text
  }

  // ----- the part before the first character that is neither a digit nor a dot -----

  /** What follows the release segments in a version text or a tag, and what the two share. */
  lemma SameHead(digit: char -> bool, r: string, x: string, s: string, y: string)
    requires GoodDigits(digit)
    requires IsRelease(digit, r) && IsRelease(digit, s) && r + x == s + y
    requires (x == "" || !IsReleaseChar(digit, x[0]) || (|x| > 1 && x[0] == '.' && !IsReleaseChar(digit, x[1])))
    requires (y == "" || !IsReleaseChar(digit, y[0]) || (|y| > 1 && y[0] == '.' && !IsReleaseChar(digit, y[1])))
    ensures r == s && x == y
  {
    var a, b := Dotted(r, x), Dotted(s, y);
    var p, q := Undotted(x), Undotted(y);
    assert r + x == a + p && s + y == b + q;
    SplitUnique(c => IsReleaseChar(digit, c), a, p, b, q);
    assert r == if a[|a| - 1] == '.' then a[..|a| - 1] else a;
    assert s == if b[|b| - 1] == '.' then b[..|b| - 1] else b;
  }

  function Dotted(r: string, x: string): string {
    if x != "" && x[0] == '.' then r + "." else r
  }

  function Undotted(x: string): string {
    if x != "" && x[0] == '.' then x[1..] else x
  }

  /** The same for a number: digits that a non-digit or nothing follows. */
  lemma SameNumber(digit: char -> bool, n: string, x: string, m: string, y: string)
    requires GoodDigits(digit)
    requires IsDigits(digit, n) && IsDigits(digit, m) && n + x == m + y
    requires (x == "" || !digit(x[0])) && (y == "" || !digit(y[0]))
    ensures n == m && x == y
  {
    SplitUnique(digit, n, x, m, y);
  }

  // ----- a version is determined by its text -----

  function VersionRest(v: Version): string {
    (if v.pre.None? then "" else PhaseLetter(v.pre.value.0) + v.pre.value.1) + PostText(v.post, ".post")
  }

  lemma VersionRestStart(digit: char -> bool, v: Version)
    requires GoodDigits(digit)
    requires WellFormed(digit, v)
    ensures VersionText(v) == v.release + VersionRest(v)
    ensures var x := VersionRest(v);
            if v.pre.Some? then x != "" && x[0] == PhaseLetter(v.pre.value.0)[0] && !IsReleaseChar(digit, x[0])
            else if v.post.Some? then |x| > 1 && x[0] == '.' && x[1] == 'p' else x == ""
  {
  }

  lemma TextDetermines(digit: char -> bool, v: Version, w: Version)
    requires GoodDigits(digit)
    requires WellFormed(digit, v) && WellFormed(digit, w) && VersionText(v) == VersionText(w)
    ensures v == w
  {
    VersionRestStart(digit, v);
    VersionRestStart(digit, w);
    SameHead(digit, v.release, VersionRest(v), w.release, VersionRest(w));
    assert v.pre.Some? == w.pre.Some?;
    if v.pre.Some? {
      assert IsDigits(digit, v.pre.value.1) && IsDigits(digit, w.pre.value.1);
      assert VersionRest(v) == PhaseLetter(v.pre.value.0) + v.pre.value.1 + PostText(v.post, ".post");
      assert VersionRest(w) == PhaseLetter(w.pre.value.0) + w.pre.value.1 + PostText(w.post, ".post");
      PreDetermines(digit, v.pre.value, v.post, w.pre.value, w.post);
    } else {
      assert VersionRest(v) == PostText(v.post, ".post") && VersionRest(w) == PostText(w.post, ".post");
      PostDetermines(v.post, w.post, ".post");
    }
  }

  lemma PostDetermines(p: Option<string>, q: Option<string>, mark: string)
    requires mark != "" && PostText(p, mark) == PostText(q, mark)
    ensures p == q
  {
    if p.Some? && q.Some? {
      assert p.value == PostText(p, mark)[|mark|..] && q.value == PostText(q, mark)[|mark|..];
    }
  }

  lemma PreDetermines(digit: char -> bool, a: (Phase, string), p: Option<string>, b: (Phase, string), q: Option<string>)
    requires GoodDigits(digit)
    requires IsDigits(digit, a.1) && IsDigits(digit, b.1)
    requires PhaseLetter(a.0) + a.1 + PostText(p, ".post") == PhaseLetter(b.0) + b.1 + PostText(q, ".post")
    ensures a == b && p == q
  {
    var x, y := PostText(p, ".post"), PostText(q, ".post");
    assert (x == "" || x[0] == '.') && (y == "" || y[0] == '.');
    hide PostText;
    var s, t := PhaseLetter(a.0) + a.1 + x, PhaseLetter(b.0) + b.1 + y;
    assert s[0] == PhaseLetter(a.0)[0] && t[0] == PhaseLetter(b.0)[0];
    assert a.0 == b.0;
    var n := |PhaseLetter(a.0)|;
    assert s[n..] == a.1 + x && t[n..] == b.1 + y;
    SameNumber(digit, a.1, x, b.1, y);
    PostDetermines(p, q, ".post");
  }

  // ----- and by its tag -----

  function TagRest(v: Version): string {
    if v.pre.None? then PostText(v.post, ".post")
    else "-" + PhaseLabel(v.pre.value.0) + "." + (v.pre.value.1 + PostText(v.post, "."))
  }

  lemma TagRestStart(digit: char -> bool, v: Version)
    requires GoodDigits(digit)
    requires WellFormed(digit, v)
    ensures TagOf(v) == "v" + (v.release + TagRest(v))
    ensures var x := TagRest(v);
            if v.pre.Some? then |x| > 1 && x[0] == '-' && x[1] == PhaseLabel(v.pre.value.0)[0]
            else if v.post.Some? then |x| > 1 && x[0] == '.' && x[1] == 'p' else x == ""
  {
  }

  /** The tag determines the version: no two versions of the grammar share one. */
  lemma TagDetermines(digit: char -> bool, v: Version, w: Version)
    requires GoodDigits(digit)
    requires WellFormed(digit, v) && WellFormed(digit, w) && TagOf(v) == TagOf(w)
    ensures v == w
  {
    TagRestStart(digit, v);
    TagRestStart(digit, w);
    assert v.release + TagRest(v) == TagOf(v)[1..] && w.release + TagRest(w) == TagOf(w)[1..];
    SameHead(digit, v.release, TagRest(v), w.release, TagRest(w));
    assert v.pre.Some? == w.pre.Some?;
    if v.pre.Some? {
      PreTagDetermines(digit, v.pre.value, v.post, w.pre.value, w.post);
    } else {
      PostDetermines(v.post, w.post, ".post");
    }
  }

  lemma PreTagDetermines(digit: char -> bool, a: (Phase, string), p: Option<string>, b: (Phase, string),
                         q: Option<string>)
    requires GoodDigits(digit)
    requires IsDigits(digit, a.1) && IsDigits(digit, b.1)
    requires "-" + PhaseLabel(a.0) + "." + (a.1 + PostText(p, ".")) == "-" + PhaseLabel(b.0) + "."
             + (b.1 + PostText(q, "."))
    ensures a == b && p == q
  {
    var s := "-" + PhaseLabel(a.0) + "." + (a.1 + PostText(p, "."));
    var t := "-" + PhaseLabel(b.0) + "." + (b.1 + PostText(q, "."));
    assert s[1] == PhaseLabel(a.0)[0] && t[1] == PhaseLabel(b.0)[0];
    assert a.0 == b.0;
    var n := |PhaseLabel(a.0)| + 2;
    assert s[n..] == a.1 + PostText(p, ".") && t[n..] == b.1 + PostText(q, ".");
    SameNumber(digit, a.1, PostText(p, "."), b.1, PostText(q, "."));
    PostDetermines(p, q, ".");
  }

  // ----- which texts share a tag -----

  lemma TagOfMatched(digit: char -> bool, text: string, v: Version)
    requires GoodDigits(digit)
    requires Matches(digit, text, v)
    ensures ExpectedReleaseTag(digit, text) == TagOf(v)
  {
    forall w | Matches(digit, text, w) ensures w == v {
      TextDetermines(digit, w, v);
    }
  }

  /** The tag of each form of version, written out. */
  lemma TagOfText(digit: char -> bool, release: string, number: string, post: string)
    requires GoodDigits(digit) && IsRelease(digit, release) && IsDigits(digit, number) && IsDigits(digit, post)
    ensures ExpectedReleaseTag(digit, release) == "v" + release
    ensures ExpectedReleaseTag(digit, release + ".post" + post) == "v" + release + ".post" + post
    ensures ExpectedReleaseTag(digit, release + "a" + number) == "v" + release + "-alpha." + number
    ensures ExpectedReleaseTag(digit, release + "b" + number) == "v" + release + "-beta." + number
    ensures ExpectedReleaseTag(digit, release + "rc" + number) == "v" + release + "-rc." + number
    ensures ExpectedReleaseTag(digit, release + "a" + number + ".post" + post)
            == "v" + release + "-alpha." + number + "." + post
    ensures ExpectedReleaseTag(digit, release + "b" + number + ".post" + post)
            == "v" + release + "-beta." + number + "." + post
    ensures ExpectedReleaseTag(digit, release + "rc" + number + ".post" + post)
            == "v" + release + "-rc." + number + "." + post
  {
    FinalTag(digit, release, post);
    PhaseMarks();
    hide *;
    PhaseTag(digit, release, Alpha, "a", "-alpha.", number, post);
    PhaseTag(digit, release, Beta, "b", "-beta.", number, post);
    PhaseTag(digit, release, Candidate, "rc", "-rc.", number, post);
  }

  function PhaseMark(p: Phase): string {
    "-" + PhaseLabel(p) + "."
  }

  lemma PhaseMarks()
    ensures PhaseLetter(Alpha) == "a" && PhaseMark(Alpha) == "-alpha."
    ensures PhaseLetter(Beta) == "b" && PhaseMark(Beta) == "-beta."
    ensures PhaseLetter(Candidate) == "rc" && PhaseMark(Candidate) == "-rc."
  {
  }

  lemma FinalTag(digit: char -> bool, release: string, post: string)
    requires GoodDigits(digit) && IsRelease(digit, release) && IsDigits(digit, post)
    ensures ExpectedReleaseTag(digit, release) == "v" + release
    ensures ExpectedReleaseTag(digit, release + ".post" + post) == "v" + release + ".post" + post
  {
    var plain, posted := Version(release, None, None), Version(release, None, Some(post));
    assert VersionText(plain) == release && TagOf(plain) == "v" + release;
    assert VersionText(posted) == release + ".post" + post by {
      assert release + "" + (".post" + post) == release + ".post" + post;
    }
    assert TagOf(posted) == "v" + release + ".post" + post by {
      assert "v" + release + (".post" + post) == "v" + release + ".post" + post;
    }
    TagOfMatched(digit, release, plain);
    TagOfMatched(digit, release + ".post" + post, posted);
  }

  lemma PhaseTag(digit: char -> bool, release: string, p: Phase, letter: string, mark: string, number: string,
                 post: string)
    requires GoodDigits(digit) && IsRelease(digit, release) && IsDigits(digit, number) && IsDigits(digit, post)
    requires PhaseLetter(p) == letter && PhaseMark(p) == mark
    ensures ExpectedReleaseTag(digit, release + letter + number) == "v" + release + mark + number
    ensures ExpectedReleaseTag(digit, release + letter + number + ".post" + post)
            == "v" + release + mark + number + "." + post
  {
    var v, w := Version(release, Some((p, number)), None), Version(release, Some((p, number)), Some(post));
    var text, tag := release + letter + number, "v" + release + mark + number;
    assert VersionText(v) == text && VersionText(w) == text + ".post" + post by {
      assert release + (letter + number) + "" == text;
      assert release + (letter + number) + (".post" + post) == text + ".post" + post;
    }
    assert TagOf(v) == tag && TagOf(w) == tag + "." + post by {
      assert "v" + release + "-" + PhaseLabel(p) + "." == "v" + release + mark;
      assert tag + "" == tag && tag + ("." + post) == tag + "." + post;
    }
    assert WellFormed(digit, v) && WellFormed(digit, w);
    hide IsRelease, IsDigits, VersionText, TagOf;
    TagOfMatched(digit, text, v);
    TagOfMatched(digit, text + ".post" + post, w);
  }

  lemma HyphenUnmatched(digit: char -> bool, text: string)
    requires GoodDigits(digit)
    requires '-' in text
    ensures forall w :: !Matches(digit, text, w)
  {
    forall w ensures !Matches(digit, text, w) {
      if WellFormed(digit, w) {
        NoHyphen(digit, w);
      }
    }
  }

  lemma NoHyphen(digit: char -> bool, v: Version)
    requires GoodDigits(digit)
    requires WellFormed(digit, v)
    ensures '-' !in VersionText(v)
  {
    assert '-' !in PostText(v.post, ".post");
  }

  /** One text is a pre-release version, and the other is its tag without the leading "v". */
  ghost predicate PreReleaseTwin(digit: char -> bool, a: string, b: string) {
    exists v :: Matches(digit, a, v) && v.pre.Some? && "v" + b == TagOf(v)
  }

  /**
   On the versions the grammar matches the tag is injective. Over all texts, two different ones share a tag exactly when
   one of them is a pre-release version and the other is the text of its tag after the leading "v".
   */
  lemma SameTagIff(digit: char -> bool, a: string, b: string)
    requires GoodDigits(digit)
    requires a != b
    ensures ExpectedReleaseTag(digit, a) == ExpectedReleaseTag(digit, b)
            <==> PreReleaseTwin(digit, a, b) || PreReleaseTwin(digit, b, a)
  {
    hide TagOf;
    if PreReleaseTwin(digit, a, b) {
      TwinUnmatched(digit, a, b);
    }
    if PreReleaseTwin(digit, b, a) {
      TwinUnmatched(digit, b, a);
    }
    if (exists v :: Matches(digit, a, v)) && (exists w :: Matches(digit, b, w)) {
      var v :| Matches(digit, a, v);
      var w :| Matches(digit, b, w);
      TagOfMatched(digit, a, v);
      TagOfMatched(digit, b, w);
      if TagOf(v) == TagOf(w) {
        TagDetermines(digit, v, w);
      }
    } else if exists v :: Matches(digit, a, v) {
      var v :| Matches(digit, a, v);
      TagOfMatched(digit, a, v);
      TwinIff(digit, a, v, b);
    } else if exists w :: Matches(digit, b, w) {
      var w :| Matches(digit, b, w);
      TagOfMatched(digit, b, w);
      TwinIff(digit, b, w, a);
    } else {
      assert ("v" + a)[1..] == a && ("v" + b)[1..] == b;
    }
  }

  lemma TwinIff(digit: char -> bool, a: string, v: Version, b: string)
    requires GoodDigits(digit)
    requires a != b && Matches(digit, a, v)
    ensures PreReleaseTwin(digit, a, b) <==> "v" + b == TagOf(v)
  {
    if PreReleaseTwin(digit, a, b) {
      var w :| Matches(digit, a, w) && w.pre.Some? && "v" + b == TagOf(w);
      TextDetermines(digit, v, w);
    }
    if v.pre.None? {
      assert TagOf(v) == "v" + a;
      assert ("v" + a)[1..] == a && ("v" + b)[1..] == b;
    }
  }

  /** The tag of a pre-release has a hyphen, which no version has. */
  lemma TwinUnmatched(digit: char -> bool, a: string, b: string)
    requires GoodDigits(digit)
    requires PreReleaseTwin(digit, a, b)
    ensures forall w :: !Matches(digit, b, w)
  {
    var v :| Matches(digit, a, v) && v.pre.Some? && "v" + b == TagOf(v);
    TagRestStart(digit, v);
    var n := |v.release|;
    assert b == ("v" + b)[1..] == v.release + TagRest(v);
    assert b[n] == '-';
    HyphenUnmatched(digit, b);
  }

  /** So the tag of every pre-release is also the tag of another text: its own text after the leading "v". */
  lemma PreReleasesCollide(digit: char -> bool, v: Version)
    requires GoodDigits(digit)
    requires WellFormed(digit, v) && v.pre.Some?
    ensures var twin := TagOf(v)[1..];
            VersionText(v) != twin && ExpectedReleaseTag(digit, VersionText(v)) == ExpectedReleaseTag(digit, twin)
  {
    var twin := TagOf(v)[1..];
    assert TagOf(v) == "v" + twin;
    hide WellFormed, TagOf, VersionText;
    assert Matches(digit, VersionText(v), v);
    assert PreReleaseTwin(digit, VersionText(v), twin);
    TwinUnmatched(digit, VersionText(v), twin);
    SameTagIff(digit, VersionText(v), twin);
  }

  /** For instance "1.0a1" and "1.0-alpha.1". */
  lemma TagsCollide(digit: char -> bool)
    requires GoodDigits(digit)
    ensures ExpectedReleaseTag(digit, "1.0a1") == ExpectedReleaseTag(digit, "1.0-alpha.1")
  {
    var v := Version("1.0", Some((Alpha, "1")), None);
    assert WellFormed(digit, v) && VersionText(v) == "1.0a1" && TagOf(v)[1..] == "1.0-alpha.1";
    PreReleasesCollide(digit, v);
  }
}
