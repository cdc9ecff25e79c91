/**
  The base tag of an HTML view. The place is searched in the lower-cased text
  and used to cut the original. Both are byte strings, and a character and its
  lower case may take different numbers of bytes; a byte that belongs to no
  character becomes a replacement character of three.
*/
module BaseTag {
  import opened Options
  import Strings

  type Bytes = seq<nat>

  // ---------------------------------------------------------------- encoding

  /** UTF-8, section 3 of RFC 3629. */
  function Utf8(c: char): (b: Bytes)
    ensures 1 <= |b| <= 4
    ensures if c as int < 0x80 then b == [c as int] else forall i :: 0 <= i < |b| ==> b[i] >= 0x80
  {
    var x := c as int;
    if x < 0x80 then [x]
    else if x < 0x800 then [0xC0 + x / 64, 0x80 + x % 64]
    else if x < 0x10000 then [0xE0 + x / 4096, 0x80 + x / 64 % 64, 0x80 + x % 64]
    else [0xF0 + x / 262144, 0x80 + x / 4096 % 64, 0x80 + x / 64 % 64, 0x80 + x % 64]
  }

  type HighByte = x: nat | 0x80 <= x < 0x100 witness 0x80

  /** What the program's library takes a byte string to be made of: characters, and bytes that belong to none. */
  datatype Unit = Char(c: char) | Bad(b: HighByte)

  type Text = seq<Unit>

  function UnitBytes(u: Unit): (b: Bytes)
    ensures 1 <= |b| <= 4
    ensures if IsAscii(u) then b == [u.c as int] else forall i :: 0 <= i < |b| ==> b[i] >= 0x80
  {
    if u.Char? then Utf8(u.c) else [u.b]
  }

  predicate IsAscii(u: Unit) { u.Char? && u.c as int < 0x80 }

  function Encode(s: Text): Bytes { if s == [] then [] else UnitBytes(s[0]) + Encode(s[1..]) }

  predicate Ascii(s: Text) { forall i :: 0 <= i < |s| ==> IsAscii(s[i]) }

  type CaseMap = Strings.CaseMap

  const REPLACEMENT: char := '\U{FFFD}'

  function LowerUnit(lower: CaseMap, u: Unit): Unit { Char(if u.Char? then lower(u.c) else REPLACEMENT) }

  function ToLower(lower: CaseMap, s: Text): (r: Text)
    ensures |r| == |s| && forall i :: 0 <= i < |s| ==> r[i] == LowerUnit(lower, s[i])
  {
    seq(|s|, i requires 0 <= i < |s| => LowerUnit(lower, s[i]))
  }

  lemma {:induction false} EncodeConcat(a: Text, b: Text)
    ensures Encode(a + b) == Encode(a) + Encode(b)
  {
    if a == [] {
      assert a + b == b;
    } else {
      assert (a + b)[1..] == a[1..] + b;
      EncodeConcat(a[1..], b);
    }
  }

  lemma EncodeParts(s: Text, a: Text, b: Text)
    requires s == a + b
    ensures Encode(s) == Encode(a) + Encode(b)
  {
    EncodeConcat(a, b);
  }

  lemma EncodeSplit(s: Text, n: nat)
    requires n <= |s|
    ensures Encode(s) == Encode(s[..n]) + Encode(s[n..])
  {
    EncodeParts(s, s[..n], s[n..]);
  }

  lemma NotEmpty(s: Text)
    requires s != []
    ensures Encode(s) != []
  {
  }

  // ---------------------------------------------------------------- searching

  /** The first place of a pattern, or the length of the text. */
  function Find<T(==)>(s: seq<T>, p: seq<T>): (i: nat)
    requires p != []
    ensures i <= |s| && (i < |s| ==> p <= s[i..])
    ensures forall j :: 0 <= j < i ==> !(p <= s[j..])
  {
    if s == [] || p <= s then 0
    else
      assert forall j :: 0 < j <= |s| ==> s[j..] == s[1..][j - 1..];
      1 + Find(s[1..], p)
  }

  lemma {:induction false} AsciiPrefix(t: Text, p: Text)
    requires Ascii(p)
    ensures Encode(p) <= Encode(t) <==> p <= t
  {
    if p != [] && t != [] {
      AsciiPrefix(t[1..], p[1..]);
      var a, b := Encode(p), Encode(t);
      assert a[0] == p[0].c as int && a[1..] == Encode(p[1..]);
      if IsAscii(t[0]) {
        assert b[0] == t[0].c as int && b[1..] == Encode(t[1..]);
        PrefixSteps(a, b);
        PrefixSteps(p, t);
      } else {
        assert b[0] >= 0x80;
      }
    }
  }

  lemma PrefixSteps<T>(p: seq<T>, t: seq<T>)
    requires p != [] && t != []
    ensures p <= t <==> p[0] == t[0] && p[1..] <= t[1..]
  {
    assert p == [p[0]] + p[1..] && t == [t[0]] + t[1..];
    if p[0] == t[0] && p[1..] <= t[1..] {
      assert t == p + t[1..][|p[1..]|..];
    }
  }

  lemma {:induction false} SkipRest(u: Bytes, rest: Bytes, p: Bytes)
    requires p != [] && forall i :: 0 <= i < |u| ==> u[i] != p[0]
    ensures Find(u + rest, p) == |u| + Find(rest, p)
  {
    if u == [] {
      assert u + rest == rest;
    } else {
      assert (u + rest)[0] == u[0] && (u + rest)[1..] == u[1..] + rest;
      SkipRest(u[1..], rest, p);
    }
  }

  /** A pattern of single bytes starts in front of a character or behind it, never inside. */
  lemma FindPast(c: Unit, rest: Bytes, p: Bytes)
    requires p != [] && p[0] < 0x80 && !(p <= UnitBytes(c) + rest)
    ensures Find(UnitBytes(c) + rest, p) == |UnitBytes(c)| + Find(rest, p)
  {
    var u := UnitBytes(c);
    assert (u + rest)[1..] == u[1..] + rest;
    SkipRest(u[1..], rest, p);
  }

  lemma EncodePrefix(s: Text, n: nat)
    requires n < |s|
    ensures |Encode(s[..n + 1])| == |UnitBytes(s[0])| + |Encode(s[1..][..n])|
  {
    assert s[..n + 1][1..] == s[1..][..n] && s[..n + 1][0] == s[0];
  }

  lemma AsciiStart(p: Text)
    requires p != [] && Ascii(p)
    ensures Encode(p) != [] && Encode(p)[0] < 0x80
  {
  }

  /** If the text does not start with the pattern, both searches go past its first unit. */
  lemma FindNext(s: Text, p: Text, q: Bytes)
    requires s != [] && p != [] && Ascii(p) && q == Encode(p) && !(p <= s)
    ensures q != [] && Find(Encode(s), q) == |UnitBytes(s[0])| + Find(Encode(s[1..]), q)
    ensures Find(s, p) == 1 + Find(s[1..], p)
  {
    AsciiStart(p);
    AsciiPrefix(s, p);
    FindPast(s[0], Encode(s[1..]), q);
  }

  /** Searching the bytes finds what searching the characters finds. */
  lemma {:induction false} FindSame(s: Text, p: Text)
    requires p != [] && Ascii(p)
    ensures Encode(p) != [] && Find(Encode(s), Encode(p)) == |Encode(s[..Find(s, p)])|
  {
    AsciiStart(p);
    if s != [] && !(p <= s) {
      FindSame(s[1..], p);
      FindNext(s, p, Encode(p));
      EncodePrefix(s, Find(s[1..], p));
    } else {
      AsciiPrefix(s, p);
    }
  }

  // ---------------------------------------------------------------- the place

  const HEAD: Text := [Char('<'), Char('h'), Char('e'), Char('a'), Char('d')]
  const CLOSE: Text := [Char('>')]

  /** The same in bytes. */
  const HEAD_BYTES: Bytes := [0x3C, 0x68, 0x65, 0x61, 0x64]
  const CLOSE_BYTES: Bytes := [0x3E]

  /** Behind the first `>` that follows the first head tag; the start, if there is none. */
  function Place<T(==)>(t: seq<T>, head: seq<T>, close: seq<T>): (k: nat)
    requires head != [] && close != []
    ensures k <= |t|
  {
    var i := Find(t, head);
    if i == |t| then 0
    else
      var j := Find(t[i..], close);
      if i + j == |t| then 0 else i + j + 1
  }

  /** Cutting a text at an offset and putting the tag between; none where the offset is out of range. */
  function Insert(b: Bytes, k: nat, tag: Bytes): Option<Bytes> {
    if k <= |b| then Some(b[..k] + tag + b[k..]) else None
  }

  /** The bytes of the view; none where the program panics, because the place lies beyond the end. */
  function WithBase(lower: CaseMap, html: Text, tag: Bytes): Option<Bytes> {
    Insert(Encode(html), Place(Encode(ToLower(lower, html)), HEAD_BYTES, CLOSE_BYTES), tag)
  }

  /** The same place, counted in characters: it is where the tag belongs. */
  function CharPlace(lower: CaseMap, html: Text): (n: nat)
    ensures n <= |html|
  {
    Place(ToLower(lower, html), HEAD, CLOSE)
  }

  /** By how many bytes lower-casing lengthens what is before the place. */
  function Shift(lower: CaseMap, html: Text): int {
    var n := CharPlace(lower, html);
    |Encode(ToLower(lower, html[..n]))| - |Encode(html[..n])|
  }

  lemma EncodeCons(u: Unit, s: Text)
    ensures Encode([u] + s) == UnitBytes(u) + Encode(s)
  {
    assert ([u] + s)[1..] == s;
  }

  /** Single bytes for the characters of the patterns. */
  lemma {:induction false} AsciiBytes(s: Text)
    requires Ascii(s)
    ensures |Encode(s)| == |s| && forall i :: 0 <= i < |s| ==> Encode(s)[i] == s[i].c as int
  {
    if s != [] { AsciiBytes(s[1..]); }
  }

  lemma PatternBytes()
    ensures Encode(CLOSE) == CLOSE_BYTES && Encode(HEAD) == HEAD_BYTES && Ascii(HEAD) && Ascii(CLOSE)
  {
    AsciiBytes(CLOSE);
    AsciiBytes(HEAD);
  }

  /** The place, as a sum: what is before the head tag, what is up to its end, and one. */
  lemma PlaceOf<T>(t: seq<T>, head: seq<T>, close: seq<T>, i: nat, j: nat)
    requires head != [] && close != [] && i == Find(t, head) && i < |t| && j == Find(t[i..], close)
    ensures Place(t, head, close) == if j == |t| - i then 0 else i + j + 1
  {
  }

  lemma PlaceSame(t: Text)
    ensures Place(Encode(t), HEAD_BYTES, CLOSE_BYTES) == |Encode(t[..Place(t, HEAD, CLOSE)])|
  {
    PatternBytes();
    FindSame(t, HEAD);
    var i := Find(t, HEAD);
    if i == |t| {
      assert t[..i] == t;
    } else {
      var rest, j := t[i..], Find(t[i..], CLOSE);
      FindSame(rest, CLOSE);
      SuffixBytes(t, i);
      SuffixBytes(rest, j);
      PlaceOf(t, HEAD, CLOSE, i, j);
      PlaceOf(Encode(t), HEAD_BYTES, CLOSE_BYTES, |Encode(t[..i])|, |Encode(rest[..j])|);
      if j < |rest| { BehindClose(t, i, j); }
    }
  }

  lemma SuffixBytes(t: Text, i: nat)
    requires i <= |t|
    ensures |Encode(t[..i])| <= |Encode(t)| && Encode(t)[|Encode(t[..i])|..] == Encode(t[i..])
    ensures |Encode(t[..i])| == |Encode(t)| <==> i == |t|
  {
    EncodeSplit(t, i);
    if i < |t| { NotEmpty(t[i..]); }
  }

  lemma BehindClose(t: Text, i: nat, j: nat)
    requires i + j < |t| && CLOSE <= t[i..][j..]
    ensures |Encode(t[..i + j + 1])| == |Encode(t[..i])| + |Encode(t[i..][..j])| + 1
  {
    assert t[i + j] == t[i..][j..][0] == CLOSE[0] && [t[i + j]] == CLOSE;
    assert t[..i + j + 1] == t[..i] + t[i..][..j] + [t[i + j]];
    EncodeConcat(t[..i] + t[i..][..j], [t[i + j]]);
    EncodeConcat(t[..i], t[i..][..j]);
    PatternBytes();
  }

  // ---------------------------------------------------------------- where the tag lands

  /** The characters of a head tag stand here, in any case. */
  ghost predicate HeadAt(lower: CaseMap, html: Text, i: nat) {
    i + |HEAD| <= |html| && ToLower(lower, html[i..i + |HEAD|]) == HEAD
  }

  ghost predicate CloseAt(lower: CaseMap, html: Text, j: nat) {
    j < |html| && LowerUnit(lower, html[j]) == Char('>')
  }

  /** The first head tag of the original and the `>` that ends it. */
  ghost predicate FirstHead(lower: CaseMap, html: Text, i: nat, j: nat) {
    && i <= j && HeadAt(lower, html, i) && CloseAt(lower, html, j)
    && (forall h :: 0 <= h < i ==> !HeadAt(lower, html, h))
    && (forall h :: i <= h < j ==> !CloseAt(lower, html, h))
  }

  lemma HeadIsPrefix(lower: CaseMap, html: Text, i: nat)
    requires i <= |html|
    ensures HeadAt(lower, html, i) <==> HEAD <= ToLower(lower, html)[i..]
    ensures CloseAt(lower, html, i) <==> CLOSE <= ToLower(lower, html)[i..]
  {
    var t := ToLower(lower, html);
    if i + |HEAD| <= |html| {
      assert ToLower(lower, html[i..i + |HEAD|]) == t[i..][..|HEAD|];
    }
    if i < |html| { assert t[i..][..1] == [LowerUnit(lower, html[i])]; }
  }

  lemma HeadFound(lower: CaseMap, html: Text, i: nat)
    requires HeadAt(lower, html, i) && forall h :: 0 <= h < i ==> !HeadAt(lower, html, h)
    ensures Find(ToLower(lower, html), HEAD) == i
  {
    var t := ToLower(lower, html);
    forall h: nat | h <= |html| ensures HeadAt(lower, html, h) <==> HEAD <= t[h..] { HeadIsPrefix(lower, html, h); }
  }

  lemma FoundHead(lower: CaseMap, html: Text)
    ensures var i := Find(ToLower(lower, html), HEAD);
      (i < |html| ==> HeadAt(lower, html, i)) && forall h :: 0 <= h < i ==> !HeadAt(lower, html, h)
  {
    var t := ToLower(lower, html);
    forall h: nat | h <= |html| ensures HeadAt(lower, html, h) <==> HEAD <= t[h..] { HeadIsPrefix(lower, html, h); }
  }

  lemma FoundClose(lower: CaseMap, html: Text, i: nat)
    requires i <= |html|
    ensures var j := i + Find(ToLower(lower, html)[i..], CLOSE);
      (j < |html| ==> CloseAt(lower, html, j)) && forall h :: i <= h < j ==> !CloseAt(lower, html, h)
  {
    var t := ToLower(lower, html);
    forall h: nat | i <= h <= |html| ensures CloseAt(lower, html, h) <==> CLOSE <= t[i..][h - i..] {
      assert t[h..] == t[i..][h - i..];
      HeadIsPrefix(lower, html, h);
    }
  }

  /** The place is behind the first head tag of the original; without a complete one it is the start. */
  lemma PlaceIsBehindHead(lower: CaseMap, html: Text)
    ensures forall i: nat, j: nat :: FirstHead(lower, html, i, j) ==> CharPlace(lower, html) == j + 1
    ensures CharPlace(lower, html) > 0 ==> exists i: nat, j: nat :: FirstHead(lower, html, i, j)
  {
    forall i: nat, j: nat | FirstHead(lower, html, i, j) ensures CharPlace(lower, html) == j + 1 {
      HeadFound(lower, html, i);
      CloseFound(lower, html, i, j);
    }
    if CharPlace(lower, html) > 0 {
      var i := Find(ToLower(lower, html), HEAD);
      FoundHead(lower, html);
      FoundClose(lower, html, i);
      assert FirstHead(lower, html, i, i + Find(ToLower(lower, html)[i..], CLOSE));
    }
  }

  lemma CloseFound(lower: CaseMap, html: Text, i: nat, j: nat)
    requires i <= j && CloseAt(lower, html, j) && forall h :: i <= h < j ==> !CloseAt(lower, html, h)
    ensures i + Find(ToLower(lower, html)[i..], CLOSE) == j
  {
    var t := ToLower(lower, html);
    var n := Find(t[i..], CLOSE);
    forall h: nat | i <= h <= |html| ensures CloseAt(lower, html, h) <==> CLOSE <= t[i..][h - i..] {
      assert t[h..] == t[i..][h - i..];
      HeadIsPrefix(lower, html, h);
    }
    assert CLOSE <= t[i..][j - i..];
    assert CLOSE <= t[i..][i + n - i..];
    assert CloseAt(lower, html, i + n);
  }

  /**
    Exactly where the tag lands: as many bytes behind its place as lower-casing
    lengthens what is before it. The program panics if and only if that is
    beyond the end. Without a shift the tag stands in its place.
  */
  lemma TagLands(lower: CaseMap, html: Text, tag: Bytes)
    ensures var n := CharPlace(lower, html);
      Lands(Encode(html[..n]), Encode(html[n..]), Shift(lower, html), tag, WithBase(lower, html, tag))
  {
    var n := CharPlace(lower, html);
    InsertIs(lower, html, tag, n);
    InsertLands(Encode(html[..n]), Encode(html[n..]), Shift(lower, html), tag, WithBase(lower, html, tag));
  }

  lemma InsertIs(lower: CaseMap, html: Text, tag: Bytes, n: nat)
    requires n == CharPlace(lower, html)
    ensures WithBase(lower, html, tag)
      == Insert(Encode(html[..n]) + Encode(html[n..]), |Encode(ToLower(lower, html[..n]))|, tag)
  {
    OffsetIs(lower, html, n);
    EncodeSplit(html, n);
  }

  /** The tag stands `d` bytes behind the first of two parts of a text; nowhere exactly if that is beyond the second. */
  ghost predicate Lands(a: Bytes, z: Bytes, d: int, tag: Bytes, r: Option<Bytes>) {
    && |a| + d >= 0
    && (r.None? <==> d > |z|)
    && (r.Some? ==> |a| + d <= |a + z| && r.value == (a + z)[..|a| + d] + tag + (a + z)[|a| + d..])
    && (d == 0 ==> r == Some(a + tag + z))
  }

  lemma InsertLands(a: Bytes, z: Bytes, d: int, tag: Bytes, r: Option<Bytes>)
    requires |a| + d >= 0 && r == Insert(a + z, |a| + d, tag)
    ensures Lands(a, z, d, tag, r)
  {
    assert (a + z)[..|a|] == a && (a + z)[|a|..] == z;
  }

  lemma LowerPrefix(lower: CaseMap, s: Text, n: nat)
    requires n <= |s|
    ensures ToLower(lower, s)[..n] == ToLower(lower, s[..n])
  {
  }

  lemma OffsetOf(t: Text, before: Text, n: nat)
    requires n == Place(t, HEAD, CLOSE) && before == t[..n]
    ensures Place(Encode(t), HEAD_BYTES, CLOSE_BYTES) == |Encode(before)|
  {
    PlaceSame(t);
  }

  lemma OffsetIs(lower: CaseMap, html: Text, n: nat)
    requires n == CharPlace(lower, html)
    ensures Place(Encode(ToLower(lower, html)), HEAD_BYTES, CLOSE_BYTES) == |Encode(ToLower(lower, html[..n]))|
  {
    LowerPrefix(lower, html, n);
    OffsetOf(ToLower(lower, html), ToLower(lower, html[..n]), n);
  }

  lemma {:induction false} SameLengths(lower: CaseMap, s: Text)
    requires forall i :: 0 <= i < |s| ==> |UnitBytes(LowerUnit(lower, s[i]))| == |UnitBytes(s[i])|
    ensures |Encode(ToLower(lower, s))| == |Encode(s)|
  {
    if s != [] {
      assert ToLower(lower, s)[1..] == ToLower(lower, s[1..]);
      SameLengths(lower, s[1..]);
    }
  }

  /** If no character before the place changes its encoded length, the tag stands directly behind the head tag. */
  lemma TagIsInPlace(lower: CaseMap, html: Text, tag: Bytes)
    requires forall i :: 0 <= i < CharPlace(lower, html) ==>
      |UnitBytes(LowerUnit(lower, html[i]))| == |UnitBytes(html[i])|
    ensures var n := CharPlace(lower, html);
      WithBase(lower, html, tag) == Some(Encode(html[..n]) + tag + Encode(html[n..]))
  {
    SameLengths(lower, html[..CharPlace(lower, html)]);
    TagLands(lower, html, tag);
  }

  // ---------------------------------------------------------------- misplaced tags

  /** U+023A and its lower case U+2C65, the ohm sign U+2126 and its lower case U+03C9. */
  const STROKED: char := '\U{23A}'
  const STROKED_LOWER: char := '\U{2C65}'
  const OHM: char := '\U{2126}'
  const OMEGA: char := '\U{3C9}'

  /** A head tag. */
  const TAG: Text := HEAD + CLOSE

  /** Lower-casing leaves the characters of the head tag alone. */
  ghost predicate PlainHead(lower: CaseMap) { ToLower(lower, TAG) == TAG }

  /** A page of one character, or one bad byte, and a head tag. */
  function Page(u: Unit): Text { [u] + TAG }

  /** Its bytes. */
  function PageBytes(u: Unit): Bytes { UnitBytes(u) + [0x3C, 0x68, 0x65, 0x61, 0x64, 0x3E] }

  /** How many bytes the unit takes in lower case. */
  function LowerSize(lower: CaseMap, u: Unit): nat { |UnitBytes(LowerUnit(lower, u))| }

  /** If the head tag ends the page, all of it is before the place. */
  lemma AllBefore(lower: CaseMap, html: Text, tag: Bytes)
    requires CharPlace(lower, html) == |html|
    ensures WithBase(lower, html, tag) == Insert(Encode(html), |Encode(ToLower(lower, html))|, tag)
  {
    OffsetIs(lower, html, |html|);
    assert html[..|html|] == html;
  }

  lemma PagePlace(lower: CaseMap, u: Unit)
    requires PlainHead(lower)
    ensures CharPlace(lower, Page(u)) == 7
  {
    LowerHead(lower, u);
    HeadAfter(LowerUnit(lower, u));
  }

  lemma LowerPageSize(lower: CaseMap, u: Unit)
    requires PlainHead(lower)
    ensures |Encode(ToLower(lower, Page(u)))| == LowerSize(lower, u) + 6
  {
    LowerHead(lower, u);
    PageEncodes(LowerUnit(lower, u));
  }

  lemma OneBefore(lower: CaseMap, u: Unit, tag: Bytes)
    requires PlainHead(lower)
    ensures WithBase(lower, Page(u), tag) == Insert(PageBytes(u), LowerSize(lower, u) + 6, tag)
  {
    PagePlace(lower, u);
    AllBefore(lower, Page(u), tag);
    PageEncodes(u);
    LowerPageSize(lower, u);
  }

  lemma PageEncodes(u: Unit)
    ensures Encode(Page(u)) == PageBytes(u)
  {
    EncodeCons(u, TAG);
    AsciiBytes(TAG);
  }

  lemma LowerCons(lower: CaseMap, u: Unit, s: Text)
    ensures ToLower(lower, [u] + s) == [LowerUnit(lower, u)] + ToLower(lower, s)
  {
    var t, v := ToLower(lower, [u] + s), ToLower(lower, s);
    assert forall i :: 0 < i < |t| ==> t[i] == v[i - 1];
  }

  lemma LowerHead(lower: CaseMap, u: Unit)
    requires PlainHead(lower)
    ensures ToLower(lower, Page(u)) == Page(LowerUnit(lower, u))
  {
    LowerCons(lower, u, TAG);
  }

  lemma HeadAfter(u: Unit)
    ensures Place(Page(u), HEAD, CLOSE) == 7
  {
    var t := Page(u);
    assert t[1..] == TAG && HEAD <= TAG;
    assert !(HEAD <= t) by { assert HEAD[1] == Char('h') && t[1] == Char('<'); }
    assert Find(t, HEAD) == 1;
    CloseAfter();
  }

  lemma CloseAfter()
    ensures Find(TAG, CLOSE) == 5
  {
    assert TAG[5..] == CLOSE && forall j :: 0 <= j < 5 ==> TAG[j..][0] != Char('>');
  }

  /**
    In front of the head tag of a short page: the program panics if and only if
    lower-casing takes more bytes than the original.
  */
  lemma LongerLowerCasePanics(lower: CaseMap, u: Unit, tag: Bytes)
    requires PlainHead(lower)
    ensures LowerSize(lower, u) > |UnitBytes(u)| <==> WithBase(lower, Page(u), tag).None?
  {
    OneBefore(lower, u, tag);
  }

  /** For instance U+023A, whose lower case U+2C65 takes a byte more. */
  lemma StrokedLetterPanics(lower: CaseMap, tag: Bytes)
    requires PlainHead(lower) && lower(STROKED) == STROKED_LOWER
    ensures WithBase(lower, Page(Char(STROKED)), tag).None?
  {
    assert |Utf8(STROKED)| == 2 && |Utf8(STROKED_LOWER)| == 3;
    LongerLowerCasePanics(lower, Char(STROKED), tag);
  }

  /** And every byte that belongs to no character. */
  lemma BadBytePanics(lower: CaseMap, b: HighByte, tag: Bytes)
    requires PlainHead(lower)
    ensures WithBase(lower, Page(Bad(b)), tag).None?
  {
    assert |Utf8(REPLACEMENT)| == 3;
    LongerLowerCasePanics(lower, Bad(b), tag);
  }

  /** A letter that lower-casing shortens: the tag lands inside the head tag. */
  lemma ShorterLowerCaseMisplaces(lower: CaseMap, u: Unit, tag: Bytes)
    requires PlainHead(lower) && LowerSize(lower, u) < |UnitBytes(u)|
    ensures var at := LowerSize(lower, u) + 6;
      && |UnitBytes(u)| < at < |PageBytes(u)|
      && WithBase(lower, Page(u), tag) == Some(PageBytes(u)[..at] + tag + PageBytes(u)[at..])
  {
    OneBefore(lower, u, tag);
  }

  /** For the ohm sign U+2126, whose lower case takes a byte less, it stands before the end of the head tag. */
  lemma OhmSignMisplaces(lower: CaseMap, tag: Bytes)
    requires PlainHead(lower) && lower(OHM) == OMEGA
    ensures WithBase(lower, Page(Char(OHM)), tag)
      == Some(Utf8(OHM) + [0x3C, 0x68, 0x65, 0x61, 0x64] + tag + [0x3E])
  {
    assert |Utf8(OHM)| == 3 && |Utf8(OMEGA)| == 2;
    ShorterLowerCaseMisplaces(lower, Char(OHM), tag);
    CutBeforeLast(Utf8(OHM), PageBytes(Char(OHM)));
  }

  lemma CutBeforeLast(u: Bytes, b: Bytes)
    requires |u| == 3 && b == u + [0x3C, 0x68, 0x65, 0x61, 0x64, 0x3E]
    ensures b[..8] == u + [0x3C, 0x68, 0x65, 0x61, 0x64] && b[8..] == [0x3E]
  {
  }
}
