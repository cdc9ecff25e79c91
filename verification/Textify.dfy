/**
  Plain text from HTML: the tree walk, the whitespace automaton and the line
  filter, against recursive specifications, and what the transformation
  promises about every tree and every string.
*/
module Textify {
  import opened Options
  import opened Strings

  // ---------------------------------------------------------------- characters and words

  /** Every run of white space becomes one space. */
  function Collapse(s: string): string
    decreases |s|
  {
    if s == "" then ""
    else if IsSpace(s[0]) then " " + Collapse(SkipSpace(s[1..]))
    else [s[0]] + Collapse(s[1..])
  }

  /** What the loop still has to write, given whether a run of white space is open. */
  function Rest(space: bool, s: string): string {
    if space then " " + Collapse(SkipSpace(s)) else Collapse(s)
  }

  lemma RestStep(space: bool, s: string)
    requires s != ""
    ensures IsSpace(s[0]) ==> Rest(space, s) == Rest(true, s[1..])
    ensures !IsSpace(s[0]) ==> Rest(space, s) == (if space then " " else "") + ([s[0]] + Rest(false, s[1..]))
  {
  }

  method CollapseSpace(s: string) returns (b: string)
    ensures b == Collapse(s)
  {
    b := "";
    var space := false;
    for i := 0 to |s|
      invariant b + Rest(space, s[i..]) == Collapse(s)
    {
      assert s[i..][0] == s[i] && s[i..][1..] == s[i + 1..];
      RestStep(space, s[i..]);
      if IsSpace(s[i]) {
        space := true;
        continue;
      }
      Shift(b, if space then " " else "", s[i], Rest(false, s[i + 1..]));
      if space {
        b := b + " ";
        space := false;
      }
      b := b + [s[i]];
    }
    assert s[|s|..] == "";
    if space { b := b + " "; }
  }

  lemma Shift(b: string, gap: string, c: char, r: string)
    ensures b + (gap + ([c] + r)) == b + gap + [c] + r
    ensures b + "" == b
  {
  }

  /** The words of a line: its maximal runs of non-space characters. */
  function Fields(s: string): seq<string>
    decreases |s|
  {
    if s == "" then []
    else if IsSpace(s[0]) then Fields(s[1..])
    else [s[..WordLen(s)]] + Fields(s[WordLen(s)..])
  }

  function WordLen(s: string): (n: nat)
    requires s != "" && !IsSpace(s[0])
    ensures 0 < n <= |s| && (forall i :: 0 <= i < n ==> !IsSpace(s[i])) && (n < |s| ==> IsSpace(s[n]))
  {
    if |s| > 1 && !IsSpace(s[1]) then 1 + WordLen(s[1..]) else 1
  }

  function Join(parts: seq<string>, sep: string): string {
    if parts == [] then "" else if |parts| == 1 then parts[0] else parts[0] + sep + Join(parts[1..], sep)
  }

  function LineNorm(line: string): string { Join(Fields(line), " ") }

  /** The parts between the line breaks; a text without one is a single part. */
  function Split(s: string): (r: seq<string>)
    ensures |r| > 0
  {
    if s == "" then [""] else Cut(s[0], Split(s[1..]))
  }

  /** A character in front of a split text: a line break opens a part, any other joins the first one. */
  function Cut(c: char, r: seq<string>): (r': seq<string>)
    requires |r| > 0
    ensures |r'| > 0
  {
    if c == '\n' then [""] + r else [[c] + r[0]] + r[1..]
  }

  lemma CutConcat(c: char, r: seq<string>, q: seq<string>)
    requires |r| > 0
    ensures Cut(c, r + q) == Cut(c, r) + q
  {
  }

  /** Trimmed lines, empty ones left out. */
  function NormLines(lines: seq<string>): seq<string> {
    if lines == [] then []
    else (if LineNorm(lines[0]) == "" then [] else [LineNorm(lines[0])]) + NormLines(lines[1..])
  }

  function TextLines(s: string): seq<string> { NormLines(Split(s)) }

  function Normalize(s: string): string { Join(TextLines(s), "\n") }

  lemma {:induction false} NormLinesConcat(a: seq<string>, b: seq<string>)
    ensures NormLines(a + b) == NormLines(a) + NormLines(b)
  {
    if a == [] {
      assert a + b == b;
    } else {
      assert (a + b)[1..] == a[1..] + b;
      NormLinesConcat(a[1..], b);
    }
  }

  /** The filter works in the slice it reads from; it never overwrites a line it has yet to read. */
  method FilterLines(lines: array<string>) returns (n: nat)
    modifies lines
    ensures n <= lines.Length && lines[..n] == NormLines(old(lines[..]))
  {
    n := 0;
    ghost var was := lines[..];
    for i := 0 to lines.Length
      invariant n <= i
      invariant lines[..n] == NormLines(was[..i])
      invariant lines[i..] == was[i..]
    {
      assert lines[i] == lines[i..][0] == was[i];
      assert was[..i + 1] == was[..i] + [was[i]];
      NormLinesConcat(was[..i], [was[i]]);
      var ln := LineNorm(lines[i]);
      ghost var rest := lines[i + 1..];
      assert rest == was[i + 1..] by { assert rest == lines[i..][1..]; }
      if ln != "" {
        lines[n] := ln;
        n := n + 1;
        assert lines[..n] == lines[..n - 1] + [ln];
      }
      assert lines[i + 1..] == rest;
    }
    assert was[..lines.Length] == was;
  }

  method NormalizeText(s: string) returns (r: string)
    ensures r == Normalize(s)
  {
    var parts := Split(s);
    var lines := new string[|parts|](i requires 0 <= i < |parts| => parts[i]);
    assert lines[..] == parts;
    var n := FilterLines(lines);
    r := Join(lines[..n], "\n");
  }

  // ---------------------------------------------------------------- the normal form

  /** Words: not empty, without white space. */
  predicate Word(w: string) {
    w != "" && forall i :: 0 <= i < |w| ==> !IsSpace(w[i])
  }

  /** No white space at the ends, none doubled, and only spaces between words. */
  predicate NormalLine(l: string) {
    && l != "" && !IsSpace(l[0]) && !IsSpace(l[|l| - 1])
    && (forall i :: 0 <= i < |l| && IsSpace(l[i]) ==> l[i] == ' ')
    && (forall i :: 0 < i < |l| ==> !IsSpace(l[i - 1]) || !IsSpace(l[i]))
  }

  predicate Normal(s: string) {
    s == "" || forall l :: l in Split(s) ==> NormalLine(l)
  }

  lemma {:induction false} FieldsAreWords(s: string)
    ensures forall w :: w in Fields(s) ==> Word(w)
    decreases |s|
  {
    if s != "" {
      if IsSpace(s[0]) { FieldsAreWords(s[1..]); } else { FieldsAreWords(s[WordLen(s)..]); }
    }
  }

  lemma WordInFront(w: string, t: string)
    requires Word(w) && NormalLine(t)
    ensures NormalLine(w + [' '] + t)
  {
    var l := w + [' '] + t;
    assert forall i :: 0 <= i < |w| ==> l[i] == w[i];
    assert forall i :: |w| < i < |l| ==> l[i] == t[i - |w| - 1];
  }

  lemma {:induction false} JoinIsNormal(ws: seq<string>)
    requires ws != [] && forall w :: w in ws ==> Word(w)
    ensures NormalLine(Join(ws, " "))
  {
    assert ws[0] in ws;
    if |ws| > 1 {
      assert forall w :: w in ws[1..] ==> w in ws;
      JoinIsNormal(ws[1..]);
      WordInFront(ws[0], Join(ws[1..], " "));
      assert " " == [' '];
    }
  }

  lemma WordLenIs(l: string, n: nat)
    requires 0 < n <= |l| && (forall i :: 0 <= i < n ==> !IsSpace(l[i])) && (n < |l| ==> IsSpace(l[n]))
    ensures WordLen(l) == n
  {
  }

  lemma FieldsHead(w: string, rest: string)
    requires Word(w) && (rest == "" || IsSpace(rest[0]))
    ensures Fields(w + rest) == [w] + Fields(rest)
  {
    var l := w + rest;
    assert l[0] == w[0];
    assert forall i :: 0 <= i < |w| ==> l[i] == w[i];
    assert |w| < |l| ==> l[|w|] == rest[0];
    WordLenIs(l, |w|);
    assert l[..|w|] == w && l[|w|..] == rest;
  }

  /** Putting words together with spaces and taking them apart again changes nothing. */
  lemma {:induction false} FieldsOfJoin(ws: seq<string>)
    requires forall w :: w in ws ==> Word(w)
    ensures Fields(Join(ws, " ")) == ws
  {
    if |ws| == 1 {
      FieldsHead(ws[0], "");
      assert ws[0] + "" == ws[0];
    } else if ws != [] {
      assert forall w :: w in ws[1..] ==> w in ws;
      FieldsOfJoin(ws[1..]);
      var t := " " + Join(ws[1..], " ");
      FieldsHead(ws[0], t);
      assert ws[0] + t == Join(ws, " ");
      assert t[1..] == Join(ws[1..], " ");
    }
  }

  lemma LineNormIsNormal(l: string)
    ensures LineNorm(l) == "" || NormalLine(LineNorm(l))
    ensures LineNorm(LineNorm(l)) == LineNorm(l)
  {
    FieldsAreWords(l);
    FieldsOfJoin(Fields(l));
    if Fields(l) != [] { JoinIsNormal(Fields(l)); }
  }

  lemma NormalTail(l: string, n: nat)
    requires NormalLine(l) && n < |l| && IsSpace(l[n])
    ensures n + 1 < |l| && l[n] == ' ' && NormalLine(l[n + 1..])
  {
  }

  /** A normal line is one that normalising leaves alone. */
  lemma {:induction false} NormalLineFixed(l: string)
    requires NormalLine(l)
    ensures LineNorm(l) == l
    decreases |l|
  {
    var n := WordLen(l);
    assert l[..n] + l[n..] == l;
    FieldsHead(l[..n], l[n..]);
    if n < |l| {
      NormalTail(l, n);
      var t := l[n + 1..];
      NormalLineFixed(t);
      assert l[n..][1..] == t;
      assert Fields(l[n..]) == Fields(t);
      JoinCons(l[..n], Fields(t));
      Rejoin(l, n);
    } else {
      assert l[n..] == "";
    }
  }

  lemma Rejoin(l: string, n: nat)
    requires n < |l| && l[n] == ' '
    ensures l == l[..n] + " " + l[n + 1..]
  {
  }

  lemma JoinCons(w: string, ws: seq<string>)
    requires Join(ws, " ") != ""
    ensures Join([w] + ws, " ") == w + " " + Join(ws, " ")
  {
  }

  lemma {:induction false} SplitPlain(s: string)
    requires '\n' !in s
    ensures Split(s) == [s]
  {
    if s != "" {
      assert forall c :: c in s[1..] ==> c in s;
      SplitPlain(s[1..]);
      assert s[0] in s && Split(s[1..])[1..] == [];
      assert [s[0]] + s[1..] == s;
    }
  }

  /** A line break separates: the lines of both sides stand side by side. */
  lemma {:induction false} SplitAtBreak(a: string, b: string)
    ensures Split(a + "\n" + b) == Split(a) + Split(b)
  {
    var s := a + "\n" + b;
    if a == "" {
      assert s == "\n" + b && s[1..] == b;
    } else {
      SplitAtBreak(a[1..], b);
      assert s[1..] == a[1..] + "\n" + b;
      assert s[0] == a[0];
      CutConcat(a[0], Split(a[1..]), Split(b));
    }
  }

  lemma {:induction false} SplitOfJoin(ls: seq<string>)
    requires ls != [] && forall l :: l in ls ==> '\n' !in l
    ensures Split(Join(ls, "\n")) == ls
  {
    assert ls[0] in ls;
    SplitPlain(ls[0]);
    if |ls| > 1 {
      assert forall l :: l in ls[1..] ==> l in ls;
      SplitOfJoin(ls[1..]);
      SplitAtBreak(ls[0], Join(ls[1..], "\n"));
      assert ls == [ls[0]] + ls[1..];
    }
  }

  lemma {:induction false} NormLinesAreNormal(ls: seq<string>)
    ensures forall l :: l in NormLines(ls) ==> NormalLine(l)
  {
    if ls != [] {
      LineNormIsNormal(ls[0]);
      NormLinesAreNormal(ls[1..]);
    }
  }

  lemma {:induction false} NormLinesFixed(ls: seq<string>)
    requires forall l :: l in ls ==> NormalLine(l)
    ensures NormLines(ls) == ls
  {
    if ls != [] {
      assert ls[0] in ls && forall l :: l in ls[1..] ==> l in ls;
      NormalLineFixed(ls[0]);
      NormLinesFixed(ls[1..]);
    }
  }

  lemma NormalHasNoBreak(l: string)
    requires NormalLine(l)
    ensures '\n' !in l
  {
  }

  lemma LinesOfNormalize(s: string)
    ensures Normal(Normalize(s))
    ensures TextLines(s) != [] ==> Split(Normalize(s)) == TextLines(s)
  {
    NormLinesAreNormal(Split(s));
    var ls := TextLines(s);
    if ls != [] {
      forall l | l in ls ensures '\n' !in l { NormalHasNoBreak(l); }
      SplitOfJoin(ls);
    }
  }

  /** Normalising yields a normal form, and a text is in normal form exactly when normalising leaves it alone. */
  lemma NormalIffFixed(s: string)
    ensures Normal(Normalize(s))
    ensures Normal(s) <==> Normalize(s) == s
  {
    LinesOfNormalize(s);
    if Normal(s) {
      if s == "" {
        assert Split(s) == [""] && LineNorm("") == "";
        assert NormLines([""]) == NormLines([""][1..]);
      } else {
        NormLinesFixed(Split(s));
        JoinOfSplit(s);
      }
    }
  }

  lemma {:induction false} JoinOfSplit(s: string)
    ensures Join(Split(s), "\n") == s
  {
    if s != "" {
      var r := Split(s[1..]);
      JoinOfSplit(s[1..]);
      if s[0] == '\n' {
        assert Split(s)[1..] == r;
        assert s == "" + "\n" + s[1..];
      } else {
        assert Split(s)[1..] == r[1..] && Split(s)[0] == [s[0]] + r[0];
        assert s == [s[0]] + s[1..];
        if |r| > 1 { assert s[1..] == r[0] + "\n" + Join(r[1..], "\n"); }
      }
    }
  }

  lemma NormalizeIdempotent(s: string)
    ensures Normalize(Normalize(s)) == Normalize(s)
  {
    NormalIffFixed(s);
    NormalIffFixed(Normalize(s));
  }

  /** Normalising distributes over line breaks, so a line never depends on its neighbours. */
  lemma TextLinesConcat(a: string, b: string)
    ensures TextLines(a + "\n" + b) == TextLines(a) + TextLines(b)
  {
    SplitAtBreak(a, b);
    NormLinesConcat(Split(a), Split(b));
  }

  // ---------------------------------------------------------------- conservation

  lemma {:induction false} NonSpaceConcat(a: string, b: string)
    ensures NonSpace(a + b) == NonSpace(a) + NonSpace(b)
  {
    if a == "" {
      assert a + b == b;
    } else {
      assert (a + b)[1..] == a[1..] + b;
      NonSpaceConcat(a[1..], b);
    }
  }

  lemma {:induction false} CollapseKeeps(s: string)
    ensures NonSpace(Collapse(s)) == NonSpace(s)
    ensures '\n' !in Collapse(s)
    decreases |s|
  {
    if s != "" {
      if IsSpace(s[0]) {
        CollapseKeeps(SkipSpace(s[1..]));
        NonSpaceConcat(" ", Collapse(SkipSpace(s[1..])));
      } else {
        CollapseKeeps(s[1..]);
        NonSpaceConcat([s[0]], Collapse(s[1..]));
      }
    }
  }

  function Flatten(parts: seq<string>): string {
    if parts == [] then "" else parts[0] + Flatten(parts[1..])
  }

  lemma {:induction false} FlattenConcat(a: seq<string>, b: seq<string>)
    ensures Flatten(a + b) == Flatten(a) + Flatten(b)
  {
    if a == [] {
      assert a + b == b;
    } else {
      assert (a + b)[1..] == a[1..] + b;
      FlattenConcat(a[1..], b);
    }
  }

  lemma {:induction false} JoinKeeps(parts: seq<string>, sep: string)
    requires NonSpace(sep) == ""
    ensures NonSpace(Join(parts, sep)) == NonSpace(Flatten(parts))
  {
    if |parts| == 1 {
      assert parts[1..] == [];
      assert Flatten(parts) == parts[0];
    } else if parts != [] {
      JoinKeeps(parts[1..], sep);
      NonSpaceConcat(parts[0] + sep, Join(parts[1..], sep));
      NonSpaceConcat(parts[0], sep);
      NonSpaceConcat(parts[0], Flatten(parts[1..]));
    }
  }

  lemma {:induction false} FieldsKeep(s: string)
    ensures Flatten(Fields(s)) == NonSpace(s)
    decreases |s|
  {
    if s != "" {
      if IsSpace(s[0]) {
        FieldsKeep(s[1..]);
      } else {
        var n := WordLen(s);
        FieldsKeep(s[n..]);
        assert s == s[..n] + s[n..];
        NonSpaceConcat(s[..n], s[n..]);
        WordIsNonSpace(s[..n]);
        assert Fields(s)[1..] == Fields(s[n..]);
      }
    }
  }

  lemma {:induction false} WordIsNonSpace(w: string)
    requires forall i :: 0 <= i < |w| ==> !IsSpace(w[i])
    ensures NonSpace(w) == w
  {
    if w != "" { WordIsNonSpace(w[1..]); }
  }

  lemma LineKeeps(l: string)
    ensures NonSpace(LineNorm(l)) == NonSpace(l)
  {
    FieldsKeep(l);
    assert NonSpace(" ") == "";
    JoinKeeps(Fields(l), " ");
    NonSpaceTwice(l);
  }

  lemma {:induction false} NonSpaceTwice(s: string)
    ensures NonSpace(NonSpace(s)) == NonSpace(s)
  {
    if s != "" {
      NonSpaceTwice(s[1..]);
      NonSpaceConcat(if IsSpace(s[0]) then "" else [s[0]], NonSpace(s[1..]));
    }
  }

  lemma {:induction false} NormLinesKeep(ls: seq<string>)
    ensures NonSpace(Flatten(NormLines(ls))) == NonSpace(Flatten(ls))
  {
    if ls != [] {
      NormLinesKeep(ls[1..]);
      LineKeeps(ls[0]);
      var head := if LineNorm(ls[0]) == "" then [] else [LineNorm(ls[0])];
      FlattenConcat(head, NormLines(ls[1..]));
      assert Flatten(head) == LineNorm(ls[0]) by { if head != [] { assert head[1..] == []; } }
      NonSpaceConcat(Flatten(head), Flatten(NormLines(ls[1..])));
      NonSpaceConcat(ls[0], Flatten(ls[1..]));
    }
  }

  /** Normalising touches white space only. */
  lemma NormalizeKeeps(s: string)
    ensures NonSpace(Normalize(s)) == NonSpace(s)
  {
    assert NonSpace("\n") == "";
    JoinKeeps(TextLines(s), "\n");
    NormLinesKeep(Split(s));
    JoinKeeps(Split(s), "\n");
    JoinOfSplit(s);
  }

  // ---------------------------------------------------------------- words

  /** White space separates: no word reaches across it. */
  lemma {:induction false} FieldsAtSpace(a: string, c: char, b: string)
    requires IsSpace(c)
    ensures Fields(a + [c] + b) == Fields(a) + Fields(b)
    decreases |a|
  {
    var s := a + [c] + b;
    if a == "" {
      assert s == [c] + b && s[1..] == b;
    } else if IsSpace(a[0]) {
      assert s[1..] == a[1..] + [c] + b;
      FieldsAtSpace(a[1..], c, b);
    } else {
      var n := WordLen(a);
      var w, t := a[..n], a[n..];
      FieldsAtSpace(t, c, b);
      assert a == w + t;
      BeforeSpace(w, t, c, b);
    }
  }

  lemma BeforeSpace(w: string, t: string, c: char, b: string)
    requires IsSpace(c) && Word(w) && (t == "" || IsSpace(t[0])) && Fields(t + [c] + b) == Fields(t) + Fields(b)
    ensures Fields(w + t + [c] + b) == Fields(w + t) + Fields(b)
  {
    var rest := t + [c] + b;
    assert rest[0] == if t == "" then c else t[0];
    Behind(w, t, [c], b);
    FieldsHead(w, rest);
    FieldsHead(w, t);
    Regroup([w], Fields(t), Fields(b));
  }

  lemma Behind(w: string, t: string, c: string, b: string)
    ensures w + t + c + b == w + (t + c + b)
  {
  }

  function AllFields(ls: seq<string>): seq<string> {
    if ls == [] then [] else Fields(ls[0]) + AllFields(ls[1..])
  }

  lemma {:induction false} FieldsOfLines(ls: seq<string>)
    ensures Fields(Join(ls, "\n")) == AllFields(ls)
  {
    if |ls| == 1 {
      assert ls[1..] == [];
      assert AllFields(ls) == Fields(ls[0]) + [];
    } else if ls != [] {
      FieldsOfLines(ls[1..]);
      FieldsAtSpace(ls[0], '\n', Join(ls[1..], "\n"));
      assert "\n" == ['\n'];
    }
  }

  lemma {:induction false} NormLinesKeepWords(ls: seq<string>)
    ensures AllFields(NormLines(ls)) == AllFields(ls)
  {
    if ls != [] {
      NormLinesKeepWords(ls[1..]);
      FieldsAreWords(ls[0]);
      FieldsOfJoin(Fields(ls[0]));
      if LineNorm(ls[0]) != "" {
        assert NormLines(ls)[1..] == NormLines(ls[1..]);
      } else {
        assert Fields("") == [];
        assert NormLines(ls) == NormLines(ls[1..]);
      }
    }
  }

  /** Normalising keeps every word, whole and in order. */
  lemma NormalizeKeepsWords(s: string)
    ensures Fields(Normalize(s)) == Fields(s)
  {
    FieldsOfLines(TextLines(s));
    NormLinesKeepWords(Split(s));
    FieldsOfLines(Split(s));
    JoinOfSplit(s);
  }

  lemma {:induction false} SkipKeepsWords(s: string)
    ensures Fields(SkipSpace(s)) == Fields(s)
  {
    if s != "" && IsSpace(s[0]) { SkipKeepsWords(s[1..]); }
  }

  lemma {:induction false} CollapseWord(s: string)
    requires s != "" && !IsSpace(s[0])
    ensures Collapse(s) == s[..WordLen(s)] + Collapse(s[WordLen(s)..])
  {
    if |s| > 1 && !IsSpace(s[1]) {
      CollapseWord(s[1..]);
      var n := WordLen(s);
      assert s[..n] == [s[0]] + s[1..][..n - 1] && s[n..] == s[1..][n - 1..];
    } else {
      assert s[..1] == [s[0]];
    }
  }

  /** So does collapsing the white space of a text node. */
  lemma {:induction false} CollapseKeepsWords(s: string)
    ensures Fields(Collapse(s)) == Fields(s)
    decreases |s|
  {
    if s != "" && IsSpace(s[0]) {
      SkipKeepsWords(s[1..]);
      CollapseKeepsWords(SkipSpace(s[1..]));
      assert Collapse(s)[1..] == Collapse(SkipSpace(s[1..]));
    } else if s != "" {
      var n := WordLen(s);
      CollapseWord(s);
      CollapseKeepsWords(s[n..]);
      assert s == s[..n] + s[n..];
      FieldsHead(s[..n], s[n..]);
      FieldsHead(s[..n], Collapse(s[n..]));
    }
  }

  // ---------------------------------------------------------------- the tree

  datatype Node =
    | Text(data: string)
    | Element(tag: string, children: seq<Node>)
    | Other(children: seq<Node>)

  const DROPPED := {"script", "style", "head", "noscript", "template", "svg"}

  const BLOCKS := {
    "p", "div", "blockquote", "pre", "hr", "h1", "h2", "h3", "h4", "h5", "h6", "ul", "ol", "li",
    "table", "thead", "tbody", "tr", "section", "article", "header", "footer"}

  /** What an element writes before and after its children. */
  function Opening(tag: string): string {
    (if tag == "td" || tag == "th" then "  " else "") + (if tag in BLOCKS then "\n" else "")
      + (if tag == "li" then "- " else "")
  }

  function Closing(tag: string): string { if tag in BLOCKS then "\n" else "" }

  function Render(n: Node): string
    decreases n, 1
  {
    match n
    case Text(data) => Collapse(data)
    case Other(children) => RenderAll(children)
    case Element(tag, children) =>
      if tag in DROPPED then ""
      else if tag == "br" then "\n"
      else Opening(tag) + RenderAll(children) + Closing(tag)
  }

  function RenderAll(ns: seq<Node>): string
    decreases ns, 0
  {
    if ns == [] then "" else Render(ns[0]) + RenderAll(ns[1..])
  }

  function HtmlToText(doc: Node): string { Normalize(Render(doc)) }

  lemma {:induction false} RenderAllConcat(a: seq<Node>, b: seq<Node>)
    ensures RenderAll(a + b) == RenderAll(a) + RenderAll(b)
  {
    if a == [] {
      assert a + b == b;
    } else {
      assert (a + b)[1..] == a[1..] + b;
      RenderAllConcat(a[1..], b);
    }
  }

  lemma RenderNext(ns: seq<Node>, i: nat)
    requires i < |ns|
    ensures RenderAll(ns[..i + 1]) == RenderAll(ns[..i]) + Render(ns[i])
  {
    assert ns[..i + 1] == ns[..i] + [ns[i]];
    RenderAllConcat(ns[..i], [ns[i]]);
    assert RenderAll([ns[i]]) == Render(ns[i]);
  }

  class Builder {
    var text: string
    constructor ()
      ensures text == ""
    { text := ""; }

    method Write(s: string)
      modifies this
      ensures text == old(text) + s
    { text := text + s; }
  }

  method WriteOpening(tag: string, b: Builder)
    modifies b
    ensures b.text == old(b.text) + Opening(tag)
  {
    if tag == "td" || tag == "th" { b.Write("  "); }
    if tag in BLOCKS { b.Write("\n"); }
    if tag == "li" { b.Write("- "); }
  }

  method Walk(n: Node, b: Builder)
    modifies b
    ensures b.text == old(b.text) + Render(n)
    decreases n
  {
    if n.Element? {
      if n.tag in DROPPED { return; }
      if n.tag == "br" {
        b.Write("\n");
        return;
      }
      WriteOpening(n.tag, b);
    }
    if n.Text? {
      var t := CollapseSpace(n.data);
      b.Write(t);
      return;
    }
    ghost var before := b.text;
    for i := 0 to |n.children|
      invariant b.text == before + RenderAll(n.children[..i])
    {
      Walk(n.children[i], b);
      RenderNext(n.children, i);
      Regroup(before, RenderAll(n.children[..i]), Render(n.children[i]));
    }
    assert n.children[..|n.children|] == n.children;
    if n.Element? && n.tag in BLOCKS { b.Write("\n"); }
  }

  method HtmlText(doc: Node) returns (r: string)
    ensures r == HtmlToText(doc)
  {
    var b := new Builder();
    Walk(doc, b);
    assert b.text == Render(doc);
    r := NormalizeText(b.text);
  }

  /** What a reader must be able to find: the non-space text outside dropped elements, and a dash per list item. */
  function Visible(n: Node): string
    decreases n, 1
  {
    match n
    case Text(data) => NonSpace(data)
    case Other(children) => VisibleAll(children)
    case Element(tag, children) =>
      if tag in DROPPED || tag == "br" then ""
      else (if tag == "li" then "-" else "") + VisibleAll(children)
  }

  function VisibleAll(ns: seq<Node>): string
    decreases ns, 0
  {
    if ns == [] then "" else Visible(ns[0]) + VisibleAll(ns[1..])
  }

  lemma TagsKeep(tag: string)
    ensures NonSpace(Opening(tag)) == if tag == "li" then "-" else ""
    ensures NonSpace(Closing(tag)) == ""
  {
    assert NonSpace("  ") == NonSpace("\n") == NonSpace("") == "";
    assert NonSpace("- ") == "-";
    NonSpaceConcat((if tag == "td" || tag == "th" then "  " else "") + (if tag in BLOCKS then "\n" else ""),
                   if tag == "li" then "- " else "");
    NonSpaceConcat(if tag == "td" || tag == "th" then "  " else "", if tag in BLOCKS then "\n" else "");
  }

  lemma {:induction false} RenderKeeps(n: Node)
    ensures NonSpace(Render(n)) == Visible(n)
    decreases n, 1
  {
    match n
    case Text(data) => CollapseKeeps(data);
    case Other(children) => RenderAllKeeps(children);
    case Element(tag, children) =>
      if tag == "br" { assert NonSpace("\n") == ""; }
      else if tag !in DROPPED {
        RenderAllKeeps(children);
        TagsKeep(tag);
        NonSpaceConcat(Opening(tag) + RenderAll(children), Closing(tag));
        NonSpaceConcat(Opening(tag), RenderAll(children));
      }
  }

  lemma {:induction false} RenderAllKeeps(ns: seq<Node>)
    ensures NonSpace(RenderAll(ns)) == VisibleAll(ns)
    decreases ns, 0
  {
    if ns != [] {
      RenderKeeps(ns[0]);
      RenderAllKeeps(ns[1..]);
      NonSpaceConcat(Render(ns[0]), RenderAll(ns[1..]));
    }
  }

  /** Conservation: the text shown is the visible text, in document order, nothing lost and nothing added. */
  lemma TextIsConserved(doc: Node)
    ensures NonSpace(HtmlToText(doc)) == Visible(doc)
    ensures Fields(HtmlToText(doc)) == Fields(Render(doc))
  {
    RenderKeeps(doc);
    NormalizeKeepsWords(Render(doc));
    NormalizeKeeps(Render(doc));
  }

  // ---------------------------------------------------------------- lines

  function Breaks(s: string): nat {
    if s == "" then 0 else (if s[0] == '\n' then 1 else 0) + Breaks(s[1..])
  }

  lemma {:induction false} BreaksConcat(a: string, b: string)
    ensures Breaks(a + b) == Breaks(a) + Breaks(b)
  {
    if a == "" {
      assert a + b == b;
    } else {
      assert (a + b)[1..] == a[1..] + b;
      BreaksConcat(a[1..], b);
    }
  }

  lemma {:induction false} NoBreaks(s: string)
    requires '\n' !in s
    ensures Breaks(s) == 0
  {
    if s != "" {
      assert s[0] in s && forall c :: c in s[1..] ==> c in s;
      NoBreaks(s[1..]);
    }
  }

  lemma {:induction false} SplitCounts(s: string)
    ensures |Split(s)| == 1 + Breaks(s)
  {
    if s != "" { SplitCounts(s[1..]); }
  }

  lemma {:induction false} NormLinesCount(ls: seq<string>)
    ensures |NormLines(ls)| <= |ls|
  {
    if ls != [] { NormLinesCount(ls[1..]); }
  }

  /** The line breaks the structure asks for: one per br, two around each block. */
  function Structure(n: Node): nat
    decreases n, 1
  {
    match n
    case Text(_) => 0
    case Other(children) => StructureAll(children)
    case Element(tag, children) =>
      if tag in DROPPED then 0 else if tag == "br" then 1
      else (if tag in BLOCKS then 2 else 0) + StructureAll(children)
  }

  function StructureAll(ns: seq<Node>): nat
    decreases ns, 0
  {
    if ns == [] then 0 else Structure(ns[0]) + StructureAll(ns[1..])
  }

  lemma TagBreaks(tag: string)
    ensures Breaks(Opening(tag)) == Breaks(Closing(tag)) == if tag in BLOCKS then 1 else 0
  {
    assert Breaks("  ") == Breaks("") == Breaks("- ") == 0 && Breaks("\n") == 1;
    BreaksConcat((if tag == "td" || tag == "th" then "  " else "") + (if tag in BLOCKS then "\n" else ""),
                 if tag == "li" then "- " else "");
    BreaksConcat(if tag == "td" || tag == "th" then "  " else "", if tag in BLOCKS then "\n" else "");
  }

  /** Line breaks come from the structure only, never from the text. */
  lemma {:induction false} BreaksAreStructure(n: Node)
    ensures Breaks(Render(n)) == Structure(n)
    decreases n, 1
  {
    match n
    case Text(data) =>
      CollapseKeeps(data);
      NoBreaks(Collapse(data));
    case Other(children) => BreaksAreStructureAll(children);
    case Element(tag, children) =>
      if tag == "br" { assert Breaks("\n") == 1; }
      else if tag !in DROPPED {
        BreaksAreStructureAll(children);
        TagBreaks(tag);
        BreaksConcat(Opening(tag) + RenderAll(children), Closing(tag));
        BreaksConcat(Opening(tag), RenderAll(children));
      }
  }

  lemma {:induction false} BreaksAreStructureAll(ns: seq<Node>)
    ensures Breaks(RenderAll(ns)) == StructureAll(ns)
    decreases ns, 0
  {
    if ns != [] {
      BreaksAreStructure(ns[0]);
      BreaksAreStructureAll(ns[1..]);
      BreaksConcat(Render(ns[0]), RenderAll(ns[1..]));
    }
  }

  /** The text has at most one line more than the structure has breaks. */
  lemma LinesAreBounded(doc: Node)
    ensures HtmlToText(doc) == "" || |Split(HtmlToText(doc))| <= 1 + Structure(doc)
  {
    LinesOfNormalize(Render(doc));
    NormLinesCount(Split(Render(doc)));
    SplitCounts(Render(doc));
    BreaksAreStructure(doc);
  }

  // ---------------------------------------------------------------- blocks

  lemma BlankEdge(s: string)
    ensures TextLines("\n" + s) == TextLines(s) == TextLines(s + "\n")
  {
    assert TextLines("") == [] by {
      assert LineNorm("") == "";
      assert NormLines([""]) == NormLines([""][1..]);
    }
    assert "" + "\n" + s == "\n" + s && s + "\n" + "" == s + "\n";
    TextLinesConcat("", s);
    TextLinesConcat(s, "");
  }

  /**
    The lines of a block element do not depend on what surrounds it: among any
    siblings they appear unchanged, between the lines of what is before and
    after.
  */
  lemma BlocksAreIndependent(pre: seq<Node>, block: Node, post: seq<Node>)
    requires block.Element? && block.tag in BLOCKS
    ensures TextLines(RenderAll(pre + [block] + post))
      == TextLines(RenderAll(pre)) + TextLines(Render(block)) + TextLines(RenderAll(post))
  {
    var a, b, c := RenderAll(pre), Render(block), RenderAll(post);
    RenderAllConcat(pre + [block], post);
    RenderAllConcat(pre, [block]);
    assert RenderAll([block]) == b;
    var inner := Inner(block);
    BlockShape(block);
    InBetween(a, inner, c);
  }

  function Inner(block: Node): string
    requires block.Element?
  {
    (if block.tag == "li" then "- " else "") + RenderAll(block.children)
  }

  lemma BlockShape(block: Node)
    requires block.Element? && block.tag in BLOCKS
    ensures Render(block) == "\n" + Inner(block) + "\n"
  {
    assert block.tag !in DROPPED && block.tag != "br" && block.tag != "td" && block.tag != "th";
  }

  lemma InBetween(a: string, inner: string, c: string)
    ensures TextLines(a + ("\n" + inner + "\n") + c) == TextLines(a) + TextLines("\n" + inner + "\n") + TextLines(c)
  {
    assert a + ("\n" + inner + "\n") + c == a + "\n" + (inner + "\n" + c);
    TextLinesConcat(a, inner + "\n" + c);
    TextLinesConcat(inner, c);
    BlankEdge(inner);
    BlankEdge("\n" + inner);
  }

  // ---------------------------------------------------------------- a block at any depth

  /** A tree with a hole: the element around it (none for other nodes), its earlier and later siblings. */
  datatype Context = Hole | Within(tag: Option<string>, pre: seq<Node>, hole: Context, post: seq<Node>)

  function Plug(ctx: Context, n: Node): Node {
    match ctx
    case Hole => n
    case Within(tag, pre, hole, post) =>
      var children := pre + [Plug(hole, n)] + post;
      if tag.Some? then Element(tag.value, children) else Other(children)
  }

  /** No element around the hole is dropped. */
  predicate Open(ctx: Context) {
    ctx.Within? ==> (ctx.tag.Some? ==> ctx.tag.value !in DROPPED && ctx.tag.value != "br") && Open(ctx.hole)
  }

  /** What is written before the hole, and after it. */
  function Before(ctx: Context): string {
    if ctx.Hole? then ""
    else (if ctx.tag.Some? then Opening(ctx.tag.value) else "") + RenderAll(ctx.pre) + Before(ctx.hole)
  }

  function After(ctx: Context): string {
    if ctx.Hole? then ""
    else After(ctx.hole) + RenderAll(ctx.post) + (if ctx.tag.Some? then Closing(ctx.tag.value) else "")
  }

  lemma RenderAmong(pre: seq<Node>, n: Node, post: seq<Node>)
    ensures RenderAll(pre + [n] + post) == RenderAll(pre) + Render(n) + RenderAll(post)
  {
    RenderAllConcat(pre + [n], post);
    RenderAllConcat(pre, [n]);
    assert RenderAll([n]) == Render(n);
  }

  lemma {:induction false} RenderPlug(ctx: Context, n: Node)
    ensures Open(ctx) ==> Render(Plug(ctx, n)) == Before(ctx) + Render(n) + After(ctx)
  {
    if ctx.Within? {
      RenderPlug(ctx.hole, n);
      RenderAmong(ctx.pre, Plug(ctx.hole, n), ctx.post);
      if Open(ctx) {
        var o := if ctx.tag.Some? then Opening(ctx.tag.value) else "";
        var c := if ctx.tag.Some? then Closing(ctx.tag.value) else "";
        assert Render(Plug(ctx, n)) == o + RenderAll(ctx.pre + [Plug(ctx.hole, n)] + ctx.post) + c;
        Nest(o, RenderAll(ctx.pre), Before(ctx.hole), Render(n), After(ctx.hole), RenderAll(ctx.post), c);
      }
    } else {
      assert "" + Render(n) + "" == Render(n);
    }
  }

  lemma Nest(o: string, p: string, b: string, x: string, a: string, q: string, c: string)
    ensures o + (p + (b + x + a) + q) + c == (o + p + b) + x + (a + q + c)
  {
  }

  /** Under a dropped element nothing shows, whatever it is. */
  lemma {:induction false} HiddenPlug(ctx: Context, n: Node, n': Node)
    requires !Open(ctx)
    ensures Render(Plug(ctx, n)) == Render(Plug(ctx, n'))
  {
    if !(ctx.tag.Some? && (ctx.tag.value in DROPPED || ctx.tag.value == "br")) {
      HiddenPlug(ctx.hole, n, n');
      RenderAmong(ctx.pre, Plug(ctx.hole, n), ctx.post);
      RenderAmong(ctx.pre, Plug(ctx.hole, n'), ctx.post);
    }
  }

  /**
    At any depth of any tree: the lines of a block element stand in the text
    unchanged, between lines that depend only on what is around the block.
  */
  lemma BlocksStandAlone(ctx: Context, block: Node)
    requires Open(ctx) && block.Element? && block.tag in BLOCKS
    ensures TextLines(Render(Plug(ctx, block)))
      == TextLines(Before(ctx)) + TextLines(Render(block)) + TextLines(After(ctx))
    ensures HtmlToText(Plug(ctx, block)) != "" ==>
      Split(HtmlToText(Plug(ctx, block))) == TextLines(Before(ctx)) + TextLines(Render(block)) + TextLines(After(ctx))
  {
    RenderPlug(ctx, block);
    BlockShape(block);
    InBetween(Before(ctx), Inner(block), After(ctx));
    LinesOfNormalize(Render(Plug(ctx, block)));
  }

  // ---------------------------------------------------------------- words and the elements between them

  lemma SpaceInFront(a: string, x: string)
    requires x == "" || IsSpace(x[0])
    ensures Fields(a + x) == Fields(a) + Fields(x)
  {
    if x == "" {
      assert a + x == a && Fields(a) + [] == Fields(a);
    } else {
      FieldsAtSpace(a, x[0], x[1..]);
      assert a + x == a + [x[0]] + x[1..];
    }
  }

  lemma SpaceBehind(x: string, b: string)
    requires x == "" || IsSpace(x[|x| - 1])
    ensures Fields(x + b) == Fields(x) + Fields(b)
  {
    if x == "" {
      assert x + b == b && [] + Fields(b) == Fields(b);
    } else {
      var n := |x| - 1;
      assert x == x[..n] + [x[n]];
      SpaceLast(x[..n], x[n], b);
    }
  }

  lemma SpaceLast(y: string, c: char, b: string)
    requires IsSpace(c)
    ensures Fields(y + [c] + b) == Fields(y + [c]) + Fields(b)
  {
    FieldsAtSpace(y, c, b);
    FieldsAtSpace(y, c, "");
    assert y + [c] + "" == y + [c] && Fields(y) + [] == Fields(y);
  }

  lemma OnBothSides(a: string, x: string, b: string)
    requires x != "" && IsSpace(x[0]) && IsSpace(x[|x| - 1])
    ensures Fields(a + x + b) == Fields(a) + Fields(x) + Fields(b)
  {
    var y := a + x;
    assert y[|y| - 1] == x[|x| - 1];
    SpaceBehind(y, b);
    SpaceInFront(a, x);
  }

  /** The words of the text are those of the rendering, whatever is plugged in where. */
  lemma WordsOfPlug(ctx: Context, n: Node)
    requires Open(ctx)
    ensures Fields(HtmlToText(Plug(ctx, n))) == Fields(Before(ctx) + Render(n) + After(ctx))
  {
    RenderPlug(ctx, n);
    NormalizeKeepsWords(Render(Plug(ctx, n)));
  }

  /** A table cell, at any depth: the words in front of it end there. */
  lemma CellSeparates(ctx: Context, cell: Node)
    requires Open(ctx) && cell.Element? && (cell.tag == "td" || cell.tag == "th")
    ensures Fields(HtmlToText(Plug(ctx, cell))) == Fields(Before(ctx)) + Fields(Render(cell) + After(ctx))
  {
    WordsOfPlug(ctx, cell);
    CellShape(cell);
    SpaceInFront(Before(ctx), Render(cell) + After(ctx));
    assert Before(ctx) + Render(cell) + After(ctx) == Before(ctx) + (Render(cell) + After(ctx));
  }

  lemma CellShape(cell: Node)
    requires cell.Element? && (cell.tag == "td" || cell.tag == "th")
    ensures Render(cell) == "  " + RenderAll(cell.children) && Render(cell)[0] == ' '
  {
    assert cell.tag !in DROPPED && cell.tag !in BLOCKS && cell.tag != "br" && cell.tag != "li";
    assert "  " + "" + "" + RenderAll(cell.children) + "" == "  " + RenderAll(cell.children);
  }

  /** A line break or a block element, at any depth: no word reaches into it or out of it. */
  lemma BlockSeparates(ctx: Context, n: Node)
    requires Open(ctx) && n.Element? && (n.tag == "br" || n.tag in BLOCKS)
    ensures Fields(HtmlToText(Plug(ctx, n))) == Fields(Before(ctx)) + Fields(Render(n)) + Fields(After(ctx))
  {
    WordsOfPlug(ctx, n);
    if n.tag in BLOCKS { BlockShape(n); }
    OnBothSides(Before(ctx), Render(n), After(ctx));
  }

  /** Any other element makes no difference: the words inside join those around it as if it were not there. */
  lemma InlineIsTransparent(ctx: Context, n: Node)
    requires n.Element? && n.tag !in BLOCKS && n.tag !in DROPPED && n.tag !in {"br", "td", "th"}
    ensures Render(Plug(ctx, n)) == Render(Plug(ctx, Other(n.children)))
  {
    assert n.tag != "li";
    assert "" + "" + "" + RenderAll(n.children) + "" == RenderAll(n.children);
    if Open(ctx) {
      RenderPlug(ctx, n);
      RenderPlug(ctx, Other(n.children));
    } else {
      HiddenPlug(ctx, n, Other(n.children));
    }
  }

  lemma WordsBetweenBreaks(inner: string)
    ensures Fields("\n" + inner + "\n") == Fields(inner)
  {
    assert "\n" + inner + "\n" == "\n" + (inner + "\n") && "\n"[1..] == "";
    SpaceBehind("\n", inner + "\n");
    SpaceInFront(inner, "\n");
    assert Fields("\n") == [];
  }

  lemma WordsBehindBlanks(inner: string)
    ensures Fields("  " + inner) == Fields(inner)
  {
    assert ("  " + inner)[1..] == " " + inner && (" " + inner)[1..] == inner;
  }

  /** The words of one element: those of its children, after a dash for a list item. */
  lemma WordsOfElement(n: Node)
    requires n.Element? && n.tag !in DROPPED && n.tag != "br"
    ensures Fields(Render(n)) == (if n.tag == "li" then ["-"] else []) + Fields(RenderAll(n.children))
  {
    var inner := RenderAll(n.children);
    if n.tag in BLOCKS {
      BlockShape(n);
      WordsBetweenBreaks(Inner(n));
      DashInFront(inner);
      assert n.tag != "li" ==> "" + inner == inner;
    } else if n.tag == "td" || n.tag == "th" {
      CellShape(n);
      WordsBehindBlanks(inner);
    } else {
      assert "" + "" + "" + inner + "" == inner;
    }
  }

  lemma DashInFront(inner: string)
    ensures Fields("- " + inner) == ["-"] + Fields(inner)
  {
    FieldsHead("-", " " + inner);
    assert "- " + inner == "-" + (" " + inner) && (" " + inner)[1..] == inner;
  }

  /** Skipping white space before anything keeps the words. */
  lemma {:induction false} SkipBefore(s: string, b: string)
    ensures Fields(SkipSpace(s) + b) == Fields(s + b)
  {
    if s != "" && IsSpace(s[0]) {
      SkipBefore(s[1..], b);
      assert (s + b)[1..] == s[1..] + b;
    }
  }

  lemma SpaceInside(a: string, c: char, rest: string, x: string, b: string)
    requires IsSpace(c) && Fields(x + b) == Fields(rest + b)
    ensures Fields(a + (" " + x) + b) == Fields(a + ([c] + rest) + b)
  {
    FieldsAtSpace(a, ' ', x + b);
    FieldsAtSpace(a, c, rest + b);
    Around(a, ' ', x, b);
    Around(a, c, rest, b);
    assert " " + x == [' '] + x;
  }

  lemma Around(a: string, c: char, x: string, b: string)
    ensures a + ([c] + x) + b == a + [c] + (x + b) == a + [c] + x + b
  {
  }

  lemma CharInside(a: string, c: char, x: string, y: string, b: string)
    requires Fields(a + [c] + x + b) == Fields(a + [c] + y + b)
    ensures Fields(a + ([c] + x) + b) == Fields(a + ([c] + y) + b)
  {
    Around(a, c, x, b);
    Around(a, c, y, b);
  }

  lemma NothingInFront(x: string, b: string)
    ensures "" + x + b == x + b
  {
  }

  /** Collapsing the white space of a text keeps the words also where it meets its surroundings. */
  lemma {:induction false} CollapseInPlace(a: string, s: string, b: string)
    ensures Fields(a + Collapse(s) + b) == Fields(a + s + b)
    decreases |s|
  {
    if s != "" {
      assert s == [s[0]] + s[1..];
      if IsSpace(s[0]) {
        var t := SkipSpace(s[1..]);
        CollapseInPlace("", t, b);
        SkipBefore(s[1..], b);
        NothingInFront(Collapse(t), b);
        NothingInFront(t, b);
        SpaceInside(a, s[0], s[1..], Collapse(t), b);
      } else {
        CollapseInPlace(a + [s[0]], s[1..], b);
        CharInside(a, s[0], Collapse(s[1..]), s[1..], b);
      }
    }
  }

  /** A text node, at any depth: its characters join those around it, white space and all. */
  lemma TextJoins(ctx: Context, data: string)
    requires Open(ctx)
    ensures Fields(HtmlToText(Plug(ctx, Text(data)))) == Fields(Before(ctx) + data + After(ctx))
  {
    WordsOfPlug(ctx, Text(data));
    CollapseInPlace(Before(ctx), data, After(ctx));
  }

  /** The elements that are dropped, and those that stand on lines of their own. */
  lemma TagsAreKnown(tag: string)
    ensures tag in DROPPED <==> (tag == "script" || tag == "style" || tag == "head" || tag == "noscript"
      || tag == "template" || tag == "svg")
    ensures tag in BLOCKS <==> (tag == "p" || tag == "div" || tag == "blockquote" || tag == "pre" || tag == "hr"
      || tag == "h1" || tag == "h2" || tag == "h3" || tag == "h4" || tag == "h5" || tag == "h6"
      || tag == "ul" || tag == "ol" || tag == "li" || tag == "table" || tag == "thead" || tag == "tbody" || tag == "tr"
      || tag == "section" || tag == "article" || tag == "header" || tag == "footer")
  {
  }
}
