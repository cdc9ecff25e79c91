/**
  Reading a header block back, as the program's mail library does: physical
  lines, folding per section 2.2.3 of RFC 5322, fields in order; and the round
  trip of the injected X-Spam-Status field.
*/
module Headers {
  import opened Options
  import opened Strings
  import opened Mailauth

  predicate IsBlank(c: char) { c == ' ' || c == '\t' }

  function TrimLeft(s: string): (r: string)
    ensures r == "" || !IsBlank(r[0])
  {
    if s != "" && IsBlank(s[0]) then TrimLeft(s[1..]) else s
  }

  function TrimRight(s: string): string {
    if s != "" && IsBlank(s[|s| - 1]) then TrimRight(s[..|s| - 1]) else s
  }

  function Trim(s: string): string { TrimRight(TrimLeft(s)) }

  function StripCr(s: string): string {
    if s != "" && s[|s| - 1] == '\r' then s[..|s| - 1] else s
  }

  /** The lines of the input: a final carriage return before the line break goes with it. */
  function PhysLines(s: string): seq<string>
    decreases |s|
  {
    if s == "" then []
    else
      var n := LineLen(s);
      if n == |s| then [s] else [StripCr(s[..n])] + PhysLines(s[n + 1..])
  }

  function LineLen(s: string): (n: nat)
    ensures n <= |s| && (forall i :: 0 <= i < n ==> s[i] != '\n') && (n < |s| ==> s[n] == '\n')
  {
    if s == "" || s[0] == '\n' then 0 else 1 + LineLen(s[1..])
  }

  predicate Continues(line: string) { line != "" && IsBlank(line[0]) }

  /** How many of the lines continue the one before them. */
  function Conts(lines: seq<string>): (n: nat)
    ensures n <= |lines|
  {
    if lines == [] || !Continues(lines[0]) then 0 else 1 + Conts(lines[1..])
  }

  function FoldTail(lines: seq<string>): string {
    if lines == [] then "" else " " + Trim(lines[0]) + FoldTail(lines[1..])
  }

  /** One logical line: the first physical line and its continuations. */
  function Unfold(lines: seq<string>): string
    requires lines != []
  {
    Trim(lines[0]) + FoldTail(lines[1..])
  }

  datatype Field = Field(name: string, value: string)

  datatype Parse = Malformed | Parsed(fields: seq<Field>, eof: bool)

  function IndexOf(s: string, c: char): (n: nat)
    ensures n <= |s| && (forall i :: 0 <= i < n ==> s[i] != c) && (n < |s| ==> s[n] == c)
  {
    if s == "" || s[0] == c then 0 else 1 + IndexOf(s[1..], c)
  }

  function Upper(c: char): char { if 'a' <= c <= 'z' then c - 'a' + 'A' else c }

  function Lower(c: char): char { if 'A' <= c <= 'Z' then c - 'A' + 'a' else c }

  predicate TokenChar(c: char) {
    'a' <= c <= 'z' || 'A' <= c <= 'Z' || '0' <= c <= '9' || c in "!#$%&'*+-.^_`|~"
  }

  function CanonChar(s: string, i: nat): char
    requires i < |s|
  {
    if i == 0 || s[i - 1] == '-' then Upper(s[i]) else Lower(s[i])
  }

  /** Names are compared in canonical form: capitals at the start and after a hyphen. */
  function CanonName(s: string): string {
    if forall i :: 0 <= i < |s| ==> TokenChar(s[i])
    then seq(|s|, i requires 0 <= i < |s| => CanonChar(s, i))
    else s
  }

  /** One logical line in front of what has been parsed behind it. */
  function AddField(kv: string, rest: Parse): Parse {
    if kv == "" then Parsed([], false)
    else
      var colon := IndexOf(kv, ':');
      if colon == |kv| || rest.Malformed? then Malformed
      else
        var name := CanonName(kv[..colon]);
        Parsed((if name == "" then [] else [Field(name, TrimLeft(kv[colon + 1..]))]) + rest.fields, rest.eof)
  }

  function ParseLines(lines: seq<string>): Parse
    decreases |lines|
  {
    if lines == [] then Parsed([], true)
    else if lines[0] == "" then Parsed([], false)
    else
      var n := 1 + Conts(lines[1..]);
      AddField(Unfold(lines[..n]), ParseLines(lines[n..]))
  }

  /** The fields of a message, or an error. */
  function ReadMessage(s: string): Option<seq<Field>> {
    if Continues(s) then None
    else match ParseLines(PhysLines(s))
      case Malformed => None
      case Parsed(fields, eof) => if eof && fields == [] then None else Some(fields)
  }

  function Get(fields: seq<Field>, name: string): string {
    if fields == [] then "" else if fields[0].name == name then fields[0].value else Get(fields[1..], name)
  }

  // ---------------------------------------------------------------- the injected fields

  function Inject(quote: Quoter, raw: string, domain: string, r: Results, action: Action): string {
    "Authentication-Results: " + AuthResultsHeader(quote, r, domain) + "\r\n"
    + ("X-Spam-Status: " + SpamStatusHeader(r, action) + "\r\n" + raw)
  }

  /** The injected fields are put in front of the message, which stays as it is. */
  lemma InjectPrepends(quote: Quoter, raw: string, domain: string, r: Results, action: Action)
    ensures Inject(quote, raw, domain, r, action) == Inject(quote, "", domain, r, action) + raw
  {
  }

  const PEEK := 65536

  /** The Spam flag of a message view: the first X-Spam-Status field mentions the spam action. */
  predicate SpamFlag(stored: string) {
    match ReadMessage(stored)
    case None => false
    case Some(fields) => Contains(Get(fields, "X-Spam-Status"), "action=spam")
  }

  /** The flag of a listing, which reads no more than the first 64 KiB. */
  predicate ListedSpam(stored: string) {
    SpamFlag(if |stored| <= PEEK then stored else stored[..PEEK])
  }

  // ---------------------------------------------------------------- lines of the stored message

  lemma {:induction false} LineLenIs(l: string, rest: string)
    requires '\n' !in l
    ensures LineLen(l + "\n" + rest) == |l|
  {
    var s := l + "\n" + rest;
    if l != "" {
      assert l[0] in l && forall c :: c in l[1..] ==> c in l;
      assert s[1..] == l[1..] + "\n" + rest;
      LineLenIs(l[1..], rest);
    }
  }

  lemma FirstLine(l: string, rest: string)
    requires '\n' !in l
    ensures PhysLines(l + "\n" + rest) == [StripCr(l)] + PhysLines(rest)
  {
    var s := l + "\n" + rest;
    LineLenIs(l, rest);
    assert s[..|l|] == l && s[|l| + 1..] == rest;
  }

  lemma {:induction false} ContsSplit(a: seq<string>, b: seq<string>)
    requires forall l :: l in a ==> Continues(l)
    requires b == [] || !Continues(b[0])
    ensures Conts(a + b) == |a|
  {
    if a == [] {
      assert a + b == b;
    } else {
      assert (a + b)[1..] == a[1..] + b;
      assert a[0] in a && forall l :: l in a[1..] ==> l in a;
      ContsSplit(a[1..], b);
    }
  }

  lemma {:induction false} IndexIs(s: string, c: char, n: nat)
    requires n < |s| && s[n] == c && forall i :: 0 <= i < n ==> s[i] != c
    ensures IndexOf(s, c) == n
  {
  }

  lemma BlanksFixed(s: string)
    requires s != "" && !IsBlank(s[0]) && !IsBlank(s[|s| - 1])
    ensures Trim(s) == s
  {
  }

  lemma NameSize(s: string)
    ensures |CanonName(s)| == |s|
  {
  }

  lemma CapitalisedIsCanonical(s: string)
    requires forall i :: 0 <= i < |s| ==> CanonChar(s, i) == s[i]
    ensures CanonName(s) == s
  {
  }

  lemma SpamNameIsCanonical()
    ensures CanonName("X-Spam-Status") == "X-Spam-Status"
  {
    var s := "X-Spam-Status";
    assert s[0] == 'X' && s[1] == '-' && s[2] == 'S' && s[3] == 'p' && s[4] == 'a' && s[5] == 'm' && s[6] == '-';
    assert s[7] == 'S' && s[8] == 't' && s[9] == 'a' && s[10] == 't' && s[11] == 'u' && s[12] == 's';
    CapitalisedIsCanonical(s);
  }

  lemma LineParts(line: string, t: string, colon: nat)
    requires 0 < colon < |line| && line[colon] == ':' && forall i :: 0 <= i < colon ==> line[i] != ':'
    ensures var kv := line + t;
      kv != "" && IndexOf(kv, ':') == colon && kv[..colon] == line[..colon] && kv[colon + 1..] == line[colon + 1..] + t
  {
    IndexIs(line + t, ':', colon);
  }

  lemma ParseFirst(a: seq<string>, n: nat)
    requires a != [] && a[0] != "" && n == 1 + Conts(a[1..])
    ensures ParseLines(a) == AddField(Unfold(a[..n]), ParseLines(a[n..]))
  {
  }

  lemma UnfoldFirst(line: string, conts: seq<string>, rest: seq<string>)
    requires line != "" && !IsBlank(line[0]) && !IsBlank(line[|line| - 1]) && Conts(conts + rest) == |conts|
    ensures ParseLines([line] + conts + rest) == AddField(line + FoldTail(conts), ParseLines(rest))
  {
    var lines, n := [line] + conts + rest, 1 + |conts|;
    assert lines[1..] == conts + rest;
    assert lines[..n] == [line] + conts && lines[n..] == rest;
    assert ([line] + conts)[1..] == conts;
    BlanksFixed(line);
    ParseFirst(lines, n);
  }

  /** One field in front: its line and the continuations after it become one field, the rest is read on. */
  lemma FieldInFront(line: string, conts: seq<string>, rest: seq<string>, colon: nat)
    requires line != "" && !IsBlank(line[0]) && !IsBlank(line[|line| - 1])
    requires 0 < colon < |line| && line[colon] == ':' && forall i :: 0 <= i < colon ==> line[i] != ':'
    requires Conts(conts + rest) == |conts|
    ensures var p, q := ParseLines([line] + conts + rest), ParseLines(rest);
      if q.Malformed? then p.Malformed?
      else p == Parsed([Field(CanonName(line[..colon]), TrimLeft(line[colon + 1..] + FoldTail(conts)))]
        + q.fields, q.eof)
  {
    UnfoldFirst(line, conts, rest);
    LineParts(line, FoldTail(conts), colon);
    NameSize(line[..colon]);
  }

  // ---------------------------------------------------------------- the stored message

  function AuthLine(domain: string): string { "Authentication-Results: " + domain + ";" }

  function AuthConts(quote: Quoter, r: Results): seq<string> {
    ["\t" + SpfPart(quote, r) + ";", "\t" + DkimPart(quote, r) + ";", "\t" + DmarcPart(quote, r)]
  }

  function SpamLine(r: Results, action: Action): string { "X-Spam-Status: " + SpamStatusHeader(r, action) }

  lemma PartsArePlain(quote: Quoter, r: Results)
    requires QuotesLines(quote) && PlainDomains(r)
    ensures '\n' !in SpfPart(quote, r) && '\n' !in DkimPart(quote, r) && '\n' !in DmarcPart(quote, r)
  {
    StatusPlain(r.spf);
    StatusPlain(r.dkim);
    StatusPlain(r.dmarc);
  }

  lemma StatusPlain(s: Status)
    ensures StatusText(s) != "" && forall c :: c in StatusText(s) ==> c != '\n' && c != '\r' && !IsBlank(c)
  {
  }

  /** No line break hides in what is printed as it is. */
  ghost predicate Printable(quote: Quoter, domain: string, r: Results, action: Action) {
    QuotesLines(quote) && PlainDomains(r) && '\n' !in domain && (action == "spam" || action == "inbox")
  }

  lemma MoveBreak(h: string, p: string, q: string, t: string)
    ensures h + (p + "\n" + q) == (h + p) + "\n" + q
    ensures (p + "\n" + q) + t == p + "\n" + (q + t)
  {
  }

  lemma LineEnd(p: string, t: string)
    ensures p + "\r\n" + t == (p + "\r") + "\n" + t == p + ("\r\n" + t)
  {
  }

  lemma LastLine(p: string, t: string)
    requires '\n' !in p
    ensures PhysLines(p + ("\r\n" + t)) == [p] + PhysLines(t)
  {
    LineEnd(p, t);
    FirstLine(p + "\r", t);
    assert StripCr(p + "\r") == p;
  }

  lemma NextLine(p: string, q: string, t: string)
    requires '\n' !in p
    ensures PhysLines((p + ";" + "\n" + q) + t) == [p + ";"] + PhysLines(q + t)
  {
    MoveBreak("", p + ";", q, t);
    FirstLine(p + ";", q + t);
  }

  lemma TwoLines(p2: string, p3: string, t: string)
    requires '\n' !in p2 && '\n' !in p3
    ensures PhysLines((p2 + ";" + "\n" + p3) + ("\r\n" + t)) == [p2 + ";"] + ([p3] + PhysLines(t))
  {
    LastLine(p3, t);
    NextLine(p2, p3, "\r\n" + t);
  }

  lemma FourLines(p0: string, p1: string, p2: string, p3: string, t: string)
    requires '\n' !in p0 && '\n' !in p1 && '\n' !in p2 && '\n' !in p3
    ensures PhysLines((p0 + ";" + "\n" + (p1 + ";" + "\n" + (p2 + ";" + "\n" + p3))) + ("\r\n" + t))
      == [p0 + ";"] + ([p1 + ";"] + ([p2 + ";"] + ([p3] + PhysLines(t))))
  {
    TwoLines(p2, p3, t);
    NextLine(p1, p2 + ";" + "\n" + p3, "\r\n" + t);
    NextLine(p0, p1 + ";" + "\n" + (p2 + ";" + "\n" + p3), "\r\n" + t);
  }

  lemma StoredLines(quote: Quoter, raw: string, domain: string, r: Results, action: Action)
    requires Printable(quote, domain, r, action)
    ensures PhysLines(Inject(quote, raw, domain, r, action))
      == [AuthLine(domain)] + AuthConts(quote, r) + ([SpamLine(r, action)] + PhysLines(raw))
  {
    PartsArePlain(quote, r);
    SpamLinePlain(r, action);
    var t := SpamLine(r, action) + "\r\n" + raw;
    LineEnd(SpamLine(r, action), raw);
    LastLine(SpamLine(r, action), raw);
    var p0, p1 := "Authentication-Results: " + domain, "\t" + SpfPart(quote, r);
    var p2, p3 := "\t" + DkimPart(quote, r), "\t" + DmarcPart(quote, r);
    FourLines(p0, p1, p2, p3, t);
    HeadOfStored(quote, raw, domain, r, action, p1 + ";" + "\n" + (p2 + ";" + "\n" + p3), "\r\n" + t);
    assert p0 + ";" == AuthLine(domain);
    Stack(p0 + ";", AuthConts(quote, r), [SpamLine(r, action)] + PhysLines(raw));
  }

  lemma Stack(a: string, cs: seq<string>, rest: seq<string>)
    requires |cs| == 3
    ensures [a] + ([cs[0]] + ([cs[1]] + ([cs[2]] + rest))) == [a] + cs + rest
  {
  }

  lemma HeadOfStored(quote: Quoter, raw: string, domain: string, r: Results, action: Action, a1: string, end: string)
    requires AuthResultsHeader(quote, r, domain) == domain + ";" + "\n" + a1
    requires end == "\r\n" + (SpamLine(r, action) + "\r\n" + raw)
    ensures Inject(quote, raw, domain, r, action) == ("Authentication-Results: " + domain + ";" + "\n" + a1) + end
  {
    Glue("Authentication-Results: ", domain, a1, "\r\n", SpamLine(r, action) + "\r\n" + raw);
  }

  lemma Glue(h: string, d: string, a: string, e: string, rest: string)
    ensures h + (d + ";" + "\n" + a) + e + rest == (h + d + ";" + "\n" + a) + (e + rest)
  {
  }

  lemma SpamLinePlain(r: Results, action: Action)
    requires action == "spam" || action == "inbox"
    ensures '\n' !in SpamLine(r, action)
    ensures var v := SpamStatusHeader(r, action); v != "" && v[0] == 'a' && !IsBlank(v[|v| - 1])
  {
    SpamHeaderPlain(r, action);
    SpamHeaderEnds(r, action);
  }

  lemma FourWords(a: string, b: string, c: string, d: string)
    requires '\n' !in a && '\n' !in b && '\n' !in c && '\n' !in d
    ensures '\n' !in a + [' '] + b + [' '] + c + [' '] + d
  {
  }

  lemma PlainWord(s: Status)
    ensures '\n' !in "spf=" + StatusText(s) && '\n' !in "dkim=" + StatusText(s) && '\n' !in "dmarc=" + StatusText(s)
  {
    StatusPlain(s);
  }

  lemma SpamHeaderPlain(r: Results, action: Action)
    requires action == "spam" || action == "inbox"
    ensures '\n' !in SpamStatusHeader(r, action)
  {
    PlainWord(r.spf);
    PlainWord(r.dkim);
    PlainWord(r.dmarc);
    FourWords("action=" + action, "spf=" + StatusText(r.spf), "dkim=" + StatusText(r.dkim),
              "dmarc=" + StatusText(r.dmarc));
  }

  lemma SpamHeaderEnds(r: Results, action: Action)
    ensures var v := SpamStatusHeader(r, action); v != "" && v[0] == 'a' && !IsBlank(v[|v| - 1])
  {
  }

  /** What a sender's first lines add to the injected field, if they look like a continuation of it. */
  function Tail(raw: string): string { FoldTail(PhysLines(raw)[..Conts(PhysLines(raw))]) }

  function After(raw: string): Parse { ParseLines(PhysLines(raw)[Conts(PhysLines(raw))..]) }

  lemma {:induction false} ContsOfConts(lines: seq<string>)
    ensures Conts(lines[..Conts(lines)] + lines[Conts(lines)..]) == |lines[..Conts(lines)]|
  {
    assert lines[..Conts(lines)] + lines[Conts(lines)..] == lines;
  }

  lemma SpamField(raw: string, r: Results, action: Action)
    requires action == "spam" || action == "inbox"
    ensures var p, q := ParseLines([SpamLine(r, action)] + PhysLines(raw)), After(raw);
      if q.Malformed? then p.Malformed?
      else p == Parsed([Field("X-Spam-Status", SpamStatusHeader(r, action) + Tail(raw))] + q.fields, q.eof)
  {
    var ls := PhysLines(raw);
    var k := Conts(ls);
    SpamLinePlain(r, action);
    ContsOfConts(ls);
    SpamFieldOf(SpamStatusHeader(r, action), ls[..k], ls[k..]);
    Together(SpamLine(r, action), ls, k);
  }

  lemma Together(l: string, ls: seq<string>, k: nat)
    requires k <= |ls|
    ensures [l] + ls[..k] + ls[k..] == [l] + ls
  {
  }

  lemma SpamLineShape(value: string)
    ensures var line := "X-Spam-Status: " + value;
      && |line| == 15 + |value| && line[..13] == "X-Spam-Status" && line[13] == ':' && line[14..] == " " + value
      && forall i :: 0 <= i < 13 ==> line[i] != ':'
  {
    var line := "X-Spam-Status: " + value;
    assert forall i :: 0 <= i < 13 ==> line[i] == "X-Spam-Status"[i];
  }

  lemma SpamFieldOf(value: string, conts: seq<string>, rest: seq<string>)
    requires value != "" && !IsBlank(value[0]) && !IsBlank(value[|value| - 1]) && Conts(conts + rest) == |conts|
    ensures var p, q := ParseLines(["X-Spam-Status: " + value] + conts + rest), ParseLines(rest);
      if q.Malformed? then p.Malformed?
      else p == Parsed([Field("X-Spam-Status", value + FoldTail(conts))] + q.fields, q.eof)
  {
    SpamLineShape(value);
    FieldInFront("X-Spam-Status: " + value, conts, rest, 13);
    SpamNameIsCanonical();
    SkipOne(value, FoldTail(conts));
  }

  lemma SkipOne(v: string, t: string)
    requires v != "" && !IsBlank(v[0])
    ensures TrimLeft(" " + v + t) == v + t
  {
  }

  /** Authentication-Results as a reader gets it: one line, the three results in order. */
  function AuthRead(quote: Quoter, r: Results, domain: string): string {
    TrimLeft(domain + ";") + (" " + (SpfPart(quote, r) + ";")
      + (" " + (DkimPart(quote, r) + ";") + (" " + Trim("\t" + DmarcPart(quote, r)) + "")))
  }

  lemma AuthNameIsCanonical()
    ensures CanonName("Authentication-Results") == "Authentication-Results"
  {
    var s := "Authentication-Results";
    assert s[0] == 'A' && s[1] == 'u' && s[2] == 't' && s[3] == 'h' && s[4] == 'e' && s[5] == 'n' && s[6] == 't'
      && s[7] == 'i';
    assert s[8] == 'c' && s[9] == 'a' && s[10] == 't' && s[11] == 'i' && s[12] == 'o' && s[13] == 'n' && s[14] == '-';
    assert s[15] == 'R' && s[16] == 'e' && s[17] == 's' && s[18] == 'u' && s[19] == 'l' && s[20] == 't' && s[21] == 's';
    CapitalisedIsCanonical(s);
  }

  lemma TrimTab(part: string)
    requires part != "" && !IsBlank(part[0])
    ensures Trim("\t" + (part + ";")) == part + ";"
  {
    assert ("\t" + (part + ";"))[1..] == part + ";";
    BlanksFixed(part + ";");
  }

  lemma {:induction false} TrimLeftKeepsTail(s: string, t: string)
    requires s != "" && !IsBlank(s[|s| - 1])
    ensures TrimLeft(s + t) == TrimLeft(s) + t
  {
    if IsBlank(s[0]) {
      assert (s + t)[1..] == s[1..] + t;
      TrimLeftKeepsTail(s[1..], t);
    }
  }

  lemma FoldThree(a: string, b: string, c: string)
    ensures FoldTail([a, b, c]) == " " + Trim(a) + (" " + Trim(b) + (" " + Trim(c) + ""))
  {
    assert FoldTail([c]) == " " + Trim(c) + "" by { assert [c][1..] == []; }
    assert FoldTail([b, c]) == " " + Trim(b) + FoldTail([c]) by { assert [b, c][1..] == [c]; }
    assert [a, b, c][1..] == [b, c];
  }

  lemma TabFirst(p: string)
    ensures "\t" + p + ";" == "\t" + (p + ";")
  {
  }

  lemma SkipBlank(domain: string, t: string)
    ensures TrimLeft(" " + domain + ";" + t) == TrimLeft(domain + ";") + t
  {
    assert " " + domain + ";" == " " + (domain + ";") && (" " + (domain + ";"))[1..] == domain + ";";
    TrimLeftKeepsTail(" " + (domain + ";"), t);
  }

  lemma FoldParts(a: string, b: string, c: string)
    requires a != "" && !IsBlank(a[0]) && b != "" && !IsBlank(b[0])
    ensures FoldTail(["\t" + a + ";", "\t" + b + ";", c]) == " " + (a + ";") + (" " + (b + ";") + (" " + Trim(c) + ""))
  {
    TabFirst(a);
    TabFirst(b);
    TrimTab(a);
    TrimTab(b);
    FoldThree("\t" + a + ";", "\t" + b + ";", c);
  }

  lemma PartsStart(quote: Quoter, r: Results)
    ensures SpfPart(quote, r) != "" && SpfPart(quote, r)[0] == 's'
    ensures DkimPart(quote, r) != "" && DkimPart(quote, r)[0] == 'd'
  {
  }

  lemma AuthFold(quote: Quoter, r: Results, domain: string)
    ensures TrimLeft(" " + domain + ";" + FoldTail(AuthConts(quote, r))) == AuthRead(quote, r, domain)
  {
    PartsStart(quote, r);
    FoldParts(SpfPart(quote, r), DkimPart(quote, r), "\t" + DmarcPart(quote, r));
    SkipBlank(domain, FoldTail(AuthConts(quote, r)));
  }

  lemma AuthLineShape(domain: string)
    ensures var line := AuthLine(domain);
      && |line| > 24 && line[0] == 'A' && line[|line| - 1] == ';' && line[22] == ':'
      && line[..22] == "Authentication-Results" && line[23..] == " " + domain + ";"
  {
  }

  lemma AuthNameIsPlain()
    ensures ':' !in "Authentication-Results"
  {
  }

  lemma AuthFieldOf(line: string, conts: seq<string>, rest: seq<string>)
    requires |line| > 24 && line[0] == 'A' && line[|line| - 1] == ';' && line[22] == ':'
    requires line[..22] == "Authentication-Results"
    requires Conts(conts + rest) == |conts|
    ensures var p, q := ParseLines([line] + conts + rest), ParseLines(rest);
      if q.Malformed? then p.Malformed?
      else p == Parsed([Field("Authentication-Results", TrimLeft(line[23..] + FoldTail(conts)))] + q.fields, q.eof)
  {
    AuthNameIsPlain();
    forall i | 0 <= i < 22 ensures line[i] != ':' { assert line[i] == line[..22][i] && line[..22][i] in line[..22]; }
    FieldInFront(line, conts, rest, 22);
    AuthNameIsCanonical();
  }

  lemma AuthField(quote: Quoter, domain: string, r: Results, rest: seq<string>)
    requires rest != [] && !Continues(rest[0])
    ensures var p, q := ParseLines([AuthLine(domain)] + AuthConts(quote, r) + rest), ParseLines(rest);
      if q.Malformed? then p.Malformed?
      else p == Parsed([Field("Authentication-Results", AuthRead(quote, r, domain))] + q.fields, q.eof)
  {
    AuthLineShape(domain);
    ContsSplit(AuthConts(quote, r), rest);
    AuthFieldOf(AuthLine(domain), AuthConts(quote, r), rest);
    AuthFold(quote, r, domain);
  }

  /**
    The stored copy has the injected fields first: the results on one line, and
    the decision with the sender's continuation lines and nothing else added.
  */
  lemma StoredParse(quote: Quoter, raw: string, domain: string, r: Results, action: Action)
    requires Printable(quote, domain, r, action)
    ensures var m := ReadMessage(Inject(quote, raw, domain, r, action));
      if After(raw).Malformed? then m.None?
      else
        && m.Some? && Get(m.value, "Authentication-Results") == AuthRead(quote, r, domain)
        && Get(m.value, "X-Spam-Status") == SpamStatusHeader(r, action) + Tail(raw)
  {
    var stored := Inject(quote, raw, domain, r, action);
    StoredLines(quote, raw, domain, r, action);
    SpamField(raw, r, action);
    var rest := [SpamLine(r, action)] + PhysLines(raw);
    AuthField(quote, domain, r, rest);
    SecondField(stored, [AuthLine(domain)] + AuthConts(quote, r) + rest, rest, AuthRead(quote, r, domain));
  }

  /** With one other field in front, the first field of the rest is the one that is found. */
  lemma SecondField(stored: string, lines: seq<string>, rest: seq<string>, auth: string)
    requires PhysLines(stored) == lines && lines != [] && !Continues(lines[0])
    requires var p, q := ParseLines(lines), ParseLines(rest);
      if q.Malformed? then p.Malformed? else p == Parsed([Field("Authentication-Results", auth)] + q.fields, q.eof)
    requires ParseLines(rest).Parsed?
      ==> ParseLines(rest).fields != [] && ParseLines(rest).fields[0].name == "X-Spam-Status"
    ensures var q, m := ParseLines(rest), ReadMessage(stored);
      if q.Malformed? then m.None?
      else
        && m.Some? && Get(m.value, "Authentication-Results") == auth
        && Get(m.value, "X-Spam-Status") == q.fields[0].value
  {
    if ParseLines(rest).Parsed? { assert "Authentication-Results"[0] != "X-Spam-Status"[0]; }
  }

  // ---------------------------------------------------------------- the flag

  const MARK := "action=spam"

  /** A setting occurs in another one exactly if its name ends the other's and its value begins the other's. */
  lemma SettingInSetting(k: string, v: string, k': string, v': string)
    requires '=' !in k && '=' !in v && '=' !in k' && '=' !in v'
    ensures Contains(k' + "=" + v', k + "=" + v) <==> HasSuffix(k', k) && HasPrefix(v', v)
  {
    var w, p := k' + "=" + v', k + "=" + v;
    if HasSuffix(k', k) && HasPrefix(v', v) { SettingOccurs(k, v, k', v'); }
    forall i | 0 <= i <= |w| - |p| && OccursAt(w, p, i) ensures HasSuffix(k', k) && HasPrefix(v', v) {
      SettingAt(k, v, k', v', i);
    }
  }

  lemma SettingOccurs(k: string, v: string, k': string, v': string)
    requires HasSuffix(k', k) && HasPrefix(v', v)
    ensures Contains(k' + "=" + v', k + "=" + v)
  {
    var w, p, i := k' + "=" + v', k + "=" + v, |k'| - |k|;
    assert w[i..i + |p|] == k'[i..] + "=" + v'[..|v|] == p;
    assert OccursAt(w, p, i);
  }

  lemma OneEquals(k: string, v: string, n: nat)
    requires '=' !in k && '=' !in v && n < |k| + 1 + |v| && (k + "=" + v)[n] == '='
    ensures n == |k|
  {
  }

  lemma SettingAt(k: string, v: string, k': string, v': string, i: nat)
    requires '=' !in k && '=' !in v && '=' !in k' && '=' !in v'
    requires i + |k| + 1 + |v| <= |k'| + 1 + |v'| && OccursAt(k' + "=" + v', k + "=" + v, i)
    ensures HasSuffix(k', k) && HasPrefix(v', v)
  {
    var w, p := k' + "=" + v', k + "=" + v;
    assert w[i..i + |p|] == p;
    assert w[i + |k|] == p[|k|] == '=';
    OneEquals(k', v', i + |k|);
    assert k'[i..] == w[i..i + |k|] == p[..|k|] == k;
    assert v'[..|v|] == w[|k'| + 1..|k'| + 1 + |v|] == p[|k| + 1..] == v;
  }

  lemma StatusHasNoEquals(s: Status)
    ensures '=' !in StatusText(s)
  {
  }

  /** What can be found in the X-Spam-Status value. */
  lemma HeaderHas(r: Results, action: Action, k: string, v: string)
    requires '=' !in k && '=' !in v && ' ' !in k && ' ' !in v && '=' !in action
    ensures Contains(SpamStatusHeader(r, action), k + "=" + v) <==> (
        || (HasSuffix("action", k) && HasPrefix(action, v))
        || (HasSuffix("spf", k) && HasPrefix(StatusText(r.spf), v))
        || (HasSuffix("dkim", k) && HasPrefix(StatusText(r.dkim), v))
        || (HasSuffix("dmarc", k) && HasPrefix(StatusText(r.dmarc), v)))
  {
    StatusHasNoEquals(r.spf);
    StatusHasNoEquals(r.dkim);
    StatusHasNoEquals(r.dmarc);
    SettingInSetting(k, v, "action", action);
    SettingInSetting(k, v, "spf", StatusText(r.spf));
    SettingInSetting(k, v, "dkim", StatusText(r.dkim));
    SettingInSetting(k, v, "dmarc", StatusText(r.dmarc));
    FourSettings("action" + "=" + action, "spf" + "=" + StatusText(r.spf), "dkim" + "=" + StatusText(r.dkim),
                 "dmarc" + "=" + StatusText(r.dmarc), k + "=" + v);
    assert "action=" == "action" + "=" && "spf=" == "spf" + "=" && "dkim=" == "dkim" + "=" && "dmarc=" == "dmarc" + "=";
  }

  lemma FourSettings(a: string, b: string, c: string, d: string, p: string)
    requires ' ' !in p
    ensures Contains(a + [' '] + b + [' '] + c + [' '] + d, p)
      <==> Contains(a, p) || Contains(b, p) || Contains(c, p) || Contains(d, p)
  {
    ContainsAcross(a + [' '] + b + [' '] + c, ' ', d, p);
    ContainsAcross(a + [' '] + b, ' ', c, p);
    ContainsAcross(a, ' ', b, p);
  }

  lemma NamesDiffer()
    ensures !HasSuffix("action", "spf") && !HasSuffix("dkim", "spf") && !HasSuffix("dmarc", "spf")
    ensures !HasSuffix("action", "dkim") && !HasSuffix("spf", "dkim") && !HasSuffix("dmarc", "dkim")
    ensures !HasSuffix("action", "dmarc") && !HasSuffix("spf", "dmarc") && !HasSuffix("dkim", "dmarc")
    ensures !HasSuffix("spf", "action") && !HasSuffix("dkim", "action") && !HasSuffix("dmarc", "action")
    ensures HasSuffix("spf", "spf") && HasSuffix("dkim", "dkim") && HasSuffix("dmarc", "dmarc")
    ensures HasSuffix("action", "action")
  {
    assert "action"[5] == 'n' && "spf"[2] == 'f' && "dkim"[3] == 'm' && "dmarc"[4] == 'c';
  }

  lemma ValuesDiffer(s: Status)
    ensures HasPrefix(StatusText(s), "pass") <==> s == Pass
    ensures HasPrefix(StatusText(s), "fail") <==> s == Fail
    ensures HasPrefix(StatusText(s), "softfail") <==> s == Softfail
    ensures HasPrefix(StatusText(s), "none") <==> s == NoStatus
  {
    assert "pass"[0] == 'p' && "fail"[0] == 'f' && "softfail"[0] == 's' && "none"[0] == 'n';
    assert |StatusText(s)| > 0 && StatusText(s)[..1][0] == StatusText(s)[0];
  }

  /** How one result is told by the X-Spam-Status value. */
  ghost predicate Tells(h: string, name: string, s: Status) {
    && (Contains(h, name + "=" + "pass") <==> s == Pass)
    && (Contains(h, name + "=" + "fail") <==> s == Fail)
    && (Contains(h, name + "=" + "softfail") <==> s == Softfail)
    && (Contains(h, name + "=" + "none") <==> s == NoStatus)
  }

  /** The result that goes under a name. */
  ghost predicate GoesUnder(name: string, s: Status, r: Results) {
    (name == "spf" && s == r.spf) || (name == "dkim" && s == r.dkim) || (name == "dmarc" && s == r.dmarc)
  }

  lemma HeaderHasOne(h: string, r: Results, action: Action, name: string, s: Status, v: string)
    requires h == SpamStatusHeader(r, action) && '=' !in action && GoesUnder(name, s, r) && '=' !in v && ' ' !in v
    ensures Contains(h, name + "=" + v) <==> HasPrefix(StatusText(s), v)
  {
    NamesDiffer();
    HeaderHas(r, action, name, v);
  }

  lemma TellsFrom(h: string, name: string, s: Status)
    requires Contains(h, name + "=" + "pass") <==> HasPrefix(StatusText(s), "pass")
    requires Contains(h, name + "=" + "fail") <==> HasPrefix(StatusText(s), "fail")
    requires Contains(h, name + "=" + "softfail") <==> HasPrefix(StatusText(s), "softfail")
    requires Contains(h, name + "=" + "none") <==> HasPrefix(StatusText(s), "none")
    ensures Tells(h, name, s)
  {
    ValuesDiffer(s);
  }

  lemma HeaderTellsOne(h: string, r: Results, action: Action, name: string, s: Status)
    requires h == SpamStatusHeader(r, action) && '=' !in action && GoesUnder(name, s, r)
    ensures Tells(h, name, s)
  {
    HeaderHasOne(h, r, action, name, s, "pass");
    HeaderHasOne(h, r, action, name, s, "fail");
    HeaderHasOne(h, r, action, name, s, "softfail");
    HeaderHasOne(h, r, action, name, s, "none");
    TellsFrom(h, name, s);
  }

  /** The stored value says of SPF, DKIM and DMARC what was found, and nothing else. */
  lemma HeaderTells(r: Results, action: Action)
    requires '=' !in action
    ensures Tells(SpamStatusHeader(r, action), "spf", r.spf)
    ensures Tells(SpamStatusHeader(r, action), "dkim", r.dkim)
    ensures Tells(SpamStatusHeader(r, action), "dmarc", r.dmarc)
  {
    var h := SpamStatusHeader(r, action);
    HeaderTellsOne(h, r, action, "spf", r.spf);
    HeaderTellsOne(h, r, action, "dkim", r.dkim);
    HeaderTellsOne(h, r, action, "dmarc", r.dmarc);
  }

  lemma HeaderMark(r: Results, action: Action)
    requires action == "spam" || action == "inbox"
    ensures Contains(SpamStatusHeader(r, action), MARK) <==> action == "spam"
  {
    NamesDiffer();
    HeaderHas(r, action, "action", "spam");
    assert MARK == "action" + "=" + "spam";
    assert "inbox"[0] == 'i' && "spam"[0] == 's' && "inbox"[..4][0] == "inbox"[0];
  }

  lemma SpfPartTells(quote: Quoter, r: Results)
    ensures HasPrefix(SpfPart(quote, r), "spf=" + "pass") <==> r.spf == Pass
    ensures HasPrefix(SpfPart(quote, r), "spf=" + "fail") <==> r.spf == Fail
    ensures r.spfDomain != "" ==> HasSuffix(SpfPart(quote, r), " smtp.mailfrom=" + r.spfDomain)
  {
    StatusInFront("spf=", r.spf, Item(r.spfDetail, " reason=" + quote(r.spfDetail)),
                  Item(r.spfDomain, " smtp.mailfrom=" + r.spfDomain));
  }

  lemma DkimPartTells(quote: Quoter, r: Results)
    ensures HasPrefix(DkimPart(quote, r), "dkim=" + "pass") <==> r.dkim == Pass
    ensures HasPrefix(DkimPart(quote, r), "dkim=" + "fail") <==> r.dkim == Fail
    ensures r.dkimDomain != "" ==> HasSuffix(DkimPart(quote, r), " header.d=" + r.dkimDomain)
  {
    StatusInFront("dkim=", r.dkim, Item(r.dkimDetail, " reason=" + quote(r.dkimDetail)),
                  Item(r.dkimDomain, " header.d=" + r.dkimDomain));
  }

  lemma DmarcPartTells(quote: Quoter, r: Results)
    ensures HasPrefix(DmarcPart(quote, r), "dmarc=" + "pass") <==> r.dmarc == Pass
    ensures HasPrefix(DmarcPart(quote, r), "dmarc=" + "fail") <==> r.dmarc == Fail
    ensures r.fromDomain != "" ==> HasSuffix(DmarcPart(quote, r), " header.from=" + r.fromDomain)
  {
    var a, b := Item(r.dmarcDetail, " reason=" + quote(r.dmarcDetail)),
                Item(r.dmarcPolicy, " policy.published=" + r.dmarcPolicy);
    StatusInFront("dmarc=", r.dmarc, a + b, Item(r.fromDomain, " header.from=" + r.fromDomain));
    DmarcRegroup("dmarc=" + StatusText(r.dmarc), a, b, Item(r.fromDomain, " header.from=" + r.fromDomain));
  }

  /** Each part of Authentication-Results begins with its result and ends with the domain it is about. */
  ghost predicate PartTells(part: string, name: string, s: Status, field: string, domain: string) {
    && (HasPrefix(part, name + "pass") <==> s == Pass)
    && (HasPrefix(part, name + "fail") <==> s == Fail)
    && (domain != "" ==> HasSuffix(part, field + domain))
  }

  lemma PartsTell(quote: Quoter, r: Results)
    ensures PartTells(SpfPart(quote, r), "spf=", r.spf, " smtp.mailfrom=", r.spfDomain)
    ensures PartTells(DkimPart(quote, r), "dkim=", r.dkim, " header.d=", r.dkimDomain)
    ensures PartTells(DmarcPart(quote, r), "dmarc=", r.dmarc, " header.from=", r.fromDomain)
  {
    SpfPartTells(quote, r);
    DkimPartTells(quote, r);
    DmarcPartTells(quote, r);
  }

  lemma DmarcRegroup(a: string, b: string, c: string, d: string)
    ensures a + b + c + d == a + (b + c) + d
  {
  }

  lemma StatusInFront(name: string, s: Status, middle: string, end: string)
    ensures HasPrefix(name + StatusText(s) + middle + end, name + "pass") <==> s == Pass
    ensures HasPrefix(name + StatusText(s) + middle + end, name + "fail") <==> s == Fail
    ensures HasSuffix(name + StatusText(s) + middle + end, end)
  {
    var w, t, n := name + StatusText(s) + middle + end, StatusText(s), |name|;
    assert |t| >= 4 && w[n..n + |t|] == t && w[..n] == name;
    assert w[n] == t[0];
    assert "pass"[0] == 'p' && "fail"[0] == 'f';
    if HasPrefix(w, name + "pass") { assert w[n] == (name + "pass")[n]; }
    if HasPrefix(w, name + "fail") { assert w[n] == (name + "fail")[n]; }
    if s == Pass || s == Fail { assert w[..n + 4] == name + t; }
    assert w[|w| - |end|..] == end;
  }

  lemma EmptyHasNoMark()
    ensures !Contains("", MARK)
  {
  }

  lemma FoldTailCons(head: string, conts: seq<string>)
    requires conts != []
    ensures head + FoldTail(conts) == head + [' '] + (Trim(conts[0]) + FoldTail(conts[1..]))
  {
  }

  lemma TailMark(head: string, conts: seq<string>)
    ensures Contains(head + FoldTail(conts), MARK) <==> Contains(head, MARK) || Contains(FoldTail(conts), MARK)
  {
    EmptyHasNoMark();
    if conts == [] {
      assert head + "" == head;
    } else {
      var t := Trim(conts[0]) + FoldTail(conts[1..]);
      FoldTailCons(head, conts);
      FoldTailCons("", conts);
      ContainsAcross(head, ' ', t, MARK);
      ContainsAcross("", ' ', t, MARK);
      assert "" + FoldTail(conts) == FoldTail(conts);
    }
  }

  /**
    The exact round trip, for every received message: the flag is set if and
    only if the header block can be read and the decision was spam, or the
    message begins with folded lines that mention the mark themselves.
  */
  lemma SpamRoundTrip(quote: Quoter, raw: string, domain: string, r: Results, action: Action)
    requires Printable(quote, domain, r, action)
    ensures SpamFlag(Inject(quote, raw, domain, r, action)) <==>
      !After(raw).Malformed? && (action == "spam" || Contains(Tail(raw), MARK))
  {
    StoredParse(quote, raw, domain, r, action);
    HeaderMark(r, action);
    TailMark(SpamStatusHeader(r, action), PhysLines(raw)[..Conts(PhysLines(raw))]);
  }

  /** For every message that parses on its own, whatever fields it brings along, the decision survives. */
  lemma DecisionSurvives(quote: Quoter, raw: string, domain: string, r: Results, action: Action)
    requires Printable(quote, domain, r, action) && ReadMessage(raw).Some?
    ensures SpamFlag(Inject(quote, raw, domain, r, action)) <==> action == "spam"
    ensures var m := ReadMessage(Inject(quote, raw, domain, r, action));
      m.Some? && Get(m.value, "X-Spam-Status") == SpamStatusHeader(r, action)
  {
    ParsesAlone(raw);
    SpamRoundTrip(quote, raw, domain, r, action);
    StoredParse(quote, raw, domain, r, action);
    EmptyHasNoMark();
    assert SpamStatusHeader(r, action) + "" == SpamStatusHeader(r, action);
  }

  lemma ParsesAlone(raw: string)
    requires ReadMessage(raw).Some?
    ensures Tail(raw) == "" && !After(raw).Malformed?
  {
  }

  /** What a listing sees of a message when so much of it fits. */
  function Seen(raw: string, room: nat): string { if |raw| <= room then raw else raw[..room] }

  /** The listing's limit cuts the sender's part only, as long as the injected fields fit. */
  lemma ListingSeesTheFlag(quote: Quoter, raw: string, domain: string, r: Results, action: Action, room: nat)
    requires Printable(quote, domain, r, action) && |Inject(quote, "", domain, r, action)| + room == 65536
    ensures ListedSpam(Inject(quote, raw, domain, r, action)) <==>
      !After(Seen(raw, room)).Malformed? && (action == "spam" || Contains(Tail(Seen(raw, room)), MARK))
  {
    var pre := Inject(quote, "", domain, r, action);
    InjectPrepends(quote, raw, domain, r, action);
    InjectPrepends(quote, Seen(raw, room), domain, r, action);
    if |raw| > room { assert (pre + raw)[..PEEK] == pre + Seen(raw, room); }
    SpamRoundTrip(quote, Seen(raw, room), domain, r, action);
  }

  /** Folded lines at the start of a message are read as part of the injected field. */
  lemma FoldedStartForgesFlag(quote: Quoter, domain: string, r: Results)
    requires Printable(quote, domain, r, "inbox")
    ensures SpamFlag(Inject(quote, " action=spam\n", domain, r, "inbox"))
  {
    MarkIsFolded();
    SpamRoundTrip(quote, " action=spam\n", domain, r, "inbox");
  }

  lemma MarkIsFolded()
    ensures Contains(Tail(" action=spam\n"), MARK) && !After(" action=spam\n").Malformed?
  {
    MarkInMark();
    OnlyFolded();
  }

  lemma MarkInMark()
    ensures Contains("" + [' '] + MARK, MARK)
  {
    ContainsAcross("", ' ', MARK, MARK);
    assert MARK[0..11] == MARK && OccursAt(MARK, MARK, 0);
  }

  lemma FoldedOnly(line: string)
    requires Continues(line) && '\n' !in line && line[|line| - 1] != '\r'
    ensures Tail(line + "\n" + "") == "" + [' '] + Trim(line) && After(line + "\n" + "") == Parsed([], true)
  {
    FirstLine(line, "");
    var ls := PhysLines(line + "\n" + "");
    assert ls == [line];
    assert Conts(ls) == 1 by { assert [line][1..] == []; }
    assert ls[..1] == [line] && ls[1..] == [];
    FoldTailCons("", [line]);
    assert Trim(line) + FoldTail([line][1..]) == Trim(line);
  }

  lemma OnlyFolded()
    ensures Tail(" action=spam\n") == "" + [' '] + MARK && After(" action=spam\n") == Parsed([], true)
  {
    var line := " action=spam";
    FoldedOnly(line);
    assert " action=spam\n" == line + "\n" + "";
    assert line[1..] == MARK && TrimLeft(line) == MARK;
    assert Trim(line) == MARK;
  }

  /** A line without a colon hides the field: the header block cannot be read, and spam shows as clean. */
  lemma MalformedHidesFlag(quote: Quoter, domain: string, r: Results)
    requires Printable(quote, domain, r, "spam")
    ensures !SpamFlag(Inject(quote, "x\n", domain, r, "spam"))
  {
    NoColon();
    SpamRoundTrip(quote, "x\n", domain, r, "spam");
  }

  lemma NoColon()
    ensures After("x\n").Malformed?
  {
    assert "x\n" == "x" + "\n" + "";
    FirstLine("x", "");
    assert PhysLines("x\n") == ["x"] && ["x"][0..] == ["x"];
    OneWordLine("x");
  }

  lemma OneWordLine(w: string)
    requires w != "" && ':' !in w && !IsBlank(w[0]) && !IsBlank(w[|w| - 1])
    ensures Conts([w]) == 0 && ParseLines([w]).Malformed?
  {
    assert [w][1..] == [] && [w][..1] == [w];
    BlanksFixed(w);
    assert w + "" == w;
    assert forall i :: 0 <= i < |w| ==> w[i] in w;
  }

  // ---------------------------------------------------------------- a listing of an ordinary message

  lemma CutLine(x: string) returns (l: string, rest: string)
    requires x != "" && x[|x| - 1] == '\n'
    ensures x == l + "\n" + rest && '\n' !in l && |rest| < |x| && (rest == "" || rest[|rest| - 1] == '\n')
  {
    var n := LineLen(x);
    l, rest := x[..n], x[n + 1..];
  }

  lemma {:induction false} PhysConcat(x: string, y: string)
    requires x == "" || x[|x| - 1] == '\n'
    ensures PhysLines(x + y) == PhysLines(x) + PhysLines(y)
    decreases |x|
  {
    if x == "" {
      assert x + y == y;
    } else {
      var l, rest := CutLine(x);
      PhysConcat(rest, y);
      FirstLine(l, rest);
      FirstLine(l, rest + y);
      MoveBreak("", l, rest, y);
      Regroup([StripCr(l)], PhysLines(rest), PhysLines(y));
    }
  }

  lemma PrefixTail(a: seq<string>, c: seq<string>, n: nat)
    requires a <= c && n <= |a|
    ensures a[n..] <= c[n..] && a[..n] == c[..n]
  {
    assert c == a + c[|a|..];
    assert c[n..] == a[n..] + c[|a|..];
  }

  /** Continuations end at the empty line at the latest. */
  lemma {:induction false} ContsWithin(a: seq<string>, c: seq<string>, k: nat)
    requires a <= c && k < |a| && a[k] == ""
    ensures Conts(c) == Conts(a) <= k
  {
    assert c[0] == a[0];
    if Continues(a[0]) {
      PrefixTail(a, c, 1);
      ContsWithin(a[1..], c[1..], k - 1);
    }
  }

  /** Parsing is determined by the first field and the rest. */
  lemma ParseSame(c: seq<string>, a: seq<string>, n: nat)
    requires 0 < n <= |a| && n <= |c| && a[0] != "" && c[..n] == a[..n]
    requires n == 1 + Conts(c[1..]) == 1 + Conts(a[1..])
    requires ParseLines(c[n..]) == ParseLines(a[n..])
    ensures ParseLines(c) == ParseLines(a)
  {
    assert c[0] == c[..n][0] == a[..n][0] == a[0];
    ParseFirst(c, n);
    ParseFirst(a, n);
  }

  /** What is behind the empty line does not matter. */
  lemma {:induction false} ParseStops(a: seq<string>, c: seq<string>, k: nat)
    requires a <= c && k < |a| && a[k] == ""
    ensures ParseLines(c) == ParseLines(a)
    decreases |a|
  {
    assert c[0] == a[0];
    if a[0] != "" {
      var n := 1 + Conts(a[1..]);
      PrefixTail(a, c, 1);
      ContsWithin(a[1..], c[1..], k - 1);
      PrefixTail(a, c, n);
      ParseStops(a[n..], c[n..], k - n);
      ParseSame(c, a, n);
    }
  }

  lemma StartSame(x: string, y: string, z: string)
    requires x != ""
    ensures Continues(x + y) <==> Continues(x + z)
  {
    assert (x + y)[0] == x[0] == (x + z)[0];
  }

  /** A message reads the same whatever follows the empty line that ends its header block. */
  lemma ReadsHead(x: string, y: string, z: string)
    requires x != "" && x[|x| - 1] == '\n' && "" in PhysLines(x)
    ensures ReadMessage(x + y) == ReadMessage(x + z)
  {
    PhysConcat(x, y);
    PhysConcat(x, z);
    var k :| 0 <= k < |PhysLines(x)| && PhysLines(x)[k] == "";
    ParseStops(PhysLines(x), PhysLines(x) + PhysLines(y), k);
    ParseStops(PhysLines(x), PhysLines(x) + PhysLines(z), k);
    StartSame(x, y, z);
  }

  lemma SeenParses(x: string, y: string, room: nat)
    requires x != "" && x[|x| - 1] == '\n' && "" in PhysLines(x) && |x| <= room && ReadMessage(x + y).Some?
    ensures !After(Seen(x + y, room)).Malformed? && Tail(Seen(x + y, room)) == ""
  {
    var z := SeenPart(x, y, room);
    ReadsHead(x, y, z);
    ParsesAlone(x + z);
  }

  /** A message that parses and whose header block ends within the limit is listed with the decision. */
  lemma ListingTellsTheDecision(
      quote: Quoter, x: string, y: string, domain: string, r: Results, action: Action, room: nat)
    requires Printable(quote, domain, r, action) && ReadMessage(x + y).Some?
    requires x != "" && x[|x| - 1] == '\n' && "" in PhysLines(x)
    requires |Inject(quote, "", domain, r, action)| + room == 65536 && |x| <= room
    ensures ListedSpam(Inject(quote, x + y, domain, r, action)) <==> action == "spam"
  {
    ListingSeesTheFlag(quote, x + y, domain, r, action, room);
    SeenParses(x, y, room);
    EmptyHasNoMark();
  }

  lemma SeenPart(x: string, y: string, room: nat) returns (z: string)
    requires |x| <= room
    ensures x + z == Seen(x + y, room)
  {
    z := if |x + y| <= room then y else y[..room - |x|];
  }

  /** A field name: no colon, no blank, no line end. */
  predicate PlainName(name: string) {
    name != "" && forall i :: 0 <= i < |name| ==> name[i] !in ":\n\r" && !IsBlank(name[i])
  }

  lemma NameField(name: string)
    requires PlainName(name)
    ensures ReadMessage(name + ":" + "\n" + "").Some?
  {
    var l := name + ":";
    FirstLine(l, "");
    assert PhysLines(l + "\n" + "") == [l];
    FieldInFront(l, [], [], |name|);
    assert [l] + [] + [] == [l];
    assert l[..|name|] == name;
    NameSize(name);
    assert (l + "\n" + "")[0] == name[0];
  }

  lemma NameOnly(name: string)
    requires PlainName(name)
    ensures After(name).Malformed?
  {
    assert LineLen(name) == |name| && PhysLines(name) == [name];
    assert ':' !in name;
    OneWordLine(name);
    assert [name][0..] == [name];
  }

  /**
    The listing and the view can disagree: if the first field name of the
    message does not end within what the listing sees, spam is listed as clean
    and shown as spam.
  */
  lemma LongNameHidesFromListing(quote: Quoter, domain: string, r: Results, name: string, room: nat)
    requires Printable(quote, domain, r, "spam") && |Inject(quote, "", domain, r, "spam")| + room == 65536
    requires PlainName(name) && 0 < room <= |name|
    ensures var stored := Inject(quote, name + ":" + "\n" + "", domain, r, "spam");
      SpamFlag(stored) && !ListedSpam(stored)
  {
    var raw := name + ":" + "\n" + "";
    NameField(name);
    DecisionSurvives(quote, raw, domain, r, "spam");
    ListingSeesTheFlag(quote, raw, domain, r, "spam", room);
    assert Seen(raw, room) == name[..room];
    NameOnly(name[..room]);
  }
}
