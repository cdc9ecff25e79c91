/** The loops and the arithmetic of the web handlers: attachments, pages, sizes. */
module Web {
  import opened Options
  import opened Decimals
  import opened Strings

  // ---------------------------------------------------------------- attachments

  /**
    One visit of a walk over a message: an entity that could not be read, or a
    part with its headers and decoded body.
  */
  datatype Visit = Broken | Part(disposition: string, dispName: string, mediaType: string, typeName: string,
    body: string)

  datatype Attachment = Attachment(n: nat, filename: string, mediaType: string, size: nat)

  datatype Download = Download(filename: string, mediaType: string, body: string)

  function NameOf(p: Visit): string
    requires p.Part?
  {
    if p.dispName != "" then p.dispName else p.typeName
  }

  predicate IsAttachment(p: Visit) { p.Part? && (p.disposition == "attachment" || NameOf(p) != "") }

  function FileName(p: Visit, n: nat): string
    requires p.Part?
  {
    if NameOf(p) == "" then "part-" + Digits(n) else NameOf(p)
  }

  /** The places of the attachments in walk order: their numbers are the positions in this list. */
  function Places(parts: seq<Visit>): seq<nat> {
    if parts == [] then []
    else Places(parts[..|parts| - 1]) + if IsAttachment(parts[|parts| - 1]) then [|parts| - 1] else []
  }

  /** What the header fields of a part say: it has the disposition or a name. */
  predicate Offered(p: Visit) {
    p.Part? && (p.disposition == "attachment" || p.dispName != "" || p.typeName != "")
  }

  /** The numbered parts are exactly those offered by their headers, in order. */
  lemma {:induction false} PlacesAreAttachments(parts: seq<Visit>)
    ensures forall k :: 0 <= k < |Places(parts)| ==> Places(parts)[k] < |parts| && Offered(parts[Places(parts)[k]])
    ensures forall i :: 0 <= i < |parts| && Offered(parts[i]) ==> i in Places(parts)
    ensures forall j, k :: 0 <= j < k < |Places(parts)| ==> Places(parts)[j] < Places(parts)[k]
  {
    if parts != [] {
      var n := |parts| - 1;
      var q := Places(parts[..n]);
      PlacesAreAttachments(parts[..n]);
      assert Places(parts) == q + if IsAttachment(parts[n]) then [n] else [];
      forall k | 0 <= k < |q| ensures q[k] < n && Offered(parts[q[k]]) {
        assert parts[..n][q[k]] == parts[q[k]];
      }
      forall i | 0 <= i < |parts| && Offered(parts[i]) ensures i in Places(parts) {
        if i < n {
          assert parts[..n][i] == parts[i];
          assert i in q;
        }
      }
    }
  }

  /** The listing numbers the attachments; the bodies of text parts are picked on the way. */
  method WalkMessage(entity: Option<seq<Visit>>) returns (text: string, html: string, attach: seq<Attachment>)
    ensures entity.None? ==> attach == []
    ensures entity.Some? ==> |attach| == |Places(entity.value)|
    ensures entity.Some? ==>
      forall k :: 0 <= k < |attach| ==> ListsAt(attach[k], k, entity.value, Places(entity.value)[k])
    ensures entity.Some? ==>
      text == FirstBody(entity.value, "text/plain") && html == FirstBody(entity.value, "text/html")
  {
    text, html, attach := "", "", [];
    if entity.None? { return; }
    var parts := entity.value;
    var n := 0;
    for i := 0 to |parts|
      invariant n == |attach| == |Places(parts[..i])|
      invariant forall k :: 0 <= k < |attach| ==> ListsAt(attach[k], k, parts, Places(parts[..i])[k])
      invariant text == FirstBody(parts[..i], "text/plain") && html == FirstBody(parts[..i], "text/html")
    {
      WalkStep(parts, i, "text/plain");
      WalkStep(parts, i, "text/html");
      var p := parts[i];
      if p.Broken? { continue; }
      var isAttach := IsAttachment(p);
      if !isAttach && p.mediaType == "text/plain" && text == "" {
        text := p.body;
      } else if !isAttach && p.mediaType == "text/html" && html == "" {
        html := p.body;
      } else if isAttach {
        attach := attach + [Attachment(n, FileName(p, n), p.mediaType, |p.body|)];
        n := n + 1;
      }
    }
    assert parts[..|parts|] == parts;
  }

  lemma WalkStep(parts: seq<Visit>, i: nat, mediaType: string)
    requires i < |parts|
    ensures Places(parts[..i + 1]) == Places(parts[..i]) + if IsAttachment(parts[i]) then [i] else []
    ensures FirstBody(parts[..i + 1], mediaType) ==
      if FirstBody(parts[..i], mediaType) == "" && parts[i].Part? && !IsAttachment(parts[i])
        && parts[i].mediaType == mediaType
      then parts[i].body else FirstBody(parts[..i], mediaType)
  {
    assert parts[..i + 1][..i] == parts[..i] && parts[..i + 1][i] == parts[i];
  }

  /** The name offered by the disposition, else by the content type, else the number. */
  ghost predicate Named(p: Visit, k: nat, name: string) {
    && p.Part?
    && (p.dispName != "" ==> name == p.dispName)
    && (p.dispName == "" && p.typeName != "" ==> name == p.typeName)
    && (p.dispName == "" && p.typeName == "" ==> name == "part-" + Digits(k))
  }

  ghost predicate ListsAt(a: Attachment, k: nat, parts: seq<Visit>, i: nat) {
    && i < |parts| && Offered(parts[i]) && Named(parts[i], k, a.filename)
    && a.n == k && a.mediaType == parts[i].mediaType && a.size == |parts[i].body|
  }

  /** The first nonempty body of a type that is not an attachment. */
  function FirstBody(parts: seq<Visit>, mediaType: string): string {
    if parts == [] then ""
    else
      var before, last := FirstBody(parts[..|parts| - 1], mediaType), parts[|parts| - 1];
      if before == "" && last.Part? && !IsAttachment(last) && last.mediaType == mediaType then last.body else before
  }

  /** A body for the view: not an attachment, of that type, and not empty. */
  predicate IsBody(p: Visit, mediaType: string) { p.Part? && !Offered(p) && p.mediaType == mediaType && p.body != "" }

  predicate NoBody(parts: seq<Visit>, mediaType: string) {
    forall i :: 0 <= i < |parts| ==> !IsBody(parts[i], mediaType)
  }

  lemma BodyNext(parts: seq<Visit>, mediaType: string)
    requires parts != []
    ensures var n := |parts| - 1;
      && (NoBody(parts, mediaType) <==> NoBody(parts[..n], mediaType) && !IsBody(parts[n], mediaType))
      && FirstBody(parts, mediaType) == (
          if FirstBody(parts[..n], mediaType) == "" && IsBody(parts[n], mediaType) then parts[n].body
          else FirstBody(parts[..n], mediaType))
  {
    var n := |parts| - 1;
    assert forall i :: 0 <= i < n ==> parts[..n][i] == parts[i];
  }

  /** The view has no text of a type exactly if there is no body of that type. */
  lemma {:induction false} NoBodyMeansNone(parts: seq<Visit>, mediaType: string)
    ensures NoBody(parts, mediaType) <==> FirstBody(parts, mediaType) == ""
  {
    if parts != [] {
      NoBodyMeansNone(parts[..|parts| - 1], mediaType);
      BodyNext(parts, mediaType);
    }
  }

  /** Otherwise it is the first body of that type in walk order. */
  lemma {:induction false} FirstBodyIsFirst(parts: seq<Visit>, mediaType: string, i: nat)
    requires i < |parts| && IsBody(parts[i], mediaType) && NoBody(parts[..i], mediaType)
    ensures FirstBody(parts, mediaType) == parts[i].body
    decreases |parts|
  {
    var n := |parts| - 1;
    BodyNext(parts, mediaType);
    if i < n {
      assert parts[..n][..i] == parts[..i];
      FirstBodyIsFirst(parts[..n], mediaType, i);
    } else {
      NoBodyMeansNone(parts[..n], mediaType);
    }
  }

  /** The download counts again, and stops at the wanted number. `readOk` is false when reading reported an error. */
  method HandleAttach(entity: Option<seq<Visit>>, readOk: bool, want: int) returns (d: Option<Download>)
    ensures !readOk || entity.None? || want < 0 ==> d.None?
    ensures readOk && entity.Some? && want >= 0 ==> (d.None? <==> want >= |Places(entity.value)|)
    ensures d.Some? ==> ServesAt(d.value, want, entity.value, Places(entity.value)[want])
  {
    d := None;
    if want < 0 || !readOk || entity.None? { return; }
    var parts := entity.value;
    var n := 0;
    for i := 0 to |parts|
      invariant d.None? ==> n == |Places(parts[..i])| <= want
      invariant d.Some? ==> want < |Places(parts[..i])| && ServesAt(d.value, want, parts, Places(parts[..i])[want])
    {
      assert parts[..i + 1][..i] == parts[..i] && parts[..i + 1][i] == parts[i];
      var p := parts[i];
      if d.Some? || p.Broken? { continue; }
      if p.disposition != "attachment" && NameOf(p) == "" { continue; }
      if n == want { d := Some(Download(FileName(p, n), p.mediaType, p.body)); }
      n := n + 1;
    }
    assert parts[..|parts|] == parts;
  }

  ghost predicate ServesAt(d: Download, k: nat, parts: seq<Visit>, i: nat) {
    && i < |parts| && Offered(parts[i]) && Named(parts[i], k, d.filename)
    && d.mediaType == parts[i].mediaType && d.body == parts[i].body
  }

  ghost predicate Describes(a: Attachment, k: int, d: Download) {
    a.n == k && a.filename == d.filename && a.mediaType == d.mediaType && a.size == |d.body|
  }

  // ---------------------------------------------------------------- the two walks of a message

  /** The part of a message that a walk can reach: single parts, and multipart ones with the parts inside. */
  datatype Tree = Leaf(visit: Visit) | Multi(visit: Visit, inside: seq<Tree>)

  /** In the order of a walk that reads nothing on the way. */
  function Nodes(t: Tree): seq<Tree>
    decreases t, 1
  {
    [t] + if t.Multi? then NodesAll(t.inside) else []
  }

  function NodesAll(ts: seq<Tree>): seq<Tree>
    decreases ts, 0
  {
    if ts == [] then [] else Nodes(ts[0]) + NodesAll(ts[1..])
  }

  function Visits(ns: seq<Tree>): seq<Visit> { seq(|ns|, i requires 0 <= i < |ns| => ns[i].visit) }

  /** What the download walks until it has found its part. */
  function Full(t: Tree): seq<Visit> { Visits(Nodes(t)) }

  /** The listing reads it to its end for the size, although there are parts to come from it. */
  predicate Drains(t: Tree) { t.Multi? && IsAttachment(t.visit) }

  /** A walk, and whether an error has ended it. */
  datatype Walk = Walk(visits: seq<Visit>, ended: bool)

  /** The listing: asking a drained part for the parts inside it is an error, and that ends the walk. */
  function Listing(t: Tree): Walk
    decreases t, 1
  {
    if Drains(t) then Walk([t.visit], true)
    else if t.Leaf? then Walk([t.visit], false)
    else
      var w := ListingAll(t.inside);
      Walk([t.visit] + w.visits, w.ended)
  }

  function ListingAll(ts: seq<Tree>): Walk
    decreases ts, 0
  {
    if ts == [] then Walk([], false) else Then(Listing(ts[0]), ListingAll(ts[1..]))
  }

  function Then(v: Walk, w: Walk): Walk { if v.ended then v else Walk(v.visits + w.visits, w.ended) }

  /** How many parts the listing reaches: up to the first one it drains, or all. */
  function Reach(ns: seq<Tree>): (n: nat)
    ensures n <= |ns| && (n < |ns| ==> n > 0) && (forall i :: 0 <= i < n - 1 ==> !Drains(ns[i]))
    ensures n < |ns| ==> Drains(ns[n - 1])
  {
    if ns == [] then 0 else if Drains(ns[0]) then 1 else 1 + Reach(ns[1..])
  }

  /** The same as a walk. */
  function CutWalk(ns: seq<Tree>): Walk {
    if ns == [] then Walk([], false)
    else if Drains(ns[0]) then Walk([ns[0].visit], true)
    else Walk([ns[0].visit] + CutWalk(ns[1..]).visits, CutWalk(ns[1..]).ended)
  }

  lemma {:induction false} CutThen(a: seq<Tree>, b: seq<Tree>)
    ensures CutWalk(a + b) == Then(CutWalk(a), CutWalk(b))
  {
    if a == [] {
      assert a + b == b && [] + CutWalk(b).visits == CutWalk(b).visits;
    } else {
      assert (a + b)[0] == a[0] && (a + b)[1..] == a[1..] + b;
      CutThen(a[1..], b);
      Regroup([a[0].visit], CutWalk(a[1..]).visits, CutWalk(b).visits);
    }
  }

  lemma {:induction false} ListingIsCut(t: Tree)
    ensures Listing(t) == CutWalk(Nodes(t))
    decreases t, 1
  {
    assert Nodes(t)[0] == t;
    if t.Multi? {
      ListingAllIsCut(t.inside);
      assert Nodes(t)[1..] == NodesAll(t.inside);
    } else {
      assert Nodes(t)[1..] == [];
    }
  }

  lemma {:induction false} ListingAllIsCut(ts: seq<Tree>)
    ensures ListingAll(ts) == CutWalk(NodesAll(ts))
    decreases ts, 0
  {
    if ts != [] {
      ListingIsCut(ts[0]);
      ListingAllIsCut(ts[1..]);
      CutThen(Nodes(ts[0]), NodesAll(ts[1..]));
    }
  }

  lemma {:induction false} CutIsPrefix(ns: seq<Tree>)
    ensures CutWalk(ns).visits == Visits(ns[..Reach(ns)])
  {
    if ns != [] && !Drains(ns[0]) {
      CutIsPrefix(ns[1..]);
      var n := Reach(ns[1..]);
      assert ns[..n + 1] == [ns[0]] + ns[1..][..n];
      assert Visits(ns[..n + 1]) == [ns[0].visit] + Visits(ns[1..][..n]);
    }
  }

  /** The listing sees what the download would walk, cut behind the first multipart attachment. */
  lemma ListingIsPrefix(t: Tree)
    ensures Listing(t).visits == Full(t)[..Reach(Nodes(t))]
  {
    ListingIsCut(t);
    CutIsPrefix(Nodes(t));
    assert Visits(Nodes(t)[..Reach(Nodes(t))]) == Full(t)[..Reach(Nodes(t))];
  }

  /** No attachment comes after the first multipart one: neither inside it nor behind it. */
  predicate Complete(t: Tree) { NoneFrom(Full(t), Reach(Nodes(t))) }

  predicate NoneFrom(parts: seq<Visit>, n: nat) {
    forall i :: n <= i < |parts| ==> !IsAttachment(parts[i])
  }

  /** The numbers given to the first parts do not depend on what follows. */
  lemma {:induction false} PlacesPrefix(parts: seq<Visit>, n: nat)
    requires n <= |parts|
    ensures Places(parts[..n]) <= Places(parts)
    ensures |Places(parts[..n])| == |Places(parts)| <==> NoneFrom(parts, n)
    decreases |parts|
  {
    var m := |parts| - 1;
    if n == |parts| {
      assert parts[..n] == parts;
    } else {
      PlacesPrefix(parts[..m], n);
      assert parts[..m][..n] == parts[..n];
      assert NoneFrom(parts, n) <==> NoneFrom(parts[..m], n) && !IsAttachment(parts[m]);
    }
  }

  /**
    For every message: the attachments listed are, with their numbers, the first
    of those the download finds. They are all of them if and only if no
    attachment is inside the first multipart attachment or behind it.
  */
  lemma ListedIsPrefix(t: Tree)
    ensures Places(Listing(t).visits) <= Places(Full(t))
    ensures Places(Listing(t).visits) == Places(Full(t)) <==> Complete(t)
    ensures Listing(t).visits <= Full(t)
  {
    ListingIsPrefix(t);
    PlacesPrefix(Full(t), Reach(Nodes(t)));
  }

  function WalkOrNone(t: Option<Tree>, walk: Tree -> seq<Visit>): Option<seq<Visit>> {
    if t.None? then None else Some(walk(t.value))
  }

  /**
    The two handlers on one message: what is listed under a number is always
    served for it, unless reading reported an error. A number outside the
    listing is not found if the listing is complete; if it is not, the number
    after the last listed one is served.
  */
  method ListedIsServed(entity: Option<Tree>, readOk: bool, want: int)
    returns (attach: seq<Attachment>, d: Option<Download>)
    ensures readOk && 0 <= want < |attach| ==> d.Some? && Describes(attach[want], want, d.value)
    ensures entity.None? || Complete(entity.value) ==> (d.Some? <==> readOk && 0 <= want < |attach|)
    ensures entity.Some? && readOk && want == |attach| ==> (d.Some? <==> !Complete(entity.value))
  {
    var text, html;
    text, html, attach := WalkMessage(WalkOrNone(entity, (t: Tree) => Listing(t).visits));
    d := HandleAttach(WalkOrNone(entity, Full), readOk, want);
    if entity.Some? { ListedIsPrefix(entity.value); }
  }

  /** A forwarded page as a multipart attachment, and behind it a text and a document: only the first is listed. */
  lemma MultipartHidesTheRest(page: Visit, text: Visit, doc: Visit, root: Visit)
    requires root == Part("", "", "multipart/mixed", "", "")
    requires page == Part("attachment", "", "multipart/related", "", "")
    requires text.Part? && !IsAttachment(text) && text.mediaType == "text/plain" && IsAttachment(doc)
    ensures var t := Multi(root, [Multi(page, [Leaf(text)]), Leaf(text), Leaf(doc)]);
      && Listing(t) == Walk([root, page], true) && Full(t) == [root, page, text, text, doc]
      && Places(Listing(t).visits) == [1] && Places(Full(t)) == [1, 4]
      && FirstBody(Listing(t).visits, "text/plain") == "" && FirstBody(Full(t), "text/plain") == text.body
  {
    var inner := Multi(page, [Leaf(text)]);
    var ts := [inner, Leaf(text), Leaf(doc)];
    var t := Multi(root, ts);
    WitnessWalks(inner, Leaf(text), Leaf(doc), t);
    assert Nodes(inner) == [inner, Leaf(text)] by { assert NodesAll([Leaf(text)]) == [Leaf(text)]; }
    assert Full(t) == [root, page, text, text, doc];
    WitnessNumbers(root, page, text, doc);
  }

  lemma WitnessWalks(a: Tree, b: Tree, c: Tree, t: Tree)
    requires t.Multi? && t.inside == [a, b, c] && !IsAttachment(t.visit) && Drains(a) && b.Leaf? && c.Leaf?
    ensures Listing(t) == Walk([t.visit, a.visit], true)
    ensures Nodes(t) == [t] + Nodes(a) + [b, c]
  {
    assert [a, b, c][1..] == [b, c] && [b, c][1..] == [c] && [c][1..] == [];
    assert NodesAll([c]) == [c];
    assert NodesAll([b, c]) == [b, c];
    assert ListingAll([a, b, c]) == Walk([a.visit], true) by { assert Listing(a) == Walk([a.visit], true); }
    assert [t.visit] + [a.visit] == [t.visit, a.visit];
  }

  lemma WitnessNumbers(root: Visit, page: Visit, text: Visit, doc: Visit)
    requires !IsAttachment(root) && IsAttachment(page) && !IsAttachment(text) && IsAttachment(doc)
    requires root.Part? && root.mediaType != "text/plain" && text.Part? && text.mediaType == "text/plain"
    ensures Places([root, page]) == [1] && Places([root, page, text, text, doc]) == [1, 4]
    ensures FirstBody([root, page], "text/plain") == ""
    ensures FirstBody([root, page, text, text, doc], "text/plain") == text.body
  {
    var all := [root, page, text, text, doc];
    assert all[..4] == [root, page, text, text] && all[..4][..3] == [root, page, text];
    assert [root, page, text][..2] == [root, page] && [root, page][..1] == [root] && [root][..0] == [];
    assert Places([root]) == [] && FirstBody([root], "text/plain") == "";
    assert Places([root, page, text]) == [1] && FirstBody([root, page, text], "text/plain") == text.body;
    assert Places([root, page, text, text]) == [1];
    assert FirstBody([root, page, text, text], "text/plain") == text.body;
  }

  // ---------------------------------------------------------------- pages

  const PAGE := 50

  function Pages(total: nat): (n: nat)
    ensures n >= 1 && total <= n * PAGE && (n > 1 ==> (n - 1) * PAGE < total)
  {
    var n := (total + PAGE - 1) / PAGE;
    if n == 0 then 1 else n
  }

  function Slice<T>(msgs: seq<T>, page: nat): seq<T>
    requires 1 <= page <= Pages(|msgs|)
  {
    var start := (page - 1) * PAGE;
    var end := if start + PAGE <= |msgs| then start + PAGE else |msgs|;
    msgs[start..end]
  }

  /** Any requested page is clamped to one that exists. */
  method HandleList<T>(msgs: seq<T>, requested: int) returns (shown: seq<T>, page: nat, pages: nat)
    ensures pages == Pages(|msgs|) && 1 <= page <= pages
    ensures shown == Slice(msgs, page) && |shown| <= 50 && (page < pages ==> |shown| == 50)
    ensures 1 <= requested <= pages ==> page == requested
    ensures requested < 1 ==> page == 1
    ensures requested > pages ==> page == pages
  {
    pages := (|msgs| + PAGE - 1) / PAGE;
    if pages == 0 { pages := 1; }
    var p := requested;
    if p < 1 { p := 1; }
    if p > pages { p := pages; }
    page := p;
    var start := (page - 1) * PAGE;
    var end := if start + PAGE <= |msgs| then start + PAGE else |msgs|;
    shown := msgs[start..end];
  }

  function UpTo<T>(msgs: seq<T>, page: nat): seq<T>
    requires page <= Pages(|msgs|)
  {
    if page == 0 then [] else UpTo(msgs, page - 1) + Slice(msgs, page)
  }

  lemma {:induction false} PagesAppend<T>(msgs: seq<T>, page: nat)
    requires page <= Pages(|msgs|)
    ensures UpTo(msgs, page) == if page * PAGE <= |msgs| then msgs[..page * PAGE] else msgs
  {
    if page > 0 {
      PagesAppend(msgs, page - 1);
      var start := (page - 1) * PAGE;
      assert start <= |msgs|;
      assert msgs[..start] + Slice(msgs, page) == if start + PAGE <= |msgs| then msgs[..start + PAGE] else msgs;
    }
  }

  /** The pages together are the whole list, each message once and in order. */
  lemma PagesCover<T>(msgs: seq<T>)
    ensures UpTo(msgs, Pages(|msgs|)) == msgs
  {
    PagesAppend(msgs, Pages(|msgs|));
    if Pages(|msgs|) * PAGE == |msgs| { assert msgs[..|msgs|] == msgs; }
  }

  // ---------------------------------------------------------------- sizes

  function Pow(b: nat, e: nat): nat { if e == 0 then 1 else b * Pow(b, e - 1) }

  /**
    The unit of a size, none below 1024 bytes: the largest power of 1024 that
    fits, with a letter for it, and no overflow on the way.
  */
  method SizeUnit(n: int) returns (unit: Option<(int, nat)>)
    requires n <= MAX_INT64
    ensures unit.None? <==> n < 1024
    ensures unit.Some? ==> unit.value.0 == Pow(1024, unit.value.1 + 1) && unit.value.0 <= n < 1024 * unit.value.0
    ensures unit.Some? ==> unit.value.1 < |"KMGTPE"| && unit.value.0 <= MAX_INT64
  {
    if n < 1024 { return None; }
    assert Pow(1024, 1) == 1024;
    var div, exp := 1024, 0;
    var v := n / 1024;
    while v >= 1024
      invariant div == Pow(1024, exp + 1) && div >= 1024
      invariant v >= 1 && v * div <= n < (v + 1) * div
      invariant exp <= 5
      decreases v
    {
      var w := v / 1024;
      SizeStep(v, w, div, n);
      SixthPower(div, exp);
      div := div * 1024;
      exp := exp + 1;
      v := w;
    }
    assert v * div >= div && (v + 1) * div <= 1024 * div by { MulMono(1, v, div); MulMono(v + 1, 1024, div); }
    return Some((div, exp));
  }

  lemma MulMono(a: int, b: int, d: int)
    requires a <= b && d >= 0
    ensures a * d <= b * d
  {
  }

  lemma SizeStep(v: int, w: int, div: int, n: int)
    requires v >= 1024 && w == v / 1024 && div > 0 && v * div <= n < (v + 1) * div
    ensures w >= 1 && w * (div * 1024) <= n < (w + 1) * (div * 1024)
  {
    assert 1024 * w <= v && v + 1 <= 1024 * (w + 1);
    MulMono(1024 * w, v, div);
    MulMono(v + 1, 1024 * (w + 1), div);
    assert 1024 * w * div == w * (div * 1024) && 1024 * (w + 1) * div == (w + 1) * (div * 1024);
  }

  lemma SixthPower(div: int, exp: nat)
    requires div == Pow(1024, exp + 1) && exp <= 5
    ensures exp == 5 ==> div == 0x1000_0000_0000_0000
    ensures Pow(1024, exp + 2) == 1024 * div
  {
  }
}
