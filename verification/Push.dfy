/**
  The push subscription service. `Load` is what a restart makes of the
  subscriptions file, `Lists` says that a file is some enumeration of the map;
  the class is the service as its lock holder runs it, one call at a time.
*/
module Push {
  import opened Options

  datatype Sub = Sub(endpoint: string, p256dh: string, auth: string)

  /** A JSON list of subscriptions; an element may be null. */
  type Doc = seq<Option<Sub>>

  /** `Garbage` is a file that was not written to its end. */
  datatype Content = Missing | Garbage | Whole(doc: Doc)

  /** Every subscription is filed under its own, nonempty endpoint. */
  predicate Keyed(subs: map<string, Sub>) {
    forall k :: k in subs ==> k != "" && subs[k].endpoint == k
  }

  predicate Accepted(s: Sub, https: bool) {
    https && s.endpoint != "" && s.p256dh != "" && s.auth != ""
  }

  predicate Gone(status: nat) { status == 404 || status == 410 }

  /** The push service answered, and the answer was gone. */
  predicate IsGone(answer: Option<nat>) { answer.Some? && Gone(answer.value) }

  // ---------------------------------------------------------------- saving and loading

  function Load(doc: Doc): map<string, Sub> {
    if doc == [] then map[]
    else
      var rest, last := Load(doc[..|doc| - 1]), doc[|doc| - 1];
      if last.Some? && last.value.endpoint != "" then rest[last.value.endpoint := last.value] else rest
  }

  function Recover(c: Content): map<string, Sub> {
    if c.Whole? then Load(c.doc) else map[]
  }

  /** `order` is an order in which the map may be ranged over, `list` the values met. */
  predicate Ranges(order: seq<string>, list: seq<Sub>, subs: map<string, Sub>) {
    && |order| == |list|
    && (forall i, j :: 0 <= i < j < |order| ==> order[i] != order[j])
    && (forall i :: 0 <= i < |order| ==> order[i] in subs && list[i] == subs[order[i]])
    && (forall k :: k in subs ==> k in order)
  }

  function Wrap(list: seq<Sub>): Doc {
    seq(|list|, i requires 0 <= i < |list| => Some(list[i]))
  }

  /** The part of a map that the first keys of an order pick out. */
  function Part(order: seq<string>, subs: map<string, Sub>, n: nat): map<string, Sub>
    requires n <= |order|
  {
    map k | k in order[..n] && k in subs :: subs[k]
  }

  lemma PartNext(order: seq<string>, subs: map<string, Sub>, n: nat)
    requires n < |order| && order[n] in subs
    ensures Part(order, subs, n + 1) == Part(order, subs, n)[order[n] := subs[order[n]]]
  {
  }

  lemma LoadNext(doc: Doc, n: nat)
    requires n < |doc| && doc[n].Some? && doc[n].value.endpoint != ""
    ensures Load(doc[..n + 1]) == Load(doc[..n])[doc[n].value.endpoint := doc[n].value]
  {
    assert doc[..n + 1][..n] == doc[..n] && doc[..n + 1][n] == doc[n];
  }

  lemma {:induction false} LoadSome(list: seq<Sub>, order: seq<string>, subs: map<string, Sub>, n: nat)
    requires Keyed(subs) && Ranges(order, list, subs) && n <= |list|
    ensures Load(Wrap(list)[..n]) == Part(order, subs, n)
  {
    if n > 0 {
      LoadSome(list, order, subs, n - 1);
      LoadNext(Wrap(list), n - 1);
      PartNext(order, subs, n - 1);
    } else {
      assert Wrap(list)[..0] == [];
    }
  }

  /** Saving and loading gives the map back, in whatever order it was ranged over. */
  lemma SaveThenLoad(list: seq<Sub>, order: seq<string>, subs: map<string, Sub>)
    requires Keyed(subs) && Ranges(order, list, subs)
    ensures Load(Wrap(list)) == subs
  {
    LoadSome(list, order, subs, |list|);
    assert Wrap(list)[..|list|] == Wrap(list) && order[..|list|] == order;
  }

  /** Whatever is in the file, the loaded map is well keyed: null and nameless entries are dropped. */
  lemma {:induction false} LoadIsKeyed(doc: Doc)
    ensures Keyed(Load(doc))
  {
    if doc != [] { LoadIsKeyed(doc[..|doc| - 1]); }
  }

  ghost predicate LastFor(doc: Doc, k: string, i: nat) {
    forall j :: i < j < |doc| && doc[j].Some? ==> doc[j].value.endpoint != k
  }

  /** The later of two entries for an endpoint wins, and nothing else is in the map. */
  lemma {:induction false} LoadKeepsLast(doc: Doc, k: string)
    ensures k in Load(doc) <==> k != "" && exists i :: 0 <= i < |doc| && doc[i].Some? && doc[i].value.endpoint == k
    ensures k in Load(doc) ==> exists i :: 0 <= i < |doc| && LastFor(doc, k, i) && doc[i] == Some(Load(doc)[k])
  {
    if doc != [] {
      var n := |doc| - 1;
      LoadKeepsLast(doc[..n], k);
      if k in Load(doc) {
        if doc[n].Some? && doc[n].value.endpoint == k {
          assert LastFor(doc, k, n) && doc[n] == Some(Load(doc)[k]);
        } else {
          var i :| 0 <= i < n && LastFor(doc[..n], k, i) && doc[..n][i] == Some(Load(doc[..n])[k]);
          assert forall j :: i < j < n ==> doc[j] == doc[..n][j];
          assert LastFor(doc, k, i) && doc[i] == Some(Load(doc)[k]);
        }
      }
    }
  }

  method LoadLoop(doc: Doc) returns (subs: map<string, Sub>)
    ensures subs == Load(doc) && Keyed(subs)
  {
    subs := map[];
    for i := 0 to |doc|
      invariant subs == Load(doc[..i])
    {
      assert doc[..i + 1][..i] == doc[..i];
      if doc[i].Some? && doc[i].value.endpoint != "" {
        subs := subs[doc[i].value.endpoint := doc[i].value];
      }
    }
    assert doc[..|doc|] == doc;
    LoadIsKeyed(doc);
  }

  /** Ranging over a map: every key once, in an order nobody promises. */
  method RangeLoop(subs: map<string, Sub>) returns (list: seq<Sub>, ghost order: seq<string>)
    ensures Ranges(order, list, subs)
  {
    list, order := [], [];
    var left := subs.Keys;
    while left != {}
      invariant left <= subs.Keys
      invariant |order| == |list|
      invariant forall i, j :: 0 <= i < j < |order| ==> order[i] != order[j]
      invariant forall i :: 0 <= i < |order| ==> order[i] in subs && order[i] !in left && list[i] == subs[order[i]]
      invariant forall k :: k in subs ==> k in order || k in left
    {
      var k :| k in left;
      list, order, left := list + [subs[k]], order + [k], left - {k};
      assert order[|order| - 1] == k;
    }
  }

  // ---------------------------------------------------------------- the service

  /** What a save leaves: a file that loads to the map, or the file as it was. */
  predicate SavedAs(before: Content, after: Content, subs: map<string, Sub>, ok: bool) {
    if ok then Recover(after) == subs else after == before
  }

  class Service {
    var subs: map<string, Sub>
    var file: Content
    var tmp: Content

    ghost predicate Valid()
      reads this
    {
      Keyed(subs) && !file.Garbage?
    }

    constructor ()
      ensures Valid() && subs == map[] && file == Missing
    {
      subs, file, tmp := map[], Missing, Missing;
    }

    /** Write a temporary file, then rename it over the real one; either call may fail. */
    method SaveLocked(writeOk: bool, renameOk: bool) returns (ok: bool)
      requires Valid()
      modifies this`file, this`tmp
      ensures Valid() && (ok <==> writeOk && renameOk)
      ensures SavedAs(old(file), file, subs, ok) && (ok ==> tmp == Missing)
    {
      ghost var order;
      var list;
      list, order := RangeLoop(subs);
      if !writeOk { tmp := Garbage; return false; }
      tmp := Whole(Wrap(list));
      if !renameOk { return false; }
      file, tmp := tmp, Missing;
      SaveThenLoad(list, order, subs);
      return true;
    }

    method Subscribe(s: Sub, https: bool, writeOk: bool, renameOk: bool) returns (ok: bool)
      requires Valid()
      modifies this
      ensures Valid()
      ensures ok <==> https && s.endpoint != "" && s.p256dh != "" && s.auth != "" && writeOk && renameOk
      ensures subs == if https && s.endpoint != "" && s.p256dh != "" && s.auth != ""
        then old(subs)[s.endpoint := s] else old(subs)
      ensures SavedAs(old(file), file, subs, ok)
    {
      if !Accepted(s, https) { return false; }
      subs := subs[s.endpoint := s];
      ok := SaveLocked(writeOk, renameOk);
    }

    method Unsubscribe(endpoint: string, writeOk: bool, renameOk: bool) returns (ok: bool)
      requires Valid()
      modifies this
      ensures Valid() && subs == old(subs) - {endpoint} && (ok <==> writeOk && renameOk)
      ensures SavedAs(old(file), file, subs, ok)
    {
      subs := subs - {endpoint};
      ok := SaveLocked(writeOk, renameOk);
    }

    /**
      A notification whose senders finish one after the other: the endpoints that
      answered gone go, the others stay.
    */
    method Notify(answer: Sub -> Option<nat>, writeOk: nat -> bool, renameOk: nat -> bool)
      requires Valid()
      modifies this
      ensures Valid()
      ensures subs == old(subs) - (set k | k in old(subs) && answer(old(subs)[k]) in {Some(404), Some(410)})
    {
      ghost var order;
      var snapshot;
      snapshot, order := RangeLoop(subs);
      for i := 0 to |snapshot|
        invariant Valid()
        invariant subs == old(subs) - Pruned(snapshot[..i], answer)
      {
        PrunedNext(snapshot, i, answer);
        if IsGone(answer(snapshot[i])) {
          var _ := Unsubscribe(snapshot[i].endpoint, writeOk(i), renameOk(i));
        }
      }
      assert snapshot[..|snapshot|] == snapshot;
      PrunedAll(snapshot, order, old(subs), answer);
    }
  }

  /** The endpoints of a list of subscriptions that answered gone. */
  ghost function Pruned(list: seq<Sub>, answer: Sub -> Option<nat>): set<string> {
    set s | s in list && IsGone(answer(s)) :: s.endpoint
  }

  lemma PrunedNext(list: seq<Sub>, i: nat, answer: Sub -> Option<nat>)
    requires i < |list|
    ensures Pruned(list[..i + 1], answer) == Pruned(list[..i], answer) + if IsGone(answer(list[i]))
      then {list[i].endpoint} else {}
  {
  }

  lemma PrunedAll(list: seq<Sub>, order: seq<string>, subs: map<string, Sub>, answer: Sub -> Option<nat>)
    requires Keyed(subs) && Ranges(order, list, subs)
    ensures Pruned(list, answer) == set k | k in subs && answer(subs[k]) in {Some(404), Some(410)}
  {
  }

  /**
    New: keys are required, a missing file is an empty service; a directory that
    cannot be made, a file that cannot be read or does not parse is an error.
  */
  method New(publicKey: string, privateKey: string, mkdirOk: bool, readOk: bool, file: Content)
    returns (r: Option<Service>)
    ensures r.Some? <==> publicKey != "" && privateKey != "" && mkdirOk && (file.Missing? || (file.Whole? && readOk))
    ensures r.Some? ==> fresh(r.value) && r.value.Valid() && r.value.file == file && r.value.subs == Recover(file)
  {
    if publicKey == "" || privateKey == "" || !mkdirOk { return None; }
    var s := new Service();
    if file.Missing? { return Some(s); }
    if !readOk || file.Garbage? { return None; }
    s.file := file;
    s.subs := LoadLoop(file.doc);
    return Some(s);
  }
}
