/**
  The store as one caller runs it on a quiet disk: the same file system, the
  loops of the source, and for Deliver the outcome of every call it makes.
*/
module MaildirStore {
  import opened Options
  import opened Decimals
  import opened Maildir

  /**
    What the calls of one delivery return: which of them succeed, whether a
    failing MkdirAll got as far as the mailbox directory, and how many bytes a
    failing Write took.
  */
  datatype Outcomes = Outcomes(
    mkdir: bool, box: bool, create: bool, write: bool, count: nat, sync: bool, close: bool, rename: bool, remove: bool)

  /**
    The calls that decide whether a delivery succeeds: with `shadowed`, as
    written, Write and Sync are not among them.
  */
  predicate Completes(shadowed: bool, o: Outcomes) {
    o.mkdir && o.create && o.close && o.rename && (shadowed || (o.write && o.sync))
  }

  /** A failing Write that took less than the message. */
  predicate Short<T>(o: Outcomes, msg: seq<T>) { !o.write && o.count < |msg| }

  /** What a delivery that reports success leaves in the file. */
  function Kept<T>(o: Outcomes, msg: seq<T>): seq<T> { if Short(o, msg) then msg[..o.count] else msg }

  class Store {
    var disk: Disk

    constructor ()
      ensures disk == EMPTY.disk
    {
      disk := EMPTY.disk;
    }

    /** Deliver as written: errors of Write and Sync are lost, so success says nothing about them. */
    method Deliver(k: Key, msg: Bytes, o: Outcomes) returns (ok: bool)
      requires o.count <= |msg| && (o.write ==> o.count == |msg|)
      modifies this
      ensures DeliveredAs(true, old(disk), disk, k, msg, o, ok)
    {
      if !ValidRecipient(k.box) { return false; }
      if o.mkdir || o.box { disk := disk.(boxes := disk.boxes + {k.box}); }
      if !o.mkdir { return false; }
      if !o.create || k in disk.tmp { return false; }
      disk := disk.(tmp := disk.tmp[k := File([], false)]);
      disk := disk.(tmp := disk.tmp[k := File(msg[..o.count], false)]);
      if o.write && o.sync {
        disk := disk.(tmp := disk.tmp[k := disk.tmp[k].(synced := true)]);
      }
      if o.close && o.rename {
        disk := disk.(unread := disk.unread[k := disk.tmp[k]], tmp := disk.tmp - {k});
        return true;
      }
      if o.remove { disk := disk.(tmp := disk.tmp - {k}); }
      return false;
    }

    /** Some order of a directory listing. */
    method ReadDir<T>(items: set<T>) returns (listing: seq<T>)
      ensures Enumerates(listing, items)
    {
      listing := [];
      var left := items;
      while left != {}
        invariant left <= items
        invariant forall i, j :: 0 <= i < j < |listing| ==> listing[i] != listing[j]
        invariant forall x :: x in listing ==> x in items && x !in left
        invariant forall x :: x in items ==> x in listing || x in left
      {
        var x :| x in left;
        listing, left := listing + [x], left - {x};
      }
    }

    /** Looks through all mailboxes, `new` before `cur` in each. */
    method Locate(id: string) returns (r: Option<(Key, bool)>)
      ensures r.Some? ==> r.value.0.id == id && r.value.0 in Dir(disk, r.value.1)
      ensures r.Some? && !r.value.1 ==> r.value.0 !in disk.unread
      ensures r.None? <==> Nowhere(disk, id)
    {
      ComponentIsValid(id);
      if !ValidId(id) { return None; }
      var boxes := ReadDir(disk.boxes);
      for i := 0 to |boxes|
        invariant forall j :: 0 <= j < i ==> Key(boxes[j], id) !in disk.unread && Key(boxes[j], id) !in disk.cur
      {
        var k := Key(boxes[i], id);
        assert boxes[i] in boxes;
        if k in disk.unread { return Some((k, true)); }
        if k in disk.cur { return Some((k, false)); }
      }
      return None;
    }

    /** Hands out the bytes and marks the message read. */
    method Open(id: string) returns (raw: Option<Bytes>)
      modifies this
      ensures raw.None? <==> Nowhere(old(disk), id)
      ensures raw.None? ==> disk == old(disk)
      ensures raw.Some? ==> exists k: Key :: k.id == id && Opened(old(disk), disk, k) && raw.value == disk.cur[k].data
    {
      var found := Locate(id);
      if found.None? { return None; }
      var k, unread := found.value.0, found.value.1;
      raw := Some(Dir(disk, unread)[k].data);
      if unread {
        disk := disk.(unread := disk.unread - {k}, cur := disk.cur[k := disk.unread[k]]);
      }
      assert Opened(old(disk), disk, k);
    }

    method Delete(id: string) returns (ok: bool)
      modifies this
      ensures !ok <==> Nowhere(old(disk), id)
      ensures !ok ==> disk == old(disk)
      ensures ok ==> exists k: Key :: k.id == id && Removed(old(disk), disk, k)
    {
      var found := Locate(id);
      if found.None? { return false; }
      var k, unread := found.value.0, found.value.1;
      disk := if unread then disk.(unread := disk.unread - {k}) else disk.(cur := disk.cur - {k});
      assert Removed(old(disk), disk, k);
      return true;
    }

    /** Exactly one line for every message, with what its file holds, newest first; `date` is what the header says. */
    method List(date: Entry -> int) returns (shown: seq<Entry>)
      requires forall k :: k in disk.unread || k in disk.cur ==> k.box in disk.boxes
      ensures multiset(shown) == multiset(Lines(disk))
      ensures NewestFirst(shown, date)
    {
      var scanned := Scan();
      ScannedIsLines(disk, scanned);
      OneOfEach(scanned, Lines(disk));
      shown := SortNewestFirst(scanned, date);
    }

    method Scan() returns (shown: seq<Entry>)
      requires forall k :: k in disk.unread || k in disk.cur ==> k.box in disk.boxes
      ensures forall x, y :: 0 <= x < y < |shown| ==> shown[x].key != shown[y].key || shown[x].unread != shown[y].unread
      ensures forall x :: 0 <= x < |shown| ==> Shown(disk, shown[x])
      ensures forall k, isNew: bool :: k in Dir(disk, isNew) ==> Has(shown, k, isNew)
    {
      shown := [];
      var boxes := ReadDir(disk.boxes);
      for i := 0 to |boxes|
        invariant forall x :: 0 <= x < |shown| ==> Shown(disk, shown[x]) && shown[x].key.box in boxes[..i]
        invariant forall x, y :: 0 <= x < y < |shown| ==>
          shown[x].key != shown[y].key || shown[x].unread != shown[y].unread
        invariant forall k, isNew: bool :: k in Dir(disk, isNew) && k.box in boxes[..i] ==> Has(shown, k, isNew)
      {
        assert boxes[i] !in boxes[..i] && boxes[..i + 1] == boxes[..i] + [boxes[i]];
        var fromNew := ListDir(boxes[i], true);
        var fromCur := ListDir(boxes[i], false);
        HasMore(shown, fromNew, fromCur);
        shown := shown + fromNew + fromCur;
      }
      assert boxes[..|boxes|] == boxes;
    }

    method ListDir(box: string, isNew: bool) returns (part: seq<Entry>)
      ensures forall x :: 0 <= x < |part| ==> Shown(disk, part[x]) && part[x].key.box == box && part[x].unread == isNew
      ensures forall x, y :: 0 <= x < y < |part| ==> part[x].key != part[y].key
      ensures forall k :: k in Dir(disk, isNew) && k.box == box ==> Has(part, k, isNew)
    {
      part := [];
      var ids := ReadDir(IdsIn(Dir(disk, isNew), box));
      for i := 0 to |ids|
        invariant |part| == i
        invariant forall x :: 0 <= x < i ==>
          part[x].key == Key(box, ids[x]) && part[x].unread == isNew && Shown(disk, part[x])
      {
        assert ids[i] in ids;
        var k := Key(box, ids[i]);
        part := part + [Entry(k, isNew, Some(Dir(disk, isNew)[k].data))];
      }
      forall k | k in Dir(disk, isNew) && k.box == box ensures Has(part, k, isNew) {
        assert k.id in IdsIn(Dir(disk, isNew), box);
        var x :| 0 <= x < |ids| && ids[x] == k.id;
        assert part[x].key == k;
      }
    }
  }

  /** The lines a listing of this disk should have. */
  ghost function Lines(d: Disk): set<Entry> {
    (set k | k in d.unread :: Entry(k, true, Some(d.unread[k].data)))
      + (set k | k in d.cur :: Entry(k, false, Some(d.cur[k].data)))
  }

  lemma ScannedIsLines(d: Disk, es: seq<Entry>)
    requires forall x :: 0 <= x < |es| ==> Shown(d, es[x])
    requires forall k, isNew: bool :: k in Dir(d, isNew) ==> Has(es, k, isNew)
    ensures forall e :: e in es <==> e in Lines(d)
  {
    forall e ensures e in es <==> e in Lines(d) {
      if e in Lines(d) {
        assert e.key in Dir(d, e.unread) && Has(es, e.key, e.unread);
        var x :| 0 <= x < |es| && es[x].key == e.key && es[x].unread == e.unread;
        assert Shown(d, es[x]);
      }
      if e in es {
        assert Shown(d, e) && e.key in Dir(d, e.unread);
      }
    }
  }

  lemma {:induction false} OneOfEach(es: seq<Entry>, lines: set<Entry>)
    requires forall x, y :: 0 <= x < y < |es| ==> es[x] != es[y]
    requires forall e :: e in es <==> e in lines
    ensures multiset(es) == multiset(lines)
  {
    if es == [] {
      assert lines == {};
    } else {
      var last := |es| - 1;
      assert es == es[..last] + [es[last]];
      forall e ensures e in es[..last] <==> e in lines - {es[last]} {
        if e in lines && e != es[last] { assert e in es; }
      }
      OneOfEach(es[..last], lines - {es[last]});
      assert lines == (lines - {es[last]}) + {es[last]};
    }
  }

  ghost predicate NewestFirst(es: seq<Entry>, date: Entry -> int) {
    forall x, y :: 0 <= x < y < |es| ==> date(es[x]) >= date(es[y])
  }

  lemma InsertedInOrder(es: seq<Entry>, at: nat, e: Entry, date: Entry -> int)
    requires NewestFirst(es, date) && at <= |es|
    requires (at > 0 ==> date(es[at - 1]) >= date(e)) && (at < |es| ==> date(e) >= date(es[at]))
    ensures NewestFirst(es[..at] + [e] + es[at..], date)
  {
  }

  method InsertByDate(es: seq<Entry>, e: Entry, date: Entry -> int) returns (r: seq<Entry>)
    requires NewestFirst(es, date)
    ensures multiset(r) == multiset(es) + multiset{e} && NewestFirst(r, date)
  {
    var at := 0;
    while at < |es| && date(es[at]) >= date(e)
      invariant at <= |es| && (at > 0 ==> date(es[at - 1]) >= date(e))
    {
      at := at + 1;
    }
    r := es[..at] + [e] + es[at..];
    InsertedInOrder(es, at, e, date);
    assert es == es[..at] + es[at..];
  }

  /** Sorting by date, with no promise about the order of equal dates. */
  method SortNewestFirst(msgs: seq<Entry>, date: Entry -> int) returns (sorted: seq<Entry>)
    ensures multiset(sorted) == multiset(msgs) && NewestFirst(sorted, date)
  {
    sorted := [];
    for i := 0 to |msgs|
      invariant multiset(sorted) == multiset(msgs[..i]) && NewestFirst(sorted, date)
    {
      sorted := InsertByDate(sorted, msgs[i], date);
      assert msgs[..i + 1] == msgs[..i] + [msgs[i]];
    }
    assert msgs[..|msgs|] == msgs;
  }

  /** The delivery gets as far as its own file in `tmp`. */
  ghost predicate Created(d: Disk, k: Key, o: Outcomes) {
    ValidRecipient(k.box) && o.mkdir && o.create && k !in d.tmp
  }

  /** When a delivery succeeds, as written or with propagated errors, and the whole disk after it. */
  ghost predicate DeliveredAs(shadowed: bool, d: Disk, d': Disk, k: Key, msg: Bytes, o: Outcomes, ok: bool)
    requires o.count <= |msg|
  {
    var file := File(msg[..o.count], o.write && o.sync);
    && (ok <==> Created(d, k, o) && Completes(shadowed, o))
    && d'.unread == (if ok then d.unread[k := file] else d.unread)
    && d'.tmp == (if Created(d, k, o) && !ok && !o.remove then d.tmp[k := file] else d.tmp)
    && d'.cur == d.cur
    && d'.boxes == (if ValidRecipient(k.box) && (o.mkdir || o.box) then d.boxes + {k.box} else d.boxes)
  }

  /** The ID is malformed or belongs to no message. */
  ghost predicate Nowhere(d: Disk, id: string) {
    !Component(id) || forall box :: box in d.boxes ==> Key(box, id) !in d.unread && Key(box, id) !in d.cur
  }

  ghost predicate Opened(d: Disk, d': Disk, k: Key) {
    k in d'.cur && k !in d'.unread && (k in d.unread || k in d.cur) &&
    d' == if k in d.unread then d.(unread := d.unread - {k}, cur := d.cur[k := d.unread[k]]) else d
  }

  ghost predicate Removed(d: Disk, d': Disk, k: Key) {
    (k in d.unread || k in d.cur) &&
    d' == if k in d.unread then d.(unread := d.unread - {k}) else d.(cur := d.cur - {k})
  }

  /** The ID a delivery draws: time, process, host name and random digits. */
  function MessageId(nanos: int, process: int, host: string, random: string): string {
    Decimal(nanos) + "." + Decimal(process) + "." + host + "." + random
  }

  predicate NoSeparator(s: string) { '/' !in s && '\\' !in s }

  lemma {:induction false} DigitsHaveNoSeparator(n: nat)
    ensures NoSeparator(Digits(n)) && Digits(n) != ""
  {
    if n >= 10 { DigitsHaveNoSeparator(n / 10); }
  }

  /** Whatever the host is called, as long as that is no path, the ID can be looked up. */
  lemma IssuedIdsAreAccepted(nanos: int, process: int, host: string, random: string)
    requires NoSeparator(host) && NoSeparator(random)
    ensures ValidId(MessageId(nanos, process, host, random))
  {
    DigitsHaveNoSeparator(if nanos < 0 then -nanos else nanos);
    DigitsHaveNoSeparator(if process < 0 then -process else process);
    var a, b := Decimal(nanos), Decimal(process);
    assert NoSeparator(a) && NoSeparator(b) && |a| > 0 && |b| > 0;
    FourParts(a, b, host, random);
  }

  lemma FourParts(a: string, b: string, c: string, d: string)
    requires NoSeparator(a) && NoSeparator(b) && NoSeparator(c) && NoSeparator(d) && |a| > 0 && |b| > 0
    ensures NoSeparator(a + "." + b + "." + c + "." + d) && |a + "." + b + "." + c + "." + d| > 2
  {
  }

  ghost predicate Shown(d: Disk, e: Entry) {
    e.key in Dir(d, e.unread) && e.head == Some(Dir(d, e.unread)[e.key].data)
  }

  ghost predicate Has(es: seq<Entry>, k: Key, isNew: bool) {
    exists x :: 0 <= x < |es| && es[x].key == k && es[x].unread == isNew
  }

  lemma HasMore(a: seq<Entry>, b: seq<Entry>, c: seq<Entry>)
    ensures forall k, isNew: bool ::
      Has(a, k, isNew) || Has(b, k, isNew) || Has(c, k, isNew) ==> Has(a + b + c, k, isNew)
  {
    forall k, isNew: bool | Has(a, k, isNew) || Has(b, k, isNew) || Has(c, k, isNew) ensures Has(a + b + c, k, isNew) {
      var s := a + b + c;
      if Has(a, k, isNew) {
        var x :| 0 <= x < |a| && a[x].key == k && a[x].unread == isNew;
        assert s[x] == a[x];
      } else if Has(b, k, isNew) {
        var x :| 0 <= x < |b| && b[x].key == k && b[x].unread == isNew;
        assert s[|a| + x] == b[x];
      } else {
        var x :| 0 <= x < |c| && c[x].key == k && c[x].unread == isNew;
        assert s[|a| + |b| + x] == c[x];
      }
    }
  }

  /** The messages of a mailbox. */
  ghost function Contents(d: Disk, box: string): map<Key, Bytes> {
    map k | k in d.unread.Keys + d.cur.Keys && k.box == box :: if k in d.unread then d.unread[k].data else d.cur[k].data
  }

  /** A delivery under a fresh key adds one message to one mailbox, if it succeeds: what its write kept. */
  lemma DeliverFilesOne(
      shadowed: bool, d: Disk, d': Disk, k: Key, msg: Bytes, o: Outcomes, ok: bool, box: string)
    requires o.count <= |msg| && (o.write ==> o.count == |msg|) && DeliveredAs(shadowed, d, d', k, msg, o, ok)
    requires k !in d.tmp && k !in d.unread && k !in d.cur
    ensures ok <==> ValidRecipient(k.box) && Completes(shadowed, o)
    ensures Contents(d', box) == if ok && box == k.box then Contents(d, box)[k := Kept(o, msg)] else Contents(d, box)
  {
    assert msg[..o.count] == Kept(o, msg);
  }
}
