/**
  What holds of the maildir store over whole runs, for every interleaving of
  every number of processes, every outcome of every call and crashes anywhere.
*/
module MaildirTheorems {
  import opened Options
  import opened Maildir

  // ---------------------------------------------------------------- what one action can do

  ghost predicate By(s: State, a: Action, id: string) {
    a.Tick? && a.pid in s.procs && s.procs[a.pid].Deliver? && s.procs[a.pid].key.id == id
  }

  /** Write or Sync of the delivery with this ID reports an error. */
  ghost predicate WriteError(s: State, a: Action, id: string) {
    By(s, a, id) && !a.ok && s.procs[a.pid].key in s.disk.tmp &&
    (s.procs[a.pid].stage.Sync? || (s.procs[a.pid].stage.Write? && a.count <= |s.procs[a.pid].msg|))
  }

  /** An Open renames the message from `new` to `cur`. */
  ghost predicate Moves(s: State, a: Action, id: string) {
    a.Tick? && a.ok && a.pid in s.procs && s.procs[a.pid].MarkRead? && s.procs[a.pid].key.id == id
  }

  /** A Delete unlinks the message. */
  ghost predicate Deletes(s: State, a: Action, id: string) {
    a.Tick? && a.ok && a.pid in s.procs && s.procs[a.pid].Found?
    && s.procs[a.pid].goal.DeleteMessage? && s.procs[a.pid].key.id == id
  }

  lemma IssuedChange(shadowed: bool, s: State, a: Action, id: string)
    requires id in Step(shadowed, s, a).issued && id !in s.issued
    ensures a.StartDeliver? && a.id == id && Step(shadowed, s, a).issued[id] == Letter(a.box, a.msg)
  {
  }

  lemma DroppedChange(shadowed: bool, s: State, a: Action, id: string)
    ensures id in Step(shadowed, s, a).dropped <==> id in s.dropped || WriteError(s, a, id)
  {
  }

  lemma DeletedChange(shadowed: bool, s: State, a: Action, id: string)
    ensures id in Step(shadowed, s, a).deleted && id !in s.deleted ==> Deletes(s, a, id)
  {
  }

  lemma UnreadChange(shadowed: bool, s: State, a: Action, k: Key)
    requires Inv(shadowed, s)
    ensures k in Step(shadowed, s, a).disk.unread ==> k in s.disk.unread || k.id !in s.published
    ensures k in s.disk.unread && k !in Step(shadowed, s, a).disk.unread ==> Moves(s, a, k.id) || Deletes(s, a, k.id)
  {
    if a.Tick? && a.pid in s.procs && s.procs[a.pid].Deliver? {
      assert ProcInv(shadowed, s, s.procs[a.pid]);
    }
  }

  lemma HistoryGrows(shadowed: bool, s: State, a: Action)
    requires Inv(shadowed, s)
    ensures Grows(s, Step(shadowed, s, a))
  {
    if a.Tick? && a.pid in s.procs {
      if s.procs[a.pid].Deliver? {
        assert ProcInv(shadowed, s, s.procs[a.pid]);
        DeliverEffect(shadowed, s, a);
      } else {
        LookupEffect(shadowed, s, a);
      }
    }
  }

  // ---------------------------------------------------------------- life of a message

  /** How far a message has come: not published, unread, read, gone. */
  ghost function Rank(s: State, id: string): nat {
    if id !in s.published || id !in s.issued then 0
    else if id in s.deleted then 3
    else if Key(s.issued[id].box, id) in s.disk.unread then 1
    else 2
  }

  lemma LiveIsRank(shadowed: bool, s: State, id: string)
    requires Inv(shadowed, s)
    ensures Live(s, id) <==> Rank(s, id) == 1 || Rank(s, id) == 2
    ensures Rank(s, id) == 2 ==> Key(s.issued[id].box, id) in s.disk.cur
    ensures Live(s, id) && Key(s.issued[id].box, id) in s.disk.cur ==> Rank(s, id) == 2
    ensures Live(s, id) ==> s.issued[id].box in s.disk.boxes
  {
  }

  lemma StepRank(shadowed: bool, s: State, a: Action, id: string)
    requires Inv(shadowed, s)
    ensures Rank(s, id) <= Rank(Step(shadowed, s, a), id)
    ensures Rank(s, id) == 1 && Rank(Step(shadowed, s, a), id) == 2 ==> Moves(s, a, id)
    ensures Rank(s, id) < 3 && Rank(Step(shadowed, s, a), id) == 3 && Rank(s, id) > 0 ==> Deletes(s, a, id)
  {
    HistoryGrows(shadowed, s, a);
    DeletedChange(shadowed, s, a, id);
    if id in s.issued {
      UnreadChange(shadowed, s, a, Key(s.issued[id].box, id));
      if Deletes(s, a, id) && Rank(s, id) == 1 && Rank(Step(shadowed, s, a), id) == 2 {
        DeleteMarks(shadowed, s, a, id);
      }
    }
  }

  lemma DeleteMarks(shadowed: bool, s: State, a: Action, id: string)
    requires Inv(shadowed, s) && Deletes(s, a, id) && id in s.issued
    requires Key(s.issued[id].box, id) in s.disk.unread
    requires Key(s.issued[id].box, id) !in Step(shadowed, s, a).disk.unread
    ensures id in Step(shadowed, s, a).deleted
  {
  }

  ghost predicate LiveAt(r: Run, j: nat, id: string)
    requires r.Valid() && j <= |r.actions|
  {
    Live(r.states[j], id)
  }

  lemma RankStep(r: Run, j: nat, id: string)
    requires r.Valid() && j < |r.actions|
    ensures var before, after := Rank(r.states[j], id), Rank(r.states[j + 1], id);
      && before <= after
      && (before == 1 && after == 2 ==> Moves(r.states[j], r.actions[j], id))
      && (0 < before < 3 && after == 3 ==> Deletes(r.states[j], r.actions[j], id))
  {
    RunKeepsInv(r, j);
    assert r.Linked(j);
    StepRank(r.shadowed, r.states[j], r.actions[j], id);
  }

  lemma LiveRank(r: Run, j: nat, id: string)
    requires r.Valid() && j <= |r.actions|
    ensures LiveAt(r, j, id) <==> 0 < Rank(r.states[j], id) < 3
    ensures LiveAt(r, j, id) ==> var k := Key(r.states[j].issued[id].box, id);
      (k in r.states[j].disk.cur <==> Rank(r.states[j], id) == 2) && k.box in r.states[j].disk.boxes
  {
    RunKeepsInv(r, j);
    LiveIsRank(r.shadowed, r.states[j], id);
  }

  /**
    Unread never comes back after read, and nothing comes back after deletion:
    the rank of a message never falls along a run.
  */
  lemma {:induction false} RankNeverFalls(r: Run, i: nat, j: nat, id: string)
    requires r.Valid() && i <= j <= |r.actions|
    ensures Rank(r.states[i], id) <= Rank(r.states[j], id)
  {
    if i < j {
      RankNeverFalls(r, i, j - 1, id);
      RankStep(r, j - 1, id);
    }
  }

  /** Once a Delete has succeeded, no Open that is under way or comes later brings the message back. */
  lemma DeletedStaysGone(r: Run, i: nat, j: nat, pid: nat, id: string)
    requires r.Valid() && i <= j <= |r.actions|
    requires pid in r.states[i].procs
    requires var p := r.states[i].procs[pid];
      p.LookupEnd? && p.goal.DeleteMessage? && p.id == id && p.outcome.Done?
    ensures !LiveAt(r, j, id)
  {
    RunKeepsInv(r, i);
    assert ProcInv(r.shadowed, r.states[i], r.states[i].procs[pid]);
    RankNeverFalls(r, i, j, id);
    LiveRank(r, j, id);
  }

  /** Where a property that held at `i` and fails at `j` is lost. */
  lemma {:induction false} Flip(f: nat -> bool, i: nat, j: nat) returns (m: nat)
    requires i <= j && f(i) && !f(j)
    ensures i <= m < j && f(m) && !f(m + 1)
    decreases j - i
  {
    if f(i + 1) { m := Flip(f, i + 1, j); } else { m := i; }
  }

  /** A message leaves the store only by a Delete of its ID: not by a crash, not by a race. */
  lemma OnlyDeleteRemoves(r: Run, i: nat, j: nat, id: string) returns (m: nat)
    requires r.Valid() && i <= j <= |r.actions| && LiveAt(r, i, id) && !LiveAt(r, j, id)
    ensures i <= m < j && Deletes(r.states[m], r.actions[m], id)
  {
    LiveRank(r, i, id);
    LiveRank(r, j, id);
    RankNeverFalls(r, i, j, id);
    m := Flip((m: nat) => m < |r.states| && Rank(r.states[m], id) < 3, i, j);
    RankNeverFalls(r, i, m, id);
    RankStep(r, m, id);
  }

  /** Between being unread and being read lies an Open's rename. */
  lemma OnlyOpenMoves(r: Run, i: nat, j: nat, id: string) returns (m: nat)
    requires r.Valid() && i <= j <= |r.actions| && Rank(r.states[i], id) == 1 && Rank(r.states[j], id) == 2
    ensures i <= m < j && Moves(r.states[m], r.actions[m], id)
  {
    m := Flip((m: nat) => m < |r.states| && Rank(r.states[m], id) < 2, i, j);
    RankNeverFalls(r, i, m, id);
    RankNeverFalls(r, m + 1, j, id);
    RankStep(r, m, id);
  }

  /** A message is in one mailbox, and there in one of `new` and `cur`, never also in `tmp`. */
  lemma OnePlace(r: Run, j: nat, k: Key, k': Key)
    requires r.Valid() && j <= |r.actions| && k.id == k'.id
    requires var d := r.states[j].disk;
      (k in d.unread || k in d.cur) && (k' in d.unread || k' in d.cur || k' in d.tmp)
    ensures k == k' && k !in r.states[j].disk.tmp
    ensures k in r.states[j].disk.unread <==> k !in r.states[j].disk.cur
  {
    RunKeepsInv(r, j);
    var t := r.states[j];
    assert forall q :: q in t.disk.unread ==> Stored(r.shadowed, t, q, t.disk.unread[q]);
    assert forall q :: q in t.disk.cur ==> Stored(r.shadowed, t, q, t.disk.cur[q]);
    assert forall q :: q in t.disk.tmp ==> Belongs(t, q);
  }

  // ---------------------------------------------------------------- content

  /** Some call of Deliver was given this mailbox, this ID and these bytes. */
  ghost predicate Delivered(r: Run, j: nat, k: Key, data: Bytes)
    requires j <= |r.actions|
  {
    exists i :: 0 <= i < j && r.actions[i].StartDeliver?
      && r.actions[i].box == k.box && r.actions[i].id == k.id && r.actions[i].msg == data
  }

  ghost predicate SawWriteError(r: Run, j: nat, id: string)
    requires r.Valid() && j <= |r.actions|
  {
    exists i :: 0 <= i < j && WriteError(r.states[i], r.actions[i], id)
  }

  lemma {:induction false} IssuedByDeliver(r: Run, j: nat, id: string)
    requires r.Valid() && j <= |r.actions| && id in r.states[j].issued
    ensures Delivered(r, j, Key(r.states[j].issued[id].box, id), r.states[j].issued[id].msg)
  {
    if j > 0 {
      assert r.Linked(j - 1);
      var t, a := r.states[j - 1], r.actions[j - 1];
      if id in t.issued {
        IssuedByDeliver(r, j - 1, id);
        IssuedKept(r.shadowed, t, a, id);
      } else {
        IssuedChange(r.shadowed, t, a, id);
      }
    }
  }

  lemma IssuedKept(shadowed: bool, s: State, a: Action, id: string)
    requires id in s.issued
    ensures id in Step(shadowed, s, a).issued && Step(shadowed, s, a).issued[id] == s.issued[id]
  {
  }

  lemma {:induction false} DroppedMeansError(r: Run, j: nat, id: string)
    requires r.Valid() && j <= |r.actions|
    ensures id in r.states[j].dropped <==> SawWriteError(r, j, id)
  {
    if j > 0 {
      assert r.Linked(j - 1);
      DroppedMeansError(r, j - 1, id);
      DroppedChange(r.shadowed, r.states[j - 1], r.actions[j - 1], id);
      assert SawWriteError(r, j, id)
        <==> SawWriteError(r, j - 1, id) || WriteError(r.states[j - 1], r.actions[j - 1], id);
    }
  }

  /**
    With error propagation, delivery is atomic: at every moment of every run,
    after any crash, a file in `new` or `cur` holds exactly the bytes of one
    Deliver call, and fsync has confirmed them.
  */
  lemma AtomicDelivery(r: Run, j: nat, k: Key, isNew: bool)
    requires r.Valid() && !r.shadowed && j <= |r.actions| && k in Dir(r.states[j].disk, isNew)
    ensures var f := Dir(r.states[j].disk, isNew)[k]; Delivered(r, j, k, f.data) && f.synced
  {
    RunKeepsInv(r, j);
    assert Stored(false, r.states[j], k, Dir(r.states[j].disk, isNew)[k]);
    IssuedByDeliver(r, j, k.id);
  }

  /**
    The program as written: the inner error hides the outer one, so a stored
    file is complete and safe against crashes exactly when neither Write nor
    Sync of its delivery reported an error.
  */
  lemma AsWritten(r: Run, j: nat, k: Key, isNew: bool)
    requires r.Valid() && r.shadowed && j <= |r.actions| && k in Dir(r.states[j].disk, isNew)
    ensures var f := Dir(r.states[j].disk, isNew)[k];
      (f.synced && Delivered(r, j, k, f.data)) <==> !SawWriteError(r, j, k.id)
  {
    RunKeepsInv(r, j);
    assert Stored(true, r.states[j], k, Dir(r.states[j].disk, isNew)[k]);
    IssuedByDeliver(r, j, k.id);
    DroppedMeansError(r, j, k.id);
  }

  lemma {:induction false} IssuedStays(r: Run, i: nat, j: nat, id: string)
    requires r.Valid() && i <= j <= |r.actions| && id in r.states[i].issued
    ensures id in r.states[j].issued && r.states[j].issued[id] == r.states[i].issued[id]
  {
    if i < j {
      IssuedStays(r, i, j - 1, id);
      KeepsLetter(r, j - 1, id);
    }
  }

  lemma Content(r: Run, j: nat, k: Key, isNew: bool)
    requires r.Valid() && j <= |r.actions| && k in Dir(r.states[j].disk, isNew)
    requires !r.shadowed || !SawWriteError(r, j, k.id)
    ensures k.id in r.states[j].issued && Dir(r.states[j].disk, isNew)[k].data == r.states[j].issued[k.id].msg
  {
    RunKeepsInv(r, j);
    assert Stored(r.shadowed, r.states[j], k, Dir(r.states[j].disk, isNew)[k]);
    DroppedMeansError(r, j, k.id);
  }

  /** From one moment to any later one, through moves and crashes, a stored message keeps its bytes. */
  lemma ContentNeverChanges(r: Run, i: nat, j: nat, k: Key, wasNew: bool, isNew: bool)
    requires r.Valid() && i <= j <= |r.actions|
    requires k in Dir(r.states[i].disk, wasNew) && k in Dir(r.states[j].disk, isNew)
    requires !r.shadowed || !SawWriteError(r, j, k.id)
    ensures Dir(r.states[i].disk, wasNew)[k].data == Dir(r.states[j].disk, isNew)[k].data
  {
    Content(r, i, k, wasNew);
    Content(r, j, k, isNew);
    IssuedStays(r, i, j, k.id);
  }

  lemma Extend(r: Run, a: Action) returns (r': Run)
    requires r.Valid()
    ensures r'.Valid() && r'.shadowed == r.shadowed && r'.actions == r.actions + [a]
    ensures r'.states == r.states + [Step(r.shadowed, r.states[|r.actions|], a)]
  {
    r' := Run(r.shadowed, r.states + [Step(r.shadowed, r.states[|r.actions|], a)], r.actions + [a]);
    forall i | 0 <= i < |r'.actions| ensures r'.Linked(i) {
      if i < |r.actions| { assert r.Linked(i); }
    }
  }

  function Good(pid: nat): Action { Tick(pid, true, 0, []) }

  /** No call of any process fails. */
  ghost predicate NothingFails(r: Run) {
    forall m :: 0 <= m < |r.actions| ==> r.actions[m].Tick? ==> r.actions[m].ok
  }

  lemma CreatedFile(shadowed: bool) returns (r: Run)
    ensures r.Valid() && r.shadowed == shadowed && NothingFails(r)
    ensures r.states[|r.actions|] == State(
      Disk({"a@b"}, map[Key("a@b", "id") := File([], false)], map[], map[]),
      map[0 := Deliver(Write, Key("a@b", "id"), [7, 8], false)], map["id" := Letter("a@b", [7, 8])], {}, {}, {})
  {
    assert ValidRecipient("a@b");
    r := Run(shadowed, [EMPTY], []);
    r := Extend(r, StartDeliver(0, "a@b", "id", [7, 8]));
    r := Extend(r, Good(0));
    assert r.states[2].procs[0].stage == Mkdir(1);
    r := Extend(r, Good(0));
    assert r.states[3].procs[0].stage == Mkdir(0);
    r := Extend(r, Good(0));
    r := Extend(r, Good(0));
  }

  /** A short write under the program as written: Deliver reports success for a truncated file. */
  lemma ShortWriteIsPublished() returns (r: Run)
    ensures r.Valid() && r.shadowed
    ensures var t := r.states[|r.actions|];
      && t.disk.unread == map[Key("a@b", "id") := File([7], false)]
      && t.procs == map[0 := Deliver(Returned(true), Key("a@b", "id"), [7, 8], false)]
  {
    r := CreatedFile(true);
    r := Extend(r, Tick(0, false, 1, []));
    assert [7, 8][..1] == [7 as Byte];
    r := Extend(r, Good(0));
    r := Extend(r, Good(0));
  }

  /** A failing Sync under the program as written: success is reported, and a crash then loses the data. */
  lemma SyncErrorLosesData() returns (r: Run, j: nat)
    ensures r.Valid() && r.shadowed && j < |r.actions|
    ensures var k := Key("a@b", "id");
      && r.states[j].procs == map[0 := Deliver(Returned(true), k, [7, 8], false)]
      && r.states[j].disk.unread == map[k := File([7, 8], false)]
      && r.states[j + 1].disk.unread == map[k := File([], false)]
  {
    r := CreatedFile(true);
    r := Extend(r, Tick(0, true, 2, []));
    assert [7, 8][..2] == [7 as Byte, 8] && [7, 8][..0] == [];
    r := Extend(r, Tick(0, false, 0, []));
    r := Extend(r, Good(0));
    r := Extend(r, Good(0));
    j := |r.actions|;
    r := Extend(r, Crash(map[Key("a@b", "id") := 0]));
  }

  lemma WrittenFile(shadowed: bool) returns (r: Run)
    ensures r.Valid() && r.shadowed == shadowed && NothingFails(r)
    ensures r.states[|r.actions|] == State(
      Disk({"a@b"}, map[Key("a@b", "id") := File([7, 8], true)], map[], map[]),
      map[0 := Deliver(Close, Key("a@b", "id"), [7, 8], false)], map["id" := Letter("a@b", [7, 8])], {}, {}, {})
  {
    r := CreatedFile(shadowed);
    r := Extend(r, Tick(0, true, 2, []));
    assert [7, 8][..2] == [7 as Byte, 8];
    r := Extend(r, Good(0));
  }

  /** A delivery without errors, and then an exit. */
  lemma DeliveredAndIdle(shadowed: bool) returns (r: Run)
    ensures r.Valid() && r.shadowed == shadowed && NothingFails(r)
    ensures var t := r.states[|r.actions|];
      t.disk.boxes == {"a@b"} && t.disk.unread == map[Key("a@b", "id") := File([7, 8], true)] && t.procs == map[]
  {
    r := WrittenFile(shadowed);
    r := Extend(r, Good(0));
    r := Extend(r, Good(0));
    r := Extend(r, Crash(map[]));
  }

  // ---------------------------------------------------------------- lookups and listings

  /** The mailbox of the message is still ahead of the scan; if the scan is inside it, the file is in `cur`. */
  ghost predicate Ahead(s: State, boxes: seq<string>, i: nat, inCur: bool, k: Key) {
    exists b :: i <= b < |boxes| && boxes[b] == k.box && (b == i && inCur ==> k in s.disk.cur)
  }

  ghost predicate Shows(es: seq<Entry>, k: Key) {
    exists x :: 0 <= x < |es| && es[x].key == k
  }

  /** The process cannot yet have passed by a message that was live all the time. */
  ghost predicate OnTrack(s: State, p: Proc, k: Key) {
    match p
    case Scan(_, id, boxes, i, inCur, blind) => id == k.id && !blind ==> Ahead(s, boxes, i, inCur, k)
    case LookupEnd(_, id, Missing(blind)) => id == k.id ==> blind
    case ListScan(boxes, i, inCur, pending, shown, skipped) =>
      k.box in skipped || Shows(pending, k) || Shows(shown, k) || Ahead(s, boxes, i, inCur, k)
    case ListEnd(shown, skipped) => k.box in skipped || Shows(shown, k)
    case _ => true
  }

  /** One call advances a scan without passing by the message. */
  lemma ScanAdvances(s: State, boxes: seq<string>, i: nat, inCur: bool, k: Key)
    requires Ahead(s, boxes, i, inCur, k) && i < |boxes|
    requires k in s.disk.unread || k in s.disk.cur
    requires boxes[i] == k.box ==> k !in Dir(s.disk, !inCur)
    ensures Ahead(s, boxes, if inCur then i + 1 else i, !inCur, k)
  {
  }

  lemma TrackKept(s: State, s': State, p: Proc, k: Key)
    requires OnTrack(s, p, k) && (k in s.disk.cur ==> k in s'.disk.cur)
    ensures OnTrack(s', p, k)
  {
  }

  lemma TickScan(s: State, a: Action, k: Key)
    requires a.Tick? && a.pid in s.procs && s.procs[a.pid].Scan? && OnTrack(s, s.procs[a.pid], k)
    requires k in s.disk.unread || k in s.disk.cur
    ensures a.pid in TickLookup(s, a.pid, a).procs
    ensures OnTrack(s, TickLookup(s, a.pid, a).procs[a.pid], k)
  {
  }

  lemma TickListing(s: State, a: Action, k: Key)
    requires a.Tick? && a.pid in s.procs && s.procs[a.pid].ListScan? && OnTrack(s, s.procs[a.pid], k)
    requires k in s.disk.unread || k in s.disk.cur
    ensures a.pid in TickList(s, a.pid, a).procs
    ensures OnTrack(s, TickList(s, a.pid, a).procs[a.pid], k)
  {
    var p := s.procs[a.pid];
    var q := TickList(s, a.pid, a).procs[a.pid];
    if p.pending != [] {
      if Shows(p.pending, k) {
        var x :| 0 <= x < |p.pending| && p.pending[x].key == k;
        if x == 0 { assert q.shown[|p.shown|].key == k; } else { assert q.pending[x - 1].key == k; }
      } else if Shows(p.shown, k) {
        var x :| 0 <= x < |p.shown| && p.shown[x].key == k;
        assert q.shown[x].key == k;
      }
    } else if k.box !in p.skipped && !Shows(p.shown, k) && p.i < |p.boxes| && a.ok && q != p {
      var dir := Dir(s.disk, !p.inCur);
      if p.boxes[p.i] == k.box && k in dir {
        assert k.id in IdsIn(dir, k.box);
        var x :| 0 <= x < |a.listing| && a.listing[x] == k.id;
        assert q.pending[x].key == k;
      } else {
        ScanAdvances(s, p.boxes, p.i, p.inCur, k);
      }
    }
  }

  lemma Starts(s: State, boxes: seq<string>, k: Key)
    requires Enumerates(boxes, s.disk.boxes) && k.box in s.disk.boxes
    ensures Ahead(s, boxes, 0, false, k)
  {
  }

  lemma OwnTick(shadowed: bool, s: State, a: Action, k: Key)
    requires a.Tick? && a.pid in s.procs && OnTrack(s, s.procs[a.pid], k)
    requires (k in s.disk.unread || k in s.disk.cur) && k.box in s.disk.boxes
    ensures a.pid in Step(shadowed, s, a).procs && OnTrack(s, Step(shadowed, s, a).procs[a.pid], k)
  {
    var p := s.procs[a.pid];
    if p.Scan? { TickScan(s, a, k); }
    else if p.ListScan? { TickListing(s, a, k); }
    else if (p.LookupStart? || p.ListStart?) && Enumerates(a.listing, s.disk.boxes) { Starts(s, a.listing, k); }
  }

  lemma OtherProc(shadowed: bool, s: State, a: Action, pid: nat)
    requires !(a.Tick? && a.pid == pid) && pid in Step(shadowed, s, a).procs
    ensures var p := Step(shadowed, s, a).procs[pid];
      (pid in s.procs && p == s.procs[pid]) || (pid !in s.procs && !a.Tick? && !a.Crash?)
    ensures pid !in s.procs ==> var p := Step(shadowed, s, a).procs[pid];
      p.Deliver? || p.LookupStart? || p.ListStart? || (p.LookupEnd? && p.outcome == Failed)
  {
  }

  lemma TrackStep(r: Run, j: nat, pid: nat, k: Key)
    requires r.Valid() && j < |r.actions| && LiveAt(r, j, k.id) && LiveAt(r, j + 1, k.id)
    requires r.states[j].issued[k.id].box == k.box
    requires pid in r.states[j].procs ==> OnTrack(r.states[j], r.states[j].procs[pid], k)
    ensures pid in r.states[j + 1].procs ==> OnTrack(r.states[j + 1], r.states[j + 1].procs[pid], k)
    ensures k.id in r.states[j + 1].issued && r.states[j + 1].issued[k.id].box == k.box
  {
    var s, s', a := r.states[j], r.states[j + 1], r.actions[j];
    Surroundings(r, j, k);
    if pid in s'.procs {
      assert r.Linked(j);
      if a.Tick? && a.pid == pid {
        if pid in s.procs {
          OwnTick(r.shadowed, s, a, k);
          TrackKept(s, s', s'.procs[pid], k);
        }
      } else {
        OtherProc(r.shadowed, s, a, pid);
        if pid in s.procs { TrackKept(s, s', s'.procs[pid], k); }
      }
    }
  }

  /** While a message stays live, its mailbox is listed, its home does not change and read stays read. */
  lemma Surroundings(r: Run, j: nat, k: Key)
    requires r.Valid() && j < |r.actions| && LiveAt(r, j, k.id) && LiveAt(r, j + 1, k.id)
    requires r.states[j].issued[k.id].box == k.box
    ensures k.box in r.states[j].disk.boxes
    ensures r.states[j + 1].issued[k.id].box == k.box
    ensures k in r.states[j].disk.cur ==> k in r.states[j + 1].disk.cur
  {
    KeepsLetter(r, j, k.id);
    LiveRank(r, j, k.id);
    LiveRank(r, j + 1, k.id);
    RankStep(r, j, k.id);
  }

  lemma KeepsLetter(r: Run, j: nat, id: string)
    requires r.Valid() && j < |r.actions| && id in r.states[j].issued
    ensures id in r.states[j + 1].issued && r.states[j + 1].issued[id] == r.states[j].issued[id]
  {
    assert r.Linked(j);
    IssuedKept(r.shadowed, r.states[j], r.actions[j], id);
  }

  ghost predicate LiveThroughout(r: Run, i: nat, j: nat, id: string)
    requires r.Valid() && i <= j <= |r.actions|
  {
    forall m :: i <= m <= j ==> LiveAt(r, m, id)
  }

  lemma {:induction false} TrackRun(r: Run, i: nat, j: nat, pid: nat, k: Key)
    requires r.Valid() && i <= j <= |r.actions| && LiveThroughout(r, i, j, k.id)
    requires k.id in r.states[i].issued && r.states[i].issued[k.id].box == k.box
    requires pid in r.states[i].procs && (r.states[i].procs[pid].LookupStart? || r.states[i].procs[pid].ListStart?)
    ensures pid in r.states[j].procs ==> OnTrack(r.states[j], r.states[j].procs[pid], k)
    ensures k.id in r.states[j].issued && r.states[j].issued[k.id].box == k.box
  {
    if i < j {
      TrackRun(r, i, j - 1, pid, k);
      assert LiveAt(r, j - 1, k.id) && LiveAt(r, j, k.id);
      TrackStep(r, j - 1, pid, k);
    }
  }

  /**
    A lookup never misses a message that is live throughout the call, in any
    interleaving: it can end in "not exist" only if one of its own calls failed
    for another reason.
  */
  lemma LocateNeverMisses(r: Run, i: nat, j: nat, pid: nat, goal: Goal, id: string, blind: bool)
    requires r.Valid() && i <= j <= |r.actions| && LiveThroughout(r, i, j, id)
    requires pid in r.states[i].procs && r.states[i].procs[pid] == LookupStart(goal, id)
    requires pid in r.states[j].procs && r.states[j].procs[pid] == LookupEnd(goal, id, Missing(blind))
    ensures CallFails(r, i, j, pid)
  {
    assert LiveAt(r, i, id);
    TrackRun(r, i, j, pid, Key(r.states[i].issued[id].box, id));
    StartedValid(r, i, pid);
    var b := WhenEnded(r, i, j, pid);
    WhyBlind(r, i, b, pid);
  }

  /** The ReadDir of a directory of this mailbox fails. */
  ghost predicate FailsToRead(s: State, a: Action, pid: nat, box: string) {
    && a.Tick? && !a.ok && a.pid == pid && pid in s.procs && s.procs[pid].ListScan?
    && s.procs[pid].pending == [] && s.procs[pid].i < |s.procs[pid].boxes| && s.procs[pid].boxes[s.procs[pid].i] == box
  }

  ghost predicate DirFails(r: Run, i: nat, j: nat, pid: nat, box: string)
    requires r.Valid() && j <= |r.actions|
  {
    exists m :: i <= m < j && FailsToRead(r.states[m], r.actions[m], pid, box)
  }

  function Skipped(p: Proc): set<string> { if p.ListScan? || p.ListEnd? then p.skipped else {} }

  lemma SkippedOrigin(shadowed: bool, s: State, a: Action, pid: nat, box: string)
    requires pid in Step(shadowed, s, a).procs && box in Skipped(Step(shadowed, s, a).procs[pid])
    ensures (pid in s.procs && box in Skipped(s.procs[pid])) || FailsToRead(s, a, pid, box)
  {
    if !(a.Tick? && a.pid == pid) { OtherProc(shadowed, s, a, pid); }
    else if pid in s.procs { ListedByListing(shadowed, s, a); }
  }

  /** A mailbox counts as skipped only if a ReadDir of that very call failed in it. */
  lemma {:induction false} WhySkipped(r: Run, i: nat, j: nat, pid: nat, box: string)
    requires r.Valid() && i <= j <= |r.actions|
    requires pid in r.states[i].procs && r.states[i].procs[pid] == ListStart
    requires pid in r.states[j].procs && box in Skipped(r.states[j].procs[pid])
    ensures DirFails(r, i, j, pid, box)
  {
    assert r.Linked(j - 1);
    SkippedOrigin(r.shadowed, r.states[j - 1], r.actions[j - 1], pid, box);
    if !FailsToRead(r.states[j - 1], r.actions[j - 1], pid, box) { WhySkipped(r, i, j - 1, pid, box); }
  }

  /**
    A listing shows every message that is live throughout the call, unless a
    ReadDir of that call failed in its mailbox.
  */
  lemma ListNeverOmits(r: Run, i: nat, j: nat, pid: nat, id: string)
    requires r.Valid() && i <= j <= |r.actions| && LiveThroughout(r, i, j, id)
    requires pid in r.states[i].procs && r.states[i].procs[pid] == ListStart
    requires pid in r.states[j].procs && r.states[j].procs[pid].ListEnd?
    ensures id in r.states[i].issued
    ensures var k := Key(r.states[i].issued[id].box, id);
      Shows(r.states[j].procs[pid].shown, k) || DirFails(r, i, j, pid, k.box)
  {
    assert LiveAt(r, i, id);
    var k := Key(r.states[i].issued[id].box, id);
    TrackRun(r, i, j, pid, k);
    if k.box in r.states[j].procs[pid].skipped { WhySkipped(r, i, j, pid, k.box); }
  }

  // ---------------------------------------------------------------- what a listing shows

  function Listed(p: Proc): seq<Entry> {
    match p
    case ListScan(_, _, _, pending, shown, _) => shown + pending
    case ListEnd(shown, _) => shown
    case _ => []
  }

  ghost predicate SameLine(e: Entry, f: Entry) {
    e.key == f.key && e.unread == f.unread
  }

  /** The listing reads the directory in which the message lies. */
  ghost predicate ReadsDir(s: State, a: Action, pid: nat, e: Entry) {
    && a.Tick? && a.ok && a.pid == pid && pid in s.procs && s.procs[pid].ListScan?
    && s.procs[pid].pending == [] && s.procs[pid].i < |s.procs[pid].boxes|
    && s.procs[pid].boxes[s.procs[pid].i] == e.key.box && s.procs[pid].inCur == !e.unread
    && e.key in Dir(s.disk, e.unread)
  }

  /** Only the steps of a listing produce lines. */
  lemma ListedByListing(shadowed: bool, s: State, a: Action)
    requires a.Tick? && a.pid in s.procs && a.pid in Step(shadowed, s, a).procs
    ensures s.procs[a.pid].ListScan? || s.procs[a.pid].ListStart? ==> Step(shadowed, s, a) == TickList(s, a.pid, a)
    ensures var p, q := s.procs[a.pid], Step(shadowed, s, a).procs[a.pid];
      p.ListScan? || p.ListStart? || q == p || (Listed(q) == [] && !q.ListScan?)
  {
  }

  lemma ListedStep(shadowed: bool, s: State, a: Action, pid: nat, x: nat)
    requires a.Tick? && pid == a.pid && pid in s.procs && pid in Step(shadowed, s, a).procs
    requires x < |Listed(Step(shadowed, s, a).procs[pid])|
    ensures var e := Listed(Step(shadowed, s, a).procs[pid])[x];
      (x < |Listed(s.procs[pid])| && SameLine(Listed(s.procs[pid])[x], e)) || ReadsDir(s, a, pid, e)
  {
    ListedByListing(shadowed, s, a);
    if s.procs[pid].ListScan? { ScanListed(s, a, x); }
  }

  lemma ScanListed(s: State, a: Action, x: nat)
    requires a.Tick? && a.pid in s.procs && s.procs[a.pid].ListScan? && a.pid in TickList(s, a.pid, a).procs
    requires x < |Listed(TickList(s, a.pid, a).procs[a.pid])|
    ensures var e, was := Listed(TickList(s, a.pid, a).procs[a.pid])[x], Listed(s.procs[a.pid]);
      (x < |was| && SameLine(was[x], e)) || ReadsDir(s, a, a.pid, e)
  {
    var p, q := s.procs[a.pid], TickList(s, a.pid, a).procs[a.pid];
    if p.pending == [] && p.i < |p.boxes| && a.ok && q != p && x >= |p.shown| {
      var dir := Dir(s.disk, !p.inCur);
      assert a.listing[x - |p.shown|] in a.listing;
      assert a.listing[x - |p.shown|] in IdsIn(dir, p.boxes[p.i]);
    }
  }

  /**
    Everything a listing shows lay in `new` or `cur`, as shown, when the call
    read that directory; never a leftover of `tmp`.
  */
  lemma {:induction false} ListedWasThere(r: Run, i: nat, j: nat, pid: nat, x: nat) returns (m: nat)
    requires r.Valid() && i <= j <= |r.actions|
    requires pid in r.states[i].procs && r.states[i].procs[pid] == ListStart
    requires pid in r.states[j].procs && x < |Listed(r.states[j].procs[pid])|
    ensures i <= m < j && ReadsDir(r.states[m], r.actions[m], pid, Listed(r.states[j].procs[pid])[x])
  {
    assert i < j;
    ListedBefore(r, j - 1, pid, x);
    if ReadsDir(r.states[j - 1], r.actions[j - 1], pid, Listed(r.states[j].procs[pid])[x]) {
      m := j - 1;
    } else {
      m := ListedWasThere(r, i, j - 1, pid, x);
    }
  }

  lemma ListedBefore(r: Run, j: nat, pid: nat, x: nat)
    requires r.Valid() && j < |r.actions| && pid in r.states[j + 1].procs && x < |Listed(r.states[j + 1].procs[pid])|
    ensures var e := Listed(r.states[j + 1].procs[pid])[x];
      || (pid in r.states[j].procs && x < |Listed(r.states[j].procs[pid])|
         && SameLine(Listed(r.states[j].procs[pid])[x], e))
      || ReadsDir(r.states[j], r.actions[j], pid, e)
  {
    var s, a := r.states[j], r.actions[j];
    assert r.Linked(j);
    if !(a.Tick? && a.pid == pid) { OtherProc(r.shadowed, s, a, pid); }
    else if pid in s.procs { ListedStep(r.shadowed, s, a, pid, x); }
  }

  /** No line twice, and only lines of directories the listing has read. */
  ghost predicate Orderly(p: Proc) {
    && (forall x, y :: 0 <= x < y < |Listed(p)| ==> !SameLine(Listed(p)[x], Listed(p)[y]))
    && (p.ListScan? ==>
        && (forall b, c :: 0 <= b < c < |p.boxes| ==> p.boxes[b] != p.boxes[c])
        && (forall x :: 0 <= x < |Listed(p)| ==> Passed(p, Listed(p)[x])))
  }

  ghost predicate Passed(p: Proc, e: Entry)
    requires p.ListScan?
  {
    exists b :: 0 <= b < |p.boxes| && p.boxes[b] == e.key.box && (b < p.i || (b == p.i && p.inCur && e.unread))
  }

  lemma OrderlyRead(s: State, p: Proc, q: Proc, ids: seq<string>)
    requires Orderly(p) && p.ListScan? && p.pending == [] && p.i < |p.boxes|
    requires Enumerates(ids, IdsIn(Dir(s.disk, !p.inCur), p.boxes[p.i]))
    requires q == ListScan(
      p.boxes, if p.inCur then p.i + 1 else p.i, !p.inCur, Entries(p.boxes[p.i], !p.inCur, ids), p.shown, p.skipped)
    ensures Orderly(q)
  {
    forall x | 0 <= x < |Listed(q)| ensures Passed(q, Listed(q)[x]) {
      if x < |p.shown| {
        assert Listed(p)[x] == Listed(q)[x] && Passed(p, Listed(p)[x]);
      } else {
        assert q.boxes[p.i] == Listed(q)[x].key.box;
      }
    }
    forall x, y | 0 <= x < y < |Listed(q)| ensures !SameLine(Listed(q)[x], Listed(q)[y]) {
      if y < |p.shown| {
        assert !SameLine(Listed(p)[x], Listed(p)[y]);
      } else if x < |p.shown| {
        assert Passed(p, Listed(p)[x]);
      }
    }
  }

  lemma OrderlyTick(shadowed: bool, s: State, a: Action, pid: nat)
    requires a.Tick? && pid == a.pid && pid in s.procs && Orderly(s.procs[pid])
    requires pid in Step(shadowed, s, a).procs
    ensures Orderly(Step(shadowed, s, a).procs[pid])
  {
    ListedByListing(shadowed, s, a);
    if s.procs[pid].ListScan? { OrderlyScan(s, a); }
  }

  lemma OrderlyScan(s: State, a: Action)
    requires a.Tick? && a.pid in s.procs && s.procs[a.pid].ListScan? && Orderly(s.procs[a.pid])
    ensures a.pid in TickList(s, a.pid, a).procs && Orderly(TickList(s, a.pid, a).procs[a.pid])
  {
    var p, q := s.procs[a.pid], TickList(s, a.pid, a).procs[a.pid];
    if q.ListScan? && q != p {
      if p.pending != [] {
        OrderlyShift(p, q);
      } else if a.ok {
        OrderlyRead(s, p, q, a.listing);
      } else {
        OrderlySkip(p, q);
      }
    } else {
      assert Listed(q) == Listed(p);
    }
  }

  lemma OrderlyShift(p: Proc, q: Proc)
    requires Orderly(p) && p.ListScan? && q.ListScan? && p.pending != []
    requires q.boxes == p.boxes && q.i == p.i && q.inCur == p.inCur && q.pending == p.pending[1..]
    requires |q.shown| == |p.shown| + 1 && q.shown[..|p.shown|] == p.shown && SameLine(q.shown[|p.shown|], p.pending[0])
    ensures Orderly(q)
  {
    assert |Listed(q)| == |Listed(p)|;
    forall x | 0 <= x < |Listed(q)| ensures SameLine(Listed(q)[x], Listed(p)[x]) && Passed(q, Listed(q)[x]) {
      if x < |p.shown| { assert Listed(q)[x] == q.shown[..|p.shown|][x]; }
      assert Passed(p, Listed(p)[x]);
    }
    forall x, y | 0 <= x < y < |Listed(q)| ensures !SameLine(Listed(q)[x], Listed(q)[y]) {
      assert SameLine(Listed(q)[x], Listed(p)[x]) && SameLine(Listed(q)[y], Listed(p)[y]);
      assert !SameLine(Listed(p)[x], Listed(p)[y]);
    }
  }

  lemma OrderlySkip(p: Proc, q: Proc)
    requires Orderly(p) && p.ListScan? && q.ListScan? && p.i < |p.boxes|
    requires q.boxes == p.boxes && q.i == (if p.inCur then p.i + 1 else p.i) && q.inCur == !p.inCur
    requires Listed(q) == Listed(p)
    ensures Orderly(q)
  {
  }

  lemma {:induction false} RunOrderly(r: Run, j: nat, pid: nat)
    requires r.Valid() && j <= |r.actions| && pid in r.states[j].procs
    ensures Orderly(r.states[j].procs[pid])
  {
    assert r.states[0].procs == map[];
    var s, a := r.states[j - 1], r.actions[j - 1];
    assert r.Linked(j - 1);
    if a.Tick? && a.pid == pid {
      if pid in s.procs {
        RunOrderly(r, j - 1, pid);
        OrderlyTick(r.shadowed, s, a, pid);
      }
    } else {
      OtherProc(r.shadowed, s, a, pid);
      if pid in s.procs { RunOrderly(r, j - 1, pid); }
    }
  }

  /**
    A listing shows a message twice only as one unread and one read line, and
    only if an Open renamed it after the listing read `new` of that mailbox and
    before it read `cur`.
  */
  lemma ShownTwiceMeansMoved(r: Run, i: nat, j: nat, pid: nat, x: nat, y: nat) returns (atNew: nat, m: nat, atCur: nat)
    requires r.Valid() && i <= j <= |r.actions|
    requires pid in r.states[i].procs && r.states[i].procs[pid] == ListStart
    requires pid in r.states[j].procs && r.states[j].procs[pid].ListEnd?
    requires var shown := r.states[j].procs[pid].shown; x < y < |shown| && shown[x].key.id == shown[y].key.id
    ensures var shown := r.states[j].procs[pid].shown;
      && shown[x].key == shown[y].key && shown[x].unread != shown[y].unread
      && i <= atNew < m < atCur < j && Moves(r.states[m], r.actions[m], shown[x].key.id)
      && ReadsDir(r.states[atNew], r.actions[atNew], pid, shown[if shown[x].unread then x else y])
      && ReadsDir(r.states[atCur], r.actions[atCur], pid, shown[if shown[x].unread then y else x])
  {
    var shown := Listed(r.states[j].procs[pid]);
    RunOrderly(r, j, pid);
    assert !SameLine(shown[x], shown[y]);
    ShownAtHome(r, j, pid, x);
    ShownAtHome(r, j, pid, y);
    atNew := WhenListed(r, i, j, pid, if shown[x].unread then x else y);
    atCur := WhenListed(r, i, j, pid, if shown[x].unread then y else x);
    var id := shown[x].key.id;
    if atCur <= atNew { RankNeverFalls(r, atCur, atNew, id); }
    m := OnlyOpenMoves(r, atNew, atCur, id);
  }

  lemma ShownAtHome(r: Run, j: nat, pid: nat, x: nat)
    requires r.Valid() && j <= |r.actions| && pid in r.states[j].procs && r.states[j].procs[pid].ListEnd?
    requires x < |r.states[j].procs[pid].shown|
    ensures var k := r.states[j].procs[pid].shown[x].key;
      k.id in r.states[j].issued && k.box == r.states[j].issued[k.id].box
  {
    RunKeepsInv(r, j);
    assert ProcInv(r.shadowed, r.states[j], r.states[j].procs[pid]);
    assert EntryInv(r.shadowed, r.states[j], r.states[j].procs[pid].shown[x]);
  }

  lemma WhenListed(r: Run, i: nat, j: nat, pid: nat, x: nat) returns (m: nat)
    requires r.Valid() && i <= j <= |r.actions|
    requires pid in r.states[i].procs && r.states[i].procs[pid] == ListStart
    requires pid in r.states[j].procs && x < |Listed(r.states[j].procs[pid])|
    ensures var e := Listed(r.states[j].procs[pid])[x];
      i <= m < j && ReadsDir(r.states[m], r.actions[m], pid, e)
        && Rank(r.states[m], e.key.id) == if e.unread then 1 else 2
  {
    m := ListedWasThere(r, i, j, pid, x);
    var e := Listed(r.states[j].procs[pid])[x];
    RankOf(r, m, e.key, e.unread);
  }

  lemma RankOf(r: Run, m: nat, k: Key, isNew: bool)
    requires r.Valid() && m <= |r.actions| && k in Dir(r.states[m].disk, isNew)
    ensures k.id in r.states[m].issued && k.box == r.states[m].issued[k.id].box
    ensures Rank(r.states[m], k.id) == if isNew then 1 else 2
  {
    RunKeepsInv(r, m);
    assert Stored(r.shadowed, r.states[m], k, Dir(r.states[m].disk, isNew)[k]);
    LiveIsRank(r.shadowed, r.states[m], k.id);
  }

  /** What a finished Open or Reader hands out are the bytes of the message. */
  lemma ReadsAreExact(r: Run, j: nat, pid: nat)
    requires r.Valid() && j <= |r.actions| && pid in r.states[j].procs
    requires var p := r.states[j].procs[pid]; p.LookupEnd? && !p.goal.DeleteMessage? && p.outcome.Done?
    requires !r.shadowed || !SawWriteError(r, j, r.states[j].procs[pid].id)
    ensures var p := r.states[j].procs[pid];
      p.id in r.states[j].issued && Delivered(r, j, Key(r.states[j].issued[p.id].box, p.id), p.outcome.data)
  {
    RunKeepsInv(r, j);
    assert ProcInv(r.shadowed, r.states[j], r.states[j].procs[pid]);
    DroppedMeansError(r, j, r.states[j].procs[pid].id);
    IssuedByDeliver(r, j, r.states[j].procs[pid].id);
  }

  /** What a finished listing has read of a file are the bytes of the message. */
  lemma ListedHeadsAreExact(r: Run, j: nat, pid: nat, x: nat)
    requires r.Valid() && j <= |r.actions| && pid in r.states[j].procs && r.states[j].procs[pid].ListEnd?
    requires x < |r.states[j].procs[pid].shown| && r.states[j].procs[pid].shown[x].head.Some?
    requires !r.shadowed || !SawWriteError(r, j, r.states[j].procs[pid].shown[x].key.id)
    ensures var e := r.states[j].procs[pid].shown[x]; Delivered(r, j, e.key, e.head.value)
  {
    var e := r.states[j].procs[pid].shown[x];
    RunKeepsInv(r, j);
    assert ProcInv(r.shadowed, r.states[j], r.states[j].procs[pid]);
    assert EntryInv(r.shadowed, r.states[j], e);
    DroppedMeansError(r, j, e.key.id);
    IssuedByDeliver(r, j, e.key.id);
  }

  /**
    Deliver tells the truth: it has returned success exactly when its message
    was published, and a published message can be missing later only if some
    Delete removed it. Exiting in the middle of everything else is safe.
  */
  lemma DeliverTellsTheTruth(r: Run, i: nat, j: nat, pid: nat) returns (m: nat)
    requires r.Valid() && i <= j <= |r.actions| && pid in r.states[i].procs
    requires r.states[i].procs[pid].Deliver? && r.states[i].procs[pid].stage.Returned?
    ensures var p := r.states[i].procs[pid]; p.stage.ok <==> Rank(r.states[i], p.key.id) > 0
    ensures var p := r.states[i].procs[pid];
      p.stage.ok && !LiveAt(r, j, p.key.id) ==> m < j && Deletes(r.states[m], r.actions[m], p.key.id)
  {
    RunKeepsInv(r, i);
    var p := r.states[i].procs[pid];
    assert ProcInv(r.shadowed, r.states[i], p);
    m := 0;
    if p.stage.ok && !LiveAt(r, j, p.key.id) { m := WhoDeleted(r, j, p.key.id, i); }
  }

  lemma WhoDeleted(r: Run, j: nat, id: string, i: nat) returns (m: nat)
    requires r.Valid() && i <= j <= |r.actions| && Rank(r.states[i], id) > 0 && !LiveAt(r, j, id)
    ensures m < j && Deletes(r.states[m], r.actions[m], id)
  {
    RankNeverFalls(r, i, j, id);
    LiveRank(r, j, id);
    m := Flip((m: nat) => m < |r.states| && Rank(r.states[m], id) < 3, 0, j);
    RankStep(r, m, id);
    PublishFirst(r, m, id);
  }

  /** A message cannot be deleted in the step that publishes it. */
  lemma PublishFirst(r: Run, m: nat, id: string)
    requires r.Valid() && m < |r.actions| && Rank(r.states[m + 1], id) == 3
    ensures Rank(r.states[m], id) > 0
  {
    RunKeepsInv(r, m);
    assert r.Linked(m);
    var s, a := r.states[m], r.actions[m];
    DeletedChange(r.shadowed, s, a, id);
    if a.Tick? && a.pid in s.procs { assert ProcInv(r.shadowed, s, s.procs[a.pid]); }
  }

  // ---------------------------------------------------------------- the race after a successful lookup

  ghost predicate TicksAt(r: Run, m: nat, pid: nat)
    requires r.Valid()
  {
    m < |r.actions| && r.actions[m].Tick? && r.actions[m].pid == pid && pid in r.states[m].procs
  }

  /** A call of the process returns an error that is not "not exist". */
  ghost predicate CallFails(r: Run, i: nat, j: nat, pid: nat)
    requires r.Valid()
  {
    exists m :: i <= m < j && TicksAt(r, m, pid) && !r.actions[m].ok
  }

  /** The Stat that finds the file in `new`. */
  ghost predicate FindsNew(r: Run, m: nat, pid: nat, id: string)
    requires r.Valid()
  {
    && TicksAt(r, m, pid) && r.states[m].procs[pid].Scan? && pid in r.states[m + 1].procs
    && r.states[m + 1].procs[pid].Found? && r.states[m + 1].procs[pid].isNew && r.states[m + 1].procs[pid].key.id == id
  }

  /** The call that needs the located file. */
  ghost predicate UsesFile(r: Run, m: nat, pid: nat, id: string)
    requires r.Valid()
  {
    TicksAt(r, m, pid) && r.states[m].procs[pid].Found? && r.states[m].procs[pid].key.id == id
  }

  /** Another Open renames the message between the Stat that finds it and the call that needs it. */
  ghost predicate Overtaken(r: Run, i: nat, j: nat, pid: nat, id: string)
    requires r.Valid() && j <= |r.actions|
  {
    exists a: nat, m: nat, b: nat :: i <= a < m < b < j
      && FindsNew(r, a, pid, id) && Moves(r.states[m], r.actions[m], id) && UsesFile(r, b, pid, id)
  }

  /** Deliveries and listings stay what they are. */
  lemma KindKept(shadowed: bool, s: State, a: Action)
    requires a.Tick? && a.pid in s.procs && a.pid in Step(shadowed, s, a).procs
    ensures s.procs[a.pid].Deliver? ==> Step(shadowed, s, a).procs[a.pid].Deliver?
    ensures s.procs[a.pid].ListStart? || s.procs[a.pid].ListScan? ==>
      var q := Step(shadowed, s, a).procs[a.pid]; q.ListStart? || q.ListScan? || q.ListEnd? || q.ListFailed?
  {
  }

  lemma LookupTick(s: State, a: Action)
    requires a.Tick? && a.pid in s.procs && a.pid in TickLookup(s, a.pid, a).procs
    ensures var p, q := s.procs[a.pid], TickLookup(s, a.pid, a).procs[a.pid];
      q == p || ((q.Found? || q.LookupEnd?) ==> Enters(s, a, p, q))
  {
  }

  /** How a lookup gets into a stage. */
  lemma LookupOrigin(shadowed: bool, s: State, a: Action, pid: nat)
    requires pid in Step(shadowed, s, a).procs
    requires Step(shadowed, s, a).procs[pid].Found? || Step(shadowed, s, a).procs[pid].LookupEnd?
    ensures var q := Step(shadowed, s, a).procs[pid];
      || (pid in s.procs && s.procs[pid] == q)
      || (q.LookupEnd? && q.outcome == Failed && !ValidId(q.id))
      || (a.Tick? && a.pid == pid && pid in s.procs && Enters(s, a, s.procs[pid], q))
  {
    if !(a.Tick? && a.pid == pid) {
      OtherStart(shadowed, s, a, pid);
    } else if pid in s.procs {
      KindKept(shadowed, s, a);
      var p := s.procs[pid];
      if !p.Deliver? && !p.ListStart? && !p.ListScan? { LookupTick(s, a); }
    }
  }

  lemma OtherStart(shadowed: bool, s: State, a: Action, pid: nat)
    requires !(a.Tick? && a.pid == pid) && pid in Step(shadowed, s, a).procs
    ensures var q := Step(shadowed, s, a).procs[pid];
      (pid in s.procs && s.procs[pid] == q) || q.Deliver? || q.LookupStart? || q.ListStart?
      || (q.LookupEnd? && q.outcome == Failed && !ValidId(q.id))
  {
  }

  ghost predicate Enters(s: State, a: Action, p: Proc, q: Proc)
    requires a.Tick?
  {
    match q
    case Found(_, k, isNew) => p.Scan? && a.ok && k in Dir(s.disk, isNew)
    case LookupEnd(_, id, Missing(blind)) => p.Scan? && p.id == id && p.blind == blind
    case LookupEnd(_, id, Failed) =>
      (p.LookupStart? && !a.ok) || (p.Found? && p.key.id == id && !(a.ok && p.key in Dir(s.disk, p.isNew)))
    case _ => true
  }

  /** When a located file was found. */
  lemma {:induction false} WhenFound(r: Run, i: nat, j: nat, pid: nat) returns (a: nat)
    requires r.Valid() && i <= j <= |r.actions| && pid in r.states[i].procs && r.states[i].procs[pid].LookupStart?
    requires pid in r.states[j].procs && r.states[j].procs[pid].Found?
    ensures i <= a < j && TicksAt(r, a, pid) && r.states[a].procs[pid].Scan? && pid in r.states[a + 1].procs
    ensures var q := r.states[j].procs[pid]; r.states[a + 1].procs[pid] == q && q.key in Dir(r.states[a].disk, q.isNew)
  {
    assert r.Linked(j - 1);
    LookupOrigin(r.shadowed, r.states[j - 1], r.actions[j - 1], pid);
    if pid in r.states[j - 1].procs && r.states[j - 1].procs[pid] == r.states[j].procs[pid] {
      a := WhenFound(r, i, j - 1, pid);
    } else {
      a := j - 1;
    }
  }

  lemma BlindOrigin(shadowed: bool, s: State, a: Action, pid: nat)
    requires pid in Step(shadowed, s, a).procs && Step(shadowed, s, a).procs[pid].Scan?
    requires Step(shadowed, s, a).procs[pid].blind
    ensures pid in s.procs && ((s.procs[pid].Scan? && s.procs[pid].blind) || (a.Tick? && a.pid == pid && !a.ok))
  {
    if !(a.Tick? && a.pid == pid) { OtherStart(shadowed, s, a, pid); }
  }

  /** A scan is blind only after a failed Stat. */
  lemma {:induction false} WhyBlind(r: Run, i: nat, j: nat, pid: nat)
    requires r.Valid() && i <= j <= |r.actions| && pid in r.states[i].procs && r.states[i].procs[pid].LookupStart?
    requires pid in r.states[j].procs && r.states[j].procs[pid].Scan? && r.states[j].procs[pid].blind
    ensures CallFails(r, i, j, pid)
  {
    assert r.Linked(j - 1);
    BlindOrigin(r.shadowed, r.states[j - 1], r.actions[j - 1], pid);
    if r.states[j - 1].procs[pid].Scan? && r.states[j - 1].procs[pid].blind {
      WhyBlind(r, i, j - 1, pid);
    } else {
      assert TicksAt(r, j - 1, pid);
    }
  }

  /** Where a lookup ended. */
  lemma {:induction false} WhenEnded(r: Run, i: nat, j: nat, pid: nat) returns (b: nat)
    requires r.Valid() && i <= j <= |r.actions| && pid in r.states[i].procs && r.states[i].procs[pid].LookupStart?
    requires pid in r.states[j].procs && r.states[j].procs[pid].LookupEnd? && ValidId(r.states[j].procs[pid].id)
    ensures i <= b < j && TicksAt(r, b, pid)
    ensures Enters(r.states[b], r.actions[b], r.states[b].procs[pid], r.states[j].procs[pid])
  {
    assert r.Linked(j - 1);
    LookupOrigin(r.shadowed, r.states[j - 1], r.actions[j - 1], pid);
    if pid in r.states[j - 1].procs && r.states[j - 1].procs[pid] == r.states[j].procs[pid] {
      b := WhenEnded(r, i, j - 1, pid);
    } else {
      b := j - 1;
    }
  }

  lemma StartOrigin(shadowed: bool, s: State, a: Action, pid: nat)
    requires pid in Step(shadowed, s, a).procs && Step(shadowed, s, a).procs[pid].LookupStart?
    ensures (pid in s.procs && s.procs[pid] == Step(shadowed, s, a).procs[pid])
      || ValidId(Step(shadowed, s, a).procs[pid].id)
  {
    if a.Tick? && a.pid == pid && pid in s.procs { KindKept(shadowed, s, a); }
  }

  lemma {:induction false} StartedValid(r: Run, j: nat, pid: nat)
    requires r.Valid() && j <= |r.actions| && pid in r.states[j].procs && r.states[j].procs[pid].LookupStart?
    ensures ValidId(r.states[j].procs[pid].id)
  {
    assert r.states[0].procs == map[];
    assert r.Linked(j - 1);
    StartOrigin(r.shadowed, r.states[j - 1], r.actions[j - 1], pid);
    if pid in r.states[j - 1].procs && r.states[j - 1].procs[pid] == r.states[j].procs[pid] {
      StartedValid(r, j - 1, pid);
    }
  }

  /** After an Open's rename the message is read or gone. */
  lemma MovesMeansRead(shadowed: bool, s: State, a: Action, id: string)
    requires Inv(shadowed, s) && Moves(s, a, id)
    ensures Rank(Step(shadowed, s, a), id) >= 2
  {
    assert ProcInv(shadowed, s, s.procs[a.pid]);
  }

  ghost predicate MovedBetween(r: Run, a: nat, b: nat, id: string)
    requires r.Valid() && b <= |r.actions|
  {
    exists m: nat :: a < m < b && Moves(r.states[m], r.actions[m], id)
  }

  lemma MovedIsRead(r: Run, a: nat, b: nat, id: string)
    requires r.Valid() && b <= |r.actions| && MovedBetween(r, a, b, id)
    ensures Rank(r.states[b], id) >= 2
  {
    var m: nat :| a < m < b && Moves(r.states[m], r.actions[m], id);
    RunKeepsInv(r, m);
    assert r.Linked(m);
    MovesMeansRead(r.shadowed, r.states[m], r.actions[m], id);
    RankNeverFalls(r, m + 1, b, id);
  }

  /**
    A located file is missing although the message is live exactly if it was in
    `new` and an Open has renamed it since.
  */
  lemma MissingMeansMoved(r: Run, a: nat, b: nat, k: Key, isNew: bool)
    requires r.Valid() && a < b <= |r.actions| && k in Dir(r.states[a].disk, isNew) && LiveAt(r, b, k.id)
    requires r.actions[a].Tick? && r.actions[a].pid in r.states[a].procs && r.states[a].procs[r.actions[a].pid].Scan?
    ensures k !in Dir(r.states[b].disk, isNew) <==> isNew && MovedBetween(r, a, b, k.id)
  {
    RankOf(r, a, k, isNew);
    RankNeverFalls(r, a, b, k.id);
    LiveRank(r, b, k.id);
    IssuedStays(r, a, b, k.id);
    if MovedBetween(r, a, b, k.id) { MovedIsRead(r, a, b, k.id); }
    if Rank(r.states[a], k.id) == 1 && Rank(r.states[b], k.id) == 2 { var m := OnlyOpenMoves(r, a, b, k.id); }
  }

  /**
    After a lookup has located a live message at step `a`, its next call fails
    if and only if that call has an I/O error, or the file was found in `new`
    and an Open has renamed it since `a`.
  */
  lemma FoundFails(r: Run, i: nat, b: nat, pid: nat) returns (a: nat)
    requires r.Valid() && i <= b && TicksAt(r, b, pid) && r.states[b].procs[pid].Found?
    requires pid in r.states[i].procs && r.states[i].procs[pid].LookupStart?
    requires LiveAt(r, b, r.states[b].procs[pid].key.id)
    ensures i <= a < b && TicksAt(r, a, pid) && r.states[a].procs[pid].Scan? && pid in r.states[a + 1].procs
    ensures r.states[a + 1].procs[pid] == r.states[b].procs[pid] && pid in r.states[b + 1].procs
    ensures var p, q := r.states[b].procs[pid], r.states[b + 1].procs[pid];
      q == LookupEnd(p.goal, p.key.id, Failed)
      <==> !r.actions[b].ok || (p.isNew && MovedBetween(r, a, b, p.key.id))
  {
    a := WhenFound(r, i, b, pid);
    var p := r.states[b].procs[pid];
    MissingMeansMoved(r, a, b, p.key, p.isNew);
    assert r.Linked(b);
  }

  lemma OvertakenAt(r: Run, i: nat, b: nat, j: nat, pid: nat)
    requires r.Valid() && i <= b < j <= |r.actions| && TicksAt(r, b, pid) && r.states[b].procs[pid].Found?
    requires pid in r.states[i].procs && r.states[i].procs[pid].LookupStart?
    requires var p := r.states[b].procs[pid]; p.key !in Dir(r.states[b].disk, p.isNew) && LiveAt(r, b, p.key.id)
    ensures Overtaken(r, i, j, pid, r.states[b].procs[pid].key.id)
  {
    var p := r.states[b].procs[pid];
    var a := WhenFound(r, i, b, pid);
    MissingMeansMoved(r, a, b, p.key, p.isNew);
    assert FindsNew(r, a, pid, p.key.id) && UsesFile(r, b, pid, p.key.id);
  }

  /**
    The whole call, from the moment it is made: an Open, Delete or Reader of a
    message that is live throughout succeeds, unless one of its calls has an I/O
    error or another Open renames the message between its Stat and its next
    call. No ID that can name a file is refused.
  */
  lemma LookupSucceeds(r: Run, i: nat, j: nat, pid: nat, goal: Goal, id: string)
    requires r.Valid() && i < j <= |r.actions| && LiveThroughout(r, i, j, id) && Component(id)
    requires r.actions[i] == StartLookup(pid, goal, id) && pid !in r.states[i].procs
    requires pid in r.states[j].procs && r.states[j].procs[pid].LookupEnd?
    requires r.states[j].procs[pid].goal == goal && r.states[j].procs[pid].id == id
    ensures r.states[j].procs[pid].outcome.Done? || CallFails(r, i + 1, j, pid) || Overtaken(r, i + 1, j, pid, id)
  {
    assert r.Linked(i);
    ComponentIsValid(id);
    assert r.states[i + 1].procs[pid] == LookupStart(goal, id);
    assert LiveThroughout(r, i + 1, j, id) by { assert forall m :: i + 1 <= m <= j ==> LiveAt(r, m, id); }
    StartedSucceeds(r, i + 1, j, pid, goal, id);
  }

  lemma StartedSucceeds(r: Run, i: nat, j: nat, pid: nat, goal: Goal, id: string)
    requires r.Valid() && i <= j <= |r.actions| && LiveThroughout(r, i, j, id)
    requires pid in r.states[i].procs && r.states[i].procs[pid] == LookupStart(goal, id)
    requires pid in r.states[j].procs && r.states[j].procs[pid].LookupEnd?
    requires r.states[j].procs[pid].goal == goal && r.states[j].procs[pid].id == id
    ensures r.states[j].procs[pid].outcome.Done? || CallFails(r, i, j, pid) || Overtaken(r, i, j, pid, id)
  {
    StartedValid(r, i, pid);
    var b := WhenEnded(r, i, j, pid);
    var p, outcome := r.states[b].procs[pid], r.states[j].procs[pid].outcome;
    if outcome.Missing? {
      LocateNeverMisses(r, i, j, pid, goal, id, outcome.blind);
    } else if outcome.Failed? && r.actions[b].ok {
      assert LiveAt(r, b, id);
      OvertakenAt(r, i, b, j, pid);
    }
  }

  lemma LookupsReachFound(r: Run, k: Key) returns (r': Run)
    requires r.Valid() && ValidId(k.id)
    requires var t := r.states[|r.actions|]; t.disk.boxes == {k.box} && k in t.disk.unread && t.procs == map[]
    ensures r'.Valid() && r'.shadowed == r.shadowed && r.actions <= r'.actions && |r.actions| + 2 < |r'.actions|
    ensures NothingFails(r) ==> NothingFails(r')
    ensures var started := r'.states[|r.actions| + 2];
      2 in started.procs && started.procs[2] == LookupStart(OpenMessage, k.id) && k in started.disk.unread
    ensures r'.states[|r'.actions|] == r.states[|r.actions|].(procs :=
      map[1 := Found(OpenMessage, k, true), 2 := Found(OpenMessage, k, true)])
  {
    r' := r;
    r' := Extend(r', StartLookup(1, OpenMessage, k.id));
    r' := Extend(r', StartLookup(2, OpenMessage, k.id));
    assert Enumerates([k.box], {k.box});
    r' := Extend(r', Tick(1, true, 0, [k.box]));
    r' := Extend(r', Tick(2, true, 0, [k.box]));
    r' := Extend(r', Good(1));
    r' := Extend(r', Good(2));
  }

  lemma LiveBetween(r: Run, i: nat, j: nat, id: string)
    requires r.Valid() && i <= j <= |r.actions| && LiveAt(r, i, id) && LiveAt(r, j, id)
    ensures LiveThroughout(r, i, j, id)
  {
    forall m | i <= m <= j ensures LiveAt(r, m, id) {
      RankNeverFalls(r, i, m, id);
      RankNeverFalls(r, m, j, id);
      LiveRank(r, i, id);
      LiveRank(r, m, id);
      LiveRank(r, j, id);
    }
  }

  lemma LiveHere(r: Run, j: nat, k: Key)
    requires r.Valid() && j <= |r.actions| && (k in r.states[j].disk.unread || k in r.states[j].disk.cur)
    ensures LiveAt(r, j, k.id)
  {
    RankOf(r, j, k, k in r.states[j].disk.unread);
    LiveRank(r, j, k.id);
  }

  lemma SlowOpenEnds(r: Run, k: Key) returns (r': Run)
    requires r.Valid() && ValidId(k.id)
    requires var t := r.states[|r.actions|]; t.disk.boxes == {k.box} && k in t.disk.unread && t.procs == map[]
    ensures r'.Valid() && r'.shadowed == r.shadowed && |r.actions| + 2 < |r'.actions|
    ensures NothingFails(r) ==> NothingFails(r')
    ensures var started := r'.states[|r.actions| + 2];
      2 in started.procs && started.procs[2] == LookupStart(OpenMessage, k.id) && k in started.disk.unread
    ensures var t := r'.states[|r'.actions|];
      k in t.disk.cur && 2 in t.procs && t.procs[2] == LookupEnd(OpenMessage, k.id, Failed)
  {
    r' := LookupsReachFound(r, k);
    r' := Extend(r', Good(1));
    r' := Extend(r', Good(1));
    r' := Extend(r', Good(2));
  }

  /** Two Opens of one unread message: the slower one fails although the message is there all the time. */
  lemma SlowOpenFails(r: Run, k: Key) returns (r': Run, i: nat)
    requires r.Valid() && ValidId(k.id)
    requires var t := r.states[|r.actions|]; t.disk.boxes == {k.box} && k in t.disk.unread && t.procs == map[]
    ensures r'.Valid() && r'.shadowed == r.shadowed && (NothingFails(r) ==> NothingFails(r'))
    ensures i <= |r'.actions| && 2 in r'.states[i].procs && r'.states[i].procs[2] == LookupStart(OpenMessage, k.id)
    ensures LiveThroughout(r', i, |r'.actions|, k.id)
    ensures var t := r'.states[|r'.actions|]; 2 in t.procs && t.procs[2] == LookupEnd(OpenMessage, k.id, Failed)
  {
    r' := SlowOpenEnds(r, k);
    i := |r.actions| + 2;
    LiveHere(r', i, k);
    LiveHere(r', |r'.actions|, k);
    LiveBetween(r', i, |r'.actions|, k.id);
  }

  /**
    There is such a run from the empty store, as written and with propagation:
    no call fails, the message is live from the start of the second Open to its
    end, and that Open fails.
  */
  lemma OpenCanFailOnLiveMessage(shadowed: bool) returns (r: Run, i: nat)
    ensures r.Valid() && r.shadowed == shadowed && NothingFails(r)
    ensures i <= |r.actions| && 2 in r.states[i].procs && r.states[i].procs[2] == LookupStart(OpenMessage, "id")
    ensures LiveThroughout(r, i, |r.actions|, "id")
    ensures var t := r.states[|r.actions|]; 2 in t.procs && t.procs[2] == LookupEnd(OpenMessage, "id", Failed)
  {
    r := DeliveredAndIdle(shadowed);
    assert ValidId("id");
    r, i := SlowOpenFails(r, Key("a@b", "id"));
  }

  // ---------------------------------------------------------------- what all deliveries together have stored

  /** A delivery renames its file into `new`. */
  ghost predicate Publishes(s: State, a: Action, id: string) {
    By(s, a, id) && a.ok && s.procs[a.pid].stage.Publish? && s.procs[a.pid].key in s.disk.tmp
  }

  /** A Delete unlinks the file. */
  ghost predicate Unlinks(s: State, a: Action, id: string) {
    Deletes(s, a, id) && s.procs[a.pid].key in Dir(s.disk, s.procs[a.pid].isNew)
  }

  ghost predicate WasPublished(r: Run, j: nat, id: string)
    requires r.Valid() && j <= |r.actions|
  {
    exists m :: 0 <= m < j && Publishes(r.states[m], r.actions[m], id)
  }

  ghost predicate WasUnlinked(r: Run, j: nat, id: string)
    requires r.Valid() && j <= |r.actions|
  {
    exists m :: 0 <= m < j && Unlinks(r.states[m], r.actions[m], id)
  }

  lemma PublishedChange(shadowed: bool, s: State, a: Action, id: string)
    ensures id in Step(shadowed, s, a).published <==> id in s.published || Publishes(s, a, id)
  {
  }

  lemma UnlinkedChange(shadowed: bool, s: State, a: Action, id: string)
    ensures id in Step(shadowed, s, a).deleted <==> id in s.deleted || Unlinks(s, a, id)
  {
  }

  lemma {:induction false} HistoryIsEvents(r: Run, j: nat, id: string)
    requires r.Valid() && j <= |r.actions|
    ensures id in r.states[j].published <==> WasPublished(r, j, id)
    ensures id in r.states[j].deleted <==> WasUnlinked(r, j, id)
  {
    if j > 0 {
      var s, a := r.states[j - 1], r.actions[j - 1];
      HistoryIsEvents(r, j - 1, id);
      assert r.Linked(j - 1);
      PublishedChange(r.shadowed, s, a, id);
      UnlinkedChange(r.shadowed, s, a, id);
      assert WasPublished(r, j, id) <==> WasPublished(r, j - 1, id) || Publishes(s, a, id);
      assert WasUnlinked(r, j, id) <==> WasUnlinked(r, j - 1, id) || Unlinks(s, a, id);
    }
  }

  /**
    The ledger of the store, for any number of sessions delivering at the same
    time: at every moment the messages in a mailbox are exactly those that some
    Deliver to that mailbox has renamed into `new` and no Delete has unlinked,
    one file for each; and no delivery renames twice.
  */
  lemma StoreLedger(r: Run, j: nat, k: Key)
    requires r.Valid() && j <= |r.actions|
    ensures (k in r.states[j].disk.unread || k in r.states[j].disk.cur) <==> (
        && WasPublished(r, j, k.id) && !WasUnlinked(r, j, k.id)
        && k.id in r.states[j].issued && r.states[j].issued[k.id].box == k.box)
    ensures forall m, n :: 0 <= m < n < j && Publishes(r.states[m], r.actions[m], k.id) ==>
      !Publishes(r.states[n], r.actions[n], k.id)
  {
    HistoryIsEvents(r, j, k.id);
    RunKeepsInv(r, j);
    if k in r.states[j].disk.unread { assert Stored(r.shadowed, r.states[j], k, r.states[j].disk.unread[k]); }
    if k in r.states[j].disk.cur { assert Stored(r.shadowed, r.states[j], k, r.states[j].disk.cur[k]); }
    forall m, n | 0 <= m < n < j && Publishes(r.states[m], r.actions[m], k.id)
      ensures !Publishes(r.states[n], r.actions[n], k.id)
    {
      assert WasPublished(r, n, k.id);
      HistoryIsEvents(r, n, k.id);
      RunKeepsInv(r, n);
      NotTwice(r.shadowed, r.states[n], r.actions[n], k.id);
    }
  }

  lemma NotTwice(shadowed: bool, s: State, a: Action, id: string)
    requires Inv(shadowed, s) && id in s.published
    ensures !Publishes(s, a, id)
  {
    if a.Tick? && a.pid in s.procs { assert ProcInv(shadowed, s, s.procs[a.pid]); }
  }
}
