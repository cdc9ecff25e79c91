/**
  The machine run alone: an operation that nobody interrupts ends, and does what
  the sequential method of the store does.
*/
module MaildirAlone {
  import opened Options
  import opened Maildir
  import opened MaildirStore

  ghost function Ran(shadowed: bool, s: State, acts: seq<Action>): State {
    if acts == [] then s else Step(shadowed, Ran(shadowed, s, acts[..|acts| - 1]), acts[|acts| - 1])
  }

  ghost predicate Alone(acts: seq<Action>, pid: nat) {
    forall i :: 0 <= i < |acts| ==> acts[i].Tick? && acts[i].pid == pid
  }

  /** Running alone, the process takes one state to the other. */
  ghost predicate Reaches(shadowed: bool, s: State, pid: nat, t: State) {
    exists acts: seq<Action> :: Ran(shadowed, s, acts) == t && Alone(acts, pid)
  }

  lemma ReachesSelf(shadowed: bool, s: State, pid: nat)
    ensures Reaches(shadowed, s, pid, s)
  {
    assert Ran(shadowed, s, []) == s;
  }

  lemma ReachesStep(shadowed: bool, s: State, pid: nat, t: State, a: Action, u: State)
    requires Reaches(shadowed, s, pid, t) && a.Tick? && a.pid == pid && u == Step(shadowed, t, a)
    ensures Reaches(shadowed, s, pid, u)
  {
    var acts: seq<Action> :| Ran(shadowed, s, acts) == t && Alone(acts, pid);
    var next := acts + [a];
    assert next[..|next| - 1] == acts && Ran(shadowed, s, next) == u;
  }

  // ---------------------------------------------------------------- a delivery

  lemma ReachesNext(shadowed: bool, s: State, pid: nat, t: State, a: Action, u: State)
    requires Reaches(shadowed, s, pid, t) && pid in t.procs && t.procs[pid].Deliver? && a.Tick? && a.pid == pid
    requires u == TickDeliver(shadowed, t, pid, a)
    ensures Reaches(shadowed, s, pid, u)
  {
    ReachesStep(shadowed, s, pid, t, a, u);
  }

  /** The state in which a delivery has got so far. */
  function At(s: State, pid: nat, k: Key, msg: Bytes, d: Disk, stage: Stage, err: bool): State {
    s.(disk := d, procs := s.procs[pid := Deliver(stage, k, msg, err)])
  }

  lemma NextStage(
      shadowed: bool, s: State, h: State, pid: nat, k: Key, msg: Bytes, d: Disk, stage: Stage, err: bool,
      a: Action, d': Disk, stage': Stage)
    requires Reaches(shadowed, s, pid, At(h, pid, k, msg, d, stage, err)) && a.Tick? && a.pid == pid
    requires TickDeliver(shadowed, At(h, pid, k, msg, d, stage, err), pid, a) == At(h, pid, k, msg, d', stage', err)
    ensures Reaches(shadowed, s, pid, At(h, pid, k, msg, d', stage', err))
  {
    ReachesNext(shadowed, s, pid, At(h, pid, k, msg, d, stage, err), a, At(h, pid, k, msg, d', stage', err));
  }

  lemma MkdirAlone(shadowed: bool, s: State, pid: nat, k: Key, msg: Bytes, o: Outcomes)
    requires pid in s.procs && s.procs[pid] == Deliver(Mkdir(2), k, msg, false)
    ensures var d := if o.mkdir || o.box then s.disk.(boxes := s.disk.boxes + {k.box}) else s.disk;
      Reaches(shadowed, s, pid, At(s, pid, k, msg, d, if o.mkdir then Create else Returned(false), false))
  {
    ReachesSelf(shadowed, s, pid);
    var d0, d := s.disk, s.disk.(boxes := s.disk.boxes + {k.box});
    assert At(s, pid, k, msg, d0, Mkdir(2), false) == s;
    if o.mkdir {
      var a := Tick(pid, true, 0, []);
      NextStage(shadowed, s, s, pid, k, msg, d0, Mkdir(2), false, a, d, Mkdir(1));
      assert d.boxes + {k.box} == d.boxes;
      NextStage(shadowed, s, s, pid, k, msg, d, Mkdir(1), false, a, d, Mkdir(0));
      NextStage(shadowed, s, s, pid, k, msg, d, Mkdir(0), false, a, d, Create);
    } else {
      NextStage(shadowed, s, s, pid, k, msg, d0, Mkdir(2), false, Tick(pid, false, if o.box then 1 else 0, []),
                if o.box then d else d0, Returned(false));
    }
  }

  lemma CreateAlone(shadowed: bool, s: State, pid: nat, k: Key, msg: Bytes, d: Disk, o: Outcomes)
    requires Reaches(shadowed, s, pid, At(s, pid, k, msg, d, Create, false))
    ensures var made := o.create && k !in d.tmp;
      Reaches(shadowed, s, pid, At(s, pid, k, msg, if made then d.(tmp := d.tmp[k := File([], false)]) else d,
                                   if made then Write else Returned(false), false))
  {
    var made := o.create && k !in d.tmp;
    NextStage(shadowed, s, s, pid, k, msg, d, Create, false, Tick(pid, o.create, 0, []),
              if made then d.(tmp := d.tmp[k := File([], false)]) else d, if made then Write else Returned(false));
  }

  /** With the error recorded in the history, if there is one. */
  function Noted(s: State, k: Key, o: Outcomes): State {
    if o.write && o.sync then s else s.(dropped := s.dropped + {k.id})
  }

  /** The error the check before the rename sees. */
  predicate Seen(shadowed: bool, o: Outcomes) { !shadowed && !(o.write && o.sync) }

  lemma WriteAlone(shadowed: bool, s: State, pid: nat, k: Key, msg: Bytes, d: Disk, o: Outcomes)
    requires Reaches(shadowed, s, pid, At(s, pid, k, msg, d, Write, false)) && k in d.tmp
    requires o.count <= |msg| && (o.write ==> o.count == |msg|)
    ensures var file := File(msg[..o.count], o.write && o.sync);
      Reaches(shadowed, s, pid,
              At(Noted(s, k, o), pid, k, msg, d.(tmp := d.tmp[k := file]), Close, Seen(shadowed, o)))
  {
    var a, t := Tick(pid, o.write, o.count, []), At(s, pid, k, msg, d, Write, false);
    var d1 := d.(tmp := d.tmp[k := File(msg[..o.count], false)]);
    if o.write {
      NextStage(shadowed, s, s, pid, k, msg, d, Write, false, a, d1, Sync);
      SyncAlone(shadowed, s, pid, k, msg, d1, o);
      assert d1.tmp[k := File(msg[..o.count], o.sync)] == d.tmp[k := File(msg[..o.count], o.sync)];
    } else {
      ReachesNext(shadowed, s, pid, t, a, At(Noted(s, k, o), pid, k, msg, d1, Close, Seen(shadowed, o)));
    }
  }

  lemma SyncAlone(shadowed: bool, s: State, pid: nat, k: Key, msg: Bytes, d: Disk, o: Outcomes)
    requires Reaches(shadowed, s, pid, At(s, pid, k, msg, d, Sync, false)) && k in d.tmp && o.write
    requires !d.tmp[k].synced
    ensures var d' := d.(tmp := d.tmp[k := File(d.tmp[k].data, o.sync)]);
      Reaches(shadowed, s, pid, At(Noted(s, k, o), pid, k, msg, d', Close, Seen(shadowed, o)))
  {
    var d' := d.(tmp := d.tmp[k := File(d.tmp[k].data, o.sync)]);
    assert !o.sync ==> d.tmp[k := File(d.tmp[k].data, false)] == d.tmp;
    ReachesNext(shadowed, s, pid, At(s, pid, k, msg, d, Sync, false), Tick(pid, o.sync, 0, []),
                At(Noted(s, k, o), pid, k, msg, d', Close, Seen(shadowed, o)));
  }

  lemma RenameAlone(shadowed: bool, s: State, h: State, pid: nat, k: Key, msg: Bytes, d: Disk)
    requires Reaches(shadowed, s, pid, At(h, pid, k, msg, d, Publish, false)) && k in d.tmp
    ensures Reaches(shadowed, s, pid, At(
      h.(published := h.published + {k.id}), pid, k, msg,
      d.(tmp := d.tmp - {k}, unread := d.unread[k := d.tmp[k]]), Returned(true), false))
  {
    ReachesNext(shadowed, s, pid, At(h, pid, k, msg, d, Publish, false), Tick(pid, true, 0, []),
                At(h.(published := h.published + {k.id}), pid, k, msg,
                   d.(tmp := d.tmp - {k}, unread := d.unread[k := d.tmp[k]]), Returned(true), false));
  }

  lemma CleanupAlone(shadowed: bool, s: State, h: State, pid: nat, k: Key, msg: Bytes, d: Disk, o: Outcomes, err: bool)
    requires Reaches(shadowed, s, pid, At(h, pid, k, msg, d, Cleanup, err))
    ensures Reaches(shadowed, s, pid,
                    At(h, pid, k, msg, if o.remove then d.(tmp := d.tmp - {k}) else d, Returned(false), err))
  {
    NextStage(shadowed, s, h, pid, k, msg, d, Cleanup, err, Tick(pid, o.remove, 0, []),
              if o.remove then d.(tmp := d.tmp - {k}) else d, Returned(false));
  }

  lemma CloseStep(shadowed: bool, s: State, h: State, pid: nat, k: Key, msg: Bytes, d: Disk, o: Outcomes, err: bool)
    requires Reaches(shadowed, s, pid, At(h, pid, k, msg, d, Close, err))
    ensures Reaches(shadowed, s, pid, At(h, pid, k, msg, d, if o.close && !err then Publish else Cleanup, err))
  {
    NextStage(shadowed, s, h, pid, k, msg, d, Close, err, Tick(pid, o.close, 0, []),
              d, if o.close && !err then Publish else Cleanup);
  }

  lemma RenameFails(shadowed: bool, s: State, h: State, pid: nat, k: Key, msg: Bytes, d: Disk, err: bool)
    requires Reaches(shadowed, s, pid, At(h, pid, k, msg, d, Publish, err))
    ensures Reaches(shadowed, s, pid, At(h, pid, k, msg, d, Cleanup, err))
  {
    NextStage(shadowed, s, h, pid, k, msg, d, Publish, err, Tick(pid, false, 0, []), d, Cleanup);
  }

  lemma CloseAlone(shadowed: bool, s: State, h: State, pid: nat, k: Key, msg: Bytes, d: Disk, o: Outcomes, err: bool)
    requires Reaches(shadowed, s, pid, At(h, pid, k, msg, d, Close, err)) && k in d.tmp
    ensures var ok := o.close && o.rename && !err;
      var d' := if ok then d.(tmp := d.tmp - {k}, unread := d.unread[k := d.tmp[k]])
                else if o.remove then d.(tmp := d.tmp - {k}) else d;
      Reaches(shadowed, s, pid,
              At(if ok then h.(published := h.published + {k.id}) else h, pid, k, msg, d', Returned(ok), err))
  {
    CloseStep(shadowed, s, h, pid, k, msg, d, o, err);
    if o.close && !err && o.rename {
      RenameAlone(shadowed, s, h, pid, k, msg, d);
    } else {
      if o.close && !err { RenameFails(shadowed, s, h, pid, k, msg, d, err); }
      CleanupAlone(shadowed, s, h, pid, k, msg, d, o, err);
    }
  }

  /**
    A delivery that nobody interrupts ends, as written and with propagated
    errors, and does to the disk and reports what the sequential method does,
    for every outcome of its calls.
  */
  lemma DeliverAlone(shadowed: bool, s0: State, pid: nat, k: Key, msg: Bytes, o: Outcomes)
    returns (s: State, t: State, ok: bool)
    requires pid !in s0.procs && k.id !in s0.issued && ValidRecipient(k.box)
    requires o.count <= |msg| && (o.write ==> o.count == |msg|)
    ensures s == Step(shadowed, s0, StartDeliver(pid, k.box, k.id, msg))
    ensures Reaches(shadowed, s, pid, t) && DeliveredAs(shadowed, s0.disk, t.disk, k, msg, o, ok)
    ensures pid in t.procs && t.procs[pid].Deliver? && t.procs[pid].stage == Returned(ok)
  {
    s := Step(shadowed, s0, StartDeliver(pid, k.box, k.id, msg));
    assert s.disk == s0.disk;
    MkdirAlone(shadowed, s, pid, k, msg, o);
    var d := if o.mkdir || o.box then s.disk.(boxes := s.disk.boxes + {k.box}) else s.disk;
    t, ok := At(s, pid, k, msg, d, Returned(false), false), false;
    if o.mkdir {
      CreateAlone(shadowed, s, pid, k, msg, d, o);
      if o.create && k !in d.tmp { t, ok := FileAlone(shadowed, s, pid, k, msg, d, o); }
    }
  }

  lemma FileAlone(shadowed: bool, s: State, pid: nat, k: Key, msg: Bytes, d: Disk, o: Outcomes)
    returns (t: State, ok: bool)
    requires k !in d.tmp
    requires Reaches(shadowed, s, pid, At(s, pid, k, msg, d.(tmp := d.tmp[k := File([], false)]), Write, false))
    requires o.count <= |msg| && (o.write ==> o.count == |msg|)
    ensures Reaches(shadowed, s, pid, t)
    ensures pid in t.procs && t.procs[pid] == Deliver(Returned(ok), k, msg, Seen(shadowed, o))
    ensures ok == (o.close && o.rename && !Seen(shadowed, o)) && t.disk.boxes == d.boxes && t.disk.cur == d.cur
    ensures var file := File(msg[..o.count], o.write && o.sync);
      && t.disk.unread == (if ok then d.unread[k := file] else d.unread)
      && t.disk.tmp == (if !ok && !o.remove then d.tmp[k := file] else d.tmp)
  {
    var file := File(msg[..o.count], o.write && o.sync);
    var d1 := d.(tmp := d.tmp[k := File([], false)]);
    WriteAlone(shadowed, s, pid, k, msg, d1, o);
    var d2 := d.(tmp := d.tmp[k := file]);
    assert d1.(tmp := d1.tmp[k := file]) == d2;
    var h := Noted(s, k, o);
    CloseAlone(shadowed, s, h, pid, k, msg, d2, o, Seen(shadowed, o));
    ok := o.close && o.rename && !Seen(shadowed, o);
    assert d2.tmp - {k} == d.tmp;
    var d' := if ok then d2.(tmp := d2.tmp - {k}, unread := d2.unread[k := d2.tmp[k]])
              else if o.remove then d2.(tmp := d2.tmp - {k}) else d2;
    t := At(if ok then h.(published := h.published + {k.id}) else h, pid, k, msg, d', Returned(ok), Seen(shadowed, o));
  }

  // ---------------------------------------------------------------- a lookup

  function With(s: State, pid: nat, p: Proc): State { s.(procs := s.procs[pid := p]) }

  lemma NextLookup(shadowed: bool, s: State, pid: nat, p: Proc, a: Action, q: Proc)
    requires Reaches(shadowed, s, pid, With(s, pid, p)) && a.Tick? && a.pid == pid
    requires p.LookupStart? || p.Scan? || p.Found? || p.MarkRead?
    requires TickLookup(With(s, pid, p), pid, a) == With(s, pid, q)
    ensures Reaches(shadowed, s, pid, With(s, pid, q))
  {
    ReachesStep(shadowed, s, pid, With(s, pid, p), a, With(s, pid, q));
  }

  /** One Stat that succeeds or finds nothing. */
  function ScanNext(d: Disk, goal: Goal, id: string, boxes: seq<string>, i: nat, inCur: bool): Proc {
    if i >= |boxes| then LookupEnd(goal, id, Missing(false))
    else if Key(boxes[i], id) in Dir(d, !inCur) then Found(goal, Key(boxes[i], id), !inCur)
    else Scan(goal, id, boxes, if inCur then i + 1 else i, !inCur, false)
  }

  lemma ScanTick(s: State, pid: nat, goal: Goal, id: string, boxes: seq<string>, i: nat, inCur: bool)
    ensures TickLookup(With(s, pid, Scan(goal, id, boxes, i, inCur, false)), pid, Tick(pid, true, 0, []))
      == With(s, pid, ScanNext(s.disk, goal, id, boxes, i, inCur))
  {
  }

  lemma ScanStep(shadowed: bool, s: State, pid: nat, goal: Goal, id: string, boxes: seq<string>, i: nat, inCur: bool)
    requires Reaches(shadowed, s, pid, With(s, pid, Scan(goal, id, boxes, i, inCur, false)))
    ensures Reaches(shadowed, s, pid, With(s, pid, ScanNext(s.disk, goal, id, boxes, i, inCur)))
  {
    ScanTick(s, pid, goal, id, boxes, i, inCur);
    NextLookup(shadowed, s, pid, Scan(goal, id, boxes, i, inCur, false), Tick(pid, true, 0, []),
               ScanNext(s.disk, goal, id, boxes, i, inCur));
  }

  /** The scan from the i-th mailbox on: where it stops and what it has found. */
  lemma {:induction false} ScanAlone(
      shadowed: bool, s: State, pid: nat, goal: Goal, id: string, boxes: seq<string>, i: nat) returns (q: Proc)
    requires i <= |boxes| && Reaches(shadowed, s, pid, With(s, pid, Scan(goal, id, boxes, i, false, false)))
    ensures Reaches(shadowed, s, pid, With(s, pid, q))
    ensures q == LookupEnd(goal, id, Missing(false)) || (q.Found? && q.goal == goal && q.key.id == id)
    ensures q.Found? ==> q.key in Dir(s.disk, q.isNew) && (!q.isNew ==> q.key !in s.disk.unread)
    ensures q.LookupEnd? ==> forall b :: i <= b < |boxes| ==>
      Key(boxes[b], id) !in s.disk.unread && Key(boxes[b], id) !in s.disk.cur
    decreases |boxes| - i
  {
    ScanStep(shadowed, s, pid, goal, id, boxes, i, false);
    q := ScanNext(s.disk, goal, id, boxes, i, false);
    if q.Scan? {
      ScanStep(shadowed, s, pid, goal, id, boxes, i, true);
      q := ScanNext(s.disk, goal, id, boxes, i, true);
      if q.Scan? { q := ScanAlone(shadowed, s, pid, goal, id, boxes, i + 1); }
    }
  }

  /** What a lookup has done to the disk and handed out, as the sequential methods say it. */
  ghost predicate LookedUp(goal: Goal, id: string, d: Disk, d': Disk, outcome: Outcome) {
    match outcome
    case Missing(_) => Nowhere(d, id) && d' == d
    case Failed => false
    case Done(data) =>
      exists k: Key :: k.id == id && (
        match goal
        case OpenMessage => Opened(d, d', k) && data == d'.cur[k].data
        case DeleteMessage => Removed(d, d', k)
        case StreamMessage =>
          d' == d && (if k in d.unread then data == d.unread[k].data else k in d.cur && data == d.cur[k].data))
  }

  lemma FoundAlone(shadowed: bool, s: State, pid: nat, goal: Goal, k: Key, isNew: bool)
    returns (t: State, outcome: Outcome)
    requires Reaches(shadowed, s, pid, With(s, pid, Found(goal, k, isNew)))
    requires k in Dir(s.disk, isNew) && (!isNew ==> k !in s.disk.unread)
    ensures Reaches(shadowed, s, pid, t) && pid in t.procs && t.procs[pid] == LookupEnd(goal, k.id, outcome)
    ensures LookedUp(goal, k.id, s.disk, t.disk, outcome)
  {
    var a, u := Tick(pid, true, 0, []), With(s, pid, Found(goal, k, isNew));
    t := TickFound(u, pid, a);
    ReachesStep(shadowed, s, pid, u, a, t);
    if goal.OpenMessage? && isNew {
      t, outcome := MarkAlone(shadowed, s, pid, k);
    } else {
      outcome := t.procs[pid].outcome;
      if goal.OpenMessage? { assert Opened(s.disk, t.disk, k); }
      if goal.DeleteMessage? { assert Removed(s.disk, t.disk, k); }
    }
  }

  lemma MarkAlone(shadowed: bool, s: State, pid: nat, k: Key) returns (t: State, outcome: Outcome)
    requires k in s.disk.unread && Reaches(shadowed, s, pid, With(s, pid, MarkRead(k, s.disk.unread[k].data)))
    ensures Reaches(shadowed, s, pid, t) && pid in t.procs && t.procs[pid] == LookupEnd(OpenMessage, k.id, outcome)
    ensures LookedUp(OpenMessage, k.id, s.disk, t.disk, outcome)
  {
    var a, u := Tick(pid, true, 0, []), With(s, pid, MarkRead(k, s.disk.unread[k].data));
    t := TickLookup(u, pid, a);
    ReachesStep(shadowed, s, pid, u, a, t);
    outcome := Done(s.disk.unread[k].data);
    assert Opened(s.disk, t.disk, k);
  }

  /**
    An Open, Delete or Reader that nobody interrupts and whose calls succeed
    ends, with the result and the disk of the sequential method.
  */
  lemma LookupAlone(shadowed: bool, s0: State, pid: nat, goal: Goal, id: string, boxes: seq<string>)
    returns (s: State, t: State, outcome: Outcome)
    requires pid !in s0.procs && Component(id) && Enumerates(boxes, s0.disk.boxes)
    ensures s == Step(shadowed, s0, StartLookup(pid, goal, id))
    ensures Reaches(shadowed, s, pid, t) && pid in t.procs && t.procs[pid] == LookupEnd(goal, id, outcome)
    ensures LookedUp(goal, id, s0.disk, t.disk, outcome)
  {
    ComponentIsValid(id);
    s := Step(shadowed, s0, StartLookup(pid, goal, id));
    assert s == With(s, pid, LookupStart(goal, id)) && s.disk == s0.disk;
    ReachesSelf(shadowed, s, pid);
    NextLookup(shadowed, s, pid, LookupStart(goal, id), Tick(pid, true, 0, boxes),
               Scan(goal, id, boxes, 0, false, false));
    var q := ScanAlone(shadowed, s, pid, goal, id, boxes, 0);
    if q.Found? {
      t, outcome := FoundAlone(shadowed, s, pid, goal, q.key, q.isNew);
    } else {
      t, outcome := With(s, pid, q), Missing(false);
      assert Nowhere(s.disk, id) by {
        forall box | box in s.disk.boxes ensures Key(box, id) !in s.disk.unread && Key(box, id) !in s.disk.cur {
          assert box in boxes;
        }
      }
    }
  }

  // ---------------------------------------------------------------- a listing

  lemma NextList(shadowed: bool, s: State, pid: nat, p: Proc, a: Action, q: Proc)
    requires Reaches(shadowed, s, pid, With(s, pid, p)) && a.Tick? && a.pid == pid && (p.ListStart? || p.ListScan?)
    requires TickList(With(s, pid, p), pid, a) == With(s, pid, q)
    ensures Reaches(shadowed, s, pid, With(s, pid, q))
  {
    ReachesStep(shadowed, s, pid, With(s, pid, p), a, With(s, pid, q));
  }

  /** The n-th directory a listing reads: `new` and `cur` of each mailbox in turn. */
  function BoxOf(boxes: seq<string>, n: nat): string
    requires n < 2 * |boxes|
  {
    boxes[n / 2]
  }

  function IsNewDir(n: nat): bool { n % 2 == 0 }

  /** Where the listing stands before the n-th directory. */
  function Before(boxes: seq<string>, n: nat, shown: seq<Entry>): Proc {
    ListScan(boxes, n / 2, !IsNewDir(n), [], shown, {})
  }

  /** Lines with what their files hold. */
  function Filled(d: Disk, es: seq<Entry>): (r: seq<Entry>)
    requires forall e :: e in es ==> e.key in Dir(d, e.unread)
    ensures |r| == |es|
  {
    seq(|es|, i requires 0 <= i < |es| =>
      assert es[i] in es;
      es[i].(head := Some(Dir(d, es[i].unread)[es[i].key].data)))
  }

  lemma FilledFirst(d: Disk, es: seq<Entry>)
    requires es != [] && forall e :: e in es ==> e.key in Dir(d, e.unread)
    ensures var first := es[0].(head := Some(Dir(d, es[0].unread)[es[0].key].data));
      (forall e :: e in es[1..] ==> e.key in Dir(d, e.unread)) && Filled(d, es) == [first] + Filled(d, es[1..])
  {
    assert forall e :: e in es[1..] ==> e in es;
    assert es[0] in es;
  }

  lemma PendingTick(s: State, pid: nat, boxes: seq<string>, i: nat, inCur: bool, es: seq<Entry>, shown: seq<Entry>)
    requires es != [] && es[0].key in Dir(s.disk, es[0].unread)
    ensures var first := es[0].(head := Some(Dir(s.disk, es[0].unread)[es[0].key].data));
      TickList(With(s, pid, ListScan(boxes, i, inCur, es, shown, {})), pid, Tick(pid, true, 0, []))
      == With(s, pid, ListScan(boxes, i, inCur, es[1..], shown + [first], {}))
  {
  }

  /** Reading the files of a directory one by one. */
  lemma {:induction false} PendingAlone(
      shadowed: bool, s: State, pid: nat, boxes: seq<string>, i: nat, inCur: bool, es: seq<Entry>, shown: seq<Entry>)
    requires forall e :: e in es ==> e.key in Dir(s.disk, e.unread)
    requires Reaches(shadowed, s, pid, With(s, pid, ListScan(boxes, i, inCur, es, shown, {})))
    ensures Reaches(shadowed, s, pid, With(s, pid, ListScan(boxes, i, inCur, [], shown + Filled(s.disk, es), {})))
    decreases |es|
  {
    if es == [] {
      assert shown + Filled(s.disk, es) == shown;
    } else {
      assert es[0] in es;
      var first := es[0].(head := Some(Dir(s.disk, es[0].unread)[es[0].key].data));
      PendingTick(s, pid, boxes, i, inCur, es, shown);
      NextList(shadowed, s, pid, ListScan(boxes, i, inCur, es, shown, {}), Tick(pid, true, 0, []),
               ListScan(boxes, i, inCur, es[1..], shown + [first], {}));
      FilledFirst(s.disk, es);
      PendingAlone(shadowed, s, pid, boxes, i, inCur, es[1..], shown + [first]);
      assert shown + [first] + Filled(s.disk, es[1..]) == shown + Filled(s.disk, es);
    }
  }

  /** The lines of one directory. */
  ghost function DirLines(d: Disk, box: string, isNew: bool): set<Entry> {
    set k | k in Dir(d, isNew) && k.box == box :: Entry(k, isNew, Some(Dir(d, isNew)[k].data))
  }

  lemma EntriesThere(d: Disk, box: string, isNew: bool, ids: seq<string>)
    requires Enumerates(ids, IdsIn(Dir(d, isNew), box))
    ensures forall e :: e in Entries(box, isNew, ids) ==> e.key in Dir(d, e.unread)
  {
    forall e | e in Entries(box, isNew, ids) ensures e.key in Dir(d, e.unread) {
      var x :| 0 <= x < |ids| && Entries(box, isNew, ids)[x] == e;
      assert ids[x] in ids;
    }
  }

  lemma FilledIsDir(d: Disk, box: string, isNew: bool, ids: seq<string>)
    requires Enumerates(ids, IdsIn(Dir(d, isNew), box))
    requires forall e :: e in Entries(box, isNew, ids) ==> e.key in Dir(d, e.unread)
    ensures multiset(Filled(d, Entries(box, isNew, ids))) == multiset(DirLines(d, box, isNew))
  {
    var es, lines := Filled(d, Entries(box, isNew, ids)), DirLines(d, box, isNew);
    forall e ensures e in es <==> e in lines {
      if e in lines {
        assert e.key.id in IdsIn(Dir(d, isNew), box);
        var x :| 0 <= x < |ids| && ids[x] == e.key.id;
        assert es[x] == e;
      }
    }
    OneOfEach(es, lines);
  }

  lemma SomeOrder(items: set<string>) returns (listing: seq<string>)
    ensures Enumerates(listing, items)
  {
    if items == {} {
      listing := [];
    } else {
      var x :| x in items;
      var rest := SomeOrder(items - {x});
      listing := rest + [x];
    }
  }

  lemma DirTick(s: State, pid: nat, boxes: seq<string>, n: nat, shown: seq<Entry>, ids: seq<string>)
    requires n < 2 * |boxes| && Enumerates(ids, IdsIn(Dir(s.disk, IsNewDir(n)), BoxOf(boxes, n)))
    ensures TickList(With(s, pid, Before(boxes, n, shown)), pid, Tick(pid, true, 0, ids)) == With(s, pid,
      ListScan(boxes, (n + 1) / 2, !IsNewDir(n + 1), Entries(BoxOf(boxes, n), IsNewDir(n), ids), shown, {}))
  {
  }

  /** One directory of the listing. */
  lemma DirAlone(shadowed: bool, s: State, pid: nat, boxes: seq<string>, n: nat, shown: seq<Entry>)
    returns (shown': seq<Entry>)
    requires n < 2 * |boxes| && Reaches(shadowed, s, pid, With(s, pid, Before(boxes, n, shown)))
    ensures Reaches(shadowed, s, pid, With(s, pid, Before(boxes, n + 1, shown')))
    ensures multiset(shown') == multiset(shown) + multiset(DirLines(s.disk, BoxOf(boxes, n), IsNewDir(n)))
  {
    var box, isNew := BoxOf(boxes, n), IsNewDir(n);
    var ids := SomeOrder(IdsIn(Dir(s.disk, isNew), box));
    var es := Entries(box, isNew, ids);
    DirTick(s, pid, boxes, n, shown, ids);
    NextList(shadowed, s, pid, Before(boxes, n, shown), Tick(pid, true, 0, ids),
             ListScan(boxes, (n + 1) / 2, !IsNewDir(n + 1), es, shown, {}));
    EntriesThere(s.disk, box, isNew, ids);
    PendingAlone(shadowed, s, pid, boxes, (n + 1) / 2, !IsNewDir(n + 1), es, shown);
    FilledIsDir(s.disk, box, isNew, ids);
    shown' := shown + Filled(s.disk, es);
  }

  /** The lines of the first n directories. */
  ghost function LinesUpTo(d: Disk, boxes: seq<string>, n: nat): set<Entry>
    requires n <= 2 * |boxes|
  {
    if n == 0 then {} else LinesUpTo(d, boxes, n - 1) + DirLines(d, BoxOf(boxes, n - 1), IsNewDir(n - 1))
  }

  lemma {:induction false} LinesWhere(d: Disk, boxes: seq<string>, n: nat, e: Entry)
    requires n <= 2 * |boxes|
    ensures e in LinesUpTo(d, boxes, n) <==> exists m :: 0 <= m < n && e in DirLines(d, BoxOf(boxes, m), IsNewDir(m))
  {
    if n > 0 { LinesWhere(d, boxes, n - 1, e); }
  }

  lemma LinesDisjoint(d: Disk, boxes: seq<string>, n: nat, e: Entry)
    requires n < 2 * |boxes| && forall i, j :: 0 <= i < j < |boxes| ==> boxes[i] != boxes[j]
    requires e in LinesUpTo(d, boxes, n)
    ensures e !in DirLines(d, BoxOf(boxes, n), IsNewDir(n))
  {
    LinesWhere(d, boxes, n, e);
    var m :| 0 <= m < n && e in DirLines(d, BoxOf(boxes, m), IsNewDir(m));
    assert e.key.box == boxes[m / 2] && e.unread == IsNewDir(m);
    assert m / 2 == n / 2 || boxes[m / 2] != boxes[n / 2];
  }

  lemma AddDisjoint(a: set<Entry>, b: set<Entry>)
    requires a !! b
    ensures multiset(a + b) == multiset(a) + multiset(b)
  {
  }

  lemma LinesAdd(d: Disk, boxes: seq<string>, n: nat)
    requires n < 2 * |boxes| && forall i, j :: 0 <= i < j < |boxes| ==> boxes[i] != boxes[j]
    ensures multiset(LinesUpTo(d, boxes, n + 1))
      == multiset(LinesUpTo(d, boxes, n)) + multiset(DirLines(d, BoxOf(boxes, n), IsNewDir(n)))
  {
    var a, b := LinesUpTo(d, boxes, n), DirLines(d, BoxOf(boxes, n), IsNewDir(n));
    forall e | e in a ensures e !in b { LinesDisjoint(d, boxes, n, e); }
    AddDisjoint(a, b);
  }

  ghost predicate StandsBefore(shadowed: bool, s: State, pid: nat, boxes: seq<string>, n: nat, shown: seq<Entry>)
    requires n <= 2 * |boxes|
  {
    && Reaches(shadowed, s, pid, With(s, pid, Before(boxes, n, shown)))
    && multiset(shown) == multiset(LinesUpTo(s.disk, boxes, n))
  }

  lemma NextDir(shadowed: bool, s: State, pid: nat, boxes: seq<string>, n: nat, shown: seq<Entry>)
    returns (shown': seq<Entry>)
    requires n < 2 * |boxes| && (forall i, j :: 0 <= i < j < |boxes| ==> boxes[i] != boxes[j])
    requires StandsBefore(shadowed, s, pid, boxes, n, shown)
    ensures StandsBefore(shadowed, s, pid, boxes, n + 1, shown')
  {
    shown' := DirAlone(shadowed, s, pid, boxes, n, shown);
    LinesAdd(s.disk, boxes, n);
  }

  lemma {:induction false} DirsAlone(shadowed: bool, s: State, pid: nat, boxes: seq<string>, n: nat, shown: seq<Entry>)
    returns (all: seq<Entry>)
    requires n <= 2 * |boxes| && (forall i, j :: 0 <= i < j < |boxes| ==> boxes[i] != boxes[j])
    requires StandsBefore(shadowed, s, pid, boxes, n, shown)
    ensures StandsBefore(shadowed, s, pid, boxes, 2 * |boxes|, all)
    decreases 2 * |boxes| - n
  {
    if n == 2 * |boxes| {
      all := shown;
    } else {
      var shown' := NextDir(shadowed, s, pid, boxes, n, shown);
      all := DirsAlone(shadowed, s, pid, boxes, n + 1, shown');
    }
  }

  lemma LineHasDir(d: Disk, boxes: seq<string>, e: Entry) returns (m: nat)
    requires e in Lines(d) && e.key.box in boxes
    ensures m < 2 * |boxes| && e in DirLines(d, BoxOf(boxes, m), IsNewDir(m))
  {
    var b :| 0 <= b < |boxes| && boxes[b] == e.key.box;
    m := if e.unread then 2 * b else 2 * b + 1;
    assert m / 2 == b && IsNewDir(m) == e.unread;
    assert e.key in Dir(d, e.unread) && e == Entry(e.key, e.unread, Some(Dir(d, e.unread)[e.key].data));
  }

  lemma DirLineIsLine(d: Disk, box: string, isNew: bool, e: Entry)
    requires e in DirLines(d, box, isNew)
    ensures e in Lines(d)
  {
  }

  lemma AllLines(d: Disk, boxes: seq<string>)
    requires Enumerates(boxes, d.boxes) && forall k :: k in d.unread || k in d.cur ==> k.box in d.boxes
    ensures LinesUpTo(d, boxes, 2 * |boxes|) == Lines(d)
  {
    var n := 2 * |boxes|;
    forall e | e in Lines(d) ensures e in LinesUpTo(d, boxes, n) {
      LinesWhere(d, boxes, n, e);
      var m := LineHasDir(d, boxes, e);
    }
    forall e | e in LinesUpTo(d, boxes, n) ensures e in Lines(d) {
      LinesWhere(d, boxes, n, e);
      var m :| 0 <= m < n && e in DirLines(d, BoxOf(boxes, m), IsNewDir(m));
      DirLineIsLine(d, BoxOf(boxes, m), IsNewDir(m), e);
    }
  }

  /**
    A List that nobody interrupts and whose calls succeed ends, with exactly one
    line per message, each with what its file holds, and no mailbox skipped.
  */
  lemma ListAlone(shadowed: bool, s0: State, pid: nat, boxes: seq<string>)
    returns (s: State, t: State, shown: seq<Entry>)
    requires pid !in s0.procs && Enumerates(boxes, s0.disk.boxes)
    requires forall k :: k in s0.disk.unread || k in s0.disk.cur ==> k.box in s0.disk.boxes
    ensures s == Step(shadowed, s0, StartList(pid)) && Reaches(shadowed, s, pid, t) && t.disk == s0.disk
    ensures pid in t.procs && t.procs[pid] == ListEnd(shown, {}) && multiset(shown) == multiset(Lines(s0.disk))
  {
    s := Step(shadowed, s0, StartList(pid));
    assert s == With(s, pid, ListStart) && s.disk == s0.disk;
    ReachesSelf(shadowed, s, pid);
    NextList(shadowed, s, pid, ListStart, Tick(pid, true, 0, boxes), Before(boxes, 0, []));
    var n := 2 * |boxes|;
    shown := DirsAlone(shadowed, s, pid, boxes, 0, []);
    AllLines(s.disk, boxes);
    NextList(shadowed, s, pid, Before(boxes, n, shown), Tick(pid, true, 0, []), ListEnd(shown, {}));
    t := With(s, pid, ListEnd(shown, {}));
  }
}
