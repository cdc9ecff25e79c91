/**
  The maildir store as a protocol. The SMTP receiver and the web UI share one
  store without a lock, so every operation is a process that performs one file
  system call per step, any number of processes interleave, and the machine
  may crash between any two calls.

  `Step` is a total function of a state and an action. An action carries every
  outcome the program does not control: whether the call succeeds, how many
  bytes reached the file, in which order a directory is listed. An action that
  is not possible in a state leaves the state as it is, so a run is any
  sequence of actions at all.
*/
module Maildir {
  import opened Options

  newtype Byte = x: int | 0 <= x < 256
  type Bytes = seq<Byte>

  /** A file name below the root: mailbox directory and message ID. */
  datatype Key = Key(box: string, id: string)

  /** `synced` says that fsync confirmed the data: a crash cannot shorten it. */
  datatype File = File(data: Bytes, synced: bool)

  /** `unread` holds the files of the directories `new`, `cur` those of `cur`. */
  datatype Disk = Disk(boxes: set<string>, tmp: map<Key, File>, unread: map<Key, File>, cur: map<Key, File>)

  datatype Stage =
    | Mkdir(left: nat) | Create | Write | Sync | Close | Publish | Cleanup
    | Returned(ok: bool)

  datatype Goal = OpenMessage | DeleteMessage | StreamMessage

  /** `blind` records that a Stat failed although it may have hit the file. */
  datatype Outcome = Missing(blind: bool) | Failed | Done(data: Bytes)

  /** One line of a listing; `head` is what could be read of the file. */
  datatype Entry = Entry(key: Key, unread: bool, head: Option<Bytes>)

  datatype Proc =
    | Deliver(stage: Stage, key: Key, msg: Bytes, err: bool)
    | LookupStart(goal: Goal, id: string)
    | Scan(goal: Goal, id: string, boxes: seq<string>, i: nat, inCur: bool, blind: bool)
    | Found(goal: Goal, key: Key, isNew: bool)
    | MarkRead(key: Key, data: Bytes)
    | LookupEnd(goal: Goal, id: string, outcome: Outcome)
    | ListStart
    | ListScan(boxes: seq<string>, i: nat, inCur: bool, pending: seq<Entry>, shown: seq<Entry>, skipped: set<string>)
    | ListEnd(shown: seq<Entry>, skipped: set<string>)
    | ListFailed

  datatype Letter = Letter(box: string, msg: Bytes)

  /**
    `issued`, `dropped`, `published` and `deleted` are history: which ID was
    drawn for which call of Deliver, whose Write or Sync reported an error,
    what was ever renamed into `new`, and what a Delete removed.
  */
  datatype State = State(
    disk: Disk, procs: map<nat, Proc>,
    issued: map<string, Letter>, dropped: set<string>, published: set<string>, deleted: set<string>)

  datatype Action =
    | StartDeliver(pid: nat, box: string, id: string, msg: Bytes)
    | StartLookup(pid: nat, goal: Goal, id: string)
    | StartList(pid: nat)
    | Tick(pid: nat, ok: bool, count: nat, listing: seq<string>)
    | Crash(keep: map<Key, nat>)

  // ---------------------------------------------------------------- file system

  predicate ValidId(id: string) {
    id != "" && '/' !in id && '\\' !in id && id != "." && id != ".."
  }

  /** A name of one path component, other than those that mean a directory. */
  predicate Component(name: string) {
    name !in {"", ".", ".."} && forall i :: 0 <= i < |name| ==> name[i] != '/' && name[i] != '\\'
  }

  /** An ID is accepted if and only if it can be the name of a file in the directory. */
  lemma ComponentIsValid(id: string)
    ensures ValidId(id) <==> Component(id)
  {
    assert forall i :: 0 <= i < |id| ==> id[i] in id;
  }

  predicate ValidRecipient(box: string) {
    box != "" && '/' !in box && '\\' !in box
  }

  function Dir(d: Disk, isNew: bool): map<Key, File> {
    if isNew then d.unread else d.cur
  }

  predicate Enumerates<T(==)>(listing: seq<T>, items: set<T>) {
    && (forall i, j :: 0 <= i < j < |listing| ==> listing[i] != listing[j])
    && (forall x :: x in listing ==> x in items)
    && (forall x :: x in items ==> x in listing)
  }

  function IdsIn(dir: map<Key, File>, box: string): set<string> {
    set k | k in dir && k.box == box :: k.id
  }

  function Entries(box: string, isNew: bool, ids: seq<string>): seq<Entry> {
    seq(|ids|, i requires 0 <= i < |ids| => Entry(Key(box, ids[i]), isNew, None))
  }

  /** A crash may cut any file that was not synced down to a prefix. */
  function Survive(dir: map<Key, File>, keep: map<Key, nat>): map<Key, File> {
    map k | k in dir ::
      if !dir[k].synced && k in keep && keep[k] <= |dir[k].data|
      then File(dir[k].data[..keep[k]], false) else dir[k]
  }

  // ---------------------------------------------------------------- steps

  function TickDeliver(shadowed: bool, s: State, pid: nat, a: Action): State
    requires a.Tick? && pid in s.procs && s.procs[pid].Deliver?
  {
    var p := s.procs[pid];
    var k := p.key;
    var d := s.disk;
    match p.stage
    case Mkdir(left) =>
      if !a.ok then s.(disk := if a.count == 0 then d else d.(boxes := d.boxes + {k.box}),
                       procs := s.procs[pid := p.(stage := Returned(false))])
      else s.(disk := d.(boxes := d.boxes + {k.box}),
              procs := s.procs[pid := p.(stage := if left == 0 then Create else Mkdir(left - 1))])
    case Create =>
      if !a.ok || k in d.tmp then s.(procs := s.procs[pid := p.(stage := Returned(false))])
      else s.(disk := d.(tmp := d.tmp[k := File([], false)]), procs := s.procs[pid := p.(stage := Write)])
    case Write =>
      if k !in d.tmp || a.count > |p.msg| || (a.ok && a.count != |p.msg|) then s
      else
        var written := d.(tmp := d.tmp[k := File(p.msg[..a.count], false)]);
        if a.ok then s.(disk := written, procs := s.procs[pid := p.(stage := Sync)])
        else s.(disk := written, dropped := s.dropped + {k.id},
                procs := s.procs[pid := p.(stage := Close, err := !shadowed)])
    case Sync =>
      if k !in d.tmp then s
      else if a.ok then s.(disk := d.(tmp := d.tmp[k := d.tmp[k].(synced := true)]),
                           procs := s.procs[pid := p.(stage := Close)])
      else s.(dropped := s.dropped + {k.id}, procs := s.procs[pid := p.(stage := Close, err := !shadowed)])
    case Close =>
      s.(procs := s.procs[pid := p.(stage := if a.ok && !p.err then Publish else Cleanup)])
    case Publish =>
      if !a.ok || k !in d.tmp then s.(procs := s.procs[pid := p.(stage := Cleanup)])
      else s.(disk := d.(tmp := d.tmp - {k}, unread := d.unread[k := d.tmp[k]]),
              published := s.published + {k.id},
              procs := s.procs[pid := p.(stage := Returned(true))])
    case Cleanup =>
      s.(disk := if a.ok then d.(tmp := d.tmp - {k}) else d,
         procs := s.procs[pid := p.(stage := Returned(false))])
    case Returned(_) => s
  }

  function TickFound(s: State, pid: nat, a: Action): State
    requires a.Tick? && pid in s.procs && s.procs[pid].Found?
  {
    var p := s.procs[pid];
    var d := s.disk;
    var hit := a.ok && p.key in Dir(d, p.isNew);
    if !hit then s.(procs := s.procs[pid := LookupEnd(p.goal, p.key.id, Failed)])
    else
      var data := Dir(d, p.isNew)[p.key].data;
      match p.goal
      case OpenMessage =>
        s.(procs := s.procs[pid := if p.isNew then MarkRead(p.key, data) else LookupEnd(p.goal, p.key.id, Done(data))])
      case StreamMessage =>
        s.(procs := s.procs[pid := LookupEnd(p.goal, p.key.id, Done(data))])
      case DeleteMessage =>
        s.(disk := if p.isNew then d.(unread := d.unread - {p.key}) else d.(cur := d.cur - {p.key}),
           deleted := s.deleted + {p.key.id},
           procs := s.procs[pid := LookupEnd(p.goal, p.key.id, Done([]))])
  }

  function TickLookup(s: State, pid: nat, a: Action): State
    requires a.Tick? && pid in s.procs
  {
    var p := s.procs[pid];
    var d := s.disk;
    match p
    case LookupStart(goal, id) =>
      if !a.ok then s.(procs := s.procs[pid := LookupEnd(goal, id, Failed)])
      else if !Enumerates(a.listing, d.boxes) then s
      else s.(procs := s.procs[pid := Scan(goal, id, a.listing, 0, false, false)])
    case Scan(goal, id, boxes, i, inCur, blind) =>
      if i >= |boxes| then s.(procs := s.procs[pid := LookupEnd(goal, id, Missing(blind))])
      else if a.ok && Key(boxes[i], id) in Dir(d, !inCur) then
        s.(procs := s.procs[pid := Found(goal, Key(boxes[i], id), !inCur)])
      else s.(procs := s.procs[pid := Scan(goal, id, boxes, if inCur then i + 1 else i, !inCur, blind || !a.ok)])
    case Found(_, _, _) => TickFound(s, pid, a)
    case MarkRead(k, data) =>
      s.(disk := if a.ok && k in d.unread
                 then d.(unread := d.unread - {k}, cur := d.cur[k := d.unread[k]]) else d,
         procs := s.procs[pid := LookupEnd(OpenMessage, k.id, Done(data))])
    case _ => s
  }

  function TickList(s: State, pid: nat, a: Action): State
    requires a.Tick? && pid in s.procs
  {
    var p := s.procs[pid];
    var d := s.disk;
    match p
    case ListStart =>
      if !a.ok then s.(procs := s.procs[pid := ListFailed])
      else if !Enumerates(a.listing, d.boxes) then s
      else s.(procs := s.procs[pid := ListScan(a.listing, 0, false, [], [], {})])
    case ListScan(boxes, i, inCur, pending, shown, skipped) =>
      if pending != [] then
        var e := pending[0];
        var dir := Dir(d, e.unread);
        var head := if a.ok && e.key in dir then Some(dir[e.key].data) else None;
        s.(procs := s.procs[pid := ListScan(boxes, i, inCur, pending[1..], shown + [e.(head := head)], skipped)])
      else if i >= |boxes| then s.(procs := s.procs[pid := ListEnd(shown, skipped)])
      else
        var i' := if inCur then i + 1 else i;
        if !a.ok then s.(procs := s.procs[pid := ListScan(boxes, i', !inCur, [], shown, skipped + {boxes[i]})])
        else if !Enumerates(a.listing, IdsIn(Dir(d, !inCur), boxes[i])) then s
        else s.(procs := s.procs[pid := ListScan(boxes, i', !inCur, Entries(boxes[i], !inCur, a.listing), shown,
          skipped)])
    case _ => s
  }

  /**
    One action. With `shadowed` the inner error variable of the write block
    hides the outer one, as the program is written; without it Write and Sync
    errors reach the check before the rename.
  */
  function Step(shadowed: bool, s: State, a: Action): State {
    match a
    case StartDeliver(pid, box, id, msg) =>
      if pid in s.procs || id in s.issued || !ValidRecipient(box) then s
      else s.(issued := s.issued[id := Letter(box, msg)],
              procs := s.procs[pid := Deliver(Mkdir(2), Key(box, id), msg, false)])
    case StartLookup(pid, goal, id) =>
      if pid in s.procs then s
      else s.(procs := s.procs[pid := if ValidId(id) then LookupStart(goal, id) else LookupEnd(goal, id, Failed)])
    case StartList(pid) =>
      if pid in s.procs then s else s.(procs := s.procs[pid := ListStart])
    case Tick(pid, _, _, _) =>
      if pid !in s.procs then s
      else if s.procs[pid].Deliver? then TickDeliver(shadowed, s, pid, a)
      else if s.procs[pid].ListStart? || s.procs[pid].ListScan? then TickList(s, pid, a)
      else TickLookup(s, pid, a)
    case Crash(keep) =>
      s.(procs := map[],
         disk := s.disk.(tmp := Survive(s.disk.tmp, keep), unread := Survive(s.disk.unread, keep),
           cur := Survive(s.disk.cur, keep)))
  }

  const EMPTY := State(Disk({}, map[], map[], map[]), map[], map[], {}, {}, {})

  /** A run from the empty store: the actions and the states between them. */
  datatype Run = Run(shadowed: bool, states: seq<State>, actions: seq<Action>) {
    ghost predicate Linked(i: nat)
      requires i < |actions| && |states| == |actions| + 1
    {
      states[i + 1] == Step(shadowed, states[i], actions[i])
    }

    ghost predicate Valid() {
      && |states| == |actions| + 1
      && states[0] == EMPTY
      && (forall i :: 0 <= i < |actions| ==> Linked(i))
    }
  }

  // ---------------------------------------------------------------- invariant

  predicate Live(s: State, id: string) {
    id in s.issued &&
    (Key(s.issued[id].box, id) in s.disk.unread || Key(s.issued[id].box, id) in s.disk.cur)
  }

  ghost predicate Belongs(s: State, k: Key) {
    k.id in s.issued && s.issued[k.id].box == k.box && k.box in s.disk.boxes
  }

  /**
    A stored file: never anything but a prefix of the bytes of its one Deliver
    call, and all of them for good exactly when that call saw no write error.
  */
  ghost predicate Stored(shadowed: bool, s: State, k: Key, f: File) {
    && Belongs(s, k)
    && k.id in s.published && k.id !in s.deleted
    && f.data <= s.issued[k.id].msg
    && (f.synced <==> k.id !in s.dropped)
    && (f.synced ==> f.data == s.issued[k.id].msg)
    && (!shadowed ==> f.synced)
  }

  ghost predicate TmpInv(s: State) {
    forall k :: k in s.disk.tmp ==> Belongs(s, k) && k.id !in s.published && s.disk.tmp[k].data <= s.issued[k.id].msg
  }

  ghost predicate DiskInv(shadowed: bool, s: State) {
    && TmpInv(s)
    && (forall k :: k in s.disk.unread ==> Stored(shadowed, s, k, s.disk.unread[k]) && k !in s.disk.cur)
    && (forall k :: k in s.disk.cur ==> Stored(shadowed, s, k, s.disk.cur[k]))
    && (forall id :: id in s.published && id !in s.deleted ==> Live(s, id))
    && s.deleted <= s.published
    && (forall id :: id in s.published || id in s.dropped ==> id in s.issued)
  }

  ghost predicate DeliverInv(shadowed: bool, s: State, p: Proc)
    requires p.Deliver?
  {
    var k := p.key;
    && k.id in s.issued && s.issued[k.id] == Letter(k.box, p.msg)
    && (k.id in s.published <==> p.stage == Returned(true))
    && (p.stage.Mkdir? || p.stage.Create? || p.stage.Write? || p.stage.Sync? ==> k.id !in s.dropped && !p.err)
    && (p.stage.Create? || p.stage.Write? || p.stage.Sync? || p.stage.Close? || p.stage.Publish?
       ==> k.box in s.disk.boxes)
    && (p.stage.Write? || p.stage.Sync? || p.stage.Close? || p.stage.Publish? ==> k in s.disk.tmp)
    && (p.stage.Sync? ==> s.disk.tmp[k].data == p.msg && !s.disk.tmp[k].synced)
    && (p.stage.Close? || p.stage.Publish? ==>
        && (s.disk.tmp[k].synced <==> k.id !in s.dropped)
        && (s.disk.tmp[k].synced ==> s.disk.tmp[k].data == p.msg)
        && (!shadowed && k.id in s.dropped ==> p.err))
    && (p.stage.Publish? ==> !p.err)
  }

  /** What an Open or Reader handed out, and what a listing read. */
  ghost predicate DataOf(shadowed: bool, s: State, id: string, data: Bytes) {
    && id in s.issued && data <= s.issued[id].msg
    && (id !in s.dropped || !shadowed ==> data == s.issued[id].msg)
  }

  ghost predicate EntryInv(shadowed: bool, s: State, e: Entry) {
    && Belongs(s, e.key) && e.key.id in s.published
    && (e.head.Some? ==> DataOf(shadowed, s, e.key.id, e.head.value))
  }

  ghost predicate ProcInv(shadowed: bool, s: State, p: Proc) {
    match p
    case Deliver(_, _, _, _) => DeliverInv(shadowed, s, p)
    case Found(_, k, _) => Belongs(s, k) && k.id in s.published
    case MarkRead(k, data) => Belongs(s, k) && k.id in s.published && DataOf(shadowed, s, k.id, data)
    case LookupEnd(goal, id, outcome) =>
      outcome.Done? ==>
        id in s.published && if goal.DeleteMessage? then id in s.deleted else DataOf(shadowed, s, id, outcome.data)
    case ListScan(_, _, _, pending, shown, _) =>
      && (forall i :: 0 <= i < |pending| ==> EntryInv(shadowed, s, pending[i]))
      && (forall i :: 0 <= i < |shown| ==> EntryInv(shadowed, s, shown[i]))
    case ListEnd(shown, _) => forall i :: 0 <= i < |shown| ==> EntryInv(shadowed, s, shown[i])
    case _ => true
  }

  ghost predicate SameDelivery(p: Proc, q: Proc) {
    p.Deliver? && q.Deliver? && p.key.id == q.key.id
  }

  ghost predicate OwnIds(s: State) {
    forall p, q :: p in s.procs && q in s.procs && SameDelivery(s.procs[p], s.procs[q]) ==> p == q
  }

  ghost predicate Inv(shadowed: bool, s: State) {
    && DiskInv(shadowed, s)
    && OwnIds(s)
    && (forall p :: p in s.procs ==> ProcInv(shadowed, s, s.procs[p]))
  }

  // ---------------------------------------------------------------- preservation

  /** What every step does to the history: it only grows, and a published ID keeps its write verdict. */
  ghost predicate Grows(s: State, s': State) {
    && (forall id :: id in s.issued ==> id in s'.issued && s'.issued[id] == s.issued[id])
    && s.disk.boxes <= s'.disk.boxes
    && s.published <= s'.published && s.deleted <= s'.deleted
    && (forall id :: id in s.published ==> (id in s'.dropped <==> id in s.dropped))
  }

  /** A step of somebody else leaves the temporary file and the verdict of a delivery alone. */
  ghost predicate Untouched(s: State, s': State, k: Key) {
    && (k in s'.disk.tmp <==> k in s.disk.tmp)
    && (k in s.disk.tmp ==> s'.disk.tmp[k] == s.disk.tmp[k])
    && (k.id in s'.published <==> k.id in s.published)
    && (k.id in s'.dropped <==> k.id in s.dropped)
  }

  lemma EntriesFrame(shadowed: bool, s: State, s': State, es: seq<Entry>)
    requires Grows(s, s')
    requires forall i :: 0 <= i < |es| ==> EntryInv(shadowed, s, es[i])
    ensures forall i :: 0 <= i < |es| ==> EntryInv(shadowed, s', es[i])
  {
  }

  lemma ProcFrame(shadowed: bool, s: State, s': State, p: Proc)
    requires ProcInv(shadowed, s, p) && Grows(s, s')
    requires p.Deliver? ==> Untouched(s, s', p.key)
    ensures ProcInv(shadowed, s', p)
  {
  }

  /** Steps that publish and remove nothing only have to look after `tmp`. */
  lemma DiskFrame(shadowed: bool, s: State, s': State)
    requires DiskInv(shadowed, s) && Grows(s, s') && TmpInv(s')
    requires s'.disk.unread == s.disk.unread && s'.disk.cur == s.disk.cur
    requires s'.published == s.published && s'.deleted == s.deleted
    requires forall id :: id in s'.dropped ==> id in s'.issued
    ensures DiskInv(shadowed, s')
  {
  }

  /** A delivery step moves only its own process, its own file and its own verdict. */
  lemma DeliverEffect(shadowed: bool, s: State, a: Action)
    requires a.Tick? && a.pid in s.procs && s.procs[a.pid].Deliver? && DeliverInv(shadowed, s, s.procs[a.pid])
    ensures var s', p := Step(shadowed, s, a), s.procs[a.pid];
      && Grows(s, s')
      && a.pid in s'.procs && s'.procs == s.procs[a.pid := s'.procs[a.pid]] && SameDelivery(p, s'.procs[a.pid])
      && (forall k: Key :: k.id != p.key.id ==> Untouched(s, s', k))
  {
  }

  lemma DeliverOwn(shadowed: bool, s: State, a: Action)
    requires a.Tick? && a.pid in s.procs && s.procs[a.pid].Deliver? && DeliverInv(shadowed, s, s.procs[a.pid])
    ensures var s' := Step(shadowed, s, a);
      a.pid in s'.procs && s'.procs[a.pid].Deliver? && DeliverInv(shadowed, s', s'.procs[a.pid])
  {
  }

  lemma DeliverTmp(shadowed: bool, s: State, a: Action)
    requires a.Tick? && a.pid in s.procs && s.procs[a.pid].Deliver? && DeliverInv(shadowed, s, s.procs[a.pid])
    requires TmpInv(s) && !(s.procs[a.pid].stage.Publish? && a.ok)
    ensures TmpInv(Step(shadowed, s, a))
  {
  }

  lemma UnpublishedDirs(shadowed: bool, s: State, a: Action)
    requires a.Tick? && a.pid in s.procs && s.procs[a.pid].Deliver? && DeliverInv(shadowed, s, s.procs[a.pid])
    requires !(s.procs[a.pid].stage.Publish? && a.ok)
    ensures var s' := Step(shadowed, s, a);
      && s'.disk.unread == s.disk.unread && s'.disk.cur == s.disk.cur
      && s'.published == s.published && s'.deleted == s.deleted
      && s'.issued == s.issued && s'.dropped <= s.dropped + {s.procs[a.pid].key.id}
  {
  }

  lemma PublishStep(shadowed: bool, s: State, a: Action)
    requires a.Tick? && a.pid in s.procs && s.procs[a.pid].Deliver? && DeliverInv(shadowed, s, s.procs[a.pid])
    requires s.procs[a.pid].stage.Publish? && a.ok && DiskInv(shadowed, s)
    ensures DiskInv(shadowed, TickDeliver(shadowed, s, a.pid, a))
  {
  }

  lemma DeliverDisk(shadowed: bool, s: State, a: Action)
    requires a.Tick? && a.pid in s.procs && s.procs[a.pid].Deliver? && DeliverInv(shadowed, s, s.procs[a.pid])
    requires DiskInv(shadowed, s)
    ensures DiskInv(shadowed, Step(shadowed, s, a))
  {
    if s.procs[a.pid].stage.Publish? && a.ok {
      PublishStep(shadowed, s, a);
    } else {
      DeliverEffect(shadowed, s, a);
      DeliverTmp(shadowed, s, a);
      UnpublishedDirs(shadowed, s, a);
      DiskFrame(shadowed, s, Step(shadowed, s, a));
    }
  }

  /** The other processes keep their invariants when one moves. */
  lemma OthersKeep(shadowed: bool, s: State, s': State, pid: nat)
    requires OwnIds(s) && forall p :: p in s.procs ==> ProcInv(shadowed, s, s.procs[p])
    requires pid in s.procs && pid in s'.procs && s'.procs == s.procs[pid := s'.procs[pid]]
    requires SameDelivery(s.procs[pid], s'.procs[pid]) || !s'.procs[pid].Deliver?
    requires Grows(s, s') && ProcInv(shadowed, s', s'.procs[pid])
    requires forall k: Key :: !s.procs[pid].Deliver? || k.id != s.procs[pid].key.id ==> Untouched(s, s', k)
    ensures OwnIds(s') && forall p :: p in s'.procs ==> ProcInv(shadowed, s', s'.procs[p])
  {
    forall q | q in s'.procs ensures ProcInv(shadowed, s', s'.procs[q]) {
      if q != pid {
        assert !SameDelivery(s.procs[q], s.procs[pid]);
        ProcFrame(shadowed, s, s', s.procs[q]);
      }
    }
    forall q, r | q in s'.procs && r in s'.procs && SameDelivery(s'.procs[q], s'.procs[r]) ensures q == r {
      assert SameDelivery(s.procs[q], s.procs[r]);
    }
  }

  lemma DeliverStep(shadowed: bool, s: State, a: Action)
    requires Inv(shadowed, s) && a.Tick? && a.pid in s.procs && s.procs[a.pid].Deliver?
    ensures Inv(shadowed, Step(shadowed, s, a))
  {
    assert ProcInv(shadowed, s, s.procs[a.pid]);
    DeliverDisk(shadowed, s, a);
    DeliverEffect(shadowed, s, a);
    DeliverOwn(shadowed, s, a);
    OthersKeep(shadowed, s, Step(shadowed, s, a), a.pid);
  }

  // Lookups and listings

  lemma FoundStep(shadowed: bool, s: State, a: Action)
    requires DiskInv(shadowed, s) && a.Tick? && a.pid in s.procs && s.procs[a.pid].Found?
    requires ProcInv(shadowed, s, s.procs[a.pid])
    ensures a.pid in TickFound(s, a.pid, a).procs
    ensures ProcInv(shadowed, TickFound(s, a.pid, a), TickFound(s, a.pid, a).procs[a.pid])
  {
  }

  /** Removing one file and noting its ID as deleted keeps the disk in order. */
  lemma RemoveDisk(shadowed: bool, s: State, s': State, k: Key)
    requires DiskInv(shadowed, s) && (k in s.disk.unread || k in s.disk.cur)
    requires s'.disk == s.disk.(unread := s.disk.unread - {k}, cur := s.disk.cur - {k})
    requires s'.issued == s.issued && s'.dropped == s.dropped && s'.published == s.published
    requires s'.deleted == s.deleted + {k.id}
    ensures DiskInv(shadowed, s')
  {
    assert Belongs(s, k) && k.id in s.published by {
      if k in s.disk.unread { assert Stored(shadowed, s, k, s.disk.unread[k]); }
      else { assert Stored(shadowed, s, k, s.disk.cur[k]); }
    }
    forall k' | k' in s'.disk.unread ensures Stored(shadowed, s', k', s'.disk.unread[k']) && k' !in s'.disk.cur {
      assert Stored(shadowed, s, k', s.disk.unread[k']) && k' != k;
    }
    forall k' | k' in s'.disk.cur ensures Stored(shadowed, s', k', s'.disk.cur[k']) {
      assert Stored(shadowed, s, k', s.disk.cur[k']) && k' != k;
    }
    forall id | id in s'.published && id !in s'.deleted ensures Live(s', id) {
      assert Live(s, id) && id != k.id;
    }
    assert forall k' :: k' in s'.disk.tmp ==> Belongs(s, k');
  }

  lemma MoveDisk(shadowed: bool, s: State, s': State, k: Key)
    requires DiskInv(shadowed, s) && k in s.disk.unread
    requires s' == s.(disk := s.disk.(unread := s.disk.unread - {k}, cur := s.disk.cur[k := s.disk.unread[k]]),
      procs := s'.procs)
    ensures DiskInv(shadowed, s')
  {
  }

  lemma SameDisk(shadowed: bool, s: State, s': State)
    requires DiskInv(shadowed, s) && s' == s.(procs := s'.procs)
    ensures DiskInv(shadowed, s') && Grows(s, s')
  {
  }

  lemma DeleteDisk(shadowed: bool, s: State, a: Action)
    requires DiskInv(shadowed, s) && a.Tick? && a.pid in s.procs && s.procs[a.pid].Found?
    requires s.procs[a.pid].goal.DeleteMessage?
    requires a.ok && s.procs[a.pid].key in Dir(s.disk, s.procs[a.pid].isNew)
    ensures DiskInv(shadowed, TickFound(s, a.pid, a))
  {
    var k := s.procs[a.pid].key;
    var s' := TickFound(s, a.pid, a);
    assert s'.disk.unread == s.disk.unread - {k} && s'.disk.cur == s.disk.cur - {k};
    RemoveDisk(shadowed, s, s', k);
  }

  lemma LookupDisk(shadowed: bool, s: State, a: Action)
    requires DiskInv(shadowed, s) && a.Tick? && a.pid in s.procs && !s.procs[a.pid].Deliver?
    ensures DiskInv(shadowed, Step(shadowed, s, a))
  {
    var p, s' := s.procs[a.pid], Step(shadowed, s, a);
    if p.Found? && p.goal.DeleteMessage? && a.ok && p.key in Dir(s.disk, p.isNew) {
      DeleteDisk(shadowed, s, a);
    } else if p.MarkRead? && a.ok && p.key in s.disk.unread {
      MoveDisk(shadowed, s, s', p.key);
    } else {
      SameDisk(shadowed, s, s');
    }
  }

  /** Reading a directory yields entries of published messages of that mailbox. */
  lemma EntriesHold(shadowed: bool, s: State, box: string, isNew: bool, ids: seq<string>)
    requires DiskInv(shadowed, s) && Enumerates(ids, IdsIn(Dir(s.disk, isNew), box))
    ensures forall i :: 0 <= i < |ids| ==> Entries(box, isNew, ids)[i].key in Dir(s.disk, isNew)
    ensures forall i :: 0 <= i < |ids| ==> EntryInv(shadowed, s, Entries(box, isNew, ids)[i])
  {
    forall i | 0 <= i < |ids|
      ensures Key(box, ids[i]) in Dir(s.disk, isNew)
      ensures EntryInv(shadowed, s, Entries(box, isNew, ids)[i])
    {
      assert ids[i] in ids;
      assert ids[i] in IdsIn(Dir(s.disk, isNew), box);
      assert Stored(shadowed, s, Key(box, ids[i]), Dir(s.disk, isNew)[Key(box, ids[i])]);
    }
  }

  lemma ListOwn(shadowed: bool, s: State, a: Action)
    requires DiskInv(shadowed, s) && a.Tick? && a.pid in s.procs && s.procs[a.pid].ListScan?
    requires ProcInv(shadowed, s, s.procs[a.pid])
    ensures var s' := Step(shadowed, s, a);
      a.pid in s'.procs && s'.procs[a.pid] != ListFailed && ProcInv(shadowed, s', s'.procs[a.pid])
  {
    var p, s' := s.procs[a.pid], Step(shadowed, s, a);
    SameDisk(shadowed, s, s');
    EntriesFrame(shadowed, s, s', p.shown);
    EntriesFrame(shadowed, s, s', p.pending);
    if p.pending != [] {
      var e := p.pending[0];
      assert EntryInv(shadowed, s', e);
      if e.key in Dir(s.disk, e.unread) {
        assert Stored(shadowed, s', e.key, Dir(s'.disk, e.unread)[e.key]);
      }
    } else if p.i < |p.boxes| && a.ok && Enumerates(a.listing, IdsIn(Dir(s.disk, !p.inCur), p.boxes[p.i])) {
      EntriesHold(shadowed, s', p.boxes[p.i], !p.inCur, a.listing);
    }
  }

  lemma LookupOwn(shadowed: bool, s: State, a: Action)
    requires DiskInv(shadowed, s) && a.Tick? && a.pid in s.procs && !s.procs[a.pid].Deliver?
    requires !s.procs[a.pid].Found? && !s.procs[a.pid].ListScan?
    requires ProcInv(shadowed, s, s.procs[a.pid])
    ensures var s' := Step(shadowed, s, a);
      a.pid in s'.procs && !s'.procs[a.pid].Deliver? && ProcInv(shadowed, s', s'.procs[a.pid])
  {
  }

  ghost predicate OnlyMoves(s: State, s': State, pid: nat) {
    && Grows(s, s') && (forall k :: Untouched(s, s', k))
    && pid in s'.procs && s'.procs == s.procs[pid := s'.procs[pid]] && !s'.procs[pid].Deliver?
  }

  lemma FoundEffect(s: State, a: Action)
    requires a.Tick? && a.pid in s.procs && s.procs[a.pid].Found?
    ensures OnlyMoves(s, TickFound(s, a.pid, a), a.pid)
  {
  }

  lemma ListEffect(s: State, a: Action)
    requires a.Tick? && a.pid in s.procs && !s.procs[a.pid].Deliver?
    ensures OnlyMoves(s, TickList(s, a.pid, a), a.pid)
  {
  }

  lemma LookupEffect(shadowed: bool, s: State, a: Action)
    requires a.Tick? && a.pid in s.procs && !s.procs[a.pid].Deliver?
    ensures OnlyMoves(s, Step(shadowed, s, a), a.pid)
  {
    if s.procs[a.pid].Found? { FoundEffect(s, a); }
    else if s.procs[a.pid].ListStart? || s.procs[a.pid].ListScan? { ListEffect(s, a); }
  }

  lemma LookupStep(shadowed: bool, s: State, a: Action)
    requires Inv(shadowed, s) && a.Tick? && a.pid in s.procs && !s.procs[a.pid].Deliver?
    ensures Inv(shadowed, Step(shadowed, s, a))
  {
    var p := s.procs[a.pid];
    assert ProcInv(shadowed, s, p);
    LookupDisk(shadowed, s, a);
    LookupEffect(shadowed, s, a);
    if p.Found? { FoundStep(shadowed, s, a); }
    else if p.ListScan? { ListOwn(shadowed, s, a); }
    else { LookupOwn(shadowed, s, a); }
    OthersKeep(shadowed, s, Step(shadowed, s, a), a.pid);
  }

  // Starts and crashes

  lemma CrashStep(shadowed: bool, s: State, a: Action)
    requires Inv(shadowed, s) && a.Crash?
    ensures Inv(shadowed, Step(shadowed, s, a))
  {
    var s' := Step(shadowed, s, a);
    forall k | k in s'.disk.tmp ensures Belongs(s', k) && k.id !in s'.published
      && s'.disk.tmp[k].data <= s'.issued[k.id].msg {
      assert Belongs(s, k) && s.disk.tmp[k].data <= s.issued[k.id].msg;
    }
    forall k | k in s'.disk.unread ensures Stored(shadowed, s', k, s'.disk.unread[k]) && k !in s'.disk.cur {
      assert Stored(shadowed, s, k, s.disk.unread[k]);
    }
    forall k | k in s'.disk.cur ensures Stored(shadowed, s', k, s'.disk.cur[k]) {
      assert Stored(shadowed, s, k, s.disk.cur[k]);
    }
    forall id | id in s'.published && id !in s'.deleted ensures Live(s', id) {
      assert Live(s, id);
    }
  }

  lemma StartStep(shadowed: bool, s: State, a: Action)
    requires Inv(shadowed, s) && !a.Tick? && !a.Crash?
    ensures Inv(shadowed, Step(shadowed, s, a))
  {
    var s' := Step(shadowed, s, a);
    if s' != s {
      StartEffect(shadowed, s, a);
      assert TmpInv(s') by { assert forall k :: k in s.disk.tmp ==> Belongs(s, k); }
      DiskFrame(shadowed, s, s');
      NewProc(shadowed, s, s', a.pid);
    }
  }

  /** A start adds one process, at its beginning, under an ID that is new if it delivers. */
  lemma StartEffect(shadowed: bool, s: State, a: Action)
    requires !a.Tick? && !a.Crash? && Step(shadowed, s, a) != s
    requires forall id :: id in s.published || id in s.dropped ==> id in s.issued
    ensures var s' := Step(shadowed, s, a);
      && Grows(s, s') && s'.disk == s.disk && s'.published == s.published && s'.deleted == s.deleted
         && s'.dropped == s.dropped
      && a.pid !in s.procs && a.pid in s'.procs && s'.procs == s.procs[a.pid := s'.procs[a.pid]]
      && ProcInv(shadowed, s', s'.procs[a.pid])
      && (s'.procs[a.pid].Deliver? ==> s'.procs[a.pid].key.id !in s.issued)
  {
  }

  lemma NewProc(shadowed: bool, s: State, s': State, pid: nat)
    requires OwnIds(s) && forall p :: p in s.procs ==> ProcInv(shadowed, s, s.procs[p])
    requires Grows(s, s') && s'.disk == s.disk && s'.published == s.published && s'.dropped == s.dropped
    requires pid !in s.procs && pid in s'.procs && s'.procs == s.procs[pid := s'.procs[pid]]
    requires ProcInv(shadowed, s', s'.procs[pid])
    requires s'.procs[pid].Deliver? ==> s'.procs[pid].key.id !in s.issued
    ensures OwnIds(s') && forall p :: p in s'.procs ==> ProcInv(shadowed, s', s'.procs[p])
  {
  }

  /** Every step of every process keeps the invariant, whatever the calls return. */
  lemma StepKeepsInv(shadowed: bool, s: State, a: Action)
    requires Inv(shadowed, s)
    ensures Inv(shadowed, Step(shadowed, s, a))
  {
    if a.Crash? { CrashStep(shadowed, s, a); }
    else if !a.Tick? { StartStep(shadowed, s, a); }
    else if a.pid in s.procs {
      if s.procs[a.pid].Deliver? { DeliverStep(shadowed, s, a); } else { LookupStep(shadowed, s, a); }
    }
  }

  lemma {:induction false} RunKeepsInv(r: Run, j: nat)
    requires r.Valid() && j <= |r.actions|
    ensures Inv(r.shadowed, r.states[j])
  {
    if j > 0 {
      RunKeepsInv(r, j - 1);
      assert r.Linked(j - 1);
      StepKeepsInv(r.shadowed, r.states[j - 1], r.actions[j - 1]);
    }
  }
}
