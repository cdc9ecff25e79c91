/**
  The service under concurrency and crashes: requests, notifications and the
  senders a notification spawns are threads, the mutex is a field, and every
  file system call and every unlocked moment is a step of its own.
*/
module PushProtocol {
  import opened Options
  import opened Push

  /** A request or a notification, or the i-th sender of a notification. */
  datatype Tid = Request(pid: nat) | Sender(pid: nat, i: nat)

  datatype Op = Put(sub: Sub) | Drop(endpoint: string)

  datatype Pc = Waiting | Write | Rename | Unlock(ok: bool) | Returned(ok: bool)

  datatype Thread =
    | Call(op: Op, pc: Pc)
    | NotifyStart
    | NotifyWait(snap: seq<Sub>)
    | NotifyEnd(snap: seq<Sub>)
    | Send(sub: Sub)
    | Prune(endpoint: string, status: nat, pc: Pc)
    | Quiet

  datatype State = State(
    subs: map<string, Sub>, file: Content, tmp: Content, owner: Option<Tid>, threads: map<Tid, Thread>)

  datatype Action =
    | StartCall(pid: nat, op: Op)
    | StartNotify(pid: nat)
    | Tick(tid: Tid, ok: bool, order: seq<string>, status: nat)
    | Crash

  function Apply(subs: map<string, Sub>, op: Op): map<string, Sub> {
    match op
    case Put(s) => subs[s.endpoint := s]
    case Drop(e) => subs - {e}
  }

  predicate InSave(pc: Pc) { pc.Write? || pc.Rename? || pc.Unlock? }

  predicate Saving(t: Thread) {
    (t.Call? && InSave(t.pc)) || (t.Prune? && InSave(t.pc))
  }

  predicate Ranged(order: seq<string>, subs: map<string, Sub>) {
    && (forall i, j :: 0 <= i < j < |order| ==> order[i] != order[j])
    && (forall k :: k in order ==> k in subs)
    && (forall k :: k in subs ==> k in order)
  }

  function Values(order: seq<string>, subs: map<string, Sub>): seq<Sub>
    requires Ranged(order, subs)
  {
    seq(|order|, i requires 0 <= i < |order| => assert order[i] in order; subs[order[i]])
  }

  function Spawn(threads: map<Tid, Thread>, pid: nat, snap: seq<Sub>): map<Tid, Thread> {
    threads + (map i | 0 <= i < |snap| :: Sender(pid, i) := Send(snap[i]))
  }

  predicate Finished(t: Thread) {
    t.Quiet? || (t.Prune? && t.pc.Returned?)
  }

  function WithPc(t: Thread, pc: Pc): Thread {
    if t.Call? || t.Prune? then t.(pc := pc) else t
  }

  /** One step of a thread inside Subscribe or Unsubscribe. */
  function TickSave(s: State, a: Action, t: Thread, op: Op, pc: Pc): State
    requires a.Tick?
  {
    match pc
    case Waiting =>
      if s.owner.Some? then s
      else s.(owner := Some(a.tid), subs := Apply(s.subs, op), threads := s.threads[a.tid := WithPc(t, Write)])
    case Write =>
      if !Ranged(a.order, s.subs) then s
      else if !a.ok then s.(tmp := Garbage, threads := s.threads[a.tid := WithPc(t, Unlock(false))])
      else s.(tmp := Whole(Wrap(Values(a.order, s.subs))), threads := s.threads[a.tid := WithPc(t, Rename)])
    case Rename =>
      if !a.ok then s.(threads := s.threads[a.tid := WithPc(t, Unlock(false))])
      else s.(file := s.tmp, tmp := Missing, threads := s.threads[a.tid := WithPc(t, Unlock(true))])
    case Unlock(ok) => s.(owner := None, threads := s.threads[a.tid := WithPc(t, Returned(ok))])
    case Returned(_) => s
  }

  function TickThread(s: State, a: Action, t: Thread): State
    requires a.Tick?
  {
    match t
    case Call(op, pc) => TickSave(s, a, t, op, pc)
    case Prune(endpoint, _, pc) => TickSave(s, a, t, Drop(endpoint), pc)
    case NotifyStart =>
      if s.owner.Some? || !a.tid.Request? || !Ranged(a.order, s.subs) then s
      else
        var snap := Values(a.order, s.subs);
        var next := if snap == [] then NotifyEnd(snap) else NotifyWait(snap);
        s.(threads := Spawn(s.threads[a.tid := next], a.tid.pid, snap))
    case NotifyWait(snap) =>
      if forall i :: 0 <= i < |snap| ==> Sender(a.tid.pid, i) in s.threads && Finished(s.threads[Sender(a.tid.pid, i)])
      then s.(threads := s.threads[a.tid := NotifyEnd(snap)]) else s
    case Send(sub) =>
      var next := if a.ok && Gone(a.status) then Prune(sub.endpoint, a.status, Waiting) else Quiet;
      s.(threads := s.threads[a.tid := next])
    case _ => s
  }

  /** A crash loses every thread, the lock and the map; the restart reads the file. */
  function Step(s: State, a: Action): State {
    match a
    case StartCall(pid, op) =>
      if Request(pid) in s.threads || (op.Put? && !Accepted(op.sub, true)) then s
      else s.(threads := s.threads[Request(pid) := Call(op, Waiting)])
    case StartNotify(pid) =>
      if Request(pid) in s.threads then s else s.(threads := s.threads[Request(pid) := NotifyStart])
    case Tick(tid, _, _, _) => if tid in s.threads then TickThread(s, a, s.threads[tid]) else s
    case Crash => s.(subs := Recover(s.file), owner := None, threads := map[])
  }

  function Boot(file: Content): State { State(Recover(file), file, Missing, None, map[]) }

  datatype Run = Run(states: seq<State>, actions: seq<Action>) {
    ghost predicate Linked(i: nat)
      requires i < |actions| && |states| == |actions| + 1
    {
      states[i + 1] == Step(states[i], actions[i])
    }

    /** A run from the start of the process, on any file that is missing or parses. */
    ghost predicate Valid() {
      && |states| == |actions| + 1
      && !states[0].file.Garbage? && states[0] == Boot(states[0].file)
      && (forall i :: 0 <= i < |actions| ==> Linked(i))
    }
  }

  // ---------------------------------------------------------------- invariant

  /** The file content is some enumeration of the map. */
  ghost predicate Mirrors(c: Content, subs: map<string, Sub>) {
    exists order: seq<string> :: Ranged(order, subs) && c == Whole(Wrap(Values(order, subs)))
  }

  ghost predicate LockInv(s: State) {
    && (forall t :: t in s.threads && Saving(s.threads[t]) ==> s.owner == Some(t))
    && (s.owner.Some? ==> s.owner.value in s.threads && Saving(s.threads[s.owner.value]))
  }

  ghost predicate AtRename(t: Thread) {
    (t.Call? || t.Prune?) && t.pc == Rename
  }

  ghost predicate FileInv(s: State) {
    && Keyed(s.subs) && !s.file.Garbage?
    && (forall t :: t in s.threads && AtRename(s.threads[t]) ==> Mirrors(s.tmp, s.subs))
  }

  /** The snapshot of a notification that has taken one. */
  function Snapshot(s: State, pid: nat): Option<seq<Sub>> {
    if Request(pid) !in s.threads then None
    else match s.threads[Request(pid)]
      case NotifyWait(snap) => Some(snap)
      case NotifyEnd(snap) => Some(snap)
      case _ => None
  }

  ghost predicate ThreadInv(s: State, tid: Tid, t: Thread) {
    match tid
    case Request(_) => (t.Call? && (t.op.Put? ==> Accepted(t.op.sub, true))) || t.NotifyStart? || t.NotifyWait?
      || t.NotifyEnd?
    case Sender(pid, i) =>
      && Snapshot(s, pid).Some? && i < |Snapshot(s, pid).value|
      && match t
         case Send(sub) => sub == Snapshot(s, pid).value[i]
         case Prune(endpoint, status, _) => Gone(status) && endpoint == Snapshot(s, pid).value[i].endpoint
         case Quiet => true
         case _ => false
  }

  ghost predicate ThreadsInv(s: State) {
    forall t :: t in s.threads ==> ThreadInv(s, t, s.threads[t])
  }

  /** Every snapshot entry has its sender, and a notification that has ended has waited for all of them. */
  ghost predicate SendersInv(s: State) {
    forall pid: nat, i: nat :: Snapshot(s, pid).Some? && i < |Snapshot(s, pid).value| ==>
      && Sender(pid, i) in s.threads
      && (s.threads[Request(pid)].NotifyEnd? ==> Finished(s.threads[Sender(pid, i)]))
  }

  ghost predicate Inv(s: State) {
    LockInv(s) && FileInv(s) && ThreadsInv(s) && SendersInv(s)
  }

  // ---------------------------------------------------------------- preservation

  /** A step of one thread that leaves every snapshot as it is keeps the other threads in order. */
  lemma OneThread(s: State, s': State, tid: Tid)
    requires ThreadsInv(s) && tid in s'.threads && s'.threads == s.threads[tid := s'.threads[tid]]
    requires forall pid :: Snapshot(s, pid).Some? ==> Snapshot(s', pid) == Snapshot(s, pid)
    requires ThreadInv(s', tid, s'.threads[tid])
    ensures ThreadsInv(s')
  {
  }

  lemma SaveThreads(s: State, a: Action)
    requires ThreadsInv(s) && a.Tick? && a.tid in s.threads && (s.threads[a.tid].Call? || s.threads[a.tid].Prune?)
    ensures ThreadsInv(Step(s, a))
  {
    assert ThreadInv(s, a.tid, s.threads[a.tid]);
    OneThread(s, Step(s, a), a.tid);
  }

  lemma SaveLock(s: State, a: Action)
    requires LockInv(s) && a.Tick? && a.tid in s.threads && (s.threads[a.tid].Call? || s.threads[a.tid].Prune?)
    ensures LockInv(Step(s, a))
  {
  }

  /** While one thread holds the lock nobody else is about to rename. */
  lemma SaveFile(s: State, a: Action)
    requires Inv(s) && a.Tick? && a.tid in s.threads && (s.threads[a.tid].Call? || s.threads[a.tid].Prune?)
    ensures FileInv(Step(s, a))
  {
  }

  lemma OtherStep(s: State, a: Action)
    requires Inv(s) && a.Tick? && a.tid in s.threads && !s.threads[a.tid].Call? && !s.threads[a.tid].Prune?
    ensures LockInv(Step(s, a)) && FileInv(Step(s, a))
  {
  }

  lemma OtherThreads(s: State, a: Action)
    requires ThreadsInv(s) && a.Tick? && a.tid in s.threads && !s.threads[a.tid].Call? && !s.threads[a.tid].Prune?
    ensures ThreadsInv(Step(s, a))
  {
    var s', p := Step(s, a), s.threads[a.tid];
    assert ThreadInv(s, a.tid, p);
    if p.NotifyStart? && s' != s {
      forall t | t in s'.threads ensures ThreadInv(s', t, s'.threads[t]) {
        if t in s.threads { assert ThreadInv(s, t, s.threads[t]); }
      }
    } else if s' != s {
      OneThread(s, s', a.tid);
    }
  }

  /** A step that leaves all snapshots as they are and finished senders finished. */
  lemma SendersFrame(s: State, s': State, tid: Tid)
    requires SendersInv(s) && tid in s.threads && tid in s'.threads && s'.threads == s.threads[tid := s'.threads[tid]]
    requires forall pid: nat :: Snapshot(s', pid) == Snapshot(s, pid)
    requires tid.Request? ==> (s'.threads[tid].NotifyEnd? ==> s.threads[tid].NotifyEnd?)
    requires Finished(s.threads[tid]) ==> Finished(s'.threads[tid])
    ensures SendersInv(s')
  {
  }

  lemma SaveSenders(s: State, a: Action)
    requires Inv(s) && a.Tick? && a.tid in s.threads && (s.threads[a.tid].Call? || s.threads[a.tid].Prune?)
    ensures SendersInv(Step(s, a))
  {
    assert ThreadInv(s, a.tid, s.threads[a.tid]);
    SendersFrame(s, Step(s, a), a.tid);
  }

  lemma SnapshotSenders(s: State, a: Action)
    requires Inv(s) && a.Tick? && a.tid in s.threads && s.threads[a.tid].NotifyStart?
    ensures SendersInv(Step(s, a))
  {
    assert ThreadInv(s, a.tid, s.threads[a.tid]);
  }

  lemma WaitSenders(s: State, a: Action)
    requires Inv(s) && a.Tick? && a.tid in s.threads && s.threads[a.tid].NotifyWait?
    ensures SendersInv(Step(s, a))
  {
    assert ThreadInv(s, a.tid, s.threads[a.tid]);
  }

  lemma OtherSenders(s: State, a: Action)
    requires Inv(s) && a.Tick? && a.tid in s.threads
    requires s.threads[a.tid].Send? || s.threads[a.tid].Quiet? || s.threads[a.tid].NotifyEnd?
    ensures SendersInv(Step(s, a))
  {
    assert ThreadInv(s, a.tid, s.threads[a.tid]);
    SendersFrame(s, Step(s, a), a.tid);
  }

  lemma TickSenders(s: State, a: Action)
    requires Inv(s) && a.Tick? && a.tid in s.threads
    ensures SendersInv(Step(s, a))
  {
    match s.threads[a.tid]
    case Call(_, _) => SaveSenders(s, a);
    case Prune(_, _, _) => SaveSenders(s, a);
    case NotifyStart => SnapshotSenders(s, a);
    case NotifyWait(_) => WaitSenders(s, a);
    case _ => OtherSenders(s, a);
  }

  lemma StepKeepsInv(s: State, a: Action)
    requires Inv(s)
    ensures Inv(Step(s, a))
  {
    match a
    case Tick(tid, _, _, _) =>
      if tid in s.threads {
        TickSenders(s, a);
        if s.threads[tid].Call? || s.threads[tid].Prune? {
          SaveThreads(s, a);
          SaveLock(s, a);
          SaveFile(s, a);
        } else {
          OtherThreads(s, a);
          OtherStep(s, a);
        }
      }
    case Crash => if s.file.Whole? { LoadIsKeyed(s.file.doc); }
    case StartCall(pid, _) => StartStep(s, a, pid);
    case StartNotify(pid) => StartStep(s, a, pid);
  }

  lemma StartStep(s: State, a: Action, pid: nat)
    requires Inv(s) && (a.StartCall? || a.StartNotify?) && a.pid == pid
    ensures Inv(Step(s, a))
  {
  }

  lemma {:induction false} RunKeepsInv(r: Run, j: nat)
    requires r.Valid() && j <= |r.actions|
    ensures Inv(r.states[j])
  {
    if j > 0 {
      RunKeepsInv(r, j - 1);
      assert r.Linked(j - 1);
      StepKeepsInv(r.states[j - 1], r.actions[j - 1]);
    } else if r.states[0].file.Whole? {
      LoadIsKeyed(r.states[0].file.doc);
    }
  }
}
