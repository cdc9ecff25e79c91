/** What holds of the push service over whole runs. */
module PushTheorems {
  import opened Options
  import opened Push
  import opened PushProtocol

  // ---------------------------------------------------------------- the file

  lemma MirrorLoads(c: Content, subs: map<string, Sub>)
    requires Keyed(subs) && Mirrors(c, subs)
    ensures Recover(c) == subs
  {
    var order :| Ranged(order, subs) && c == Whole(Wrap(Values(order, subs)));
    assert Ranges(order, Values(order, subs), subs) by {
      assert forall i :: 0 <= i < |order| ==> order[i] in order;
    }
    SaveThenLoad(Values(order, subs), order, subs);
  }

  /**
    In every reachable state each subscription is filed under its own, nonempty
    endpoint, and the file is never cut short.
  */
  lemma AlwaysKeyed(r: Run, j: nat)
    requires r.Valid() && j <= |r.actions|
    ensures Keyed(r.states[j].subs) && !r.states[j].file.Garbage?
  {
    RunKeepsInv(r, j);
  }

  /** A save reaches its end: the temporary file takes the place of the real one. */
  ghost predicate Saves(s: State, a: Action) {
    a.Tick? && a.ok && a.tid in s.threads && AtRename(s.threads[a.tid])
  }

  lemma FileChange(s: State, a: Action)
    requires Inv(s)
    ensures if Saves(s, a) then Mirrors(Step(s, a).file, Step(s, a).subs) else Step(s, a).file == s.file
  {
  }

  /** A successful save brings the file back in step with the map, even after saves that failed. */
  lemma SaveResynchronises(r: Run, j: nat)
    requires r.Valid() && j < |r.actions| && Saves(r.states[j], r.actions[j])
    ensures Recover(r.states[j + 1].file) == r.states[j + 1].subs
  {
    RunKeepsInv(r, j);
    RunKeepsInv(r, j + 1);
    assert r.Linked(j);
    FileChange(r.states[j], r.actions[j]);
    MirrorLoads(r.states[j + 1].file, r.states[j + 1].subs);
  }

  /**
    At every moment a crash would leave a file that loads to the map as it was
    after the last successful save or later, and to no mixture of maps.
  */
  lemma {:induction false} CrashSafe(r: Run, m: nat, j: nat) returns (i: nat)
    requires r.Valid() && m <= j <= |r.actions|
    requires m == 0 || Saves(r.states[m - 1], r.actions[m - 1])
    ensures m <= i <= j && Recover(r.states[j].file) == r.states[i].subs
  {
    if m == j {
      if m > 0 { SaveResynchronises(r, m - 1); }
      i := j;
    } else if Saves(r.states[j - 1], r.actions[j - 1]) {
      SaveResynchronises(r, j - 1);
      i := j;
    } else {
      i := CrashSafe(r, m, j - 1);
      RunKeepsInv(r, j - 1);
      assert r.Linked(j - 1);
      FileChange(r.states[j - 1], r.actions[j - 1]);
    }
  }

  /** So a restart never loses a change whose call had reported success. */
  lemma RestartKeepsSaved(r: Run, m: nat, j: nat) returns (i: nat)
    requires r.Valid() && m <= j < |r.actions| && r.actions[j].Crash?
    requires m == 0 || Saves(r.states[m - 1], r.actions[m - 1])
    ensures m <= i <= j && r.states[j + 1].subs == r.states[i].subs == Recover(r.states[j].file)
  {
    i := CrashSafe(r, m, j);
    assert r.Linked(j);
  }

  ghost predicate Succeeded(t: Thread) {
    (t.Call? || t.Prune?) && (t.pc == Unlock(true) || t.pc == Returned(true))
  }

  /** How a thread begins. */
  ghost predicate Begins(t: Thread) {
    t.Send? || t.NotifyStart? || (t.Call? && t.pc == Waiting)
  }

  /** A thread changes in its own steps; others can only bring it into being. */
  lemma ForeignStep(s: State, a: Action, tid: Tid)
    requires tid in Step(s, a).threads && !(a.Tick? && a.tid == tid)
    ensures (tid in s.threads && Step(s, a).threads[tid] == s.threads[tid]) || Begins(Step(s, a).threads[tid])
  {
  }

  lemma SuccessStep(s: State, a: Action, tid: Tid)
    requires tid in Step(s, a).threads && Succeeded(Step(s, a).threads[tid])
    ensures (Saves(s, a) && a.tid == tid) || (tid in s.threads && Succeeded(s.threads[tid]))
  {
    if !(a.Tick? && a.tid == tid) { ForeignStep(s, a, tid); }
  }

  /** Success is reported only after such a save by the same thread. */
  lemma {:induction false} SuccessWasSaved(r: Run, j: nat, tid: Tid) returns (m: nat)
    requires r.Valid() && j <= |r.actions| && tid in r.states[j].threads && Succeeded(r.states[j].threads[tid])
    ensures m < j && Saves(r.states[m], r.actions[m]) && r.actions[m].tid == tid
  {
    assert r.states[0].threads == map[];
    assert r.Linked(j - 1);
    SuccessStep(r.states[j - 1], r.actions[j - 1], tid);
    if Saves(r.states[j - 1], r.actions[j - 1]) && r.actions[j - 1].tid == tid {
      m := j - 1;
    } else {
      m := SuccessWasSaved(r, j - 1, tid);
    }
  }

  // ---------------------------------------------------------------- one call alone

  function Stepped(s: State, tid: Tid, ok: bool, order: seq<string>): State { Step(s, Tick(tid, ok, order, 0)) }

  lemma AcquireAlone(s: State, pid: nat, op: Op, order: seq<string>)
    requires s.owner.None? && Request(pid) in s.threads && s.threads[Request(pid)] == Call(op, Waiting)
    ensures Stepped(s, Request(pid), true, order) ==
      s.(owner := Some(Request(pid)), subs := Apply(s.subs, op), threads := s.threads[Request(pid) := Call(op, Write)])
  {
  }

  lemma WriteAlone(s: State, pid: nat, op: Op, order: seq<string>, ok: bool)
    requires Request(pid) in s.threads && s.threads[Request(pid)] == Call(op, Write) && Ranged(order, s.subs)
    ensures Stepped(s, Request(pid), ok, order) ==
      s.(tmp := if ok then Whole(Wrap(Values(order, s.subs))) else Garbage,
         threads := s.threads[Request(pid) := Call(op, if ok then Rename else Unlock(false))])
  {
  }

  lemma FinishAlone(s: State, pid: nat, op: Op, order: seq<string>, renameOk: bool)
    requires Request(pid) in s.threads && s.threads[Request(pid)] == Call(op, Rename)
    ensures Stepped(Stepped(s, Request(pid), renameOk, order), Request(pid), true, order) ==
      s.(owner := None, file := if renameOk then s.tmp else s.file, tmp := if renameOk then Missing else s.tmp,
         threads := s.threads[Request(pid) := Call(op, Returned(renameOk))])
  {
  }

  /**
    A Subscribe or Unsubscribe that nobody interrupts does to the map and the
    file what the sequential method does, and reports the same.
  */
  lemma CallAlone(s: State, pid: nat, op: Op, order: seq<string>, writeOk: bool, renameOk: bool) returns (t: State)
    requires Inv(s) && s.owner.None? && Request(pid) in s.threads && s.threads[Request(pid)] == Call(op, Waiting)
    requires Keyed(Apply(s.subs, op)) && Ranged(order, Apply(s.subs, op))
    ensures var tid := Request(pid);
      t == Stepped(Stepped(Stepped(Stepped(s, tid, true, order), tid, writeOk, order), tid, renameOk, order), tid, true,
        order)
    ensures var ok := writeOk && renameOk;
      && t.subs == Apply(s.subs, op) && SavedAs(s.file, t.file, t.subs, ok) && t.owner.None?
      && t.threads == s.threads[Request(pid) := Call(op, Returned(ok))]
  {
    var tid := Request(pid);
    var s1 := Stepped(s, tid, true, order);
    var s2 := Stepped(s1, tid, writeOk, order);
    t := Stepped(Stepped(s2, tid, renameOk, order), tid, true, order);
    AcquireAlone(s, pid, op, order);
    WriteAlone(s1, pid, op, order, writeOk);
    if writeOk {
      FinishAlone(s2, pid, op, order, renameOk);
      assert Mirrors(s2.tmp, s2.subs);
      MirrorLoads(s2.tmp, s2.subs);
    }
  }

  // ---------------------------------------------------------------- removals

  ghost predicate Acquires(s: State, a: Action) {
    a.Tick? && a.tid in s.threads && s.owner.None? &&
    (s.threads[a.tid].Call? || s.threads[a.tid].Prune?) && s.threads[a.tid].pc == Waiting
  }

  /** A user takes the endpoint off the list. */
  ghost predicate UserDrops(s: State, a: Action, e: string) {
    Acquires(s, a) && s.threads[a.tid].Call? && s.threads[a.tid].op == Drop(e)
  }

  /** The i-th sender of a notification takes it off, because its own snapshot entry answered gone. */
  ghost predicate SenderDrops(s: State, a: Action, e: string) {
    && Acquires(s, a) && a.tid.Sender? && s.threads[a.tid].Prune?
    && s.threads[a.tid].endpoint == e && s.threads[a.tid].status in {404, 410}
    && Snapshot(s, a.tid.pid).Some? && a.tid.i < |Snapshot(s, a.tid.pid).value|
    && Snapshot(s, a.tid.pid).value[a.tid.i].endpoint == e
  }

  lemma RemovalCause(s: State, a: Action, e: string)
    requires Inv(s) && e in s.subs && e !in Step(s, a).subs
    ensures a.Crash? || ((UserDrops(s, a, e) || SenderDrops(s, a, e)) && Step(s, a).subs == s.subs - {e})
  {
  }

  lemma {:induction false} LastSeen(r: Run, i: nat, j: nat, e: string) returns (m: nat)
    requires r.Valid() && i <= j <= |r.actions| && e in r.states[i].subs && e !in r.states[j].subs
    ensures i <= m < j && e in r.states[m].subs && e !in r.states[m + 1].subs
  {
    if e in r.states[j - 1].subs { m := j - 1; } else { m := LastSeen(r, i, j - 1, e); }
  }

  /**
    Between crashes an endpoint disappears only by an Unsubscribe of that
    endpoint or by a sender whose snapshot entry is that endpoint and which was
    answered 404 or 410, and that step removes nothing else: all other
    subscriptions survive any notification.
  */
  lemma WhoRemoved(r: Run, i: nat, j: nat, e: string) returns (m: nat)
    requires r.Valid() && i <= j <= |r.actions| && e in r.states[i].subs && e !in r.states[j].subs
    ensures i <= m < j
    ensures r.actions[m].Crash? || UserDrops(r.states[m], r.actions[m], e) || SenderDrops(r.states[m], r.actions[m], e)
    ensures !r.actions[m].Crash? ==> r.states[m + 1].subs == r.states[m].subs - {e}
  {
    m := LastSeen(r, i, j, e);
    RunKeepsInv(r, m);
    assert r.Linked(m);
    RemovalCause(r.states[m], r.actions[m], e);
  }

  /** The push service really answered gone to this sender. */
  ghost predicate Answered(r: Run, m: nat, tid: Tid, e: string)
    requires r.Valid() && m < |r.actions|
  {
    var s, a := r.states[m], r.actions[m];
    AnsweredGone(a) && a.tid == tid && tid in s.threads && s.threads[tid].Send?
      && s.threads[tid].sub.endpoint == e
  }

  lemma PruneStep(s: State, a: Action, tid: Tid)
    requires tid in Step(s, a).threads && Step(s, a).threads[tid].Prune?
    ensures tid in s.threads
    ensures var t, t' := s.threads[tid], Step(s, a).threads[tid];
      || (t.Prune? && t.endpoint == t'.endpoint)
      || (AnsweredGone(a) && a.tid == tid && t.Send? && t.sub.endpoint == t'.endpoint)
  {
    if !(a.Tick? && a.tid == tid) { ForeignStep(s, a, tid); }
  }

  lemma {:induction false} PruneWasAnswered(r: Run, j: nat, tid: Tid) returns (m: nat)
    requires r.Valid() && j <= |r.actions| && tid in r.states[j].threads && r.states[j].threads[tid].Prune?
    ensures m < j && Answered(r, m, tid, r.states[j].threads[tid].endpoint)
  {
    assert r.states[0].threads == map[];
    assert r.Linked(j - 1);
    PruneStep(r.states[j - 1], r.actions[j - 1], tid);
    if r.states[j - 1].threads[tid].Prune? { m := PruneWasAnswered(r, j - 1, tid); } else { m := j - 1; }
  }

  /** A notification takes its snapshot: under the lock, every subscription of the map once. */
  ghost predicate TakesSnapshot(s: State, a: Action, pid: nat, snap: seq<Sub>) {
    && a.Tick? && a.tid == Request(pid) && a.tid in s.threads && s.threads[a.tid].NotifyStart? && s.owner.None?
    && Ranges(a.order, snap, s.subs)
  }

  lemma SnapshotStep(s: State, a: Action, pid: nat)
    requires Snapshot(Step(s, a), pid).Some?
    ensures (Snapshot(s, pid) == Snapshot(Step(s, a), pid) && !a.Crash?)
      || TakesSnapshot(s, a, pid, Snapshot(Step(s, a), pid).value)
  {
    if a.Tick? && a.tid == Request(pid) && a.tid in s.threads && s.threads[a.tid].NotifyStart?
      && Ranged(a.order, s.subs) {
      assert forall i :: 0 <= i < |a.order| ==> a.order[i] in a.order;
    }
  }

  ghost predicate NoCrash(r: Run, i: nat, j: nat)
    requires r.Valid()
  {
    forall n :: i <= n < j && n < |r.actions| ==> !r.actions[n].Crash?
  }

  /**
    A snapshot is exactly what was subscribed at one locked moment of that call:
    nothing is left out, nothing comes later.
  */
  lemma {:induction false} SnapshotIsTheMap(r: Run, j: nat, pid: nat) returns (m: nat)
    requires r.Valid() && j <= |r.actions| && Snapshot(r.states[j], pid).Some?
    ensures m < j && TakesSnapshot(r.states[m], r.actions[m], pid, Snapshot(r.states[j], pid).value) && NoCrash(r, m, j)
  {
    assert r.states[0].threads == map[];
    assert r.Linked(j - 1);
    SnapshotStep(r.states[j - 1], r.actions[j - 1], pid);
    if Snapshot(r.states[j - 1], pid) == Snapshot(r.states[j], pid) && !r.actions[j - 1].Crash? {
      m := SnapshotIsTheMap(r, j - 1, pid);
    } else {
      m := j - 1;
    }
  }

  // ---------------------------------------------------------------- what a notification reaches

  /** The sender sends to this subscription; the action carries the answer. */
  ghost predicate SendsTo(r: Run, m: nat, tid: Tid, sub: Sub)
    requires r.Valid()
  {
    && m < |r.actions| && r.actions[m].Tick? && r.actions[m].tid == tid
    && tid in r.states[m].threads && r.states[m].threads[tid] == Send(sub)
  }

  ghost predicate AnsweredGone(a: Action) {
    a.Tick? && a.ok && (a.status == 404 || a.status == 410)
  }

  lemma OwnSenderStep(s: State, a: Action)
    requires Inv(s) && a.Tick? && a.tid.Sender? && a.tid in s.threads
    ensures a.tid in Step(s, a).threads
    ensures var t, t' := s.threads[a.tid], Step(s, a).threads[a.tid];
      if t.Send? then t' == (if AnsweredGone(a) then Prune(t.sub.endpoint, a.status, Waiting) else Quiet)
      else !t'.Send? && (t'.Prune? <==> t.Prune?)
  {
    assert ThreadInv(s, a.tid, s.threads[a.tid]);
  }

  lemma SenderStep(s: State, a: Action, tid: Tid)
    requires Inv(s) && tid.Sender? && tid in Step(s, a).threads && !Step(s, a).threads[tid].Send?
    ensures !a.Crash? && tid in s.threads
    ensures var t, t' := s.threads[tid], Step(s, a).threads[tid];
      if a.Tick? && a.tid == tid && t.Send? then
        t' == (if AnsweredGone(a) then Prune(t.sub.endpoint, a.status, Waiting) else Quiet)
      else
        !t.Send? && (t'.Prune? <==> t.Prune?)
  {
    if !(a.Tick? && a.tid == tid) { ForeignSender(s, a, tid); } else if tid in s.threads { OwnSenderStep(s, a); }
  }

  lemma ForeignSender(s: State, a: Action, tid: Tid)
    requires tid.Sender? && tid in Step(s, a).threads && !(a.Tick? && a.tid == tid)
    ensures (tid in s.threads && Step(s, a).threads[tid] == s.threads[tid] && !a.Crash?)
      || Step(s, a).threads[tid].Send?
  {
  }

  /** A sender that is past sending has sent, and prunes exactly if the answer was 404 or 410. */
  lemma {:induction false} WhenSent(r: Run, j: nat, tid: Tid) returns (m: nat, sub: Sub)
    requires r.Valid() && j <= |r.actions| && tid.Sender?
    requires tid in r.states[j].threads && !r.states[j].threads[tid].Send?
    ensures m < j && SendsTo(r, m, tid, sub) && NoCrash(r, m, j)
    ensures r.states[j].threads[tid].Prune? <==> AnsweredGone(r.actions[m])
  {
    assert r.states[0].threads == map[];
    RunKeepsInv(r, j - 1);
    assert r.Linked(j - 1);
    var s, a := r.states[j - 1], r.actions[j - 1];
    SenderStep(s, a, tid);
    if s.threads[tid].Send? {
      m, sub := j - 1, s.threads[tid].sub;
    } else {
      m, sub := WhenSent(r, j - 1, tid);
    }
  }

  lemma AcquireStep(s: State, a: Action, tid: Tid)
    requires Inv(s) && tid.Sender? && tid in Step(s, a).threads
    requires Step(s, a).threads[tid].Prune? && !Step(s, a).threads[tid].pc.Waiting?
    ensures tid in s.threads && s.threads[tid].Prune?
    ensures (Acquires(s, a) && a.tid == tid) || !s.threads[tid].pc.Waiting?
  {
    if !(a.Tick? && a.tid == tid) { ForeignStep(s, a, tid); }
  }

  /** A prune that is past waiting has taken the endpoint off. */
  lemma {:induction false} WhenPruned(r: Run, m: nat, j: nat, tid: Tid) returns (n: nat)
    requires r.Valid() && m < j <= |r.actions| && tid.Sender?
    requires tid in r.states[m].threads && r.states[m].threads[tid].Send?
    requires tid in r.states[j].threads && r.states[j].threads[tid].Prune? && !r.states[j].threads[tid].pc.Waiting?
    ensures m < n < j && r.actions[n].Tick? && r.actions[n].tid == tid && Acquires(r.states[n], r.actions[n])
    ensures r.states[n].threads[tid].Prune?
  {
    RunKeepsInv(r, j - 1);
    assert r.Linked(j - 1);
    AcquireStep(r.states[j - 1], r.actions[j - 1], tid);
    if Acquires(r.states[j - 1], r.actions[j - 1]) && r.actions[j - 1].tid == tid {
      n := j - 1;
    } else {
      n := WhenPruned(r, m, j - 1, tid);
    }
  }

  lemma {:induction false} SnapshotStays(r: Run, i: nat, j: nat, pid: nat)
    requires r.Valid() && i <= j <= |r.actions| && Snapshot(r.states[i], pid).Some? && NoCrash(r, i, j)
    ensures Snapshot(r.states[j], pid) == Snapshot(r.states[i], pid)
  {
    if i < j {
      SnapshotStays(r, i, j - 1, pid);
      assert r.Linked(j - 1);
    }
  }

  /** The prune of a sender removes the endpoint of its own snapshot entry. */
  lemma PruneIsOwn(r: Run, n: nat, j: nat, pid: nat, i: nat)
    requires r.Valid() && n < j <= |r.actions| && NoCrash(r, n, j) && Acquires(r.states[n], r.actions[n])
    requires r.actions[n].tid == Sender(pid, i) && r.states[n].threads[Sender(pid, i)].Prune?
    requires Snapshot(r.states[j], pid).Some? && i < |Snapshot(r.states[j], pid).value|
    ensures SenderDrops(r.states[n], r.actions[n], Snapshot(r.states[j], pid).value[i].endpoint)
  {
    RunKeepsInv(r, n);
    assert ThreadInv(r.states[n], Sender(pid, i), r.states[n].threads[Sender(pid, i)]);
    SnapshotStays(r, n, j, pid);
  }

  /**
    A notification that has ended has reached everybody: each entry of its
    snapshot was sent to by a sender of its own after the snapshot was taken,
    and if the answer was 404 or 410 that sender has taken the endpoint off.
  */
  lemma NotifyReachesAll(r: Run, j: nat, pid: nat, i: nat) returns (m0: nat, m: nat)
    requires r.Valid() && j <= |r.actions| && Request(pid) in r.states[j].threads
    requires var t := r.states[j].threads[Request(pid)]; t.NotifyEnd? && i < |t.snap|
    ensures var snap := r.states[j].threads[Request(pid)].snap;
      && m0 < m < j && TakesSnapshot(r.states[m0], r.actions[m0], pid, snap) && SendsTo(r, m, Sender(pid, i), snap[i])
      && (AnsweredGone(r.actions[m]) ==>
          exists n :: m < n < j && r.actions[n].Tick? && r.actions[n].tid == Sender(pid, i)
            && SenderDrops(r.states[n], r.actions[n], snap[i].endpoint))
  {
    RunKeepsInv(r, j);
    var tid, snap := Sender(pid, i), r.states[j].threads[Request(pid)].snap;
    assert Snapshot(r.states[j], pid) == Some(snap);
    var sub;
    m, sub := WhenSent(r, j, tid);
    m0 := SnapshotIsTheMap(r, j, pid);
    SentSnapshot(r, m, j, pid, i, sub);
    AfterSnapshot(r, m0, m, pid, i);
    if AnsweredGone(r.actions[m]) {
      var n := WhenPruned(r, m, j, tid);
      PruneIsOwn(r, n, j, pid, i);
    }
  }

  lemma SentSnapshot(r: Run, m: nat, j: nat, pid: nat, i: nat, sub: Sub)
    requires r.Valid() && m < j <= |r.actions| && NoCrash(r, m, j) && SendsTo(r, m, Sender(pid, i), sub)
    requires Snapshot(r.states[j], pid).Some? && i < |Snapshot(r.states[j], pid).value|
    ensures sub == Snapshot(r.states[j], pid).value[i] && Snapshot(r.states[m], pid) == Snapshot(r.states[j], pid)
  {
    RunKeepsInv(r, m);
    assert ThreadInv(r.states[m], Sender(pid, i), r.states[m].threads[Sender(pid, i)]);
    SnapshotStays(r, m, j, pid);
  }

  /** Before its snapshot is taken, a notification has no senders. */
  lemma AfterSnapshot(r: Run, m0: nat, m: nat, pid: nat, i: nat)
    requires r.Valid() && m < |r.actions| && m0 < |r.actions| && Sender(pid, i) in r.states[m].threads
    requires r.actions[m].Tick? && r.actions[m].tid == Sender(pid, i)
    requires Request(pid) in r.states[m0].threads && r.states[m0].threads[Request(pid)].NotifyStart?
    requires r.actions[m0].Tick? && r.actions[m0].tid == Request(pid) && NoCrash(r, m, m0)
    ensures m0 < m
  {
    RunKeepsInv(r, m);
    assert ThreadInv(r.states[m], Sender(pid, i), r.states[m].threads[Sender(pid, i)]);
    if m <= m0 { SnapshotStays(r, m, m0, pid); }
  }

  // ---------------------------------------------------------------- a notification can end

  ghost function Ran(s: State, acts: seq<Action>): State {
    if acts == [] then s else Step(Ran(s, acts[..|acts| - 1]), acts[|acts| - 1])
  }

  ghost predicate Reaches(s: State, t: State) {
    exists acts: seq<Action> :: Ran(s, acts) == t && forall i :: 0 <= i < |acts| ==> acts[i].Tick?
  }

  lemma ReachesNext(s: State, t: State, a: Action)
    requires Reaches(s, t) && a.Tick?
    ensures Reaches(s, Step(t, a))
  {
    var acts: seq<Action> :| Ran(s, acts) == t && forall i :: 0 <= i < |acts| ==> acts[i].Tick?;
    var next := acts + [a];
    assert next[..|next| - 1] == acts && Ran(s, next) == Step(t, a);
  }

  /** The notification waits; its first k senders are done without having removed anything. */
  ghost predicate Underway(s: State, pid: nat, snap: seq<Sub>, k: nat) {
    && Request(pid) in s.threads && s.threads[Request(pid)] == NotifyWait(snap)
    && forall i :: 0 <= i < |snap| ==>
         Sender(pid, i) in s.threads && s.threads[Sender(pid, i)] == if i < k then Quiet else Send(snap[i])
  }

  lemma SendStep(t: State, pid: nat, snap: seq<Sub>, k: nat)
    requires k < |snap| && Underway(t, pid, snap, k)
    ensures var u := Step(t, Tick(Sender(pid, k), true, [], 201));
      Underway(u, pid, snap, k + 1) && u.subs == t.subs && u.file == t.file && u.owner == t.owner
  {
  }

  lemma {:induction false} SendersFinish(s: State, t: State, pid: nat, snap: seq<Sub>, k: nat) returns (u: State)
    requires k <= |snap| && Reaches(s, t) && Underway(t, pid, snap, k)
    ensures Reaches(s, u) && Underway(u, pid, snap, |snap|)
    ensures u.subs == t.subs && u.file == t.file && u.owner == t.owner
    decreases |snap| - k
  {
    if k == |snap| {
      u := t;
    } else {
      var a := Tick(Sender(pid, k), true, [], 201);
      SendStep(t, pid, snap, k);
      ReachesNext(s, t, a);
      u := SendersFinish(s, Step(t, a), pid, snap, k + 1);
    }
  }

  lemma EndStep(t: State, pid: nat, snap: seq<Sub>)
    requires Underway(t, pid, snap, |snap|)
    ensures Step(t, Tick(Request(pid), true, [], 0)) == t.(threads := t.threads[Request(pid) := NotifyEnd(snap)])
  {
  }

  lemma TakeStep(s: State, pid: nat, order: seq<string>)
    requires s.owner.None? && Request(pid) in s.threads && s.threads[Request(pid)].NotifyStart? && Ranged(order, s.subs)
    ensures var t, snap := Step(s, Tick(Request(pid), true, order, 0)), Values(order, s.subs);
      && t.subs == s.subs && t.file == s.file && t.owner == s.owner
      && (if snap == [] then Request(pid) in t.threads && t.threads[Request(pid)] == NotifyEnd([])
          else Underway(t, pid, snap, 0))
  {
  }

  /**
    A notification can always end: when everybody answers and nobody is gone, it
    reaches its end with the whole map as its snapshot, and nothing has changed.
  */
  lemma NotifyEnds(s: State, pid: nat, order: seq<string>) returns (t: State)
    requires s.owner.None? && Request(pid) in s.threads && s.threads[Request(pid)].NotifyStart? && Ranged(order, s.subs)
    ensures Reaches(s, t) && t.subs == s.subs && t.file == s.file && t.owner.None?
    ensures Request(pid) in t.threads && t.threads[Request(pid)] == NotifyEnd(Values(order, s.subs))
  {
    var snap, a := Values(order, s.subs), Tick(Request(pid), true, order, 0);
    assert Ran(s, []) == s && Reaches(s, s);
    ReachesNext(s, s, a);
    t := Step(s, a);
    TakeStep(s, pid, order);
    if snap != [] {
      t := SendersFinish(s, t, pid, snap, 0);
      EndStep(t, pid, snap);
      ReachesNext(s, t, Tick(Request(pid), true, [], 0));
      t := Step(t, Tick(Request(pid), true, [], 0));
    }
  }

  // ---------------------------------------------------------------- the boundary

  /** What a request or a pruning sender does to the map. */
  function Change(t: Thread): Op
    requires t.Call? || t.Prune?
  {
    if t.Call? then t.op else Drop(t.endpoint)
  }

  function Target(op: Op): string { if op.Put? then op.sub.endpoint else op.endpoint }

  ghost predicate Touches(r: Run, n: nat, e: string)
    requires r.Valid()
  {
    && n < |r.actions| && Acquires(r.states[n], r.actions[n])
    && Target(Change(r.states[n].threads[r.actions[n].tid])) == e
  }

  ghost predicate Untouched(r: Run, e: string, i: nat, j: nat)
    requires r.Valid()
  {
    forall n :: i < n < j ==> !Touches(r, n, e)
  }

  /** The last change of an endpoint between two steps puts this subscription there. */
  ghost predicate LastPut(r: Run, e: string, i: nat, j: nat, n: nat, sub: Sub)
    requires r.Valid()
  {
    i < n < j && Touches(r, n, e) && Untouched(r, e, n, j) && Change(r.states[n].threads[r.actions[n].tid]) == Put(sub)
  }

  lemma SubsStep(s: State, a: Action, e: string)
    requires !a.Crash?
    ensures Acquires(s, a) ==> Step(s, a).subs == Apply(s.subs, Change(s.threads[a.tid]))
    ensures !Acquires(s, a) ==> Step(s, a).subs == s.subs
  {
  }

  /** What is filed under an endpoint, from the changes since an earlier step that changed nothing. */
  lemma {:induction false} Filed(r: Run, e: string, i: nat, j: nat, sub: Sub)
    requires r.Valid() && i < j <= |r.actions| && NoCrash(r, i, j) && !Touches(r, i, e)
    ensures (e in r.states[j].subs && r.states[j].subs[e] == sub) <==> (
        || (Untouched(r, e, i, j) && e in r.states[i].subs && r.states[i].subs[e] == sub)
        || (exists n: nat :: LastPut(r, e, i, j, n, sub)))
  {
    assert r.Linked(j - 1);
    SubsStep(r.states[j - 1], r.actions[j - 1], e);
    if j - 1 == i {
      assert Untouched(r, e, i, j);
    } else if Touches(r, j - 1, e) {
      TouchedLast(r, e, i, j, sub);
    } else {
      Filed(r, e, i, j - 1, sub);
      UntouchedNext(r, e, i, j - 1, j, sub);
    }
  }

  lemma TouchedLast(r: Run, e: string, i: nat, j: nat, sub: Sub)
    requires r.Valid() && i < j - 1 && j <= |r.actions| && Touches(r, j - 1, e)
    ensures !Untouched(r, e, i, j)
    ensures (exists n: nat :: LastPut(r, e, i, j, n, sub))
      <==> Change(r.states[j - 1].threads[r.actions[j - 1].tid]) == Put(sub)
  {
    if Change(r.states[j - 1].threads[r.actions[j - 1].tid]) == Put(sub) {
      assert LastPut(r, e, i, j, j - 1, sub);
    }
  }

  lemma UntouchedNext(r: Run, e: string, i: nat, j: nat, j': nat, sub: Sub)
    requires r.Valid() && i < j && j' == j + 1 <= |r.actions| && !Touches(r, j, e)
    ensures Untouched(r, e, i, j') <==> Untouched(r, e, i, j)
    ensures (exists n: nat :: LastPut(r, e, i, j', n, sub)) <==> (exists n: nat :: LastPut(r, e, i, j, n, sub))
  {
    if n: nat :| LastPut(r, e, i, j', n, sub) {
      assert LastPut(r, e, i, j, n, sub);
    }
    if n: nat :| LastPut(r, e, i, j, n, sub) {
      assert LastPut(r, e, i, j', n, sub);
    }
  }

  /**
    The exact boundary of pruning by endpoint. When a sender takes an endpoint
    off, let its notification have taken the snapshot at step `m`. What the
    sender removes is not the subscription that was answered gone if and only
    if the last change of that endpoint since then was a Subscribe with a
    different subscription; it is that very one if and only if there was no
    change or the last one put it back.
  */
  lemma RenewedExactlyWhen(r: Run, j: nat, e: string) returns (m: nat)
    requires r.Valid() && j < |r.actions| && SenderDrops(r.states[j], r.actions[j], e)
    ensures m < j && NoCrash(r, m, j)
    ensures TakesSnapshot(r.states[m], r.actions[m], r.actions[j].tid.pid,
      Snapshot(r.states[j], r.actions[j].tid.pid).value)
    ensures var answered := Snapshot(r.states[j], r.actions[j].tid.pid).value[r.actions[j].tid.i];
      && ((e in r.states[j].subs && r.states[j].subs[e] != answered)
          <==> exists n: nat, sub :: LastPut(r, e, m, j, n, sub) && sub != answered)
      && ((e in r.states[j].subs && r.states[j].subs[e] == answered)
          <==> Untouched(r, e, m, j) || exists n: nat :: LastPut(r, e, m, j, n, answered))
  {
    var pid, i := r.actions[j].tid.pid, r.actions[j].tid.i;
    m := SnapshotIsTheMap(r, j, pid);
    var answered := Snapshot(r.states[j], pid).value[i];
    RunKeepsInv(r, m);
    assert r.states[m].subs[e] == answered;
    Filed(r, e, m, j, answered);
    if e in r.states[j].subs { Filed(r, e, m, j, r.states[j].subs[e]); }
    forall n: nat, sub | LastPut(r, e, m, j, n, sub) ensures e in r.states[j].subs && r.states[j].subs[e] == sub {
      Filed(r, e, m, j, sub);
    }
  }

  lemma Extend(r: Run, a: Action) returns (r': Run)
    requires r.Valid()
    ensures r'.Valid() && r'.actions == r.actions + [a]
    ensures r'.states == r.states + [Step(r.states[|r.actions|], a)]
  {
    r' := Run(r.states + [Step(r.states[|r.actions|], a)], r.actions + [a]);
    forall i | 0 <= i < |r'.actions| ensures r'.Linked(i) {
      if i < |r.actions| { assert r.Linked(i); }
    }
  }

  function Good(tid: Tid): Action { Tick(tid, true, ["e"], 410) }

  lemma Notified(before: Sub) returns (r: Run)
    requires before.endpoint == "e"
    ensures r.Valid()
    ensures var t := r.states[|r.actions|];
      && t.subs == map["e" := before] && t.owner.None?
      && t.threads == map[Request(0) := NotifyWait([before]), Sender(0, 0) := Send(before)]
  {
    var file := Whole([Some(before)]);
    assert Load(file.doc) == map["e" := before] by { assert file.doc[..0] == []; }
    r := Run([Boot(file)], []);
    r := Extend(r, StartNotify(0));
    assert Ranged(["e"], map["e" := before]);
    assert Values(["e"], map["e" := before]) == [before];
    r := Extend(r, Good(Request(0)));
  }

  lemma OldAndNew(before: Sub, after: Sub) returns (r: Run)
    requires before.endpoint == after.endpoint == "e" && Accepted(after, true)
    ensures r.Valid()
    ensures var t := r.states[|r.actions|];
      && t.subs == map["e" := after] && t.owner == Some(Request(1))
      && t.threads == map[Request(0) := NotifyWait([before]), Sender(0, 0) := Send(before),
         Request(1) := Call(Put(after), Write)]
  {
    r := Notified(before);
    r := Extend(r, StartCall(1, Put(after)));
    r := Extend(r, Good(Request(1)));
  }

  lemma RenewedAndSaved(before: Sub, after: Sub) returns (r: Run)
    requires before.endpoint == after.endpoint == "e" && Accepted(after, true)
    ensures r.Valid()
    ensures var t := r.states[|r.actions|];
      && t.subs == map["e" := after] && t.owner.None?
      && Request(0) in t.threads && t.threads[Request(0)] == NotifyWait([before])
      && Sender(0, 0) in t.threads && t.threads[Sender(0, 0)] == Send(before)
  {
    r := OldAndNew(before, after);
    assert Ranged(["e"], map["e" := after]);
    r := Extend(r, Good(Request(1)));
    r := Extend(r, Good(Request(1)));
    r := Extend(r, Good(Request(1)));
  }

  /**
    Such a run: a subscription that was renewed after the snapshot is removed by
    the late answer to the old one.
  */
  lemma LateGoneRemovesRenewed(before: Sub, after: Sub) returns (r: Run, j: nat)
    requires before.endpoint == after.endpoint == "e" && Accepted(after, true)
    ensures r.Valid() && j < |r.actions|
    ensures r.states[j].subs == map["e" := after] && r.states[j + 1].subs == map[]
    ensures SenderDrops(r.states[j], r.actions[j], "e") && Snapshot(r.states[j], 0) == Some([before])
  {
    r := RenewedAndSaved(before, after);
    r := Extend(r, Good(Sender(0, 0)));
    j := |r.actions|;
    r := Extend(r, Good(Sender(0, 0)));
  }
}
