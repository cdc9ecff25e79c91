/** What holds of the certificate reloader over whole runs. */
module CertTheorems {
  import opened Options
  import opened CertReloader

  // ---------------------------------------------------------------- availability

  /**
    After construction GetCertificate never fails: whatever happens to the
    files and however the callers interleave, it returns a pair whose halves
    were on disk and which loads. The stored expiry is that of the stored pair.
  */
  lemma AlwaysServes(r: Run, j: nat, tid: nat)
    requires r.Valid() && j <= |r.actions| && tid != 0
    requires tid in r.states[j].threads && r.states[j].threads[tid].Returned?
    ensures r.states[j].threads[tid].r.Some?
    ensures Genuine(r.load, r.states[j], r.states[j].threads[tid].r.value)
    ensures r.states[j].f.cert.Some? ==> r.states[j].f.expiry == r.states[j].f.cert.value.notAfter
  {
    RunKeepsInv(r, j);
    assert ThreadInv(r.load, r.states[j], tid, r.states[j].threads[tid]);
  }

  /** What is on record was really on disk at some moment of the run. */
  lemma {:induction false} RecordWasOnDisk(r: Run, j: nat, m: nat, isCert: bool) returns (i: nat)
    requires r.Valid() && j <= |r.actions|
    requires m in (if isCert then r.states[j].certs else r.states[j].keys)
    ensures i <= j
    ensures (if isCert then r.states[i].disk.cert else r.states[i].disk.key)
      == Present((if isCert then r.states[j].certs else r.states[j].keys)[m], m)
  {
    assert r.states[0].certs == map[] && r.states[0].keys == map[];
    assert r.Linked(j - 1);
    var s := r.states[j - 1];
    if m in (if isCert then s.certs else s.keys) { i := RecordWasOnDisk(r, j - 1, m, isCert); } else { i := j; }
  }

  // ---------------------------------------------------------------- what a caller reads

  lemma SeenStep(load: Loader, s: State, a: Action, tid: nat)
    requires tid in Step(load, s, a).threads
    requires Step(load, s, a).threads[tid].StatCert? || Step(load, s, a).threads[tid].StatKey?
    ensures tid in s.threads
    ensures var t, t' := s.threads[tid], Step(load, s, a).threads[tid];
      if t.GetStart? then t'.seen == s.f && s.writer.None?
      else (t.StatCert? || t.StatKey?) && t.seen == t'.seen
  {
    if !(a.Tick? && a.tid == tid) { OtherOrigin(load, s, a, tid); }
  }

  /** What a caller compares with the files are the fields of one moment at which no reload was writing them. */
  lemma {:induction false} SeenWasWhole(r: Run, j: nat, tid: nat) returns (m: nat)
    requires r.Valid() && j <= |r.actions| && tid in r.states[j].threads
    requires r.states[j].threads[tid].StatCert? || r.states[j].threads[tid].StatKey?
    ensures m < j && r.states[m].writer.None? && r.states[m].f == r.states[j].threads[tid].seen
  {
    assert r.Linked(j - 1);
    SeenStep(r.load, r.states[j - 1], r.actions[j - 1], tid);
    if r.states[j - 1].threads[tid].GetStart? { m := j - 1; } else { m := SeenWasWhole(r, j - 1, tid); }
  }

  /** What a caller returns after its own reload is the cached pair of a moment at which nobody was writing. */
  lemma ReadBackIsWhole(r: Run, j: nat, tid: nat)
    requires r.Valid() && j < |r.actions| && tid in r.states[j].threads && r.states[j].threads[tid].ReadBack?
    requires tid in r.states[j + 1].threads && !r.states[j + 1].threads[tid].ReadBack?
    ensures r.states[j].writer.None? && r.states[j + 1].threads[tid] == Returned(r.states[j].f.cert)
  {
    assert r.Linked(j);
    if !(r.actions[j].Tick? && r.actions[j].tid == tid) { StartIsNew(r.load, r.states[j], r.actions[j], tid); }
  }

  lemma StartIsNew(load: Loader, s: State, a: Action, tid: nat)
    requires tid in s.threads && tid in Step(load, s, a).threads && !(a.Tick? && a.tid == tid)
    ensures Step(load, s, a).threads[tid] == s.threads[tid]
  {
    if a.Tick? && a.tid in s.threads { TickFrame(load, s, a.tid, a.now); }
  }

  // ---------------------------------------------------------------- the steps of a reload

  /** When the thread of a reload read each file, stored the pair and recorded each time. */
  datatype Reload = Reload(tid: nat, readCert: nat, readKey: nat, store: nat, recordCert: nat, recordKey: nat)

  ghost predicate Ticks(r: Run, m: nat, tid: nat)
    requires r.Valid()
  {
    m < |r.actions| && r.actions[m].Tick? && r.actions[m].tid == tid && tid in r.states[m].threads
  }

  ghost predicate ReadsCert(r: Run, m: nat, tid: nat, cert: string)
    requires r.Valid()
  {
    && Ticks(r, m, tid) && r.states[m].threads[tid].ReadCert?
    && r.states[m].disk.cert.Present? && r.states[m].disk.cert.data == cert
  }

  ghost predicate ReadsKey(r: Run, m: nat, tid: nat, key: string)
    requires r.Valid()
  {
    && Ticks(r, m, tid) && r.states[m].threads[tid].ReadKey?
    && r.states[m].disk.key.Present? && r.states[m].disk.key.data == key
  }

  /** A pair enters the cache. */
  ghost predicate Stores(s: State, a: Action) {
    a.Tick? && a.tid in s.threads && s.threads[a.tid].Store? && s.writer.None?
  }

  ghost predicate NoStore(r: Run, i: nat, j: nat)
    requires r.Valid() && j <= |r.actions|
  {
    forall n :: i < n < j ==> !Stores(r.states[n], r.actions[n])
  }

  /** Between reading the files and recording their times. */
  ghost predicate InWindow(t: Thread) {
    t.ReadKey? || t.Store? || t.RecordCert? || t.RecordKey?
  }

  ghost predicate Within(r: Run, tid: nat, i: nat, j: nat)
    requires r.Valid() && j <= |r.actions|
  {
    forall n :: i < n <= j ==> tid in r.states[n].threads && InWindow(r.states[n].threads[tid])
  }

  /** How a thread got into a stage of a reload. */
  ghost predicate Came(s: State, s': State, was: Thread, t: Thread) {
    match t
    case ReadKey(_, cert) => was.ReadCert? && s.disk.cert.Present? && s.disk.cert.data == cert
    case Store(_, got) => was.ReadKey? && s.disk.key.Present? && s.disk.key.data == got.key && was.cert == got.cert
    case RecordCert(_) => was.Store? && s.writer.None? && s'.f.cert == Some(was.got)
    case RecordKey(_) => was.RecordCert? && s'.f == s.f.(certMod := FileMod(s.disk.cert))
    case _ => true
  }

  lemma OwnOrigin(load: Loader, s: State, a: Action)
    requires a.Tick? && a.tid in s.threads && a.tid in Step(load, s, a).threads
    ensures var t, t' := s.threads[a.tid], Step(load, s, a).threads[a.tid];
      InWindow(t') ==> t == t' || Came(s, Step(load, s, a), t, t')
  {
  }

  ghost predicate Framed(s: State, s': State, tid: nat) {
    && s'.disk == s.disk && s'.certs == s.certs && s'.keys == s.keys
    && tid in s'.threads && s'.threads == s.threads[tid := s'.threads[tid]]
  }

  lemma UpdateFrame(load: Loader, s: State, tid: nat, now: int)
    requires tid in s.threads && Updates(s.threads[tid])
    ensures Framed(s, TickThread(load, s, tid, now, s.threads[tid]), tid)
  {
  }

  /** A thread's step leaves the files, their history and the other threads alone. */
  lemma TickFrame(load: Loader, s: State, tid: nat, now: int)
    requires tid in s.threads
    ensures Framed(s, TickThread(load, s, tid, now, s.threads[tid]), tid)
  {
    if Updates(s.threads[tid]) { UpdateFrame(load, s, tid, now); } else { NoUpdate(load, s, Tick(tid, now)); }
  }

  lemma OtherOrigin(load: Loader, s: State, a: Action, tid: nat)
    requires tid in Step(load, s, a).threads && !(a.Tick? && a.tid == tid)
    ensures (tid in s.threads && s.threads[tid] == Step(load, s, a).threads[tid])
      || Step(load, s, a).threads[tid].GetStart?
  {
    if a.Tick? && a.tid in s.threads { TickFrame(load, s, a.tid, a.now); }
  }

  lemma Origin(load: Loader, s: State, a: Action, tid: nat)
    requires tid in Step(load, s, a).threads && InWindow(Step(load, s, a).threads[tid])
    ensures tid in s.threads
    ensures s.threads[tid] == Step(load, s, a).threads[tid]
      || (a.Tick? && a.tid == tid && Came(s, Step(load, s, a), s.threads[tid], Step(load, s, a).threads[tid]))
  {
    if !(a.Tick? && a.tid == tid) { OtherOrigin(load, s, a, tid); }
    else if tid in s.threads { OwnOrigin(load, s, a); }
  }

  /** While a thread holds the lock, the others neither store nor touch the fields. */
  lemma HolderAlone(load: Loader, s: State, a: Action, tid: nat)
    requires Inv(load, s) && s.writer == Some(tid)
    ensures !Stores(s, a)
    ensures !(a.Tick? && a.tid == tid) ==> Step(load, s, a).f == s.f
  {
    if a.Tick? && a.tid in s.threads {
      assert ThreadInv(load, s, a.tid, s.threads[a.tid]);
      TickEffect(load, s, a);
    }
  }

  ghost predicate In(r: Run, j: nat, tid: nat)
    requires r.Valid()
  {
    j <= |r.actions| && tid in r.states[j].threads && InWindow(r.states[j].threads[tid])
  }

  lemma {:induction false} WhenCertRead(r: Run, j: nat, tid: nat) returns (p: nat)
    requires r.Valid() && In(r, j, tid) && r.states[j].threads[tid].ReadKey?
    ensures p < j && ReadsCert(r, p, tid, r.states[j].threads[tid].cert) && Within(r, tid, p, j)
  {
    assert r.Linked(j - 1);
    Origin(r.load, r.states[j - 1], r.actions[j - 1], tid);
    if r.states[j - 1].threads[tid] == r.states[j].threads[tid] {
      p := WhenCertRead(r, j - 1, tid);
    } else {
      p := j - 1;
    }
  }

  lemma {:induction false} WhenKeyRead(r: Run, j: nat, tid: nat) returns (p: nat, q: nat)
    requires r.Valid() && In(r, j, tid) && r.states[j].threads[tid].Store?
    ensures p < q < j && Within(r, tid, p, j)
    ensures var got := r.states[j].threads[tid].got; ReadsCert(r, p, tid, got.cert) && ReadsKey(r, q, tid, got.key)
  {
    assert r.Linked(j - 1);
    Origin(r.load, r.states[j - 1], r.actions[j - 1], tid);
    if r.states[j - 1].threads[tid] == r.states[j].threads[tid] { p, q := WhenKeyRead(r, j - 1, tid); }
    else {
      q := j - 1;
      p := WhenCertRead(r, q, tid);
    }
  }

  /** The pair in the cache was read and stored by this thread, and nobody stored another since. */
  ghost predicate Cached(r: Run, j: nat, tid: nat, p: nat, q: nat, st: nat)
    requires r.Valid() && j <= |r.actions|
  {
    && p < q < st < j && r.states[j].f.cert.Some?
    && ReadsCert(r, p, tid, r.states[j].f.cert.value.cert) && ReadsKey(r, q, tid, r.states[j].f.cert.value.key)
    && Ticks(r, st, tid) && Stores(r.states[st], r.actions[st]) && NoStore(r, st, j)
  }

  lemma {:induction false} WhenStored(r: Run, j: nat, tid: nat) returns (p: nat, q: nat, st: nat)
    requires r.Valid() && In(r, j, tid) && r.states[j].threads[tid].RecordCert?
    ensures Cached(r, j, tid, p, q, st) && Within(r, tid, p, j)
  {
    var s, a := r.states[j - 1], r.actions[j - 1];
    assert r.Linked(j - 1);
    Origin(r.load, s, a, tid);
    if s.threads[tid] == r.states[j].threads[tid] {
      p, q, st := WhenStored(r, j - 1, tid);
      HeldStep(r, j - 1, tid);
    } else {
      st := j - 1;
      p, q := WhenKeyRead(r, st, tid);
    }
  }

  /** One step while a recording thread stands still. */
  lemma HeldStep(r: Run, m: nat, tid: nat)
    requires r.Valid() && m < |r.actions| && tid in r.states[m].threads && Recording(r.states[m].threads[tid])
    ensures !Stores(r.states[m], r.actions[m])
    ensures tid in r.states[m + 1].threads
    ensures r.states[m + 1].threads[tid] == r.states[m].threads[tid] ==> r.states[m + 1].f == r.states[m].f
    ensures r.states[m + 1].f.cert == r.states[m].f.cert
  {
    RunKeepsInv(r, m);
    assert ThreadInv(r.load, r.states[m], tid, r.states[m].threads[tid]);
    assert r.Linked(m);
    HolderAlone(r.load, r.states[m], r.actions[m], tid);
  }

  ghost predicate RecordsCert(r: Run, m: nat, tid: nat)
    requires r.Valid()
  {
    Ticks(r, m, tid) && r.states[m].threads[tid].RecordCert?
  }

  ghost predicate RecordsKey(r: Run, m: nat, tid: nat)
    requires r.Valid()
  {
    Ticks(r, m, tid) && r.states[m].threads[tid].RecordKey?
  }

  lemma {:induction false} WhenCertRecorded(r: Run, j: nat, tid: nat) returns (p: nat, q: nat, st: nat, rc: nat)
    requires r.Valid() && In(r, j, tid) && r.states[j].threads[tid].RecordKey?
    ensures Cached(r, j, tid, p, q, st) && Within(r, tid, p, j)
    ensures st < rc < j && RecordsCert(r, rc, tid) && r.states[j].f.certMod == FileMod(r.states[rc].disk.cert)
  {
    var s, a := r.states[j - 1], r.actions[j - 1];
    assert r.Linked(j - 1);
    Origin(r.load, s, a, tid);
    HeldStep(r, j - 1, tid);
    if s.threads[tid] == r.states[j].threads[tid] {
      p, q, st, rc := WhenCertRecorded(r, j - 1, tid);
    } else {
      rc := j - 1;
      p, q, st := WhenStored(r, rc, tid);
    }
  }

  /** This reload put the cached pair and the recorded times where they are, and nobody stored since. */
  ghost predicate LastReload(r: Run, j: nat, w: Reload)
    requires r.Valid() && j <= |r.actions|
  {
    && Cached(r, j, w.tid, w.readCert, w.readKey, w.store) && w.store < w.recordCert < w.recordKey < j
    && RecordsCert(r, w.recordCert, w.tid) && r.states[j].f.certMod == FileMod(r.states[w.recordCert].disk.cert)
    && RecordsKey(r, w.recordKey, w.tid) && r.states[j].f.keyMod == FileMod(r.states[w.recordKey].disk.key)
    && Within(r, w.tid, w.readCert, w.recordKey)
  }

  /** Without a holder the fields stay, unless a pair is stored; a holder lets go by recording the time of the key. */
  lemma Released(load: Loader, s: State, a: Action)
    requires Inv(load, s) && Step(load, s, a).writer.None?
    ensures s.writer.None? ==> Step(load, s, a).f == s.f && !Stores(s, a)
    ensures s.writer.Some? ==> a.Tick? && s.writer == Some(a.tid) && a.tid in s.threads && s.threads[a.tid].RecordKey?
    ensures s.writer.Some? ==> Step(load, s, a).f == s.f.(keyMod := FileMod(s.disk.key))
  {
    if a.Tick? && a.tid in s.threads { assert ThreadInv(load, s, a.tid, s.threads[a.tid]); }
  }

  lemma {:induction false} WhichReload(r: Run, j: nat) returns (w: Reload)
    requires r.Valid() && j <= |r.actions| && r.states[j].writer.None? && r.states[j].f.cert.Some?
    ensures LastReload(r, j, w)
  {
    assert r.Linked(j - 1);
    RunKeepsInv(r, j - 1);
    var s, a := r.states[j - 1], r.actions[j - 1];
    Released(r.load, s, a);
    if s.writer.None? {
      w := WhichReload(r, j - 1);
    } else {
      var p, q, st, rc := WhenCertRecorded(r, j - 1, a.tid);
      HeldStep(r, j - 1, a.tid);
      w := Reload(a.tid, p, q, st, rc, j - 1);
    }
  }

  // ---------------------------------------------------------------- what a file held

  function FileOf(d: Disk, isCert: bool): File { if isCert then d.cert else d.key }

  function Written(s: State, isCert: bool): map<nat, string> { if isCert then s.certs else s.keys }

  /** The external writer replaces the file. */
  ghost predicate Renews(s: State, a: Action, isCert: bool) {
    a.Renew? && a.isCert == isCert && a.mtime != 0 && a.mtime !in Written(s, isCert)
  }

  ghost predicate RenewsAt(r: Run, m: nat, isCert: bool)
    requires r.Valid()
  {
    m < |r.actions| && Renews(r.states[m], r.actions[m], isCert)
  }

  /** The last renewal of the file between two steps. */
  ghost predicate LastRenewal(r: Run, isCert: bool, i: nat, j: nat, m: nat)
    requires r.Valid()
  {
    i < m < j && RenewsAt(r, m, isCert) && forall n :: m < n < j ==> !RenewsAt(r, n, isCert)
  }

  ghost predicate NoRenewal(r: Run, isCert: bool, i: nat, j: nat)
    requires r.Valid()
  {
    forall n :: i < n < j ==> !RenewsAt(r, n, isCert)
  }

  lemma FileStep(load: Loader, s: State, a: Action, isCert: bool)
    ensures var f, f' := FileOf(s.disk, isCert), FileOf(Step(load, s, a).disk, isCert);
      if Renews(s, a, isCert) then f' == Present(a.data, a.mtime) else f' == f || f'.Absent?
    ensures a.Tick? ==> Step(load, s, a).disk == s.disk
  {
  }

  /** What a file holds is what the last renewal wrote, or what it held before. */
  lemma {:induction false} Contents(r: Run, isCert: bool, i: nat, j: nat)
    requires r.Valid() && i < j <= |r.actions| && r.actions[i].Tick? && FileOf(r.states[j].disk, isCert).Present?
    ensures NoRenewal(r, isCert, i, j) ==> FileOf(r.states[j].disk, isCert) == FileOf(r.states[i].disk, isCert)
    ensures forall m: nat ::
      LastRenewal(r, isCert, i, j, m) ==> FileOf(r.states[j].disk, isCert).data == r.actions[m].data
  {
    assert r.Linked(j - 1);
    FileStep(r.load, r.states[j - 1], r.actions[j - 1], isCert);
    if j - 1 > i && !RenewsAt(r, j - 1, isCert) {
      Contents(r, isCert, i, j - 1);
      forall m: nat | LastRenewal(r, isCert, i, j, m) ensures LastRenewal(r, isCert, i, j - 1, m) { }
    }
  }

  lemma {:induction false} FindRenewal(r: Run, isCert: bool, i: nat, j: nat) returns (m: nat)
    requires r.Valid() && i < j && !NoRenewal(r, isCert, i, j)
    ensures LastRenewal(r, isCert, i, j, m)
  {
    if RenewsAt(r, j - 1, isCert) && i < j - 1 { m := j - 1; } else { m := FindRenewal(r, isCert, i, j - 1); }
  }

  /** The last renewal between two steps wrote something else than the file held at the first. */
  ghost predicate Replaced(r: Run, isCert: bool, i: nat, j: nat)
    requires r.Valid() && i <= |r.actions| && FileOf(r.states[i].disk, isCert).Present?
  {
    exists m: nat :: LastRenewal(r, isCert, i, j, m) && r.actions[m].data != FileOf(r.states[i].disk, isCert).data
  }

  lemma ReplacedMeansOther(r: Run, isCert: bool, i: nat, j: nat)
    requires r.Valid() && i < j <= |r.actions| && r.actions[i].Tick?
    requires FileOf(r.states[i].disk, isCert).Present? && FileOf(r.states[j].disk, isCert).Present?
    ensures Replaced(r, isCert, i, j)
      <==> FileOf(r.states[i].disk, isCert).data != FileOf(r.states[j].disk, isCert).data
  {
    Contents(r, isCert, i, j);
    if !NoRenewal(r, isCert, i, j) { var m := FindRenewal(r, isCert, i, j); }
  }

  lemma RecordStep(load: Loader, s: State, a: Action, isCert: bool, m: nat)
    requires m in Written(s, isCert)
    ensures m in Written(Step(load, s, a), isCert) && Written(Step(load, s, a), isCert)[m] == Written(s, isCert)[m]
  {
    if a.Tick? && a.tid in s.threads { TickFrame(load, s, a.tid, a.now); }
  }

  lemma {:induction false} RecordStays(r: Run, i: nat, j: nat, isCert: bool, m: nat)
    requires r.Valid() && i <= j <= |r.actions| && m in Written(r.states[i], isCert)
    ensures m in Written(r.states[j], isCert) && Written(r.states[j], isCert)[m] == Written(r.states[i], isCert)[m]
  {
    if i < j {
      RecordStays(r, i, j - 1, isCert, m);
      assert r.Linked(j - 1);
      RecordStep(r.load, r.states[j - 1], r.actions[j - 1], isCert, m);
    }
  }

  /** A time belongs to one content. */
  lemma SameTimeSameData(r: Run, i: nat, j: nat, isCert: bool)
    requires r.Valid() && i <= j <= |r.actions| && FileOf(r.states[j].disk, isCert).Present?
    requires FileMod(FileOf(r.states[i].disk, isCert)) == FileMod(FileOf(r.states[j].disk, isCert))
    ensures FileOf(r.states[i].disk, isCert) == FileOf(r.states[j].disk, isCert)
  {
    RunKeepsInv(r, i);
    RunKeepsInv(r, j);
    RecordStays(r, i, j, isCert, FileMod(FileOf(r.states[j].disk, isCert)));
  }

  // ---------------------------------------------------------------- freshness

  /** The recorded times are those of the files on disk, so no caller would reload. */
  ghost predicate LooksCurrent(s: State) {
    && s.writer.None? && s.f.cert.Some? && s.disk.cert.Present? && s.disk.key.Present?
    && s.f.certMod == s.disk.cert.mtime && s.f.keyMod == s.disk.key.mtime
  }

  ghost predicate IsCurrent(s: State) {
    && s.f.cert.Some? && s.disk.cert.Present? && s.disk.key.Present?
    && s.f.cert.value.cert == s.disk.cert.data && s.f.cert.value.key == s.disk.key.data
  }

  /**
    The exact condition, in every run: a cache that looks current was filled by
    one last reload, and it is stale if and only if, for one of the two files,
    the last renewal between that reload's reading of the file and its
    recording of the file's time wrote something else than what was read.
  */
  lemma StaleExactlyWhen(r: Run, j: nat) returns (w: Reload)
    requires r.Valid() && j <= |r.actions| && LooksCurrent(r.states[j])
    ensures LastReload(r, j, w)
    ensures !IsCurrent(r.states[j])
      <==> Replaced(r, true, w.readCert, w.recordCert) || Replaced(r, false, w.readKey, w.recordKey)
  {
    w := WhichReload(r, j);
    RunKeepsInv(r, j);
    SameTimeSameData(r, w.recordCert, j, true);
    SameTimeSameData(r, w.recordKey, j, false);
    ReplacedMeansOther(r, true, w.readCert, w.recordCert);
    ReplacedMeansOther(r, false, w.readKey, w.recordKey);
  }

  /** No file is written or removed while a reload is between its reads and its timestamps. */
  ghost predicate QuietStep(s: State, a: Action) {
    a.Renew? || a.Remove? ==> forall t :: t in s.threads ==> !InWindow(s.threads[t])
  }

  ghost predicate Quiet(r: Run)
    requires r.Valid()
  {
    forall i :: 0 <= i < |r.actions| ==> QuietStep(r.states[i], r.actions[i])
  }

  /** If no write falls into a reload's window, equal times mean an equal pair, however reloads race. */
  lemma QuietRunsAreFresh(r: Run, j: nat)
    requires r.Valid() && Quiet(r) && j <= |r.actions| && LooksCurrent(r.states[j])
    ensures IsCurrent(r.states[j]) && r.states[j].f.cert == Truth(r.load, r.states[j].disk)
  {
    RunKeepsInv(r, j);
    var w := StaleExactlyWhen(r, j);
    forall m | w.readCert < m < w.recordKey ensures !RenewsAt(r, m, true) && !RenewsAt(r, m, false) {
      assert QuietStep(r.states[m], r.actions[m]);
    }
  }

  // ---------------------------------------------------------------- nothing heals it

  /** A caller that is not reloading and not about to. */
  ghost predicate Settled(s: State, t: Thread) {
    t.GetStart? || t.ReadBack? || t.Returned? || ((t.StatCert? || t.StatKey?) && t.seen == s.f)
  }

  ghost predicate AllSettled(s: State) {
    LooksCurrent(s) && forall t :: t in s.threads ==> Settled(s, s.threads[t])
  }

  /** No file moves and the expiry is not near. */
  ghost predicate Undisturbed(s: State, a: Action) {
    !a.Renew? && !a.Remove? && (a.Tick? ==> s.f.expiry - a.now >= DAY)
  }

  lemma SettledStep(load: Loader, s: State, a: Action)
    requires AllSettled(s) && Undisturbed(s, a)
    ensures AllSettled(Step(load, s, a)) && Step(load, s, a).f == s.f && Step(load, s, a).disk == s.disk
    ensures forall t :: t in Step(load, s, a).threads && Step(load, s, a).threads[t].Returned? ==>
      (t in s.threads && s.threads[t] == Step(load, s, a).threads[t]) || Step(load, s, a).threads[t].r == s.f.cert
  {
  }

  /**
    A cache that looks current does not heal by itself, stale or not: as long as
    no reload is under way, no file changes and the expiry is not near, the
    fields never change and every call that ends returns the cached pair,
    whatever the interleaving.
  */
  lemma {:induction false} ServesWhatItHas(r: Run, i: nat, j: nat)
    requires r.Valid() && i <= j <= |r.actions| && AllSettled(r.states[i])
    requires forall n :: i <= n < j ==> Undisturbed(r.states[n], r.actions[n])
    ensures AllSettled(r.states[j]) && r.states[j].f == r.states[i].f && r.states[j].disk == r.states[i].disk
    ensures forall t :: t in r.states[j].threads && r.states[j].threads[t].Returned? ==>
      (t in r.states[i].threads && r.states[i].threads[t] == r.states[j].threads[t])
      || r.states[j].threads[t].r == r.states[i].f.cert
  {
    if i < j {
      ServesWhatItHas(r, i, j - 1);
      assert r.Linked(j - 1);
      SettledStep(r.load, r.states[j - 1], r.actions[j - 1]);
    }
  }

  // ---------------------------------------------------------------- one caller alone

  /** A thread that is scheduled so many times in a row. */
  ghost function Ticking(load: Loader, s: State, tid: nat, now: int, n: nat): State {
    if n == 0 then s else Step(load, Ticking(load, s, tid, now, n - 1), Tick(tid, now))
  }

  /** Running alone, the thread takes one state to the other. */
  ghost predicate Reaches(load: Loader, s: State, tid: nat, now: int, t: State) {
    exists n: nat :: Ticking(load, s, tid, now, n) == t
  }

  lemma ReachesNext(load: Loader, s: State, tid: nat, now: int, t: State, u: State)
    requires Reaches(load, s, tid, now, t) && tid in t.threads && u == TickThread(load, t, tid, now, t.threads[tid])
    ensures Reaches(load, s, tid, now, u)
  {
    var n: nat :| Ticking(load, s, tid, now, n) == t;
    assert Ticking(load, s, tid, now, n + 1) == u;
  }

  lemma ReachesSelf(load: Loader, s: State, tid: nat, now: int)
    ensures Reaches(load, s, tid, now, s)
  {
    assert Ticking(load, s, tid, now, 0) == s;
  }

  /** A pending step of the thread, and the thread after it. */
  lemma ReachesThread(load: Loader, s: State, tid: nat, now: int, t: Thread, u: Thread)
    requires Reaches(load, s, tid, now, s.(threads := s.threads[tid := t]))
    requires TickThread(load, s.(threads := s.threads[tid := t]), tid, now, t) == s.(threads := s.threads[tid := u])
    ensures Reaches(load, s, tid, now, s.(threads := s.threads[tid := u]))
  {
    ReachesNext(load, s, tid, now, s.(threads := s.threads[tid := t]), s.(threads := s.threads[tid := u]));
  }

  lemma ChecksAlone(load: Loader, s: State, tid: nat, now: int)
    requires s.writer.None? && tid in s.threads && s.threads[tid].GetStart?
    ensures Reaches(load, s, tid, now,
      s.(threads := s.threads[tid := if Suspect(s.f, s.disk, now) then ReadCert(s.f.cert) else Returned(s.f.cert)]))
  {
    ReachesSelf(load, s, tid, now);
    assert s.(threads := s.threads[tid := GetStart]) == s;
    if s.f.cert.None? || s.f.expiry - now < DAY {
      ReachesThread(load, s, tid, now, GetStart, ReadCert(s.f.cert));
    } else {
      ReachesThread(load, s, tid, now, GetStart, StatCert(s.f));
      StatsAlone(load, s, tid, now);
    }
  }

  lemma StatsAlone(load: Loader, s: State, tid: nat, now: int)
    requires Reaches(load, s, tid, now, s.(threads := s.threads[tid := StatCert(s.f)]))
    requires s.f.cert.Some? && s.f.expiry - now >= DAY
    ensures Reaches(load, s, tid, now,
      s.(threads := s.threads[tid := if Suspect(s.f, s.disk, now) then ReadCert(s.f.cert) else Returned(s.f.cert)]))
  {
    if FileMod(s.disk.cert) != s.f.certMod {
      ReachesThread(load, s, tid, now, StatCert(s.f), ReadCert(s.f.cert));
    } else {
      ReachesThread(load, s, tid, now, StatCert(s.f), StatKey(s.f));
      ReachesThread(load, s, tid, now, StatKey(s.f),
                    if FileMod(s.disk.key) != s.f.keyMod then ReadCert(s.f.cert) else Returned(s.f.cert));
    }
  }

  lemma ReadsAlone(load: Loader, s: State, tid: nat, now: int, prev: Option<Pair>)
    requires Reaches(load, s, tid, now, s.(threads := s.threads[tid := ReadCert(prev)]))
    ensures var pair := Truth(load, s.disk); Reaches(load, s, tid, now,
      s.(threads := s.threads[tid := if pair.Some? then Store(prev, pair.value) else Returned(prev)]))
  {
    if s.disk.cert.Absent? {
      ReachesThread(load, s, tid, now, ReadCert(prev), Returned(prev));
    } else {
      ReachesThread(load, s, tid, now, ReadCert(prev), ReadKey(prev, s.disk.cert.data));
      ReachesThread(load, s, tid, now, ReadKey(prev, s.disk.cert.data),
                    if Truth(load, s.disk).Some? then Store(prev, Truth(load, s.disk).value) else Returned(prev));
    }
  }

  /** The store and the records, under the lock, and the second look at the fields. */
  lemma StoreAlone(load: Loader, s: State, tid: nat, now: int, prev: Option<Pair>, got: Pair)
    requires s.writer.None? && s.ready && Reaches(load, s, tid, now, s.(threads := s.threads[tid := Store(prev, got)]))
    ensures Reaches(load, s, tid, now, s.(
      f := Fields(Some(got), got.notAfter, FileMod(s.disk.cert), FileMod(s.disk.key)),
      threads := s.threads[tid := Returned(Some(got))]))
  {
    var f := s.f.(cert := Some(got), expiry := got.notAfter);
    var t := s.(f := f, writer := Some(tid), threads := s.threads[tid := RecordCert(prev)]);
    ReachesNext(load, s, tid, now, s.(threads := s.threads[tid := Store(prev, got)]), t);
    RecordsAlone(load, s, tid, now, prev, f);
    var f' := f.(certMod := FileMod(s.disk.cert), keyMod := FileMod(s.disk.key));
    ReachesNext(load, s, tid, now, s.(f := f', threads := s.threads[tid := ReadBack]),
                s.(f := f', threads := s.threads[tid := Returned(Some(got))]));
  }

  lemma RecordsAlone(load: Loader, s: State, tid: nat, now: int, prev: Option<Pair>, f: Fields)
    requires s.writer.None? && s.ready
    requires Reaches(load, s, tid, now, s.(f := f, writer := Some(tid), threads := s.threads[tid := RecordCert(prev)]))
    ensures var f' := f.(certMod := FileMod(s.disk.cert), keyMod := FileMod(s.disk.key));
      Reaches(load, s, tid, now, s.(f := f', threads := s.threads[tid := ReadBack]))
  {
    var t := s.(f := f, writer := Some(tid), threads := s.threads[tid := RecordCert(prev)]);
    var f1 := f.(certMod := FileMod(s.disk.cert));
    var t1 := s.(f := f1, writer := Some(tid), threads := s.threads[tid := RecordKey(prev)]);
    ReachesNext(load, s, tid, now, t, t1);
    ReachesNext(load, s, tid, now, t1,
      s.(f := f1.(keyMod := FileMod(s.disk.key)), threads := s.threads[tid := ReadBack]));
  }

  /**
    A caller that runs alone does to the fields, and returns, what the
    sequential GetCertificate does: the class is the machine without interleaving.
  */
  lemma GetCertificateAlone(load: Loader, s: State, tid: nat, now: int)
    requires s.writer.None? && s.ready && tid in s.threads && s.threads[tid].GetStart?
    ensures var f := Answered(load, s.f, s.disk, now);
      Reaches(load, s, tid, now, s.(f := f, threads := s.threads[tid := Returned(f.cert)]))
  {
    ChecksAlone(load, s, tid, now);
    if Suspect(s.f, s.disk, now) {
      ReadsAlone(load, s, tid, now, s.f.cert);
      if Truth(load, s.disk).Some? { StoreAlone(load, s, tid, now, s.f.cert, Truth(load, s.disk).value); }
    }
  }

  // ---------------------------------------------------------------- a renewal in the window

  lemma Extend(r: Run, a: Action) returns (r': Run)
    requires r.Valid()
    ensures r'.Valid() && r'.load == r.load && r'.actions == r.actions + [a]
    ensures r'.states == r.states + [Step(r.load, r.states[|r.actions|], a)]
  {
    r' := Run(r.load, r.states + [Step(r.load, r.states[|r.actions|], a)], r.actions + [a]);
    forall i | 0 <= i < |r'.actions| ensures r'.Linked(i) {
      if i < |r.actions| { assert r.Linked(i); }
    }
  }

  lemma BothRead(load: Loader) returns (r: Run)
    requires load("old", "key").Some?
    ensures r.Valid() && r.load == load
    ensures var s := r.states[|r.actions|];
      && s.disk == Disk(Present("old", 1), Present("key", 1)) && s.certs == map[1 := "old"] && s.keys == map[1 := "key"]
      && s.writer.None?
      && s.threads == map[0 := Store(None, Pair("old", "key", load("old", "key").value))]
  {
    r := Run(load, [START], []);
    r := Extend(r, Renew(true, "old", 1));
    r := Extend(r, Renew(false, "key", 1));
    r := Extend(r, Tick(0, 0));
    r := Extend(r, Tick(0, 0));
  }

  lemma RenewedAndStored(load: Loader) returns (r: Run)
    requires load("old", "key").Some?
    ensures r.Valid() && r.load == load
    ensures var s := r.states[|r.actions|];
      && s.disk == Disk(Present("new", 2), Present("key", 1)) && s.writer == Some(0)
      && s.f.cert == Some(Pair("old", "key", load("old", "key").value)) && s.threads == map[0 := RecordCert(None)]
  {
    r := BothRead(load);
    r := Extend(r, Renew(true, "new", 2));
    r := Extend(r, Tick(0, 0));
  }

  /** A renewal of the certificate inside the window: the old one is cached under the new time. */
  lemma RenewalInWindowGoesStale(load: Loader) returns (r: Run)
    requires load("old", "key").Some?
    ensures r.Valid() && r.load == load
    ensures var s := r.states[|r.actions|]; s.ready && LooksCurrent(s) && !IsCurrent(s) && s.disk.cert.data == "new"
  {
    r := RenewedAndStored(load);
    r := Extend(r, Tick(0, 0));
    r := Extend(r, Tick(0, 0));
  }
}
