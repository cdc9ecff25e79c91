/**
  The certificate reloader: a cache over two files that an external tool
  rewrites at any time. The class is one caller on a quiet disk; the machine
  below it has concurrent callers and a writer between any two calls.
*/
module CertReloader {
  import opened Options

  /** `mtime` 0 is the zero time that a missing file reports. */
  datatype File = Absent | Present(data: string, mtime: nat)

  datatype Disk = Disk(cert: File, key: File)

  datatype Pair = Pair(cert: string, key: string, notAfter: int)

  /** Parsing and matching of a certificate and a key: the expiry, or an error. */
  type Loader = (string, string) -> Option<int>

  const DAY := 24 * 3600

  function FileMod(f: File): nat {
    if f.Present? then f.mtime else 0
  }

  function LoadPair(load: Loader, cert: File, key: File): Option<Pair> {
    if cert.Absent? || key.Absent? then None
    else match load(cert.data, key.data)
      case None => None
      case Some(notAfter) => Some(Pair(cert.data, key.data, notAfter))
  }

  function Truth(load: Loader, d: Disk): Option<Pair> { LoadPair(load, d.cert, d.key) }

  /** Every stored certificate is one that loads, with its own expiry. */
  predicate Loads(load: Loader, p: Pair) {
    load(p.cert, p.key) == Some(p.notAfter)
  }

  datatype Fields = Fields(cert: Option<Pair>, expiry: int, certMod: nat, keyMod: nat)

  /** A caller reloads without a certificate, near its expiry, or when a recorded time is not the file's. */
  predicate Suspect(f: Fields, d: Disk, now: int) {
    f.cert.None? || f.expiry - now < 86400 || FileMod(d.cert) != f.certMod || FileMod(d.key) != f.keyMod
  }

  /** The fields after an answer on a quiet disk: those of the disk if a reload is due and succeeds. */
  function Answered(load: Loader, f: Fields, d: Disk, now: int): Fields {
    if Suspect(f, d, now) && Truth(load, d).Some?
    then Fields(Truth(load, d), Truth(load, d).value.notAfter, FileMod(d.cert), FileMod(d.key)) else f
  }

  // ---------------------------------------------------------------- one caller, quiet disk

  class Reloader {
    const load: Loader
    var cert: Option<Pair>
    var expiry: int
    var certMod: nat
    var keyMod: nat

    ghost predicate Valid()
      reads this
    {
      cert.Some? ==> Loads(load, cert.value) && expiry == cert.value.notAfter
    }

    /** The recorded times are those of the disk only if the cached pair is the disk's. */
    ghost predicate Coherent(d: Disk)
      reads this
    {
      cert.Some? && certMod == FileMod(d.cert) && keyMod == FileMod(d.key) && Truth(load, d).Some?
      ==> cert == Truth(load, d)
    }

    constructor (load: Loader)
      ensures Valid() && this.load == load && cert.None?
    {
      this.load := load;
      cert, expiry, certMod, keyMod := None, 0, 0, 0;
    }

    method Reload(d: Disk) returns (ok: bool)
      requires Valid()
      modifies this
      ensures Valid() && (ok <==> Truth(load, d).Some?)
      ensures ok ==> cert == Truth(load, d) && certMod == FileMod(d.cert) && keyMod == FileMod(d.key)
      ensures !ok ==> cert == old(cert) && expiry == old(expiry) && certMod == old(certMod) && keyMod == old(keyMod)
    {
      var pair := LoadPair(load, d.cert, d.key);
      if pair.None? { return false; }
      cert := pair;
      expiry := pair.value.notAfter;
      certMod := FileMod(d.cert);
      keyMod := FileMod(d.key);
      return true;
    }

    ghost function View(): Fields
      reads this
    {
      Fields(cert, expiry, certMod, keyMod)
    }

    /**
      A failed reload changes nothing and serves what was there. From a
      coherent cache the caller gets the disk's pair whenever that loads.
    */
    method GetCertificate(d: Disk, now: int) returns (r: Option<Pair>)
      requires Valid()
      modifies this
      ensures Valid() && r == cert && View() == Answered(load, old(View()), d, now)
      ensures old(Coherent(d)) ==> Coherent(d) && r == if Truth(load, d).Some? then Truth(load, d) else old(cert)
    {
      var c := cert;
      if c.None? || expiry - now < DAY || FileMod(d.cert) != certMod || FileMod(d.key) != keyMod {
        var ok := Reload(d);
        if !ok { return c; }
        c := cert;
      }
      return c;
    }
  }

  /** NewCertReloader fails exactly when the first load does. */
  method NewReloader(load: Loader, d: Disk) returns (r: Option<Reloader>)
    ensures r.Some? <==> Truth(load, d).Some?
    ensures r.Some? ==> fresh(r.value) && r.value.Valid() && r.value.load == load
    ensures r.Some? ==> r.value.cert == Truth(load, d) && r.value.Coherent(d)
  {
    var reloader := new Reloader(load);
    var ok := reloader.Reload(d);
    return if ok then Some(reloader) else None;
  }

  // ---------------------------------------------------------------- the machine

  datatype Thread =
    | GetStart
    | StatCert(seen: Fields)
    | StatKey(seen: Fields)
    | ReadCert(prev: Option<Pair>)
    | ReadKey(prev: Option<Pair>, cert: string)
    | Store(prev: Option<Pair>, got: Pair)
    | RecordCert(prev: Option<Pair>)
    | RecordKey(prev: Option<Pair>)
    | ReadBack
    | Returned(r: Option<Pair>)

  /** `certs` and `keys` remember what was ever written under which time; thread 0 is NewCertReloader. */
  datatype State = State(
    disk: Disk, certs: map<nat, string>, keys: map<nat, string>,
    f: Fields, writer: Option<nat>, ready: bool, threads: map<nat, Thread>)

  datatype Action =
    | Renew(isCert: bool, data: string, mtime: nat)
    | Remove(isCert: bool)
    | StartGet(tid: nat)
    | Tick(tid: nat, now: int)

  /** What GetCertificate does with a failed reload: keep serving what it had, if anything. */
  function GiveUp(s: State, tid: nat, prev: Option<Pair>): State {
    s.(threads := s.threads[tid := Returned(prev)])
  }

  function TickThread(load: Loader, s: State, tid: nat, now: int, t: Thread): State {
    match t
    case GetStart =>
      if s.writer.Some? then s
      else if s.f.cert.None? || s.f.expiry - now < DAY then s.(threads := s.threads[tid := ReadCert(s.f.cert)])
      else s.(threads := s.threads[tid := StatCert(s.f)])
    case StatCert(seen) =>
      s.(threads := s.threads[tid := if FileMod(s.disk.cert) != seen.certMod then ReadCert(seen.cert)
        else StatKey(seen)])
    case StatKey(seen) =>
      s.(threads := s.threads[tid := if FileMod(s.disk.key) != seen.keyMod then ReadCert(seen.cert)
        else Returned(seen.cert)])
    case ReadCert(prev) =>
      if s.disk.cert.Absent? then GiveUp(s, tid, prev)
      else s.(threads := s.threads[tid := ReadKey(prev, s.disk.cert.data)])
    case ReadKey(prev, cert) =>
      if s.disk.key.Absent? || load(cert, s.disk.key.data).None? then GiveUp(s, tid, prev)
      else
        var pair := Pair(cert, s.disk.key.data, load(cert, s.disk.key.data).value);
        s.(threads := s.threads[tid := Store(prev, pair)])
    case Store(prev, got) =>
      if s.writer.Some? then s
      else s.(f := s.f.(cert := Some(got), expiry := got.notAfter),
              writer := Some(tid), threads := s.threads[tid := RecordCert(prev)])
    case RecordCert(prev) =>
      s.(f := s.f.(certMod := FileMod(s.disk.cert)), threads := s.threads[tid := RecordKey(prev)])
    case RecordKey(prev) =>
      s.(f := s.f.(keyMod := FileMod(s.disk.key)), writer := None, ready := true, threads := s.threads[tid := ReadBack])
    case ReadBack =>
      if s.writer.Some? then s else s.(threads := s.threads[tid := Returned(s.f.cert)])
    case Returned(_) => s
  }

  /** Every write gives the file a time it never had; requests arrive once construction has succeeded. */
  function Step(load: Loader, s: State, a: Action): State {
    match a
    case Renew(isCert, data, mtime) =>
      if mtime == 0 || mtime in (if isCert then s.certs else s.keys) then s
      else if isCert then s.(disk := s.disk.(cert := Present(data, mtime)), certs := s.certs[mtime := data])
      else s.(disk := s.disk.(key := Present(data, mtime)), keys := s.keys[mtime := data])
    case Remove(isCert) =>
      if isCert then s.(disk := s.disk.(cert := Absent)) else s.(disk := s.disk.(key := Absent))
    case StartGet(tid) =>
      if !s.ready || tid in s.threads then s else s.(threads := s.threads[tid := GetStart])
    case Tick(tid, now) =>
      if tid in s.threads then TickThread(load, s, tid, now, s.threads[tid]) else s
  }

  const START := State(
    Disk(Absent, Absent), map[], map[], Fields(None, 0, 0, 0), None, false, map[0 := ReadCert(None)])

  datatype Run = Run(load: Loader, states: seq<State>, actions: seq<Action>) {
    ghost predicate Linked(i: nat)
      requires i < |actions| && |states| == |actions| + 1
    {
      states[i + 1] == Step(load, states[i], actions[i])
    }

    ghost predicate Valid() {
      && |states| == |actions| + 1
      && states[0] == START
      && (forall i :: 0 <= i < |actions| ==> Linked(i))
    }
  }

  // ---------------------------------------------------------------- invariant

  ghost predicate OnRecord(certs: map<nat, string>, f: File) {
    f.Present? ==> f.mtime != 0 && f.mtime in certs && certs[f.mtime] == f.data
  }

  /** The pair was read from files that were once on disk, and it loads. */
  ghost predicate Genuine(load: Loader, s: State, p: Pair) {
    Loads(load, p) && p.cert in s.certs.Values && p.key in s.keys.Values
  }

  ghost predicate FieldsInv(load: Loader, s: State, f: Fields) {
    f.cert.Some? && Genuine(load, s, f.cert.value) && f.expiry == f.cert.value.notAfter
  }

  /** What a caller falls back to: nothing for the constructor, a genuine pair for everybody else. */
  ghost predicate PrevInv(load: Loader, s: State, tid: nat, prev: Option<Pair>) {
    if prev.Some? then Genuine(load, s, prev.value) else tid == 0
  }

  ghost predicate ThreadInv(load: Loader, s: State, tid: nat, t: Thread) {
    match t
    case GetStart => s.ready
    case StatCert(seen) => FieldsInv(load, s, seen)
    case StatKey(seen) => FieldsInv(load, s, seen)
    case ReadCert(prev) => PrevInv(load, s, tid, prev)
    case ReadKey(prev, cert) => PrevInv(load, s, tid, prev) && cert in s.certs.Values
    case Store(prev, got) => PrevInv(load, s, tid, prev) && Genuine(load, s, got)
    case RecordCert(_) => s.writer == Some(tid)
    case RecordKey(_) => s.writer == Some(tid)
    case ReadBack => s.ready
    case Returned(r) => PrevInv(load, s, tid, r)
  }

  ghost predicate CacheInv(load: Loader, s: State) {
    && OnRecord(s.certs, s.disk.cert) && OnRecord(s.keys, s.disk.key)
    && (s.f.cert.Some? ==> FieldsInv(load, s, s.f))
    && (s.ready || s.writer.Some? ==> s.f.cert.Some?)
    && 0 in s.threads
    && (s.writer.Some? ==> s.writer.value in s.threads && Recording(s.threads[s.writer.value]))
  }

  ghost predicate Recording(t: Thread) { t.RecordCert? || t.RecordKey? }

  ghost predicate Inv(load: Loader, s: State) {
    && CacheInv(load, s)
    && (forall t :: t in s.threads ==> ThreadInv(load, s, t, s.threads[t]))
  }

  ghost predicate Grows(s: State, s': State) {
    && (forall m :: m in s.certs ==> m in s'.certs && s'.certs[m] == s.certs[m])
    && (forall m :: m in s.keys ==> m in s'.keys && s'.keys[m] == s.keys[m])
    && (s.ready ==> s'.ready)
  }

  lemma ThreadKept(load: Loader, s: State, s': State, tid: nat, t: Thread)
    requires ThreadInv(load, s, tid, t) && Grows(s, s') && (s.writer == Some(tid) ==> s'.writer == Some(tid))
    ensures ThreadInv(load, s', tid, t)
  {
  }

  ghost predicate Moving(load: Loader, s: State, a: Action) {
    CacheInv(load, s) && a.Tick? && a.tid in s.threads && ThreadInv(load, s, a.tid, s.threads[a.tid])
  }

  /** Only the three steps under the write lock touch the fields. */
  ghost predicate Updates(t: Thread) { t.Store? || t.RecordCert? || t.RecordKey? }

  lemma NoUpdate(load: Loader, s: State, a: Action)
    requires a.Tick? && a.tid in s.threads && !Updates(s.threads[a.tid])
    ensures var s' := TickThread(load, s, a.tid, a.now, s.threads[a.tid]);
      a.tid in s'.threads && s' == s.(threads := s.threads[a.tid := s'.threads[a.tid]])
  {
  }

  /** What a step does to the others: the disk stays, and the fields change only under the lock. */
  ghost predicate Effect(s: State, s': State, tid: nat) {
    && Grows(s, s') && s'.disk == s.disk
    && tid in s'.threads && s'.threads == s.threads[tid := s'.threads[tid]]
    && (forall t :: t != tid ==> (s.writer == Some(t) <==> s'.writer == Some(t)))
    && (s.writer.Some? && s.writer != Some(tid) ==> s'.f == s.f)
  }

  lemma UpdateEffect(load: Loader, s: State, a: Action)
    requires Moving(load, s, a) && Updates(s.threads[a.tid])
    ensures Effect(s, TickThread(load, s, a.tid, a.now, s.threads[a.tid]), a.tid)
  {
  }

  lemma TickEffect(load: Loader, s: State, a: Action)
    requires Moving(load, s, a)
    ensures Effect(s, Step(load, s, a), a.tid)
  {
    if Updates(s.threads[a.tid]) { UpdateEffect(load, s, a); } else { NoUpdate(load, s, a); }
  }

  lemma UpdateCache(load: Loader, s: State, a: Action)
    requires Moving(load, s, a) && Updates(s.threads[a.tid])
    ensures CacheInv(load, TickThread(load, s, a.tid, a.now, s.threads[a.tid]))
  {
  }

  lemma TickCache(load: Loader, s: State, a: Action)
    requires Moving(load, s, a) && (s.writer == Some(a.tid) ==> Recording(s.threads[a.tid]))
    ensures CacheInv(load, TickThread(load, s, a.tid, a.now, s.threads[a.tid]))
  {
    if Updates(s.threads[a.tid]) { UpdateCache(load, s, a); } else { NoUpdate(load, s, a); }
  }

  lemma OwnUpdate(load: Loader, s: State, a: Action)
    requires Moving(load, s, a) && Updates(s.threads[a.tid])
    ensures a.tid in Step(load, s, a).threads
    ensures ThreadInv(load, Step(load, s, a), a.tid, Step(load, s, a).threads[a.tid])
  {
  }

  lemma OwnRead(load: Loader, s: State, a: Action)
    requires Moving(load, s, a) && (s.threads[a.tid].ReadCert? || s.threads[a.tid].ReadKey?)
    ensures a.tid in Step(load, s, a).threads
    ensures ThreadInv(load, Step(load, s, a), a.tid, Step(load, s, a).threads[a.tid])
  {
    if s.disk.cert.Present? { assert s.certs[s.disk.cert.mtime] in s.certs.Values; }
    if s.disk.key.Present? { assert s.keys[s.disk.key.mtime] in s.keys.Values; }
  }

  /** The moving thread's own invariant. */
  lemma TickOwn(load: Loader, s: State, a: Action)
    requires Moving(load, s, a)
    ensures a.tid in Step(load, s, a).threads
    ensures ThreadInv(load, Step(load, s, a), a.tid, Step(load, s, a).threads[a.tid])
  {
    if Updates(s.threads[a.tid]) { OwnUpdate(load, s, a); }
    else if s.threads[a.tid].ReadCert? || s.threads[a.tid].ReadKey? { OwnRead(load, s, a); }
  }

  lemma TickStep(load: Loader, s: State, a: Action)
    requires Inv(load, s) && a.Tick? && a.tid in s.threads
    ensures Inv(load, Step(load, s, a))
  {
    var s' := Step(load, s, a);
    TickEffect(load, s, a);
    TickCache(load, s, a);
    TickOwn(load, s, a);
    OthersKept(load, s, s', a.tid);
  }

  lemma OthersKept(load: Loader, s: State, s': State, tid: nat)
    requires Inv(load, s) && Grows(s, s') && tid in s'.threads && s'.threads == s.threads[tid := s'.threads[tid]]
    requires forall t :: t != tid ==> (s.writer == Some(t) <==> s'.writer == Some(t))
    ensures forall t :: t in s'.threads && t != tid ==> ThreadInv(load, s', t, s'.threads[t])
  {
  }

  lemma EnvGrows(load: Loader, s: State, a: Action)
    requires !a.Tick?
    ensures Grows(s, Step(load, s, a)) && Step(load, s, a).f == s.f
  {
  }

  lemma GenuineKept(load: Loader, s: State, s': State, p: Pair)
    requires Genuine(load, s, p) && Grows(s, s')
    ensures Genuine(load, s', p)
  {
  }

  lemma EnvCache(load: Loader, s: State, a: Action)
    requires CacheInv(load, s) && !a.Tick?
    ensures CacheInv(load, Step(load, s, a)) && Grows(s, Step(load, s, a))
  {
    EnvGrows(load, s, a);
    if s.f.cert.Some? { GenuineKept(load, s, Step(load, s, a), s.f.cert.value); }
  }

  lemma EnvStep(load: Loader, s: State, a: Action)
    requires Inv(load, s) && !a.Tick?
    ensures Inv(load, Step(load, s, a))
  {
    var s' := Step(load, s, a);
    EnvCache(load, s, a);
    forall t | t in s'.threads ensures ThreadInv(load, s', t, s'.threads[t]) {
      if t in s.threads { ThreadKept(load, s, s', t, s.threads[t]); }
    }
  }

  lemma StepKeepsInv(load: Loader, s: State, a: Action)
    requires Inv(load, s)
    ensures Inv(load, Step(load, s, a))
  {
    if !a.Tick? { EnvStep(load, s, a); } else if a.tid in s.threads { TickStep(load, s, a); }
  }

  lemma {:induction false} RunKeepsInv(r: Run, j: nat)
    requires r.Valid() && j <= |r.actions|
    ensures Inv(r.load, r.states[j])
  {
    if j > 0 {
      RunKeepsInv(r, j - 1);
      assert r.Linked(j - 1);
      StepKeepsInv(r.load, r.states[j - 1], r.actions[j - 1]);
    }
  }
}
