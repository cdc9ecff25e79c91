/**
  The SMTP transaction: MAIL, RCPT, DATA and RSET over one session, the
  allowlist, the policy decision and delivery per recipient. `Do` is the
  meaning of one command, the class runs it in place, and the ledger says what
  a whole sequence of commands must have put into every mailbox.
*/
module Smtp {
  import opened Options
  import opened Strings
  import opened Mailauth
  import opened Headers
  import opened Config
  import Maildir
  import MaildirStore

  const MAX_MESSAGE_BYTES := 25 * 1024 * 1024

  /** How the stored copy is made of a message, its results and the decision. */
  type Injector = (string, Results, Action) -> string

  /** The program's own: the two header fields in front. */
  function HeaderInjector(quote: Quoter, domain: string): Injector {
    (raw, r, action) => Inject(quote, raw, domain, r, action)
  }

  /**
    Everything a session takes from the configuration. `shadowed` says whether
    Deliver loses the errors of Write and Sync, as it is written.
  */
  datatype Setup = Setup(
    lower: CaseMap, inject: Injector, policy: Policy, entries: seq<string>, notifies: bool, shadowed: bool)

  type Boxes = map<string, seq<string>>

  /** What the file system does with each delivery attempt of one message. */
  type Attempts = nat -> MaildirStore.Outcomes

  datatype Command =
    | Mail(from: string)
    | Rcpt(to: string)
    | Data(payload: string, readOk: bool, res: Results, disk: Attempts)
    | Rset

  datatype Reply = Ok | Unknown | ReadFailed | TooLarge | Rejected | NotStored

  /** The status code the program chooses; a broken read is left to the library. */
  function Code(reply: Reply): Option<nat> {
    match reply
    case Ok => Some(250)
    case Unknown => Some(550)
    case ReadFailed => None
    case TooLarge => Some(552)
    case Rejected => Some(554)
    case NotStored => Some(451)
  }

  datatype Session = Session(mailFrom: string, rcpts: seq<string>, boxes: Boxes, notified: seq<string>)

  // ---------------------------------------------------------------- one command

  function In(b: Boxes, m: string): seq<string> { if m in b then b[m] else [] }

  function Put(b: Boxes, m: string, msg: string): Boxes { b[m := In(b, m) + [msg]] }

  /** Where Deliver files mail for a recipient, and when it refuses to. */
  function Mailbox(c: Setup, rcpt: string): string { Canon(c.lower, rcpt) }

  predicate Deliverable(c: Setup, rcpt: string) { Maildir.ValidRecipient(Mailbox(c, rcpt)) }

  /** An attempt that reports success. */
  predicate Succeeds(c: Setup, rcpt: string, o: MaildirStore.Outcomes) {
    Deliverable(c, rcpt) && MaildirStore.Completes(c.shadowed, o)
  }

  /** How many recipients are served before the first failure. */
  function Served(c: Setup, rcpts: seq<string>, disk: Attempts, from: nat): (n: nat)
    requires from <= |rcpts|
    ensures from <= n <= |rcpts|
    ensures forall i :: from <= i < n ==> Succeeds(c, rcpts[i], disk(i))
    ensures n < |rcpts| ==> !Succeeds(c, rcpts[n], disk(n))
    decreases |rcpts| - from
  {
    if from < |rcpts| && Succeeds(c, rcpts[from], disk(from)) then Served(c, rcpts, disk, from + 1) else from
  }

  function Deposit(c: Setup, b: Boxes, rcpts: seq<string>, disk: Attempts, msg: string): Boxes {
    if rcpts == [] then b
    else
      var last := |rcpts| - 1;
      Put(Deposit(c, b, rcpts[..last], disk, msg), Mailbox(c, rcpts[last]), MaildirStore.Kept(disk(last), msg))
  }

  lemma DepositNext(c: Setup, b: Boxes, rcpts: seq<string>, i: nat, disk: Attempts, msg: string)
    requires i < |rcpts|
    ensures Deposit(c, b, rcpts[..i + 1], disk, msg)
      == Put(Deposit(c, b, rcpts[..i], disk, msg), Mailbox(c, rcpts[i]), MaildirStore.Kept(disk(i), msg))
  {
    assert rcpts[..i + 1][..i] == rcpts[..i] && rcpts[..i + 1][i] == rcpts[i];
  }

  /** A message that is neither too large nor rejected, and was read to its end. */
  predicate Taken(c: Setup, d: Command) {
    d.Data? && d.readOk && |d.payload| <= MAX_MESSAGE_BYTES && Decide(c.policy, d.res) != "reject"
  }

  function StoredCopy(c: Setup, d: Command): string
    requires d.Data?
  {
    c.inject(d.payload, d.res, Decide(c.policy, d.res))
  }

  function DataReply(c: Setup, rcpts: seq<string>, d: Command): Reply
    requires d.Data?
  {
    if !d.readOk then ReadFailed
    else if |d.payload| > MAX_MESSAGE_BYTES then TooLarge
    else if Decide(c.policy, d.res) == "reject" then Rejected
    else if Served(c, rcpts, d.disk, 0) < |rcpts| then NotStored
    else Ok
  }

  function Do(c: Setup, s: Session, d: Command): Session {
    match d
    case Mail(from) => s.(mailFrom := from)
    case Rset => s.(mailFrom := "", rcpts := [])
    case Rcpt(to) => if Accepts(c.lower, c.entries, to) then s.(rcpts := s.rcpts + [ToLower(c.lower, to)]) else s
    case Data(_, _, _, _) =>
      var reply := DataReply(c, s.rcpts, d);
      if reply != Ok && reply != NotStored then s
      else s.(boxes := Deposit(c, s.boxes, s.rcpts[..Served(c, s.rcpts, d.disk, 0)], d.disk, StoredCopy(c, d)),
              notified := s.notified + if reply == Ok && c.notifies then [StoredCopy(c, d)] else [])
  }

  /** The session after the stored copy has gone to the recipients, one after the other. */
  function Stored(c: Setup, s: Session, disk: Attempts, raw: string): Session {
    var n := Served(c, s.rcpts, disk, 0);
    s.(boxes := Deposit(c, s.boxes, s.rcpts[..n], disk, raw),
       notified := s.notified + if n == |s.rcpts| && c.notifies then [raw] else [])
  }

  /** What DATA amounts to once the message has passed the size limit and the policy. */
  lemma DataStores(c: Setup, s: Session, d: Command, raw: string)
    requires Taken(c, d) && raw == StoredCopy(c, d)
    ensures DataReply(c, s.rcpts, d) == if Served(c, s.rcpts, d.disk, 0) < |s.rcpts| then NotStored else Ok
    ensures Do(c, s, d) == Stored(c, s, d.disk, raw)
  {
  }

  // ---------------------------------------------------------------- the session in place

  class Store {
    var boxes: Boxes

    /** Success files the message in the canonical mailbox, or what a failing Write took of it. */
    method Deliver(c: Setup, recipient: string, msg: string, o: MaildirStore.Outcomes) returns (ok: bool)
      modifies this
      ensures ok <==> Succeeds(c, recipient, o)
      ensures boxes == if ok then Put(old(boxes), Mailbox(c, recipient), MaildirStore.Kept(o, msg)) else old(boxes)
    {
      var box := ToLower(c.lower, TrimSpace(recipient));
      if box == "" || '/' in box || '\\' in box { return false; }
      if !o.mkdir || !o.create { return false; }
      var err := false;
      if !o.write || !o.sync { err := !c.shadowed; }
      if err || !o.close || !o.rename { return false; }
      boxes := Put(boxes, box, if o.write || o.count >= |msg| then msg else msg[..o.count]);
      return true;
    }
  }

  class Conversation {
    const c: Setup
    const store: Store
    var mailFrom: string
    var rcpts: seq<string>
    var notified: seq<string>

    ghost function View(): Session
      reads this, store
    {
      Session(mailFrom, rcpts, store.boxes, notified)
    }

    constructor (c: Setup, store: Store)
      ensures this.c == c && this.store == store && View() == Session("", [], store.boxes, [])
    {
      this.c, this.store, mailFrom, rcpts, notified := c, store, "", [], [];
    }

    method Reset()
      modifies this
      ensures View() == Do(c, old(View()), Rset)
    {
      mailFrom := "";
      rcpts := [];
    }

    method MailFrom(from: string)
      modifies this
      ensures View() == Do(c, old(View()), Mail(from))
    {
      mailFrom := from;
    }

    method RcptTo(to: string) returns (reply: Reply)
      modifies this
      ensures View() == Do(c, old(View()), Rcpt(to))
      ensures Code(reply) == Some(if Accepts(c.lower, c.entries, to) then 250 else 550)
    {
      if !Accepts(c.lower, c.entries, to) { return Unknown; }
      rcpts := rcpts + [ToLower(c.lower, to)];
      return Ok;
    }

    method ReceiveData(d: Command) returns (reply: Reply)
      requires d.Data?
      modifies this, store
      ensures View() == Do(c, old(View()), d)
      ensures reply == DataReply(c, old(rcpts), d)
    {
      if !d.readOk { return ReadFailed; }
      // The limited reader hands out one byte more than the cap, if there is one.
      var raw := if |d.payload| <= MAX_MESSAGE_BYTES + 1 then d.payload else d.payload[..MAX_MESSAGE_BYTES + 1];
      if |raw| > MAX_MESSAGE_BYTES { return TooLarge; }
      var action := Decide(c.policy, d.res);
      if action == "reject" { return Rejected; }
      raw := c.inject(raw, d.res, action);
      DataStores(c, View(), d, raw);
      reply := StoreAll(raw, d.disk);
    }

    /** The part of Data behind the checks. */
    method StoreAll(raw: string, disk: Attempts) returns (reply: Reply)
      modifies this, store
      ensures View() == Stored(c, old(View()), disk, raw)
      ensures reply == if Served(c, old(rcpts), disk, 0) < |old(rcpts)| then NotStored else Ok
    {
      var all := DeliverLoop(raw, disk);
      assert notified + [] == notified;
      if !all { return NotStored; }
      if c.notifies { notified := notified + [raw]; }
      return Ok;
    }

    method DeliverLoop(raw: string, disk: Attempts) returns (all: bool)
      modifies store
      ensures all <==> Served(c, rcpts, disk, 0) == |rcpts|
      ensures store.boxes == Deposit(c, old(store.boxes), rcpts[..Served(c, rcpts, disk, 0)], disk, raw)
    {
      assert rcpts[..0] == [];
      for i := 0 to |rcpts|
        invariant Served(c, rcpts, disk, 0) == Served(c, rcpts, disk, i)
        invariant store.boxes == Deposit(c, old(store.boxes), rcpts[..i], disk, raw)
      {
        var ok := store.Deliver(c, rcpts[i], raw, disk(i));
        if !ok { return false; }
        DepositNext(c, old(store.boxes), rcpts, i, disk, raw);
      }
      assert rcpts[..|rcpts|] == rcpts;
      return true;
    }
  }

  // ---------------------------------------------------------------- one message

  function Repeat(msg: string, n: nat): (r: seq<string>)
    ensures |r| == n && forall i :: 0 <= i < n ==> r[i] == msg
  {
    if n == 0 then [] else Repeat(msg, n - 1) + [msg]
  }

  /** How often a mailbox is named, by the address the allowlist judged. */
  function Copies(c: Setup, rcpts: seq<string>, m: string): nat {
    if rcpts == [] then 0
    else Copies(c, rcpts[..|rcpts| - 1], m) + if Mailbox(c, rcpts[|rcpts| - 1]) == m then 1 else 0
  }

  /** What the recipients filed in a mailbox get there, one entry each. */
  function Filed(c: Setup, rcpts: seq<string>, disk: Attempts, msg: string, m: string): seq<string> {
    if rcpts == [] then []
    else
      var last := |rcpts| - 1;
      var kept := MaildirStore.Kept(disk(last), msg);
      Filed(c, rcpts[..last], disk, msg, m) + if Mailbox(c, rcpts[last]) == m then [kept] else []
  }

  /** Depositing puts into each mailbox one entry per recipient that is filed there, and touches nothing else. */
  lemma {:induction false} DepositCounts(c: Setup, b: Boxes, rcpts: seq<string>, disk: Attempts, msg: string, m: string)
    ensures In(Deposit(c, b, rcpts, disk, msg), m) == In(b, m) + Filed(c, rcpts, disk, msg, m)
    ensures |Filed(c, rcpts, disk, msg, m)| == Copies(c, rcpts, m)
  {
    SameLength(c, rcpts, disk, msg, m);
    if rcpts != [] {
      var last := |rcpts| - 1;
      var before := rcpts[..last];
      DepositCounts(c, b, before, disk, msg, m);
      PutBehind(Deposit(c, b, before, disk, msg), Mailbox(c, rcpts[last]), MaildirStore.Kept(disk(last), msg), m,
                In(b, m), Filed(c, before, disk, msg, m));
    }
  }

  lemma PutBehind(b: Boxes, box: string, msg: string, m: string, start: seq<string>, filed: seq<string>)
    requires In(b, m) == start + filed
    ensures In(Put(b, box, msg), m) == start + (filed + if box == m then [msg] else [])
  {
    PutOne(b, box, msg, m);
    Regroup(start, filed, if box == m then [msg] else []);
  }

  /** Some attempt for the mailbox had a short write. */
  ghost predicate Truncates(c: Setup, rcpts: seq<string>, disk: Attempts, msg: string, m: string) {
    exists i :: 0 <= i < |rcpts| && Mailbox(c, rcpts[i]) == m && MaildirStore.Short(disk(i), msg)
  }

  lemma TruncatesLast(c: Setup, rcpts: seq<string>, disk: Attempts, msg: string, m: string)
    requires rcpts != []
    ensures var last := |rcpts| - 1;
      Truncates(c, rcpts, disk, msg, m)
      <==> (
        || Truncates(c, rcpts[..last], disk, msg, m)
        || (Mailbox(c, rcpts[last]) == m && MaildirStore.Short(disk(last), msg)))
  {
    var last := |rcpts| - 1;
    if i :| 0 <= i < |rcpts| && Mailbox(c, rcpts[i]) == m && MaildirStore.Short(disk(i), msg) && i < last {
      assert rcpts[..last][i] == rcpts[i];
    }
    if i :| 0 <= i < last && Mailbox(c, rcpts[..last][i]) == m && MaildirStore.Short(disk(i), msg) {
      assert rcpts[..last][i] == rcpts[i];
    }
  }

  /** The entries are whole copies of the message if and only if no attempt had a short write. */
  lemma {:induction false} WholeExactlyWhen(c: Setup, rcpts: seq<string>, disk: Attempts, msg: string, m: string)
    ensures Filed(c, rcpts, disk, msg, m) == Repeat(msg, Copies(c, rcpts, m)) <==> !Truncates(c, rcpts, disk, msg, m)
  {
    if rcpts != [] {
      var last := |rcpts| - 1;
      var before := rcpts[..last];
      WholeExactlyWhen(c, before, disk, msg, m);
      TruncatesLast(c, rcpts, disk, msg, m);
      SameLength(c, before, disk, msg, m);
      if Mailbox(c, rcpts[last]) == m {
        RepeatNext(Filed(c, before, disk, msg, m), MaildirStore.Kept(disk(last), msg), msg);
      } else {
        assert Filed(c, rcpts, disk, msg, m) == Filed(c, before, disk, msg, m);
      }
    }
  }

  lemma {:induction false} SameLength(c: Setup, rcpts: seq<string>, disk: Attempts, msg: string, m: string)
    ensures |Filed(c, rcpts, disk, msg, m)| == Copies(c, rcpts, m)
  {
    if rcpts != [] { SameLength(c, rcpts[..|rcpts| - 1], disk, msg, m); }
  }

  lemma RepeatNext(copies: seq<string>, kept: string, msg: string)
    ensures copies + [kept] == Repeat(msg, |copies| + 1) <==> copies == Repeat(msg, |copies|) && kept == msg
  {
    SameParts(copies, [kept], Repeat(msg, |copies|), [msg]);
  }

  lemma PutOne(b: Boxes, box: string, msg: string, m: string)
    ensures In(Put(b, box, msg), m) == if m == box then In(b, m) + [msg] else In(b, m)
  {
  }

  // ---------------------------------------------------------------- a whole session

  ghost function Exec(c: Setup, s: Session, cmds: seq<Command>): Session {
    if cmds == [] then s else Do(c, Exec(c, s, cmds[..|cmds| - 1]), cmds[|cmds| - 1])
  }

  /** From the commands alone: the addresses accepted since the last reset, as the client wrote them. */
  ghost function Named(c: Setup, cmds: seq<Command>): seq<string> {
    if cmds == [] then []
    else
      var before, last := Named(c, cmds[..|cmds| - 1]), cmds[|cmds| - 1];
      if last.Rset? then []
      else if last.Rcpt? && Accepts(c.lower, c.entries, last.to) then before + [last.to]
      else before
  }

  ghost function Lowered(c: Setup, addrs: seq<string>): (r: seq<string>)
    ensures |r| == |addrs|
  {
    seq(|addrs|, i requires 0 <= i < |addrs| => ToLower(c.lower, addrs[i]))
  }

  /** From the commands alone: what must have arrived in a mailbox, message by message. */
  ghost function Ledger(c: Setup, cmds: seq<Command>, m: string): seq<string> {
    if cmds == [] then []
    else
      var before, last := cmds[..|cmds| - 1], cmds[|cmds| - 1];
      Ledger(c, before, m) + Arrives(c, Named(c, before), last, m)
  }

  /** One entry per served address of the mailbox, if the message is neither too large nor rejected. */
  ghost function Arrives(c: Setup, addrs: seq<string>, d: Command, m: string): seq<string> {
    if !Taken(c, d) then []
    else Filed(c, addrs[..Served(c, addrs, d.disk, 0)], d.disk, StoredCopy(c, d), m)
  }

  /** From the commands alone: the messages announced, namely those that reached every recipient. */
  ghost function Announced(c: Setup, cmds: seq<Command>): seq<string> {
    if cmds == [] then []
    else
      var before, last := cmds[..|cmds| - 1], cmds[|cmds| - 1];
      Announced(c, before) + Announces(c, Named(c, before), last)
  }

  ghost function Announces(c: Setup, addrs: seq<string>, d: Command): seq<string> {
    if d.Data? && c.notifies && DataReply(c, addrs, d) == Ok then [StoredCopy(c, d)] else []
  }

  /** Two lists of recipients that are filed alike. */
  ghost predicate Alike(c: Setup, a: seq<string>, b: seq<string>) {
    |a| == |b| && forall i :: 0 <= i < |a| ==> Mailbox(c, a[i]) == Mailbox(c, b[i])
  }

  /** Lower-casing an address at RCPT does not move it to another mailbox. */
  lemma LoweredAlike(c: Setup, addrs: seq<string>)
    requires Folds(c.lower)
    ensures Alike(c, Lowered(c, addrs), addrs)
  {
    forall i | 0 <= i < |addrs| ensures Mailbox(c, Lowered(c, addrs)[i]) == Mailbox(c, addrs[i]) {
      CanonStable(c.lower, addrs[i]);
    }
  }

  lemma {:induction false} SameServed(c: Setup, a: seq<string>, b: seq<string>, disk: Attempts, from: nat)
    requires Alike(c, a, b) && from <= |a|
    ensures Served(c, a, disk, from) == Served(c, b, disk, from)
    decreases |a| - from
  {
  }

  lemma {:induction false} SameFiled(c: Setup, a: seq<string>, b: seq<string>, disk: Attempts, msg: string, m: string)
    requires Alike(c, a, b)
    ensures Filed(c, a, disk, msg, m) == Filed(c, b, disk, msg, m)
  {
    if a != [] {
      var n := |a| - 1;
      assert Mailbox(c, a[n]) == Mailbox(c, b[n]);
      SameFiled(c, a[..n], b[..n], disk, msg, m);
    }
  }

  /** The session remembers exactly the addresses named since the last reset. */
  lemma {:induction false} SessionRemembers(c: Setup, s: Session, cmds: seq<Command>)
    requires s.rcpts == []
    ensures Exec(c, s, cmds).rcpts == Lowered(c, Named(c, cmds))
  {
    if cmds != [] {
      var before, last := cmds[..|cmds| - 1], cmds[|cmds| - 1];
      SessionRemembers(c, s, before);
      if last.Rcpt? && Accepts(c.lower, c.entries, last.to) {
        assert Lowered(c, Named(c, before) + [last.to]) == Lowered(c, Named(c, before)) + [ToLower(c.lower, last.to)];
      }
    }
  }

  /** From the commands alone: the sender of the last MAIL since the last reset. */
  ghost function LastSender(cmds: seq<Command>): string {
    if cmds == [] then ""
    else
      var last := cmds[|cmds| - 1];
      if last.Mail? then last.from else if last.Rset? then "" else LastSender(cmds[..|cmds| - 1])
  }

  /** The session remembers exactly that sender. */
  lemma {:induction false} SenderRemembered(c: Setup, s: Session, cmds: seq<Command>)
    requires s.mailFrom == ""
    ensures Exec(c, s, cmds).mailFrom == LastSender(cmds)
  {
    if cmds != [] { SenderRemembered(c, s, cmds[..|cmds| - 1]); }
  }

  lemma DepositNamed(c: Setup, b: Boxes, rcpts: seq<string>, addrs: seq<string>, disk: Attempts, msg: string, m: string)
    requires Alike(c, rcpts, addrs)
    ensures Served(c, rcpts, disk, 0) == Served(c, addrs, disk, 0)
    ensures In(Deposit(c, b, rcpts[..Served(c, rcpts, disk, 0)], disk, msg), m)
      == In(b, m) + Filed(c, addrs[..Served(c, addrs, disk, 0)], disk, msg, m)
  {
    SameServed(c, rcpts, addrs, disk, 0);
    var n := Served(c, addrs, disk, 0);
    DepositCounts(c, b, rcpts[..n], disk, msg, m);
    SameFiled(c, rcpts[..n], addrs[..n], disk, msg, m);
  }

  lemma NotTaken(c: Setup, t: Session, addrs: seq<string>, d: Command, m: string)
    requires !Taken(c, d)
    ensures Do(c, t, d).boxes == t.boxes && Arrives(c, addrs, d, m) == []
  {
  }

  lemma LedgerStep(c: Setup, t: Session, addrs: seq<string>, d: Command, m: string)
    requires Folds(c.lower) && t.rcpts == Lowered(c, addrs)
    ensures In(Do(c, t, d).boxes, m) == In(t.boxes, m) + Arrives(c, addrs, d, m)
  {
    if Taken(c, d) {
      LoweredAlike(c, addrs);
      DataStores(c, t, d, StoredCopy(c, d));
      DepositNamed(c, t.boxes, t.rcpts, addrs, d.disk, StoredCopy(c, d), m);
    } else {
      NotTaken(c, t, addrs, d, m);
    }
  }

  /**
    Conservation: after any sequence of commands every mailbox holds what it
    held before plus exactly what the ledger says, in order; nothing is lost,
    nothing is stored twice and no other mailbox is touched.
  */
  lemma {:induction false} LedgerHolds(c: Setup, s: Session, cmds: seq<Command>, m: string)
    requires Folds(c.lower) && s.rcpts == []
    ensures In(Exec(c, s, cmds).boxes, m) == In(s.boxes, m) + Ledger(c, cmds, m)
  {
    if cmds != [] {
      var before, last := cmds[..|cmds| - 1], cmds[|cmds| - 1];
      LedgerHolds(c, s, before, m);
      SessionRemembers(c, s, before);
      LedgerGrows(c, Exec(c, s, before), Named(c, before), last, m, In(s.boxes, m), Ledger(c, before, m));
    }
  }

  lemma LedgerGrows(c: Setup, t: Session, addrs: seq<string>, d: Command, m: string, start: seq<string>,
    ledger: seq<string>)
    requires Folds(c.lower) && t.rcpts == Lowered(c, addrs) && In(t.boxes, m) == start + ledger
    ensures In(Do(c, t, d).boxes, m) == start + (ledger + Arrives(c, addrs, d, m))
  {
    LedgerStep(c, t, addrs, d, m);
    Regroup(start, ledger, Arrives(c, addrs, d, m));
  }

  lemma SameReply(c: Setup, a: seq<string>, b: seq<string>, d: Command)
    requires d.Data? && Alike(c, a, b)
    ensures DataReply(c, a, d) == DataReply(c, b, d)
  {
    SameServed(c, a, b, d.disk, 0);
  }

  lemma AnnounceStep(c: Setup, t: Session, addrs: seq<string>, d: Command)
    requires Folds(c.lower) && t.rcpts == Lowered(c, addrs)
    ensures Do(c, t, d).notified == t.notified + Announces(c, addrs, d)
  {
    if d.Data? {
      LoweredAlike(c, addrs);
      SameReply(c, t.rcpts, addrs, d);
    }
  }

  /** The notification fires once for each message that was stored for all its recipients, and for no other. */
  lemma {:induction false} NotifiedIsAnnounced(c: Setup, s: Session, cmds: seq<Command>)
    requires Folds(c.lower) && s.rcpts == []
    ensures Exec(c, s, cmds).notified == s.notified + Announced(c, cmds)
  {
    if cmds != [] {
      var before, last := cmds[..|cmds| - 1], cmds[|cmds| - 1];
      NotifiedIsAnnounced(c, s, before);
      SessionRemembers(c, s, before);
      AnnounceStep(c, Exec(c, s, before), Named(c, before), last);
    }
  }

  lemma ServedAll(c: Setup, rcpts: seq<string>, disk: Attempts)
    ensures Served(c, rcpts, disk, 0) == |rcpts| <==> forall i :: 0 <= i < |rcpts| ==> Succeeds(c, rcpts[i], disk(i))
  {
  }

  /** When DATA is answered how, for every message and every pattern of failures. */
  lemma RepliesExactly(c: Setup, rcpts: seq<string>, d: Command)
    requires d.Data?
    ensures var code, fits := Code(DataReply(c, rcpts, d)), |d.payload| <= 25 * 1024 * 1024;
      && (code == None <==> !d.readOk)
      && (code == Some(552) <==> d.readOk && !fits)
      && (code == Some(554) <==> d.readOk && fits && Decide(c.policy, d.res) == "reject")
      && (code == Some(451) <==> (
          && d.readOk && fits && Decide(c.policy, d.res) != "reject"
          && exists i :: 0 <= i < |rcpts| && !Succeeds(c, rcpts[i], d.disk(i))))
      && (code == Some(250) <==> (
          && d.readOk && fits && Decide(c.policy, d.res) != "reject"
          && forall i :: 0 <= i < |rcpts| ==> Succeeds(c, rcpts[i], d.disk(i))))
  {
    ServedAll(c, rcpts, d.disk);
  }

  /** If one setting alone rejects, 554 is the answer exactly to the messages that setting is there for. */
  lemma RejectedExactlyFor(c: Setup, rcpts: seq<string>, d: Command, f: Setting)
    requires d.Data? && OnlyIn(c.policy, "reject", f)
    ensures Code(DataReply(c, rcpts, d)) == Some(554)
      <==> d.readOk && |d.payload| <= 25 * 1024 * 1024 && Concerns(f, d.res)
  {
    ActsExactlyFor(c.policy, "reject", f, d.res);
  }

  /** With propagated errors a served attempt has no short write. */
  lemma NothingTruncated(c: Setup, rcpts: seq<string>, disk: Attempts, msg: string, m: string)
    requires !c.shadowed
    ensures !Truncates(c, rcpts[..Served(c, rcpts, disk, 0)], disk, msg, m)
  {
  }

  /** The ledger of whole copies: one per served address, of every message that was neither too large nor rejected. */
  ghost function WholeLedger(c: Setup, cmds: seq<Command>, m: string): seq<string> {
    if cmds == [] then []
    else
      var before, last := cmds[..|cmds| - 1], cmds[|cmds| - 1];
      WholeLedger(c, before, m) + WholeArrives(c, Named(c, before), last, m)
  }

  ghost function WholeArrives(c: Setup, addrs: seq<string>, d: Command, m: string): seq<string> {
    if !Taken(c, d) then []
    else Repeat(StoredCopy(c, d), Copies(c, addrs[..Served(c, addrs, d.disk, 0)], m))
  }

  /** A message that is stored, and for some served address of the mailbox only in part. */
  ghost predicate CutShort(c: Setup, addrs: seq<string>, d: Command, m: string) {
    && Taken(c, d)
    && Truncates(c, addrs[..Served(c, addrs, d.disk, 0)], d.disk, StoredCopy(c, d), m)
  }

  lemma ArrivesWhole(c: Setup, addrs: seq<string>, d: Command, m: string)
    ensures |Arrives(c, addrs, d, m)| == |WholeArrives(c, addrs, d, m)|
    ensures Arrives(c, addrs, d, m) == WholeArrives(c, addrs, d, m) <==> !CutShort(c, addrs, d, m)
  {
    if d.Data? {
      var served := addrs[..Served(c, addrs, d.disk, 0)];
      WholeExactlyWhen(c, served, d.disk, StoredCopy(c, d), m);
      SameLength(c, served, d.disk, StoredCopy(c, d), m);
    }
  }

  ghost predicate CutShortAt(c: Setup, cmds: seq<Command>, m: string, i: nat) {
    i < |cmds| && CutShort(c, Named(c, cmds[..i]), cmds[i], m)
  }

  lemma CutShortBefore(c: Setup, cmds: seq<Command>, m: string)
    requires cmds != []
    ensures var n := |cmds| - 1;
      (exists i: nat :: CutShortAt(c, cmds, m, i))
      <==> (exists i: nat :: CutShortAt(c, cmds[..n], m, i)) || CutShort(c, Named(c, cmds[..n]), cmds[n], m)
  {
    var n := |cmds| - 1;
    assert forall i :: 0 <= i < n ==> cmds[..n][..i] == cmds[..i];
    forall i: nat | i < n ensures CutShortAt(c, cmds, m, i) <==> CutShortAt(c, cmds[..n], m, i) {
      assert cmds[..n][..i] == cmds[..i];
    }
    if CutShort(c, Named(c, cmds[..n]), cmds[n], m) { assert CutShortAt(c, cmds, m, n); }
  }

  lemma SameParts(a: seq<string>, b: seq<string>, c: seq<string>, d: seq<string>)
    requires |a| == |c|
    ensures a + b == c + d <==> a == c && b == d
  {
    if a + b == c + d {
      assert a == (a + b)[..|a|] == (c + d)[..|a|] == c;
      assert b == (a + b)[|a|..] == (c + d)[|a|..] == d;
    }
  }

  lemma {:induction false} LedgerIsWhole(c: Setup, cmds: seq<Command>, m: string)
    ensures |Ledger(c, cmds, m)| == |WholeLedger(c, cmds, m)|
    ensures Ledger(c, cmds, m) == WholeLedger(c, cmds, m) <==> !exists i: nat :: CutShortAt(c, cmds, m, i)
  {
    if cmds != [] {
      var before, last := cmds[..|cmds| - 1], cmds[|cmds| - 1];
      LedgerIsWhole(c, before, m);
      CutShortBefore(c, cmds, m);
      ArrivesWhole(c, Named(c, before), last, m);
      SameParts(Ledger(c, before, m), Arrives(c, Named(c, before), last, m),
                WholeLedger(c, before, m), WholeArrives(c, Named(c, before), last, m));
    }
  }

  /**
    As written, a session has put whole copies into a mailbox if and only if no
    message stored for it had a short write; with error propagation it always has.
  */
  lemma SessionStoresWhole(c: Setup, s: Session, cmds: seq<Command>, m: string)
    requires Folds(c.lower) && s.rcpts == []
    ensures In(Exec(c, s, cmds).boxes, m) == In(s.boxes, m) + WholeLedger(c, cmds, m)
      <==> !exists i: nat :: CutShortAt(c, cmds, m, i)
    ensures !c.shadowed ==> !exists i: nat :: CutShortAt(c, cmds, m, i)
  {
    LedgerHolds(c, s, cmds, m);
    LedgerIsWhole(c, cmds, m);
    CancelPrefix(In(s.boxes, m), Ledger(c, cmds, m), WholeLedger(c, cmds, m));
  }

  /**
    Success puts as many entries into a mailbox as recipients normalise to it.
    They are whole copies of the injected headers and the payload if and only if
    no attempt for it had a short write; with error propagation they always are.
  */
  lemma OkMeansStored(c: Setup, s: Session, d: Command, m: string)
    requires d.Data? && DataReply(c, s.rcpts, d) == Ok
    ensures In(Do(c, s, d).boxes, m) == In(s.boxes, m) + Filed(c, s.rcpts, d.disk, StoredCopy(c, d), m)
    ensures |Filed(c, s.rcpts, d.disk, StoredCopy(c, d), m)| == Copies(c, s.rcpts, m)
    ensures In(Do(c, s, d).boxes, m) == In(s.boxes, m) + Repeat(StoredCopy(c, d), Copies(c, s.rcpts, m))
      <==> !Truncates(c, s.rcpts, d.disk, StoredCopy(c, d), m)
    ensures !c.shadowed ==> !Truncates(c, s.rcpts, d.disk, StoredCopy(c, d), m)
  {
    var raw := StoredCopy(c, d);
    DataStores(c, s, d, raw);
    OkStores(c, s.boxes, s.rcpts, d.disk, raw, m);
  }

  lemma OkStores(c: Setup, b: Boxes, rcpts: seq<string>, disk: Attempts, raw: string, m: string)
    requires Served(c, rcpts, disk, 0) == |rcpts|
    ensures In(Deposit(c, b, rcpts[..|rcpts|], disk, raw), m) == In(b, m) + Filed(c, rcpts, disk, raw, m)
    ensures |Filed(c, rcpts, disk, raw, m)| == Copies(c, rcpts, m)
    ensures In(b, m) + Filed(c, rcpts, disk, raw, m) == In(b, m) + Repeat(raw, Copies(c, rcpts, m))
      <==> !Truncates(c, rcpts, disk, raw, m)
    ensures !c.shadowed ==> !Truncates(c, rcpts, disk, raw, m)
  {
    assert rcpts[..|rcpts|] == rcpts;
    DepositCounts(c, b, rcpts, disk, raw, m);
    WholeExactlyWhen(c, rcpts, disk, raw, m);
    CancelPrefix(In(b, m), Filed(c, rcpts, disk, raw, m), Repeat(raw, Copies(c, rcpts, m)));
    if !c.shadowed { NothingTruncated(c, rcpts, disk, raw, m); }
  }

  lemma CancelPrefix(a: seq<string>, b: seq<string>, c: seq<string>)
    ensures a + b == a + c <==> b == c
  {
    if a + b == a + c { assert b == (a + b)[|a|..] == (a + c)[|a|..] == c; }
  }

  /** As written, a message can be acknowledged although nothing of it was stored. */
  lemma OkCanStoreNothing(c: Setup, s: Session, d: Command, to: string)
    requires c.shadowed && s.rcpts == [to] && Deliverable(c, to) && Taken(c, d)
    requires d.disk(0) == MaildirStore.Outcomes(true, true, true, false, 0, true, true, true, true)
    ensures DataReply(c, s.rcpts, d) == Ok
    ensures In(Do(c, s, d).boxes, Mailbox(c, to)) == In(s.boxes, Mailbox(c, to)) + [""]
  {
    var raw := StoredCopy(c, d);
    DataStores(c, s, d, raw);
    assert Served(c, s.rcpts, d.disk, 0) == 1;
    assert s.rcpts[..1] == [to] && [to][..0] == [];
    assert MaildirStore.Kept(d.disk(0), raw) == "";
    assert Deposit(c, s.boxes, [to], d.disk, raw) == Put(s.boxes, Mailbox(c, to), "");
  }

  /**
    451 leaves exactly a proper prefix of the recipients served, up to the first
    that could not be, and announces nothing.
  */
  lemma FailureLeavesPrefix(c: Setup, s: Session, d: Command, m: string)
    requires d.Data? && DataReply(c, s.rcpts, d) == NotStored
    ensures var n := Served(c, s.rcpts, d.disk, 0);
      && n < |s.rcpts| && !Succeeds(c, s.rcpts[n], d.disk(n))
      && In(Do(c, s, d).boxes, m) == In(s.boxes, m) + Filed(c, s.rcpts[..n], d.disk, StoredCopy(c, d), m)
    ensures Do(c, s, d).notified == s.notified
  {
    var n := Served(c, s.rcpts, d.disk, 0);
    DepositCounts(c, s.boxes, s.rcpts[..n], d.disk, StoredCopy(c, d), m);
  }

  /** The stored copy ends in the untruncated payload. */
  lemma PayloadIsWhole(c: Setup, quote: Quoter, domain: string, d: Command)
    requires d.Data? && c.inject == HeaderInjector(quote, domain)
    ensures HasSuffix(StoredCopy(c, d), d.payload)
  {
  }

  /** The stored copy of a message that parses tells the decision, whatever fields the sender put in. */
  lemma StoredFlagIsDecision(c: Setup, quote: Quoter, domain: string, s: Session, d: Command)
    requires c.inject == HeaderInjector(quote, domain)
    requires d.Data? && ValidPolicy(c.policy) && ReadMessage(d.payload).Some?
    requires DataReply(c, s.rcpts, d) == Ok || DataReply(c, s.rcpts, d) == NotStored
    requires QuotesLines(quote) && PlainDomains(d.res) && '\n' !in domain
    ensures SpamFlag(StoredCopy(c, d)) <==> Decide(c.policy, d.res) == "spam"
  {
    DecisionSurvives(quote, d.payload, domain, d.res, Decide(c.policy, d.res));
  }

  /** If one setting alone says spam, the stored copies shown as spam are exactly those that setting is there for. */
  lemma ShownAsSpamExactlyFor(c: Setup, quote: Quoter, domain: string, s: Session, d: Command, f: Setting)
    requires c.inject == HeaderInjector(quote, domain) && OnlyIn(c.policy, "spam", f)
    requires d.Data? && ValidPolicy(c.policy) && ReadMessage(d.payload).Some?
    requires DataReply(c, s.rcpts, d) == Ok || DataReply(c, s.rcpts, d) == NotStored
    requires QuotesLines(quote) && PlainDomains(d.res) && '\n' !in domain
    ensures SpamFlag(StoredCopy(c, d)) <==> Concerns(f, d.res)
  {
    StoredFlagIsDecision(c, quote, domain, s, d);
    ActsExactlyFor(c.policy, "spam", f, d.res);
  }

  /**
    With entries that all have an `@`, as validation leaves them, the mailbox is
    the very address the allowlist judged, and a safe name.
  */
  lemma MailboxIsJudged(c: Setup, to: string)
    requires Folds(c.lower) && AllHaveAt(c.entries) && Accepts(c.lower, c.entries, to)
    ensures Mailbox(c, ToLower(c.lower, to)) == Canon(c.lower, to)
    ensures HasAt(Canon(c.lower, to)) && Canon(c.lower, to) !in RESERVED
    ensures Deliverable(c, ToLower(c.lower, to)) <==> '/' !in to && '\\' !in to
  {
    CanonStable(c.lower, to);
    AcceptedHasAt(c.lower, c.entries, to);
    SlashStays(c.lower, to);
  }

  /** Trimming and lower-casing neither remove nor add a path separator. */
  lemma SlashStays(lower: CaseMap, s: string)
    requires Folds(lower)
    ensures '/' in Canon(lower, s) <==> '/' in s
    ensures '\\' in Canon(lower, s) <==> '\\' in s
  {
    SkipStays(s, '/');
    SkipStays(s, '\\');
    DropStays(SkipSpace(s), '/');
    DropStays(SkipSpace(s), '\\');
    LowerStays(lower, TrimSpace(s), '/');
    LowerStays(lower, TrimSpace(s), '\\');
  }

  lemma {:induction false} SkipStays(s: string, x: char)
    requires !IsSpace(x)
    ensures x in SkipSpace(s) <==> x in s
  {
    if s != "" && IsSpace(s[0]) { SkipStays(s[1..], x); }
  }

  lemma {:induction false} DropStays(s: string, x: char)
    requires !IsSpace(x)
    ensures x in DropSpace(s) <==> x in s
  {
    if s != "" && IsSpace(s[|s| - 1]) { DropStays(s[..|s| - 1], x); }
  }

  lemma LowerStays(lower: CaseMap, s: string, x: char)
    requires forall c :: lower(c) == x <==> c == x
    ensures x in ToLower(lower, s) <==> x in s
  {
  }
}
