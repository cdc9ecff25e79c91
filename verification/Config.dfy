/** Configuration: validation, and the recipient allowlist. */
module Config {
  import opened Options
  import opened Strings
  import opened Mailauth

  /** An address as the store files it: trimmed and lower-cased. */
  function Canon(lower: CaseMap, s: string): string { ToLower(lower, TrimSpace(s)) }

  predicate HasAt(s: string) { '@' in s }

  /** A recipient entry that validation accepts. */
  predicate GoodEntry(lower: CaseMap, s: string) { HasAt(Canon(lower, s)) }

  /** An entry matches an address literally, or as `*@domain` by its ending. */
  predicate Matches(entry: string, addr: string) {
    entry == addr || (HasPrefix(entry, "*@") && HasSuffix(addr, entry[1..]))
  }

  predicate Accepts(lower: CaseMap, entries: seq<string>, addr: string) {
    exists i :: 0 <= i < |entries| && Matches(entries[i], Canon(lower, addr))
  }

  /** A good entry in canonical form; a bad one stays as it was. */
  function SettleOne(lower: CaseMap, e: string): string { if GoodEntry(lower, e) then Canon(lower, e) else e }

  function Settle(lower: CaseMap, entries: seq<string>): (r: seq<string>)
    ensures |r| == |entries| && forall i :: 0 <= i < |r| ==> r[i] == SettleOne(lower, entries[i])
  {
    seq(|entries|, i requires 0 <= i < |entries| => SettleOne(lower, entries[i]))
  }

  predicate AllGood(lower: CaseMap, entries: seq<string>) {
    forall i :: 0 <= i < |entries| ==> GoodEntry(lower, entries[i])
  }

  lemma SettleNext(lower: CaseMap, entries: seq<string>, i: nat)
    requires i < |entries|
    ensures Settle(lower, entries[..i + 1]) == Settle(lower, entries[..i]) + [SettleOne(lower, entries[i])]
  {
    assert entries[..i + 1] == entries[..i] + [entries[i]];
  }

  lemma GoodNext(lower: CaseMap, entries: seq<string>, i: nat)
    requires i < |entries|
    ensures AllGood(lower, entries[..i + 1]) <==> AllGood(lower, entries[..i]) && GoodEntry(lower, entries[i])
  {
    var a, b := entries[..i + 1], entries[..i];
    assert a[i] == entries[i] && forall j :: 0 <= j < i ==> a[j] == b[j];
  }

  datatype Web = Web(username: string, passwordBcrypt: string, push: Option<(string, string)>)

  predicate SoundWeb(isBcrypt: string -> bool, web: Web) {
    && web.username != "" && web.passwordBcrypt != "" && isBcrypt(web.passwordBcrypt)
    && (web.push.Some? ==> web.push.value.0 != "" && web.push.value.1 != "")
  }

  /** What makes a configuration valid, said in one place. */
  predicate Sound(lower: CaseMap, isBcrypt: string -> bool, domain: string, entries: seq<string>, web: Web,
    policy: Policy) {
    && domain != "" && entries != []
    && AllGood(lower, entries)
    && SoundWeb(isBcrypt, web)
    && forall f :: Configured(policy, f) in {"reject", "spam", "inbox"}
  }

  function OrElse(s: string, default: string): string { if s == "" then default else s }

  /** What validation may rewrite. */
  datatype Settings = Settings(smtpListen: string, webListen: string, dataDir: string, recipients: seq<string>)

  /** Defaults filled in, recipients in canonical form. */
  function Complete(lower: CaseMap, v: Settings): Settings {
    Settings(OrElse(v.smtpListen, ":25"), OrElse(v.webListen, ":8080"), OrElse(v.dataDir, "./data"),
      Settle(lower, v.recipients))
  }

  class Config {
    const lower: CaseMap
    const isBcrypt: string -> bool
    const domain: string
    const web: Web
    const policy: Policy
    var smtpListen: string
    var webListen: string
    var dataDir: string
    const recipients: array<string>

    constructor (lower: CaseMap, isBcrypt: string -> bool, domain: string, web: Web, policy: Policy,
                 smtpListen: string, webListen: string, dataDir: string, recipients: array<string>)
      ensures this.lower == lower && this.isBcrypt == isBcrypt && this.domain == domain && this.web == web
      ensures this.policy == policy && this.recipients == recipients
      ensures this.smtpListen == smtpListen && this.webListen == webListen && this.dataDir == dataDir
    {
      this.lower, this.isBcrypt, this.domain, this.web, this.policy := lower, isBcrypt, domain, web, policy;
      this.smtpListen, this.webListen, this.dataDir, this.recipients := smtpListen, webListen, dataDir, recipients;
    }

    ghost function View(): Settings
      reads this, recipients
    {
      Settings(smtpListen, webListen, dataDir, recipients[..])
    }

    /** Rewrites the recipients in place; the number of errors is zero exactly for a sound configuration. */
    method Validate() returns (errs: nat)
      modifies this, recipients
      ensures View() == Complete(lower, old(View()))
      ensures errs == 0 <==> Sound(lower, isBcrypt, domain, old(recipients[..]), web, policy)
    {
      errs := 0;
      if domain == "" { errs := errs + 1; }
      if smtpListen == "" { smtpListen := ":25"; }
      if webListen == "" { webListen := ":8080"; }
      if dataDir == "" { dataDir := "./data"; }
      if recipients.Length == 0 { errs := errs + 1; }
      var bad := ValidateRecipients();
      var badWeb := CheckWeb(isBcrypt, web);
      var badPolicy := CheckPolicy(policy);
      errs := errs + bad + badWeb + badPolicy;
    }

    method ValidateRecipients() returns (bad: nat)
      modifies recipients
      ensures recipients[..] == Settle(lower, old(recipients[..]))
      ensures bad == 0 <==> AllGood(lower, old(recipients[..]))
    {
      bad := 0;
      ghost var was := recipients[..];
      for i := 0 to recipients.Length
        invariant recipients[..i] == Settle(lower, was[..i])
        invariant recipients[i..] == was[i..]
        invariant bad == 0 <==> AllGood(lower, was[..i])
      {
        assert recipients[i] == recipients[i..][0] == was[i];
        ghost var rest := recipients[i + 1..];
        assert rest == was[i + 1..] by { assert rest == recipients[i..][1..]; }
        SettleNext(lower, was, i);
        GoodNext(lower, was, i);
        var r := Canon(lower, recipients[i]);
        if r == "" || !HasAt(r) {
          bad := bad + 1;
        } else {
          recipients[i] := r;
        }
        assert recipients[..i + 1] == recipients[..i] + [recipients[i]];
        assert recipients[i + 1..] == rest;
      }
      assert was[..recipients.Length] == was && recipients[..recipients.Length] == recipients[..];
    }

    /** A search over the entries. */
    method AcceptsRecipient(addr: string) returns (ok: bool)
      ensures ok == Accepts(lower, recipients[..], addr)
    {
      var a := ToLower(lower, TrimSpace(addr));
      for i := 0 to recipients.Length
        invariant forall j :: 0 <= j < i ==> !Matches(recipients[j], a)
      {
        var r := recipients[i];
        if r == a || (HasPrefix(r, "*@") && HasSuffix(a, r[1..])) {
          assert Matches(recipients[..][i], a);
          return true;
        }
      }
      return false;
    }
  }

  method CheckWeb(isBcrypt: string -> bool, web: Web) returns (n: nat)
    ensures n == 0 <==> SoundWeb(isBcrypt, web)
  {
    n := 0;
    if web.username == "" { n := n + 1; }
    if web.passwordBcrypt == "" { n := n + 1; }
    else if !isBcrypt(web.passwordBcrypt) { n := n + 1; }
    if web.push.Some? {
      if web.push.value.0 == "" { n := n + 1; }
      if web.push.value.1 == "" { n := n + 1; }
    }
  }

  lemma ActionsAreKnown(p: Policy)
    ensures ValidPolicy(p) <==> forall f :: Configured(p, f) in {"reject", "spam", "inbox"}
  {
    if forall f :: Configured(p, f) in {"reject", "spam", "inbox"} {
      assert Configured(p, DmarcFail) == p.dmarcFail && Configured(p, SpfFail) == p.spfFail;
      assert Configured(p, SpfSoftfail) == p.spfSoftfail && Configured(p, DkimFail) == p.dkimFail;
      assert Configured(p, Default) == p.default;
    }
  }

  method CheckPolicy(p: Policy) returns (n: nat)
    ensures n == 0 <==> forall f :: Configured(p, f) in {"reject", "spam", "inbox"}
  {
    var actions := [p.spfFail, p.spfSoftfail, p.dkimFail, p.dmarcFail, p.default];
    n := 0;
    for i := 0 to |actions|
      invariant n == 0 <==> forall j :: 0 <= j < i ==> ValidAction(actions[j])
    {
      if !ValidAction(actions[i]) { n := n + 1; }
    }
    assert actions[0] == p.spfFail && actions[1] == p.spfSoftfail && actions[2] == p.dkimFail;
    assert actions[3] == p.dmarcFail && actions[4] == p.default;
    assert n == 0 <==> ValidPolicy(p);
    ActionsAreKnown(p);
  }

  // ---------------------------------------------------------------- canonical addresses

  lemma {:induction false} DropKeepsHead(s: string)
    requires s != "" && !IsSpace(s[0])
    ensures DropSpace(s) != "" && DropSpace(s)[0] == s[0]
  {
    if IsSpace(s[|s| - 1]) {
      assert |s| > 1;
      DropKeepsHead(s[..|s| - 1]);
    }
  }

  lemma CanonTrimmed(lower: CaseMap, s: string)
    requires Folds(lower)
    ensures Trimmed(Canon(lower, s))
  {
  }

  /** Canonical form is canonical: doing it again, or lower-casing first, changes nothing. */
  lemma CanonStable(lower: CaseMap, s: string)
    requires Folds(lower)
    ensures Canon(lower, Canon(lower, s)) == Canon(lower, s)
    ensures Canon(lower, ToLower(lower, s)) == Canon(lower, s)
  {
    CanonTrimmed(lower, s);
    TrimFixed(Canon(lower, s));
    LowerTwice(lower, TrimSpace(s));
    LowerTrim(lower, s);
  }

  /** Validating a valid configuration a second time changes nothing and finds nothing. */
  lemma RevalidationIsIdle(lower: CaseMap, isBcrypt: string -> bool, domain: string, v: Settings, web: Web,
    policy: Policy)
    requires Folds(lower) && Sound(lower, isBcrypt, domain, v.recipients, web, policy)
    ensures Complete(lower, Complete(lower, v)) == Complete(lower, v)
    ensures Sound(lower, isBcrypt, domain, Complete(lower, v).recipients, web, policy)
  {
    var entries := v.recipients;
    forall i | 0 <= i < |entries|
      ensures GoodEntry(lower, Settle(lower, entries)[i])
      ensures Settle(lower, Settle(lower, entries))[i] == Settle(lower, entries)[i]
    {
      CanonStable(lower, entries[i]);
    }
  }

  /** The names in the data directory that are not mailboxes, and the ones that mean a directory. */
  const RESERVED := {"", ".", "..", "push_subscriptions.json", "push_subscriptions.json.tmp"}

  lemma NotReserved(a: string)
    requires HasAt(a)
    ensures a !in RESERVED
  {
  }

  lemma SuffixHasAt(entry: string, a: string)
    requires HasPrefix(entry, "*@") && HasSuffix(a, entry[1..])
    ensures HasAt(a)
  {
    assert entry[1] == entry[..2][1] == '@';
    var k := |a| - |entry[1..]|;
    assert a[k] == a[k..][0] == entry[1..][0] == '@';
  }

  lemma WildcardMatches(entry: string, a: string)
    ensures HasPrefix(entry, "*@") && HasSuffix(a, entry[1..])
      <==> exists x, d :: entry == "*@" + d && a == x + "@" + d
  {
    if HasPrefix(entry, "*@") && HasSuffix(a, entry[1..]) {
      var d, x := entry[2..], a[..|a| - |entry[1..]|];
      assert entry[..2] == "*@" && entry == "*@" + d && entry[1..] == "@" + d;
      assert a == x + entry[1..] == x + "@" + d;
    }
    forall x, d | entry == "*@" + d && a == x + "@" + d ensures HasPrefix(entry, "*@") && HasSuffix(a, entry[1..]) {
      assert entry[..2] == "*@" && entry[1..] == "@" + d;
      assert a[|a| - |entry[1..]|..] == "@" + d;
    }
  }

  /**
    The allowlist in its own terms: an address is accepted exactly if it is an
    entry, up to letter case and white space around it, or some `*@domain` is an
    entry and the address is anything at that domain.
  */
  lemma AcceptsExactly(lower: CaseMap, entries: seq<string>, addr: string)
    ensures Accepts(lower, entries, addr) <==> (
        || Canon(lower, addr) in entries
        || exists x, d :: "*@" + d in entries && Canon(lower, addr) == x + "@" + d)
  {
    var a := Canon(lower, addr);
    forall i | 0 <= i < |entries| ensures Matches(entries[i], a)
      <==> entries[i] == a || exists x, d :: entries[i] == "*@" + d && a == x + "@" + d
    {
      WildcardMatches(entries[i], a);
    }
    forall x, d | "*@" + d in entries && a == x + "@" + d ensures Accepts(lower, entries, addr) {
      var i :| 0 <= i < |entries| && entries[i] == "*@" + d;
      WildcardMatches(entries[i], a);
      assert Matches(entries[i], a);
    }
    if a in entries {
      var i :| 0 <= i < |entries| && entries[i] == a;
      assert Matches(entries[i], a);
    }
  }

  predicate AllHaveAt(entries: seq<string>) {
    forall i :: 0 <= i < |entries| ==> HasAt(entries[i])
  }

  /** After validation without errors every entry has an `@`. */
  lemma ValidHaveAt(lower: CaseMap, entries: seq<string>)
    requires AllGood(lower, entries)
    ensures AllHaveAt(Settle(lower, entries))
  {
  }

  /** Every accepted address has an `@`, so it names no other file of the data directory. */
  lemma AcceptedHasAt(lower: CaseMap, entries: seq<string>, addr: string)
    requires AllHaveAt(entries) && Accepts(lower, entries, addr)
    ensures HasAt(Canon(lower, addr)) && Canon(lower, addr) !in RESERVED
  {
    var a := Canon(lower, addr);
    var i :| 0 <= i < |entries| && Matches(entries[i], a);
    if entries[i] != a { SuffixHasAt(entries[i], a); }
    NotReserved(a);
  }
}
