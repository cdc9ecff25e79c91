/**
  Authentication results, the policy decision and the two injected headers.
  DNS, SPF evaluation and signature cryptography are arbitrary inputs.
*/
module Mailauth {
  import opened Options
  import opened Strings

  datatype Status = Pass | Fail | Softfail | NoStatus

  function StatusText(s: Status): string {
    match s
    case Pass => "pass"
    case Fail => "fail"
    case Softfail => "softfail"
    case NoStatus => "none"
  }

  type Action = string

  predicate ValidAction(a: Action) { a == "reject" || a == "spam" || a == "inbox" }

  datatype Policy = Policy(spfFail: Action, spfSoftfail: Action, dkimFail: Action, dmarcFail: Action, default: Action)

  predicate ValidPolicy(p: Policy) {
    ValidAction(p.spfFail) && ValidAction(p.spfSoftfail) && ValidAction(p.dkimFail) && ValidAction(p.dmarcFail)
      && ValidAction(p.default)
  }

  datatype Results = Results(
    spf: Status, spfDetail: string, spfDomain: string,
    dkim: Status, dkimDetail: string, dkimDomain: string,
    dmarc: Status, dmarcDetail: string, dmarcPolicy: string, fromDomain: string)

  function Decide(p: Policy, r: Results): (a: Action)
    ensures ValidPolicy(p) ==> a in {"reject", "spam", "inbox"}
  {
    if r.dmarc == Fail then p.dmarcFail
    else if r.spf == Fail then p.spfFail
    else if r.spf == Softfail then p.spfSoftfail
    else if r.dkim == Fail then p.dkimFail
    else p.default
  }

  datatype Setting = DmarcFail | SpfFail | SpfSoftfail | DkimFail | Default

  function Configured(p: Policy, f: Setting): Action {
    match f
    case DmarcFail => p.dmarcFail
    case SpfFail => p.spfFail
    case SpfSoftfail => p.spfSoftfail
    case DkimFail => p.dkimFail
    case Default => p.default
  }

  /** The policy has this action in one setting only. */
  ghost predicate OnlyIn(p: Policy, a: Action, f: Setting) {
    forall g :: Configured(p, g) == a <==> g == f
  }

  /** The messages one setting is there for: that check failed, and none that goes before it. */
  ghost predicate Concerns(f: Setting, r: Results) {
    match f
    case DmarcFail => r.dmarc == Fail
    case SpfFail => r.dmarc != Fail && r.spf == Fail
    case SpfSoftfail => r.dmarc != Fail && r.spf == Softfail
    case DkimFail => r.dmarc != Fail && r.spf != Fail && r.spf != Softfail && r.dkim == Fail
    case Default => r.dmarc != Fail && r.spf != Fail && r.spf != Softfail && r.dkim != Fail
  }

  /** An action that one setting alone names is taken exactly for the messages that setting is there for. */
  lemma ActsExactlyFor(p: Policy, a: Action, f: Setting, r: Results)
    requires OnlyIn(p, a, f)
    ensures Decide(p, r) == a <==> Concerns(f, r)
  {
    assert Configured(p, DmarcFail) == a <==> f == DmarcFail;
    assert Configured(p, SpfFail) == a <==> f == SpfFail;
    assert Configured(p, SpfSoftfail) == a <==> f == SpfSoftfail;
    assert Configured(p, DkimFail) == a <==> f == DkimFail;
    assert Configured(p, Default) == a <==> f == Default;
  }

  // ---------------------------------------------------------------- signatures

  /** One signature of the message: its domain, and the error that verifying it gave. */
  datatype Verification = Verification(domain: string, err: Option<string>)

  datatype DkimResult = DkimResult(status: Status, detail: string, domain: string)

  predicate Verifies(v: Verification) { v.err.None? }

  /**
    The first signature that verifies decides; failing that, the first error is
    reported. A verification error other than "too many signatures" counts as no result.
  */
  method CheckDkim(vers: seq<Verification>, err: Option<string>, tooMany: bool) returns (r: DkimResult)
    ensures r.status != Softfail && (r.status == NoStatus <==> (err.Some? && !tooMany) || vers == [])
    ensures r.status != NoStatus ==> (r.status == Pass <==> exists i :: 0 <= i < |vers| && Verifies(vers[i]))
    ensures r.status == Pass ==> exists i :: 0 <= i < |vers| && FirstVerifying(vers, i) && r.domain == vers[i].domain
    ensures r.status == Fail ==> r.domain == "" && r.detail == "invalid signature: " + vers[0].err.value
    ensures r.status == Pass ==> r.detail == ""
    ensures r.status == NoStatus ==> r.domain == ""
    ensures r.status == NoStatus ==> r.detail == if err.Some? && !tooMany then "error: " + err.value else "no signature"
  {
    if err.Some? && !tooMany { return DkimResult(NoStatus, "error: " + err.value, ""); }
    if |vers| == 0 { return DkimResult(NoStatus, "no signature", ""); }
    var firstErr: Option<string> := None;
    for i := 0 to |vers|
      invariant forall j :: 0 <= j < i ==> !Verifies(vers[j])
      invariant firstErr == if i == 0 then None else vers[0].err
    {
      if vers[i].err.None? {
        assert FirstVerifying(vers, i);
        return DkimResult(Pass, "", vers[i].domain);
      }
      if firstErr.None? { firstErr := vers[i].err; }
    }
    return DkimResult(Fail, "invalid signature: " + firstErr.value, "");
  }

  ghost predicate FirstVerifying(vers: seq<Verification>, i: nat) {
    i < |vers| && Verifies(vers[i]) && forall j :: 0 <= j < i ==> !Verifies(vers[j])
  }

  // ---------------------------------------------------------------- alignment and DMARC

  datatype Mode = Strict | Relaxed

  /** The organizational domain of a name, if it has one. */
  type OrgDomain = string -> Option<string>

  predicate Aligned(lower: CaseMap, org: OrgDomain, a: string, b: string, mode: Mode) {
    if a == "" || b == "" then false
    else
      var a, b := ToLower(lower, a), ToLower(lower, b);
      if mode.Strict? then a == b
      else a == b || (org(a).Some? && org(b).Some? && org(a) == org(b))
  }

  /** The published record of the From domain. */
  datatype Record = Record(policy: string, spfMode: Mode, dkimMode: Mode)

  datatype Lookup = LookupError(reason: string) | NoRecord | Found(record: Record)

  function CheckDmarc(lower: CaseMap, org: OrgDomain, from: string, lookup: Lookup, r: Results): Status {
    if from == "" || !lookup.Found? then NoStatus
    else
      var spfOk := r.spf == Pass && Aligned(lower, org, r.spfDomain, from, lookup.record.spfMode);
      var dkimOk := r.dkim == Pass && Aligned(lower, org, r.dkimDomain, from, lookup.record.dkimMode);
      if spfOk || dkimOk then Pass else Fail
  }

  /** Alignment is an equivalence on nonempty domains in either mode, and strict alignment is relaxed alignment. */
  lemma AlignedIsEquivalence(lower: CaseMap, org: OrgDomain, a: string, b: string, c: string, mode: Mode)
    requires a != "" && b != "" && c != ""
    ensures Aligned(lower, org, a, a, mode)
    ensures Aligned(lower, org, a, b, mode) <==> Aligned(lower, org, b, a, mode)
    ensures Aligned(lower, org, a, b, mode) && Aligned(lower, org, b, c, mode) ==> Aligned(lower, org, a, c, mode)
    ensures Aligned(lower, org, a, b, Strict) ==> Aligned(lower, org, a, b, mode)
  {
  }

  /**
    Identifier alignment as section 3.1 of RFC 7489 has it: the same domain in
    any letter case or, in relaxed mode, the same organizational domain.
  */
  ghost predicate InAlignment(lower: CaseMap, org: OrgDomain, a: string, b: string, mode: Mode) {
    a != "" && b != "" && (
      || ToLower(lower, a) == ToLower(lower, b)
      || (mode == Relaxed && exists o :: org(ToLower(lower, a)) == Some(o) && org(ToLower(lower, b)) == Some(o)))
  }

  /** The program's test is the standard's. */
  lemma AlignedIsStandard(lower: CaseMap, org: OrgDomain, a: string, b: string, mode: Mode)
    ensures Aligned(lower, org, a, b, mode) <==> InAlignment(lower, org, a, b, mode)
  {
    var x, y := org(ToLower(lower, a)), org(ToLower(lower, b));
    if x.Some? && x == y { assert org(ToLower(lower, a)) == Some(x.value); }
  }

  ghost predicate AlignedSignature(lower: CaseMap, org: OrgDomain, vers: seq<Verification>, from: string, mode: Mode,
    i: nat) {
    i < |vers| && Verifies(vers[i]) && InAlignment(lower, org, vers[i].domain, from, mode)
  }

  /**
    A DMARC pass as sections 3.1.1 and 3.1.2 of RFC 7489 have it: an aligned
    SPF pass, or any verifying signature with an aligned domain.
  */
  ghost predicate DmarcPass(lower: CaseMap, org: OrgDomain, from: string, rec: Record, r: Results,
    vers: seq<Verification>) {
    || (r.spf == Pass && InAlignment(lower, org, r.spfDomain, from, rec.spfMode))
    || (exists i :: 0 <= i < |vers| && AlignedSignature(lower, org, vers, from, rec.dkimMode, i))
  }

  /** The results carry what the signature loop found. */
  ghost predicate FromSignatures(r: Results, vers: seq<Verification>) {
    && (r.dkim == Pass <==> exists i :: 0 <= i < |vers| && Verifies(vers[i]))
    && (r.dkim == Pass ==> exists i :: 0 <= i < |vers| && FirstVerifying(vers, i) && r.dkimDomain == vers[i].domain)
  }

  /** The one case in which the program is stricter than the standard. */
  ghost predicate LaterSignatureAligned(lower: CaseMap, org: OrgDomain, from: string, rec: Record, r: Results,
    vers: seq<Verification>) {
    && !(r.spf == Pass && InAlignment(lower, org, r.spfDomain, from, rec.spfMode))
    && exists i, j ::
         && 0 <= i < j < |vers| && FirstVerifying(vers, i) && AlignedSignature(lower, org, vers, from, rec.dkimMode, j)
         && !InAlignment(lower, org, vers[i].domain, from, rec.dkimMode)
  }

  /**
    Soundness and the exact gap: what the program passes the standard passes,
    and the converse fails exactly when SPF is not an aligned pass, the first
    verifying signature is not aligned and a later verifying one is.
  */
  lemma DmarcAgainstStandard(lower: CaseMap, org: OrgDomain, from: string, rec: Record, r: Results,
    vers: seq<Verification>)
    requires from != "" && FromSignatures(r, vers)
    ensures CheckDmarc(lower, org, from, Found(rec), r) == Pass ==> DmarcPass(lower, org, from, rec, r, vers)
    ensures DmarcPass(lower, org, from, rec, r, vers) && CheckDmarc(lower, org, from, Found(rec), r) != Pass
      <==> LaterSignatureAligned(lower, org, from, rec, r, vers)
  {
    var pass := CheckDmarc(lower, org, from, Found(rec), r) == Pass;
    if r.dkim == Pass {
      var i :| 0 <= i < |vers| && FirstVerifying(vers, i) && r.dkimDomain == vers[i].domain;
      if Aligned(lower, org, r.dkimDomain, from, rec.dkimMode) {
        assert AlignedSignature(lower, org, vers, from, rec.dkimMode, i);
      }
      if DmarcPass(lower, org, from, rec, r, vers) && !pass {
        var j :| 0 <= j < |vers| && AlignedSignature(lower, org, vers, from, rec.dkimMode, j);
        assert i < j;
      }
      OnlyOneFirst(vers, i);
    }
  }

  lemma OnlyOneFirst(vers: seq<Verification>, i: nat)
    requires FirstVerifying(vers, i)
    ensures forall j :: 0 <= j < |vers| && FirstVerifying(vers, j) ==> j == i
  {
  }

  /**
    Under a policy that rejects for DMARC only, a message with a published
    record is rejected exactly if the standard does not pass it, or SPF is not
    an aligned pass and only a later signature is aligned.
  */
  lemma RejectsExactlyWhen(
      p: Policy, lower: CaseMap, org: OrgDomain, from: string, rec: Record, r: Results, vers: seq<Verification>)
    requires p.dmarcFail == "reject"
    requires p.spfFail != "reject" && p.spfSoftfail != "reject" && p.dkimFail != "reject" && p.default != "reject"
    requires from != "" && FromSignatures(r, vers) && r.dmarc == CheckDmarc(lower, org, from, Found(rec), r)
    ensures Decide(p, r) == "reject" <==> (
        || !DmarcPass(lower, org, from, rec, r, vers)
        || LaterSignatureAligned(lower, org, from, rec, r, vers))
  {
    DmarcAgainstStandard(lower, org, from, rec, r, vers);
  }

  /** The gap is real: two verifying signatures, only the second one of the From domain. */
  lemma GapIsReal(lower: CaseMap, org: OrgDomain, r: Results)
    requires lower('a') != lower('b') && r.spf == NoStatus && r.dkim == Pass && r.dkimDomain == "a"
    ensures var vers, rec := [Verification("a", None), Verification("b", None)], Record("reject", Strict, Strict);
      FromSignatures(r, vers) && DmarcPass(lower, org, "b", rec, r, vers)
      && CheckDmarc(lower, org, "b", Found(rec), r) == Fail
  {
    var vers := [Verification("a", None), Verification("b", None)];
    assert FirstVerifying(vers, 0) && Verifies(vers[0]);
    assert ToLower(lower, "a")[0] != ToLower(lower, "b")[0];
    assert AlignedSignature(lower, org, vers, "b", Strict, 1);
  }

  /** The signatures a verification call hands over; none if it failed altogether. */
  function Seen(vers: seq<Verification>, err: Option<string>, tooMany: bool): seq<Verification> {
    if err.Some? && !tooMany then [] else vers
  }

  function DmarcDetail(from: string, lookup: Lookup, status: Status): string {
    if from == "" then "no From domain"
    else match lookup
      case LookupError(reason) => "lookup error: " + reason
      case NoRecord => "no DMARC record"
      case Found(_) => if status == Pass then "" else "no aligned SPF or DKIM pass"
  }

  /**
    All checks of one message; the outcomes of DNS and cryptography are given.
    DMARC fails exactly when a record is found and the standard would not pass
    the message or only a later signature is aligned; without From domain or
    record there is no result.
  */
  method Check(lower: CaseMap, org: OrgDomain, spf: Status, spfDetail: string, spfDomain: string,
               vers: seq<Verification>, err: Option<string>, tooMany: bool, from: string, lookup: Lookup)
    returns (r: Results)
    ensures r.spf == spf && r.spfDetail == spfDetail && r.spfDomain == spfDomain && r.fromDomain == from
    ensures FromSignatures(r, Seen(vers, err, tooMany)) && (r.dkim == NoStatus <==> Seen(vers, err, tooMany) == [])
    ensures r.dmarc == NoStatus <==> from == "" || !lookup.Found?
    ensures r.dmarc != NoStatus ==> r.dmarcPolicy == lookup.record.policy
    ensures from == "" ==> r.dmarcDetail == "no From domain"
    ensures from != "" && lookup.LookupError? ==> r.dmarcDetail == "lookup error: " + lookup.reason
    ensures from != "" && lookup.NoRecord? ==> r.dmarcDetail == "no DMARC record"
    ensures r.dmarc == Pass ==> r.dmarcDetail == ""
    ensures r.dmarc == Fail ==> r.dmarcDetail == "no aligned SPF or DKIM pass"
    ensures r.dmarc == Pass ==> DmarcPass(lower, org, from, lookup.record, r, Seen(vers, err, tooMany))
    ensures r.dmarc == Fail <==> (
        && from != "" && lookup.Found?
        && (|| !DmarcPass(lower, org, from, lookup.record, r, Seen(vers, err, tooMany))
            || LaterSignatureAligned(lower, org, from, lookup.record, r, Seen(vers, err, tooMany))))
  {
    var d := CheckDkim(vers, err, tooMany);
    r := Results(spf, spfDetail, spfDomain, d.status, d.detail, d.domain, NoStatus, "", "", from);
    assert FromSignatures(r, Seen(vers, err, tooMany));
    var status := CheckDmarc(lower, org, from, lookup, r);
    if from != "" && lookup.Found? {
      DmarcAgainstStandard(lower, org, from, lookup.record, r, Seen(vers, err, tooMany));
    }
    r := r.(dmarc := status, dmarcDetail := DmarcDetail(from, lookup, status),
            dmarcPolicy := if from != "" && lookup.Found? then lookup.record.policy else "");
  }

  // ---------------------------------------------------------------- headers

  type Quoter = string -> string

  /** Quoting escapes line breaks. */
  ghost predicate QuotesLines(quote: Quoter) { forall s :: '\n' !in quote(s) }

  function Item(condition: string, text: string): string {
    if condition == "" then "" else text
  }

  function SpfPart(quote: Quoter, r: Results): string {
    "spf=" + StatusText(r.spf) + Item(r.spfDetail, " reason=" + quote(r.spfDetail))
      + Item(r.spfDomain, " smtp.mailfrom=" + r.spfDomain)
  }

  function DkimPart(quote: Quoter, r: Results): string {
    "dkim=" + StatusText(r.dkim) + Item(r.dkimDetail, " reason=" + quote(r.dkimDetail))
      + Item(r.dkimDomain, " header.d=" + r.dkimDomain)
  }

  function DmarcPart(quote: Quoter, r: Results): string {
    "dmarc=" + StatusText(r.dmarc) + Item(r.dmarcDetail, " reason=" + quote(r.dmarcDetail))
    + Item(r.dmarcPolicy, " policy.published=" + r.dmarcPolicy) + Item(r.fromDomain, " header.from=" + r.fromDomain)
  }

  function AuthResultsHeader(quote: Quoter, r: Results, authservId: string): string {
    authservId + ";" + "\n" + ("\t" + SpfPart(quote, r) + ";" + "\n"
      + ("\t" + DkimPart(quote, r) + ";" + "\n" + ("\t" + DmarcPart(quote, r))))
  }

  function SpamStatusHeader(r: Results, action: Action): string {
    ("action=" + action) + [' '] + ("spf=" + StatusText(r.spf))
      + [' '] + ("dkim=" + StatusText(r.dkim)) + [' '] + ("dmarc=" + StatusText(r.dmarc))
  }

  /** The domains that are printed as they are contain no line break. */
  predicate PlainDomains(r: Results) {
    '\n' !in r.spfDomain && '\n' !in r.dkimDomain && '\n' !in r.dmarcPolicy && '\n' !in r.fromDomain
  }
}
