/** From smoke test records to a catalogue status: what a smoke run records, and how the records in the
    evidence directory are weighed against each other when the status is derived. */
module EvidenceSelection {
  import opened Gathering

  datatype Option<T> = None | Some(value: T)

  /** What must be the same for a record, passed or failed, to say anything. */
  datatype Target = Target(entry: string, version: string, section: string, runtime: string, platform: string,
                           environment: string, command: seq<string>)

  /** What a passed record must still be true of. */
  datatype Identity = Identity(source: string, artifact: string, lock: string, keys: map<string, string>,
                               providerTarget: string, principal: string, account: string, attestation: string,
                               scopes: seq<string>, validator: string, executable: string, configuration: string)

  /** Times are instants; 0 is the zero time. */
  datatype Evidence = Evidence(target: Target, identity: Identity, startedAt: int, observedAt: int, expiresAt: int,
                               passed: bool, promotionEligible: bool)

  datatype Receipt = Receipt(source: string, artifact: string)

  datatype Auth = Auth(required: bool, selected: bool, authenticated: bool, state: string, scheme: string,
                       keys: map<string, string>, providerTarget: string, principal: string, account: string,
                       attestation: string, scopes: seq<string>, validator: string, expiresAt: int)

  /** What is found of an installation at one moment; None and false are failures of that step. */
  datatype Found = Found(environment: Option<string>, deprecated: bool, runtimeSupported: bool, platformSupported: bool,
                         packageInstalled: bool, contractKnown: bool, receipt: Option<Receipt>, lock: Option<string>,
                         executable: Option<string>, auth: Option<Auth>)

  /** What a smoke run meets. */
  datatype Probe = Probe(found: Found, publishedArtifact: string, ran: bool, executableAfter: Option<string>,
                         closureAfter: bool, bindingsAfter: bool)

  /** The current state against which records are judged. */
  datatype Context = Context(target: Target, identity: Identity, authSelected: bool, authExpiresAt: int, now: int)

  /** Ninety days, in nanoseconds. */
  const LIFETIME: int := 90 * 24 * 3600 * 1_000_000_000

  function FoldChar(c: char): char {
    if 'A' <= c <= 'Z' then (c as int + 32) as char else c
  }

  predicate SameFold(a: string, b: string) {
    |a| == |b| && forall i :: 0 <= i < |a| ==> FoldChar(a[i]) == FoldChar(b[i])
  }

  predicate SameScopes(a: seq<string>, b: seq<string>) {
    (set x | x in a && x != "") == (set x | x in b && x != "")
  }

  /** Equal size, and each key of the one looks up the same in the other, where a missing key gives "". */
  predicate SameKeys(a: map<string, string>, b: map<string, string>) {
    |a| == |b| && forall k :: k in a ==> a[k] == (if k in b then b[k] else "")
  }

  predicate SameIdentity(a: Identity, b: Identity) {
    && a.source == b.source && SameFold(a.artifact, b.artifact) && a.lock == b.lock && SameKeys(a.keys, b.keys)
    && a.providerTarget == b.providerTarget && a.principal == b.principal && a.account == b.account
    && a.attestation == b.attestation && SameScopes(a.scopes, b.scopes) && a.validator == b.validator
    && SameFold(a.executable, b.executable) && a.configuration == b.configuration
  }

  predicate OnTarget(c: Context, e: Evidence) {
    && e.target == c.target && e.startedAt != 0 && e.observedAt != 0 && e.expiresAt != 0
    && e.startedAt <= e.observedAt <= e.expiresAt && e.observedAt <= c.now
  }

  /** A failed record counts whatever has changed since; a passed one only while its identity is current. */
  predicate Applies(c: Context, e: Evidence) {
    OnTarget(c, e) && (e.passed ==> SameIdentity(e.identity, c.identity))
  }

  predicate Later(a: Evidence, b: Evidence) {
    a.observedAt > b.observedAt || (a.observedAt == b.observedAt && a.startedAt > b.startedAt)
  }

  /** a displaces b: later, or as late and failed where b passed. */
  predicate Displaces(a: Evidence, b: Evidence) {
    Later(a, b) || (a.observedAt == b.observedAt && a.startedAt == b.startedAt && !a.passed && b.passed)
  }

  datatype Reason = ChecksFailed | IdentityInvalid | LocalInstallation | LockInvalid | RuntimeUnavailable | NoEvidence
                  | NoCurrentEvidence | LatestFailed | LatestIneligible

  datatype Status = Deprecated | SetupRequired(expiresAt: int) | UsableNow(expiresAt: int) | NotVerified(reason: Reason)

  predicate Good(c: Context, e: Evidence) {
    && e.promotionEligible && c.now < e.expiresAt && e.observedAt < e.expiresAt
    && e.expiresAt <= e.startedAt + LIFETIME && (c.authSelected ==> e.expiresAt <= c.authExpiresAt)
  }

  function Judge(c: Context, e: Evidence): Status {
    if !e.passed then NotVerified(LatestFailed)
    else if !Good(c, e) then NotVerified(LatestIneligible)
    else UsableNow(e.expiresAt)
  }

  // ----- Selection -----

  ghost predicate Top(c: Context, records: seq<Evidence>, e: Evidence) {
    e in records && Applies(c, e) && forall q :: q in records && Applies(c, q) ==> !Displaces(q, e)
  }

  /** Record i is the first of those that nothing displaces. */
  ghost predicate Chosen(c: Context, records: seq<Evidence>, i: nat) {
    && i < |records| && Top(c, records, records[i])
    && forall j :: 0 <= j < i ==> !Top(c, records, records[j])
  }

  ghost predicate AnyApplies(c: Context, records: seq<Evidence>) {
    exists e :: e in records && Applies(c, e)
  }

  /** The verdict on the records in the order in which the directory lists them. */
  ghost predicate Derives(c: Context, records: seq<Evidence>, v: Status) {
    if AnyApplies(c, records) then exists i: nat :: Chosen(c, records, i) && v == Judge(c, records[i])
    else v == NotVerified(NoCurrentEvidence)
  }

  /** The best of the first n records so far. */
  ghost predicate Leads(c: Context, records: seq<Evidence>, n: nat, i: nat) {
    && i < n <= |records| && Applies(c, records[i])
    && (forall j :: 0 <= j < n && Applies(c, records[j]) ==> !Displaces(records[j], records[i]))
    && (forall j :: 0 <= j < i && Applies(c, records[j]) ==> Displaces(records[i], records[j]))
  }

  lemma LeadsChosen(c: Context, records: seq<Evidence>, i: nat)
    requires Leads(c, records, |records|, i)
    ensures Chosen(c, records, i)
  {
  }

  lemma LeadsOn(c: Context, records: seq<Evidence>, n: nat, i: nat)
    requires Leads(c, records, n, i) && n < |records|
    ensures if Applies(c, records[n]) && Displaces(records[n], records[i]) then Leads(c, records, n + 1, n)
            else Leads(c, records, n + 1, i)
  {
  }

  /** One pass over the directory, keeping the record that no earlier or later one displaces. */
  method Select(c: Context, records: seq<Evidence>) returns (selected: Option<nat>)
    ensures selected.Some? <==> AnyApplies(c, records)
    ensures selected.Some? ==> Chosen(c, records, selected.value)
  {
    selected := None;
    var n := 0;
    while n < |records|
      invariant n <= |records|
      invariant selected.None? ==> forall j :: 0 <= j < n ==> !Applies(c, records[j])
      invariant selected.Some? ==> Leads(c, records, n, selected.value)
    {
      if selected.Some? { LeadsOn(c, records, n, selected.value); }
      if Applies(c, records[n]) && (selected.None? || Displaces(records[n], records[selected.value])) {
        selected := Some(n);
      }
      n := n + 1;
    }
    if selected.Some? { LeadsChosen(c, records, selected.value); }
  }

  method Weigh(c: Context, records: seq<Evidence>) returns (v: Status)
    ensures Derives(c, records, v)
  {
    var selected := Select(c, records);
    if selected.None? { return NotVerified(NoCurrentEvidence); }
    assert records[selected.value] in records && Chosen(c, records, selected.value);
    var e := records[selected.value];
    if !e.passed { return NotVerified(LatestFailed); }
    if !e.promotionEligible || e.expiresAt <= c.now || e.expiresAt <= e.observedAt
       || e.startedAt + LIFETIME < e.expiresAt || (c.authSelected && c.authExpiresAt < e.expiresAt) {
      return NotVerified(LatestIneligible);
    }
    return UsableNow(e.expiresAt);
  }

  lemma UsableGood(c: Context, e: Evidence)
    requires Applies(c, e) && Judge(c, e).UsableNow?
    ensures e.passed && OnTarget(c, e) && SameIdentity(e.identity, c.identity)
    ensures Good(c, e) && Judge(c, e).expiresAt == e.expiresAt && c.now < e.expiresAt
  {
  }

  /** A usable status rests on a passed record that is current, eligible and unexpired, and every failed
      record that applies is strictly earlier. */
  lemma {:induction false} UsableMeans(c: Context, records: seq<Evidence>, v: Status) returns (e: Evidence)
    requires Derives(c, records, v) && v.UsableNow?
    ensures e in records && e.passed && OnTarget(c, e) && SameIdentity(e.identity, c.identity)
    ensures Good(c, e) && v.expiresAt == e.expiresAt && c.now < v.expiresAt
    ensures forall f :: f in records && Applies(c, f) && !f.passed ==> Later(e, f)
    ensures forall f :: f in records && Applies(c, f) ==> !Later(f, e)
  {
    hide SameIdentity, OnTarget, Good;
    var i: nat :| Chosen(c, records, i) && v == Judge(c, records[i]);
    e := records[i];
    UsableGood(c, e);
  }

  // ----- Order -----

  lemma FirstTop(c: Context, records: seq<Evidence>, e: Evidence)
    requires records != [] && records[0] == e && Top(c, records, e)
    ensures Derives(c, records, Judge(c, e))
  {
  }

  lemma DerivesUnique(c: Context, records: seq<Evidence>, v: Status, w: Status)
    requires Derives(c, records, v) && Derives(c, records, w)
    ensures v == w
  {
  }

  lemma TopMember(c: Context, records: seq<Evidence>, e: Evidence)
    requires Top(c, records, e)
    ensures e in records && Applies(c, e)
  {
  }

  lemma TopPermuted(c: Context, records: seq<Evidence>, other: seq<Evidence>, e: Evidence)
    requires multiset(records) == multiset(other)
    ensures Top(c, records, e) <==> Top(c, other, e)
  {
    SameElements(records, other);
  }

  /** Records that nothing displaces agree. */
  ghost predicate TopsAgree(c: Context, records: seq<Evidence>) {
    forall a, b :: Top(c, records, a) && Top(c, records, b) ==> Judge(c, a) == Judge(c, b)
  }

  ghost predicate SameVerdict(c: Context, records: seq<Evidence>, p: seq<Evidence>, q: seq<Evidence>) {
    multiset(p) == multiset(records) && multiset(q) == multiset(records) ==>
      forall v, w :: Derives(c, p, v) && Derives(c, q, w) ==> v == w
  }

  lemma {:induction false} AgreeOnce(c: Context, records: seq<Evidence>, p: seq<Evidence>, q: seq<Evidence>,
                                     v: Status, w: Status)
    requires TopsAgree(c, records) && multiset(p) == multiset(records) && multiset(q) == multiset(records)
    requires Derives(c, p, v) && Derives(c, q, w)
    ensures v == w
  {
    hide Applies, Top, Judge;
    SameElements(p, records);
    SameElements(q, records);
    if AnyApplies(c, records) {
      assert AnyApplies(c, p) && AnyApplies(c, q);
      var i: nat :| Chosen(c, p, i) && v == Judge(c, p[i]);
      var j: nat :| Chosen(c, q, j) && w == Judge(c, q[j]);
      TopPermuted(c, p, records, p[i]);
      TopPermuted(c, q, records, q[j]);
    } else {
      assert !AnyApplies(c, p) && !AnyApplies(c, q);
    }
  }

  lemma {:induction false} AgreementSuffices(c: Context, records: seq<Evidence>, p: seq<Evidence>, q: seq<Evidence>)
    requires TopsAgree(c, records)
    ensures SameVerdict(c, records, p, q)
  {
    if multiset(p) == multiset(records) && multiset(q) == multiset(records) {
      forall v, w | Derives(c, p, v) && Derives(c, q, w) ensures v == w { AgreeOnce(c, records, p, q, v, w); }
    }
  }

  lemma DisagreementShows(c: Context, records: seq<Evidence>, a: Evidence, b: Evidence)
    requires a in records && b in records
    requires Top(c, records, a) && Top(c, records, b) && Judge(c, a) != Judge(c, b)
    ensures exists p, q :: !SameVerdict(c, records, p, q)
  {
    hide Applies, Top, Judge, Derives;
    var p := Front(records, a);
    var q := Front(records, b);
    TopPermuted(c, records, [a] + p, a);
    TopPermuted(c, records, [b] + q, b);
    FirstTop(c, [a] + p, a);
    FirstTop(c, [b] + q, b);
    assert !SameVerdict(c, records, [a] + p, [b] + q);
  }

  /** The verdict is the same for every order of the directory exactly when the records that nothing
      displaces, which tie in both times and in result, are all judged alike. */
  lemma OrderFreeExactly(c: Context, records: seq<Evidence>)
    ensures (forall p, q :: SameVerdict(c, records, p, q)) <==> TopsAgree(c, records)
  {
    hide Top, Judge, SameVerdict;
    if TopsAgree(c, records) {
      forall p, q ensures SameVerdict(c, records, p, q) { AgreementSuffices(c, records, p, q); }
    } else {
      var a, b :| Top(c, records, a) && Top(c, records, b) && Judge(c, a) != Judge(c, b);
      TopMember(c, records, a);
      TopMember(c, records, b);
      DisagreementShows(c, records, a, b);
    }
  }

  /** So order can matter only between passed records with the same two times. */
  lemma TiesOnly(c: Context, records: seq<Evidence>, a: Evidence, b: Evidence)
    requires Top(c, records, a) && Top(c, records, b)
    ensures a.observedAt == b.observedAt && a.startedAt == b.startedAt && a.passed == b.passed
    ensures !a.passed ==> Judge(c, a) == Judge(c, b)
  {
  }

  // ----- The checks before the evidence -----

  /** The identity that makes up what is found. */
  function IdentityOf(r: Receipt, lock: string, executable: string, auth: Auth): Identity {
    Identity(r.source, r.artifact, lock, auth.keys, auth.providerTarget, auth.principal, auth.account, auth.attestation,
             auth.scopes, auth.validator, executable,
             if auth.selected then "authenticated:" + auth.scheme else "no-authentication")
  }

  /** What whoever sets up the credentials can repair. */
  const SETUP_STATES := {"missing", "expired", "revoked", "wrong-account", "wrong-scope", "invalid", "stale"}

  predicate LoggedIn(auth: Auth) {
    auth.required || auth.selected ==> auth.authenticated
  }

  predicate NeedsSetup(auth: Auth) {
    !LoggedIn(auth) && auth.state in SETUP_STATES
  }

  predicate Ready(target: Target, f: Found) {
    && !f.deprecated && target.command != [] && f.runtimeSupported && f.platformSupported && f.packageInstalled
    && f.receipt.Some? && f.lock.Some? && f.executable.Some? && f.auth.Some? && LoggedIn(f.auth.value)
  }

  /** The inspection comes to an end, and its report is saved. */
  predicate Inspected(f: Found, saved: bool) {
    f.environment.Some? && (f.packageInstalled ==> f.contractKnown) && f.auth.Some? && saved
  }

  datatype Report = Report(ready: bool, setupRequired: bool, expiresAt: int)

  /** Runs every check even after one has failed, so that all failures are reported. */
  method Doctor(target: Target, f: Found, saved: bool, now: int) returns (report: Option<Report>)
    ensures report.Some? <==> Inspected(f, saved)
    ensures report.Some? ==> (report.value.ready <==> Ready(target, f)) && report.value.expiresAt == now
    ensures report.Some? ==> (report.value.setupRequired <==> NeedsSetup(f.auth.value))
    ensures report.Some? && report.value.setupRequired ==>
              f.auth.value.state
              in ["missing", "expired", "revoked", "wrong-account", "wrong-scope", "invalid", "stale"]
  {
    if f.environment.None? { return None; }
    var ready, setupRequired := true, false;
    if !f.packageInstalled {
      ready := false;
    } else {
      if !f.contractKnown { return None; }
      if f.receipt.None? { ready := false; }
      if f.lock.None? { ready := false; }
    }
    if f.deprecated { ready := false; }
    if !f.runtimeSupported {
      ready := false;
    } else if !f.platformSupported {
      ready := false;
    } else if target.command == [] {
      ready := false;
    } else if f.executable.None? {
      ready := false;
    }
    if f.auth.None? { return None; }
    var auth := f.auth.value;
    if (auth.required || auth.selected) && !auth.authenticated {
      ready := false;
      setupRequired := auth.state in SETUP_STATES;
    }
    if !saved { return None; }
    return Some(Report(ready, setupRequired, now));
  }

  predicate HexDigit(c: char) {
    '0' <= c <= '9' || 'a' <= c <= 'f' || 'A' <= c <= 'F'
  }

  predicate Digest(s: string) {
    |s| == 64 && forall i :: 0 <= i < |s| ==> HexDigit(s[i])
  }

  lemma DigestExactly(s: string)
    ensures Digest(s) <==> |s| == 64 && forall c :: c in s ==> c in "0123456789abcdefABCDEF"
  {
    var digits := "0123456789abcdefABCDEF";
    forall c: char ensures HexDigit(c) <==> c in digits {
      if HexDigit(c) {
        var i := if c <= '9' then c as int - '0' as int
                 else if 'a' <= c then c as int - 'a' as int + 10 else c as int - 'A' as int + 16;
        assert digits[i] == c;
      }
    }
  }

  predicate Published(r: Receipt) {
    r.source == "remote" && Digest(r.artifact)
  }

  /** What is found after a passed inspection lets evidence count. */
  predicate Open(f: Found) {
    && f.contractKnown && f.receipt.Some? && Published(f.receipt.value) && f.lock.Some? && f.auth.Some?
    && f.environment.Some? && f.executable.Some?
  }

  function ContextOf(target: Target, f: Found, now: int): Context
    requires Open(f)
  {
    Context(target.(environment := f.environment.value),
            IdentityOf(f.receipt.value, f.lock.value, f.executable.value, f.auth.value),
            f.auth.value.selected, f.auth.value.expiresAt, now)
  }

  /** The evidence directory: the records in it that decode, in the order in which it lists them. */
  datatype Listing = Missing | Unreadable | Listed(records: seq<Evidence>)

  /** A refusal names a cause that is there. */
  predicate Truthful(target: Target, before: Found, after: Found, listing: Listing, reason: Reason) {
    match reason
    case ChecksFailed => !Ready(target, before)
    case IdentityInvalid => after.receipt.None?
    case LocalInstallation => after.receipt.Some? && !Published(after.receipt.value)
    case LockInvalid => after.lock.None?
    case RuntimeUnavailable => after.executable.None?
    case NoEvidence => listing.Missing?
    case _ => Open(after) && listing.Listed?
  }

  /** The status shown: found by an inspection before, and against what is found and listed after it. */
  ghost predicate Concludes(target: Target, before: Found, saved: bool, checkedAt: int, after: Found, listing: Listing,
                            now: int, status: Option<Status>) {
    && (status == Some(Deprecated) <==> before.deprecated)
    && (status.Some? && status.value.SetupRequired? <==>
          && !before.deprecated && Inspected(before, saved) && !Ready(target, before) && NeedsSetup(before.auth.value))
    && (status.Some? && status.value.SetupRequired? ==> status.value.expiresAt == checkedAt)
    && (Inspected(before, saved) && Ready(target, before) && Open(after) && listing.Listed? ==>
          status.Some? && Derives(ContextOf(target, after, now), listing.records, status.value))
    && (status.Some? && status.value.UsableNow? ==>
          Inspected(before, saved) && Ready(target, before) && Open(after) && listing.Listed?)
    && (status.Some? && status.value.NotVerified? ==>
          Inspected(before, saved) && Truthful(target, before, after, listing, status.value.reason))
    && (status.None? ==>
          || !Inspected(before, saved)
          || (Ready(target, before)
              && (!after.contractKnown || after.auth.None? || after.environment.None? || listing.Unreadable?)))
  }

  /** Gate after gate, and then the evidence. */
  method DeriveStatus(target: Target, before: Found, saved: bool, checkedAt: int, after: Found, listing: Listing,
                      now: int)
    returns (status: Option<Status>)
    ensures Concludes(target, before, saved, checkedAt, after, listing, now, status)
  {
    if before.deprecated { return Some(Deprecated); }
    var report := Doctor(target, before, saved, checkedAt);
    if report.None? { return None; }
    if !report.value.ready {
      if report.value.setupRequired { return Some(SetupRequired(report.value.expiresAt)); }
      return Some(NotVerified(ChecksFailed));
    }
    if !after.contractKnown { return None; }
    if after.receipt.None? { return Some(NotVerified(IdentityInvalid)); }
    if after.receipt.value.source != "remote" || !Digest(after.receipt.value.artifact) {
      return Some(NotVerified(LocalInstallation));
    }
    if after.lock.None? { return Some(NotVerified(LockInvalid)); }
    if after.auth.None? { return None; }
    if after.environment.None? { return None; }
    if after.executable.None? { return Some(NotVerified(RuntimeUnavailable)); }
    if listing.Missing? { return Some(NotVerified(NoEvidence)); }
    if listing.Unreadable? { return None; }
    var v := Weigh(ContextOf(target, after, now), listing.records);
    return Some(v);
  }

  // ----- What a smoke run records -----

  function Earlier(a: int, b: int): int {
    if a < b then a else b
  }

  /** Every check before the smoke test is met. */
  predicate Prepared(target: Target, p: Probe) {
    && Ready(target, p.found) && p.found.contractKnown
    && (p.found.receipt.value.source == "remote" ==>
          p.publishedArtifact != "" && SameFold(p.publishedArtifact, p.found.receipt.value.artifact))
  }

  function Deadline(auth: Auth, start: int): int {
    if auth.selected then Earlier(auth.expiresAt, start + LIFETIME) else start + LIFETIME
  }

  /** And every check after it. */
  predicate Confirmed(p: Probe, start: int, end: int)
    requires p.found.executable.Some? && p.found.auth.Some?
  {
    && p.ran && p.executableAfter.Some? && SameFold(p.executableAfter.value, p.found.executable.value)
    && p.closureAfter && p.bindingsAfter
    && (if end < start then start else end) < Deadline(p.found.auth.value, start)
  }

  /** What the record of a run starting at `start` says. */
  ghost predicate Records(target: Target, p: Probe, start: int, end: int, e: Evidence) {
    var f := p.found;
    && e.target == target.(environment := e.target.environment) && f.environment == Some(e.target.environment)
    && e.startedAt == start && start <= e.observedAt <= e.expiresAt
    && (e.passed <==> Prepared(target, p) && Confirmed(p, start, end))
    && (if e.passed then
          && e.identity == IdentityOf(f.receipt.value, f.lock.value, f.executable.value, f.auth.value)
          && e.observedAt == (if end < start then start else end) < e.expiresAt == Deadline(f.auth.value, start)
          && (e.promotionEligible <==> f.receipt.value.source == "remote")
        else !e.promotionEligible)
  }

  const UNKNOWN := Identity("unknown", "", "not-evaluated", map[], "", "", "", "", [], "", "", "not-evaluated")

  /** A record without a time is observed now, or when it was started if the clock has gone back, and a failed one
      expires no earlier; it is stored if it meets its schema and can be written. */
  method Persist(e: Evidence, late: int, storable: Evidence -> bool) returns (r: Evidence, stored: Option<Evidence>)
    ensures stored == if storable(r) then Some(r) else None
    ensures r == e.(observedAt := r.observedAt, expiresAt := r.expiresAt)
    ensures r.observedAt == if e.observedAt != 0 then e.observedAt else if late < e.startedAt then e.startedAt else late
    ensures r.expiresAt == if e.passed || (e.expiresAt != 0 && r.observedAt <= e.expiresAt) then e.expiresAt
                           else r.observedAt
  {
    r := e;
    if r.observedAt == 0 {
      r := r.(observedAt := late);
      if r.observedAt < r.startedAt { r := r.(observedAt := r.startedAt); }
    }
    if !r.passed && (r.expiresAt == 0 || r.expiresAt < r.observedAt) { r := r.(expiresAt := r.observedAt); }
    stored := if storable(r) then Some(r) else None;
  }

  /** The record of the run is stored, or is refused storage. */
  ghost predicate Recorded(target: Target, p: Probe, start: int, end: int, storable: Evidence -> bool,
                           e: Option<Evidence>) {
    exists r :: Records(target, p, start, end, r) && e == if storable(r) then Some(r) else None
  }

  /** What a run has written down before its test. */
  predicate Opened(target: Target, p: Probe, start: int, e: Evidence) {
    && e.target == target.(environment := e.target.environment) && p.found.environment == Some(e.target.environment)
    && e.startedAt == start && e.observedAt == 0 && !e.passed && !e.promotionEligible
  }

  /** A run that is not to pass stores what it has. */
  method GiveUp(target: Target, p: Probe, start: int, ghost end: int, e: Evidence, late: int,
                storable: Evidence -> bool)
    returns (stored: Option<Evidence>)
    requires 0 < start && Opened(target, p, start, e) && !(Prepared(target, p) && Confirmed(p, start, end))
    ensures Recorded(target, p, start, end, storable, stored)
  {
    var r;
    r, stored := Persist(e, late, storable);
    assert Records(target, p, start, end, r);
  }

  /** The test itself and the checks after it. */
  method Launch(target: Target, p: Probe, start: int, end: int, e: Evidence, late: int, storable: Evidence -> bool)
    returns (stored: Option<Evidence>)
    requires 0 < start && Opened(target, p, start, e) && Prepared(target, p)
    ensures Recorded(target, p, start, end, storable, stored)
  {
    var receipt, auth, executable := p.found.receipt.value, p.found.auth.value, p.found.executable.value;
    var record := e.(identity := IdentityOf(receipt, p.found.lock.value, executable, auth),
                     expiresAt := start + LIFETIME);
    if auth.selected && auth.expiresAt < record.expiresAt { record := record.(expiresAt := auth.expiresAt); }
    var sound := CheckAfter(p, executable);
    var observedAt := if end < start then start else end;
    if sound && observedAt < record.expiresAt {
      record := record.(passed := true, promotionEligible := receipt.source == "remote", observedAt := observedAt);
      record, stored := Persist(record, late, storable);
      assert Records(target, p, start, end, record);
    } else {
      stored := GiveUp(target, p, start, end, record, late, storable);
    }
  }

  /** The smoke run: fills in one record step by step and gives up at the first failure. Some failures leave
      no record at all. The clock is read at the start, after the last check, and when a failure is recorded. */
  method Smoke(target: Target, p: Probe, start: int, end: int, late: int, storable: Evidence -> bool)
    returns (e: Option<Evidence>)
    requires 0 < start
    ensures || Recorded(target, p, start, end, storable, e)
            || (e.None? && (p.found.environment.None? || !p.found.contractKnown || p.found.auth.None?))
    ensures Prepared(target, p) && p.found.environment.Some? ==> Recorded(target, p, start, end, storable, e)
  {
    if p.found.environment.None? { return None; }
    var record := Evidence(target.(environment := p.found.environment.value), UNKNOWN, start, 0, 0, false, false);
    var early := CheckBefore(target, p.found);
    if !early {
      e := GiveUp(target, p, start, end, record, late, storable);
      return;
    }
    if !p.found.contractKnown { return None; }
    var installed := CheckInstalled(p.found, p.publishedArtifact);
    if !installed {
      e := GiveUp(target, p, start, end, record, late, storable);
      return;
    }
    if p.found.auth.None? { return None; }
    var auth := p.found.auth.value;
    if (auth.required || auth.selected) && !auth.authenticated {
      e := GiveUp(target, p, start, end, record, late, storable);
      return;
    }
    e := Launch(target, p, start, end, record, late, storable);
  }

  method CheckBefore(target: Target, f: Found) returns (ok: bool)
    ensures ok <==> !f.deprecated && target.command != [] && f.runtimeSupported
                    && f.platformSupported && f.packageInstalled
  {
    if f.deprecated { return false; }
    if target.command == [] { return false; }
    if !f.runtimeSupported { return false; }
    if !f.platformSupported { return false; }
    return f.packageInstalled;
  }

  method CheckInstalled(f: Found, publishedArtifact: string) returns (ok: bool)
    ensures ok <==> f.receipt.Some? && f.lock.Some? && f.executable.Some?
                    && (f.receipt.value.source == "remote" ==>
                          publishedArtifact != "" && SameFold(publishedArtifact, f.receipt.value.artifact))
  {
    if f.receipt.None? { return false; }
    if f.lock.None? { return false; }
    if f.receipt.value.source == "remote" {
      if publishedArtifact == "" || !SameFold(publishedArtifact, f.receipt.value.artifact) { return false; }
    }
    return f.executable.Some?;
  }

  method CheckAfter(p: Probe, executable: string) returns (ok: bool)
    ensures ok <==> p.ran && p.executableAfter.Some? && SameFold(p.executableAfter.value, executable)
                    && p.closureAfter && p.bindingsAfter
  {
    if !p.ran { return false; }
    if p.executableAfter.None? || !SameFold(p.executableAfter.value, executable) { return false; }
    if !p.closureAfter { return false; }
    return p.bindingsAfter;
  }

  // ----- From a run to the status -----

  /** A passed run of a remote installation makes the catalogue status usable, until the record expires and
      while the inspection passes, the same identity is found and authentication lasts as long, unless some
      other record that applies is as late. */
  lemma PassedRunIsUsable(target: Target, p: Probe, start: int, end: int, e: Evidence, before: Found, saved: bool,
                          checkedAt: int, after: Found, records: seq<Evidence>, now: int, status: Option<Status>)
    requires 0 < start && Records(target, p, start, end, e) && e.passed && p.found.receipt.value.source == "remote"
    requires Inspected(before, saved) && Ready(target, before) && Open(after)
    requires ContextOf(target, after, now).target == e.target && ContextOf(target, after, now).identity == e.identity
    requires after.auth.value.selected ==> e.expiresAt <= after.auth.value.expiresAt
    requires e in records && e.observedAt <= now < e.expiresAt
    requires forall q :: q in records && Applies(ContextOf(target, after, now), q) && q != e ==> Later(e, q)
    requires Concludes(target, before, saved, checkedAt, after, Listed(records), now, status)
    ensures status == Some(UsableNow(e.expiresAt))
  {
    PassedRecordWins(ContextOf(target, after, now), start, e, records, status.value);
  }

  lemma PassedRecordWins(c: Context, start: int, e: Evidence, records: seq<Evidence>, v: Status)
    requires e.passed && e.promotionEligible
             && 0 < start == e.startedAt <= e.observedAt < e.expiresAt <= start + LIFETIME
    requires c.target == e.target && c.identity == e.identity
    requires e.observedAt <= c.now < e.expiresAt && (c.authSelected ==> e.expiresAt <= c.authExpiresAt)
    requires e in records && Derives(c, records, v)
    requires forall q :: q in records && Applies(c, q) && q != e ==> Later(e, q)
    ensures v == UsableNow(e.expiresAt)
  {
  }

  /** In particular, while everything is as the run found it and the installed digest is well formed. */
  lemma SteadyRunIsUsable(target: Target, p: Probe, start: int, end: int, e: Evidence, checkedAt: int,
                          records: seq<Evidence>, now: int, status: Option<Status>)
    requires 0 < start && Records(target, p, start, end, e) && e.passed && Published(p.found.receipt.value)
    requires e in records && e.observedAt <= now < e.expiresAt
    requires forall q :: q in records && Applies(ContextOf(target, p.found, now), q) && q != e ==> Later(e, q)
    requires Concludes(target, p.found, true, checkedAt, p.found, Listed(records), now, status)
    ensures status == Some(UsableNow(e.expiresAt))
  {
    PassedRunIsUsable(target, p, start, end, e, p.found, true, checkedAt, p.found, records, now, status);
  }

  /** A failed run that leaves a record blocks that status at any later time, whatever else has changed on the
      same target, until a run that started or ended later passes. */
  lemma {:induction false} FailedRunBlocks(target: Target, p: Probe, start: int, end: int, e: Evidence, before: Found,
                                           saved: bool, checkedAt: int, after: Found, records: seq<Evidence>, now: int,
                                           status: Option<Status>)
    requires 0 < start && Records(target, p, start, end, e) && !e.passed
    requires after.environment == p.found.environment && e in records && e.observedAt <= now
    requires Concludes(target, before, saved, checkedAt, after, Listed(records), now, status)
    ensures status.Some? && status.value.UsableNow? ==>
              && Open(after)
              && exists q :: q in records && q.passed && Applies(ContextOf(target, after, now), q) && Later(q, e)
  {
    if status.Some? && status.value.UsableNow? {
      var c := ContextOf(target, after, now);
      assert Applies(c, e);
      var q := UsableMeans(c, records, status.value);
      assert Later(q, e);
    }
  }

  // ----- Exactly what a record speaks for -----

  /** Characters that differ in nothing but their case. */
  predicate SameLetter(a: char, b: char) {
    || a == b
    || ('A' <= a <= 'Z' && b as int == a as int + 32)
    || ('A' <= b <= 'Z' && a as int == b as int + 32)
  }

  /** Two texts that differ in the case of letters alone. */
  predicate Alike(a: string, b: string) {
    |a| == |b| && forall i :: 0 <= i < |a| ==> SameLetter(a[i], b[i])
  }

  lemma FoldExactly(a: string, b: string)
    ensures SameFold(a, b) <==> Alike(a, b)
  {
  }

  /** A record of the installation and account that are found now, field by field. */
  ghost predicate SpeaksFor(e: Identity, receipt: Receipt, lock: string, executable: string, auth: Auth) {
    && e.source == receipt.source && Alike(e.artifact, receipt.artifact)
    && e.lock == lock && Alike(e.executable, executable)
    && |e.keys| == |auth.keys| && (forall k :: k in e.keys ==> e.keys[k] == if k in auth.keys then auth.keys[k] else "")
    && e.providerTarget == auth.providerTarget && e.principal == auth.principal && e.account == auth.account
    && e.attestation == auth.attestation && e.validator == auth.validator
    && (forall x :: x != "" ==> (x in e.scopes <==> x in auth.scopes))
    && e.configuration == (if auth.selected then "authenticated:" + auth.scheme else "no-authentication")
  }

  /** Which records apply: those of the same target and environment, in order and not from the future, and if they
      passed, of the same installation and account. */
  lemma AppliesExactly(target: Target, f: Found, now: int, e: Evidence)
    requires Open(f)
    ensures Applies(ContextOf(target, f, now), e) <==>
              && e.target.entry == target.entry && e.target.version == target.version
              && e.target.section == target.section && e.target.runtime == target.runtime
              && e.target.platform == target.platform && e.target.command == target.command
              && e.target.environment == f.environment.value
              && e.startedAt != 0 && e.observedAt != 0 && e.expiresAt != 0
              && e.startedAt <= e.observedAt <= e.expiresAt && e.observedAt <= now
              && (e.passed ==> SpeaksFor(e.identity, f.receipt.value, f.lock.value, f.executable.value, f.auth.value))
  {
    FoldExactly(e.identity.artifact, f.receipt.value.artifact);
    FoldExactly(e.identity.executable, f.executable.value);
    ScopesAlike(e.identity.scopes, f.auth.value.scopes);
  }

  lemma ScopesAlike(a: seq<string>, b: seq<string>)
    ensures SameScopes(a, b) <==> forall x :: x != "" ==> (x in a <==> x in b)
  {
    var s, t := set x | x in a && x != "", set x | x in b && x != "";
    if s == t {
      forall x | x != "" ensures x in a <==> x in b { assert x in s <==> x in t; }
    }
  }

  /** Where no key is blank, comparing keys is comparing maps. */
  lemma KeysExactly(a: map<string, string>, b: map<string, string>)
    requires forall k :: k in a ==> a[k] != ""
    ensures SameKeys(a, b) <==> a == b
  {
    if SameKeys(a, b) {
      assert a.Keys <= b.Keys;
      assert |b.Keys - a.Keys| == |b.Keys| - |a.Keys|;
    }
  }

  /** A blank key is taken for a missing one, so that unequal maps of one size can count as the same. */
  lemma BlankKeysPass(j: string, k: string, value: string)
    requires j != k
    ensures SameKeys(map[j := ""], map[k := value]) && map[j := ""] != map[k := value]
  {
    assert j in map[j := ""] && j !in map[k := value];
  }

  /** A passed run speaks for what is found later exactly if that is the same installation, lock, runtime,
      credentials, provider, account and scopes, in the same environment. */
  lemma {:induction false} RunApplies(target: Target, p: Probe, start: int, end: int, e: Evidence, after: Found,
                                      now: int)
    requires 0 < start && Records(target, p, start, end, e) && e.passed && Open(after)
    requires forall k :: k in p.found.auth.value.keys ==> p.found.auth.value.keys[k] != ""
    ensures var was, has := p.found.auth.value, after.auth.value;
            Applies(ContextOf(target, after, now), e) <==>
              && p.found.environment == after.environment && e.observedAt <= now
              && p.found.receipt.value.source == after.receipt.value.source
              && Alike(p.found.receipt.value.artifact, after.receipt.value.artifact)
              && p.found.lock == after.lock && Alike(p.found.executable.value, after.executable.value)
              && was.keys == has.keys && was.providerTarget == has.providerTarget
              && was.principal == has.principal && was.account == has.account
              && was.attestation == has.attestation && was.validator == has.validator
              && (forall x :: x != "" ==> (x in was.scopes <==> x in has.scopes))
              && (if was.selected then has.selected && was.scheme == has.scheme else !has.selected)
  {
    hide Alike, SameFold, Applies;
    var was, has := p.found.auth.value, after.auth.value;
    AppliesExactly(target, after, now, e);
    KeysExactly(was.keys, has.keys);
    SchemesApart(was.selected, was.scheme, has.selected, has.scheme);
  }

  lemma SchemesApart(a: bool, s: string, b: bool, t: string)
    ensures (if a then "authenticated:" + s else "no-authentication")
            == (if b then "authenticated:" + t else "no-authentication")
            <==> (a == b && (a ==> s == t))
  {
    var p := "authenticated:";
    assert (p + s)[0] == 'a' && "no-authentication"[0] == 'n' && (p + t)[0] == 'a';
    assert (p + s)[|p|..] == s && (p + t)[|p|..] == t;
  }

  /** And a record that does not apply is never what a status rests on. */
  lemma {:induction false} RestsOnAnother(target: Target, before: Found, saved: bool, checkedAt: int, after: Found,
                                          records: seq<Evidence>, now: int, status: Option<Status>, e: Evidence)
    returns (q: Evidence)
    requires Concludes(target, before, saved, checkedAt, after, Listed(records), now, status)
    requires status.Some? && status.value.UsableNow?
    requires Open(after) ==> !Applies(ContextOf(target, after, now), e)
    ensures Open(after) && q in records && q != e && q.passed && Applies(ContextOf(target, after, now), q)
    ensures status.value.expiresAt == q.expiresAt && now < q.expiresAt
    ensures q.observedAt < q.expiresAt <= q.startedAt + 90 * 24 * 3600 * 1_000_000_000
  {
    q := UsableMeans(ContextOf(target, after, now), records, status.value);
  }
}
