/** Accepting the readiness record of a workflow that composes several provider tools: the record must
    observe exactly the declared providers, be bound to their current evidence, carry the time window
    that evidence gives, and commit to it by a fingerprint. */
module CompositeEvidence {
  import opened Gathering
  import opened Sorting

  datatype Option<T> = None | Some(value: T)

  datatype Requirement = Needed | Optional

  datatype Access = ReadOnly | ReadWrite

  /** An unavailable provider carries no target, digest or times. Times are instants; 0 is the zero time. */
  datatype Observation = Observation(tool: string, version: string, requirement: Requirement, access: Access,
                                     ready: bool, target: string, digest: string,
                                     observedAt: Option<int>, expiresAt: Option<int>)

  datatype Dependency = Dependency(tool: string, requirement: Requirement, access: Access)

  datatype Expectation = Expectation(version: string, target: string, digest: string, observedAt: int, expiresAt: int)

  datatype Coverage = Complete | Partial | Unavailable

  datatype Evidence<I> = Evidence(installation: I, observations: seq<Observation>, passed: bool, coverage: Coverage,
                                  promotionEligible: bool, observedAt: int, expiresAt: int, fingerprint: string)

  function ToolOf(o: Observation): seq<string> {
    [o.tool]
  }

  function DependencyTool(d: Dependency): seq<string> {
    [d.tool]
  }

  function ReadyOnly(o: Observation): seq<Observation> {
    if o.ready then [o] else []
  }

  function Readies(obs: seq<Observation>): seq<Observation> {
    Gather(ReadyOnly, obs)
  }

  // ----- What acceptance means, without any order -----

  ghost predicate Authorised(deps: seq<Dependency>, o: Observation) {
    exists d :: d in deps && d.tool == o.tool && d.requirement == o.requirement && d.access == o.access
  }

  /** A ready observation repeats the provider's current evidence, which is valid now. */
  predicate Bound(expected: map<string, Expectation>, now: int, o: Observation) {
    && o.tool in expected
    && var want := expected[o.tool];
       && o.version == want.version && o.target == want.target && o.digest == want.digest
       && o.observedAt == Some(want.observedAt) && o.expiresAt == Some(want.expiresAt)
       && want.observedAt != 0 && want.expiresAt != 0
       && want.observedAt <= now < want.expiresAt && want.observedAt < want.expiresAt
  }

  ghost predicate Covered(obs: seq<Observation>, passed: bool, coverage: Coverage) {
    if exists o :: o in obs && !o.ready && o.requirement == Needed then !passed && coverage == Unavailable
    else passed && coverage == if exists o :: o in obs && !o.ready then Partial else Complete
  }

  predicate Timed(o: Observation) {
    o.observedAt.Some? && o.expiresAt.Some?
  }

  /** observedAt is the latest observation and expiresAt the earliest expiry. */
  ghost predicate Window(ready: seq<Observation>, observedAt: int, expiresAt: int) {
    && (exists o :: o in ready && o.observedAt == Some(observedAt))
    && (exists o :: o in ready && o.expiresAt == Some(expiresAt))
    && forall o :: o in ready ==> Timed(o) && o.observedAt.value <= observedAt && expiresAt <= o.expiresAt.value
  }

  ghost predicate Chronological(ready: seq<Observation>, observedAt: int, expiresAt: int) {
    if ready == [] then expiresAt == observedAt else Window(ready, observedAt, expiresAt)
  }

  ghost predicate Declared(deps: seq<Dependency>, obs: seq<Observation>) {
    && Unique(Gather(DependencyTool, deps)) && |obs| == |deps|
    && Unique(Gather(ToolOf, obs)) && forall o :: o in obs ==> Authorised(deps, o)
  }

  ghost predicate Current(obs: seq<Observation>, expected: map<string, Expectation>, now: int) {
    && (forall o :: o in obs && o.ready ==> Bound(expected, now, o))
    && (forall t :: t in expected ==> exists o :: o in obs && o.tool == t)
  }

  ghost predicate Accepted<I>(e: Evidence<I>, installation: I, deps: seq<Dependency>,
                              expected: map<string, Expectation>,
                              now: int, hash: string -> string) {
    && e.installation == installation
    && Declared(deps, e.observations) && Current(e.observations, expected, now)
    && Covered(e.observations, e.passed, e.coverage)
    && (e.promotionEligible ==> e.coverage == Complete)
    && e.observedAt <= now
    && Chronological(Readies(e.observations), e.observedAt, e.expiresAt)
    && e.fingerprint == hash(Preimage(Gather(AuthorityOf, e.observations)))
  }

  // ----- The fingerprint -----

  /** What the fingerprint covers of a ready observation. */
  datatype Authority = Authority(tool: string, version: string, requirement: Requirement, access: Access,
                                 target: string, digest: string)

  function AuthorityOf(o: Observation): seq<Authority> {
    if o.ready then [Authority(o.tool, o.version, o.requirement, o.access, o.target, o.digest)] else []
  }

  const NUL := '\0'

  const NEWLINE := '\n'

  function RequirementText(r: Requirement): string {
    if r == Needed then "required" else "optional"
  }

  function AccessText(a: Access): string {
    if a == ReadOnly then "read-only" else "read-write"
  }

  function Part(a: Authority): string {
    a.tool + [NUL] + a.version + [NUL] + RequirementText(a.requirement) + [NUL] + AccessText(a.access)
    + [NUL] + a.target + [NUL] + a.digest
  }

  function PartOf(a: Authority): seq<string> {
    [Part(a)]
  }

  function Join(parts: seq<string>): string {
    if parts == [] then [] else if |parts| == 1 then parts[0] else parts[0] + [NEWLINE] + Join(parts[1..])
  }

  /** What the fingerprint hashes. */
  function Preimage(all: seq<Authority>): string {
    Join(Sort(Gather(PartOf, all)))
  }

  lemma PreimagePermuted(all: seq<Authority>, all': seq<Authority>)
    requires multiset(all) == multiset(all')
    ensures Preimage(all) == Preimage(all')
  {
    GatherPermutes(PartOf, all, all');
    SortPermutes(Gather(PartOf, all), Gather(PartOf, all'));
  }

  predicate Free(s: string, c: char) {
    c !in s
  }

  lemma CutFirst(x: string, y: string, r: string, s: string, c: char)
    requires Free(x, c) && Free(y, c) && x + [c] + r == y + [c] + s
    ensures x == y && r == s
  {
    var a := x + [c] + r;
    assert a[|x|] == c && forall k :: 0 <= k < |x| ==> a[k] == x[k] != c;
    assert a == y + [c] + s && a[|y|] == c && forall k :: 0 <= k < |y| ==> a[k] == y[k] != c;
    assert a[..|x|] == x && a[..|y|] == y && a[|x| + 1..] == r && a[|y| + 1..] == s;
  }

  lemma CutLast(x: string, y: string, r: string, s: string, c: char)
    requires Free(r, c) && Free(s, c) && x + [c] + r == y + [c] + s
    ensures x == y && r == s
  {
    var a := x + [c] + r;
    assert a[|x|] == c && forall k :: |x| < k < |a| ==> a[k] == r[k - |x| - 1] != c;
    assert a == y + [c] + s && a[|y|] == c && forall k :: |y| < k < |a| ==> a[k] == s[k - |y| - 1] != c;
    assert a[..|x|] == x && a[..|y|] == y && a[|x| + 1..] == r && a[|y| + 1..] == s;
  }

  /** The form the evidence schema gives names and digests; of a version it only says that there is one. */
  predicate Clean(a: Authority) {
    && Free(a.tool, NUL) && Free(a.target, NUL) && Free(a.digest, NUL)
    && Free(a.tool, NEWLINE) && Free(a.target, NEWLINE) && Free(a.digest, NEWLINE)
  }

  lemma TextsFree(r: Requirement, a: Access)
    ensures Free(RequirementText(r), NUL) && Free(AccessText(a), NUL)
    ensures Free(RequirementText(r), NEWLINE) && Free(AccessText(a), NEWLINE)
  {
  }

  lemma TextsDiffer(r: Requirement, r': Requirement, a: Access, a': Access)
    ensures RequirementText(r) == RequirementText(r') ==> r == r'
    ensures AccessText(a) == AccessText(a') ==> a == a'
  {
  }

  /** A part determines its fields, whatever the version holds. */
  lemma PartInjective(o: Authority, p: Authority)
    requires Clean(o) && Clean(p) && Part(o) == Part(p)
    ensures o == p
  {
    TextsFree(o.requirement, o.access);
    TextsFree(p.requirement, p.access);
    TextsDiffer(o.requirement, p.requirement, o.access, p.access);
    var u, u' := o.tool + [NUL] + o.version, p.tool + [NUL] + p.version;
    var v, v' := u + [NUL] + RequirementText(o.requirement), u' + [NUL] + RequirementText(p.requirement);
    var w, w' := v + [NUL] + AccessText(o.access), v' + [NUL] + AccessText(p.access);
    CutLast(w + [NUL] + o.target, w' + [NUL] + p.target, o.digest, p.digest, NUL);
    CutLast(w, w', o.target, p.target, NUL);
    CutLast(v, v', AccessText(o.access), AccessText(p.access), NUL);
    CutLast(u, u', RequirementText(o.requirement), RequirementText(p.requirement), NUL);
    CutFirst(o.tool, p.tool, o.version, p.version, NUL);
  }

  ghost predicate Lines(parts: seq<string>) {
    forall i :: 0 <= i < |parts| ==> parts[i] != [] && Free(parts[i], NEWLINE)
  }

  lemma JoinLines(a: seq<string>)
    requires Lines(a)
    ensures NEWLINE in Join(a) <==> 1 < |a|
    ensures Join(a) == [] <==> a == []
  {
  }

  lemma {:induction false} JoinInjective(a: seq<string>, b: seq<string>)
    requires Lines(a) && Lines(b) && Join(a) == Join(b)
    ensures a == b
  {
    JoinLines(a);
    JoinLines(b);
    if 1 < |a| {
      CutFirst(a[0], b[0], Join(a[1..]), Join(b[1..]), NEWLINE);
      JoinInjective(a[1..], b[1..]);
      assert a == [a[0]] + a[1..] && b == [b[0]] + b[1..];
    }
  }

  /** Fields and version free of line breaks. */
  ghost predicate AllClean(all: seq<Authority>) {
    forall a :: a in all ==> Clean(a) && Free(a.version, NEWLINE)
  }

  lemma PartLine(a: Authority)
    requires Clean(a) && Free(a.version, NEWLINE)
    ensures Part(a) != [] && Free(Part(a), NEWLINE)
  {
  }

  lemma PartLines(all: seq<Authority>)
    requires AllClean(all)
    ensures Lines(Sort(Gather(PartOf, all)))
  {
    var sorted := Sort(Gather(PartOf, all));
    forall i | 0 <= i < |sorted| ensures sorted[i] != [] && Free(sorted[i], NEWLINE) {
      SortMembers(Gather(PartOf, all), sorted[i]);
      GatherMember(PartOf, all, sorted[i]);
      var a :| a in all && sorted[i] in PartOf(a);
      PartLine(a);
    }
  }

  lemma Locate(all: seq<Authority>, x: Authority) returns (k: nat)
    requires AllClean(all) && Clean(x) && Part(x) in Gather(PartOf, all)
    ensures k < |all| && all[k] == x
  {
    GatherMember(PartOf, all, Part(x));
    var y :| y in all && Part(x) in PartOf(y);
    PartInjective(x, y);
    k :| 0 <= k < |all| && all[k] == y;
  }

  lemma CleanRest(all: seq<Authority>, k: nat)
    requires AllClean(all) && k < |all|
    ensures AllClean(all[..k] + all[k + 1..]) && Clean(all[k])
  {
  }

  lemma {:induction false} PartsDetermine(all: seq<Authority>, all': seq<Authority>)
    requires AllClean(all) && AllClean(all')
    requires multiset(Gather(PartOf, all)) == multiset(Gather(PartOf, all'))
    ensures multiset(all) == multiset(all')
    decreases |all|
  {
    hide Part, Clean, AllClean, Gather;
    GatherOnes(all);
    GatherOnes(all');
    assert |multiset(Gather(PartOf, all))| == |all| && |multiset(Gather(PartOf, all'))| == |all'|;
    if all == [] {
      assert all' == [];
    } else {
      SplitParts(all, 0);
      SplitAt(all, 0);
      CleanRest(all, 0);
      assert Part(all[0]) in Gather(PartOf, all') by { assert Part(all[0]) in multiset(Gather(PartOf, all')); }
      var k := Locate(all', all[0]);
      SplitParts(all', k);
      SplitAt(all', k);
      CleanRest(all', k);
      PartsDetermine(all[..0] + all[1..], all'[..k] + all'[k + 1..]);
      Restored(all, 0);
      Restored(all', k);
    }
  }

  lemma Restored(all: seq<Authority>, k: nat)
    requires k < |all|
    ensures multiset(all) == multiset(all[..k] + all[k + 1..]) + multiset{all[k]}
  {
    SplitAt(all, k);
    assert all[k] in multiset(all);
  }

  lemma {:induction false} GatherOnes(all: seq<Authority>)
    ensures |Gather(PartOf, all)| == |all|
  {
    if all != [] { GatherOnes(all[..|all| - 1]); }
  }

  lemma {:induction false} SplitParts(all: seq<Authority>, k: nat)
    requires k < |all|
    ensures multiset(Gather(PartOf, all[..k] + all[k + 1..])) == multiset(Gather(PartOf, all)) - multiset{Part(all[k])}
    ensures Part(all[k]) in multiset(Gather(PartOf, all))
  {
    SplitAt(all, k);
    GatherConcat(PartOf, all[..k], all[k + 1..]);
    GatherMore(PartOf, all[..k], all[k]);
    GatherConcat(PartOf, all[..k] + [all[k]], all[k + 1..]);
  }

  /** The fingerprint's preimage determines, and depends only on, which ready tools the record observed with
      which versions, authority, targets and evidence; their order does not matter. */
  lemma FingerprintCommits(all: seq<Authority>, all': seq<Authority>)
    requires AllClean(all) && AllClean(all')
    ensures Preimage(all) == Preimage(all') <==> multiset(all) == multiset(all')
  {
    if Preimage(all) == Preimage(all') {
      PartLines(all);
      PartLines(all');
      JoinInjective(Sort(Gather(PartOf, all)), Sort(Gather(PartOf, all')));
      SortSorts(Gather(PartOf, all));
      SortSorts(Gather(PartOf, all'));
      PartsDetermine(all, all');
    }
    if multiset(all) == multiset(all') { PreimagePermuted(all, all'); }
  }

  lemma Assoc(x: string, y: string, z: string)
    ensures (x + y) + z == x + (y + z)
  {
  }

  function Head(a: Authority): string {
    a.tool + [NUL] + a.version
  }

  function Rest(a: Authority): string {
    [NUL] + RequirementText(a.requirement) + [NUL] + AccessText(a.access) + [NUL] + a.target + [NUL] + a.digest
  }

  function Between(a: Authority, b: Authority): string {
    Rest(a) + ([NEWLINE] + Head(b))
  }

  /** One observation whose version spells out another. */
  function Merged(a: Authority, b: Authority): Authority {
    b.(tool := a.tool, version := a.version + Between(a, b))
  }

  lemma PartSplits(a: Authority)
    ensures Part(a) == Head(a) + Rest(a)
  {
  }

  lemma MergedPart(a: Authority, b: Authority)
    ensures Part(Merged(a, b)) == Part(a) + ([NEWLINE] + Part(b))
    ensures Clean(a) && Clean(b) ==> Clean(Merged(a, b))
  {
    PartSplits(a);
    PartSplits(b);
    PartSplits(Merged(a, b));
    Assoc(a.tool + [NUL], a.version, Between(a, b));
    Assoc(Head(a), Between(a, b), Rest(b));
    Assoc(Rest(a), [NEWLINE] + Head(b), Rest(b));
    Assoc([NEWLINE], Head(b), Rest(b));
    Assoc(Head(a), Rest(a), [NEWLINE] + Part(b));
  }

  lemma TwoLines(p: string, q: string)
    requires Leq(p, q)
    ensures Join(Sort([p, q])) == p + ([NEWLINE] + q)
    ensures Join(Sort([q])) == q
  {
  }

  lemma TwoParts(a: Authority, b: Authority)
    ensures Gather(PartOf, [a, b]) == [Part(a), Part(b)] && Gather(PartOf, [a]) == [Part(a)]
  {
    GatherMore(PartOf, [], a);
    GatherMore(PartOf, [a], b);
    assert [] + [a] == [a] && [a] + [b] == [a, b];
  }

  /** A version with a line break escapes the commitment: any two observations collide with a single one
      whose other fields are as clean as theirs. */
  lemma VersionLineBreaks(a: Authority, b: Authority)
    requires Clean(a) && Clean(b) && Leq(Part(a), Part(b))
    ensures Clean(Merged(a, b)) && Preimage([Merged(a, b)]) == Preimage([a, b])
    ensures multiset([Merged(a, b)]) != multiset([a, b])
  {
    hide Part;
    MergedPart(a, b);
    TwoParts(a, b);
    TwoParts(Merged(a, b), b);
    TwoLines(Part(a), Part(b));
    LeqTotal(Part(Merged(a, b)), Part(Merged(a, b)));
    TwoLines(Part(Merged(a, b)), Part(Merged(a, b)));
    assert |multiset([Merged(a, b)])| == 1 && |multiset([a, b])| == 2;
  }

  // ----- Exactly when the fingerprint commits -----

  /** What the schema guarantees; versions are any text. */
  ghost predicate AllShaped(all: seq<Authority>) {
    forall i :: 0 <= i < |all| ==> Clean(all[i])
  }

  /** No other shaped list has the same preimage. */
  ghost predicate Committed(all: seq<Authority>) {
    forall other :: AllShaped(other) && Preimage(other) == Preimage(all) ==> multiset(other) == multiset(all)
  }

  /** One observation whose version, at a line break, spells out two. */
  ghost predicate Divides(m: Authority) {
    exists a, b :: Clean(a) && Clean(b) && Leq(Part(a), Part(b)) && m == Merged(a, b)
  }

  function Parts(order: seq<Authority>): seq<string> {
    seq(|order|, i requires 0 <= i < |order| => Part(order[i]))
  }

  /** The observations in the order of their parts. */
  lemma {:induction false} InOrder(all: seq<Authority>, strings: seq<string>) returns (order: seq<Authority>)
    requires AllShaped(all) && forall i :: 0 <= i < |strings| ==> strings[i] in Gather(PartOf, all)
    ensures AllShaped(order) && Parts(order) == strings
  {
    hide Part, Clean, Gather;
    order := [];
    if strings != [] {
      var front, last := strings[..|strings| - 1], strings[|strings| - 1];
      order := InOrder(all, front);
      GatherMember(PartOf, all, last);
      var a :| a in all && last in PartOf(a);
      order := order + [a];
      assert strings == front + [last];
    }
  }

  lemma SortedOrder(all: seq<Authority>) returns (order: seq<Authority>)
    requires AllShaped(all)
    ensures AllShaped(order) && Parts(order) == Sort(Gather(PartOf, all)) && |order| == |all|
  {
    var strings := Sort(Gather(PartOf, all));
    forall i | 0 <= i < |strings| ensures strings[i] in Gather(PartOf, all) {
      SortMembers(Gather(PartOf, all), strings[i]);
    }
    order := InOrder(all, strings);
    GatherOnes(all);
    SortSorts(Gather(PartOf, all));
    SameElements(strings, Gather(PartOf, all));
  }

  /** Any list of parts is also the part of a single observation. */
  lemma {:induction false} MergeAll(order: seq<Authority>) returns (m: Authority)
    requires order != [] && AllShaped(order)
    ensures Clean(m) && Part(m) == Join(Parts(order))
  {
    if |order| == 1 {
      m := order[0];
    } else {
      var rest := MergeAll(order[1..]);
      assert Parts(order)[1..] == Parts(order[1..]);
      m := Merged(order[0], rest);
      MergedPart(order[0], rest);
      Assoc(Part(order[0]), [NEWLINE], Part(rest));
    }
  }

  lemma SinglePreimage(m: Authority)
    ensures Preimage([m]) == Part(m)
  {
    TwoParts(m, m);
    LeqTotal(Part(m), Part(m));
    TwoLines(Part(m), Part(m));
  }

  lemma {:induction false} LeqExtends(p: string, x: string)
    ensures Leq(p, p + x)
  {
    if p != [] {
      assert (p + x)[1..] == p[1..] + x;
      LeqExtends(p[1..], x);
    }
  }

  lemma PreimageNonEmpty(all: seq<Authority>)
    requires AllShaped(all)
    ensures Preimage(all) == [] <==> all == []
  {
    if all == [] {
      assert Gather(PartOf, all) == [];
    } else {
      var order := SortedOrder(all);
      var m := MergeAll(order);
      assert NUL in Part(m);
    }
  }

  /** Two or more observations have the preimage of a single one. */
  lemma ManyCollide(all: seq<Authority>)
    requires AllShaped(all) && 2 <= |all|
    ensures !Committed(all)
  {
    var order := SortedOrder(all);
    var m := MergeAll(order);
    SinglePreimage(m);
    assert AllShaped([m]) && |multiset([m])| == 1 && |multiset(all)| == |all|;
  }

  /** A single observation with the preimage of several divides. */
  lemma SeveralDivide(m: Authority, other: seq<Authority>)
    requires Clean(m) && AllShaped(other) && 2 <= |other| && Preimage(other) == Part(m)
    ensures Divides(m)
  {
    hide Part, Clean;
    var order := SortedOrder(other);
    var rest := MergeAll(order[1..]);
    var a := order[0];
    assert Parts(order)[1..] == Parts(order[1..]);
    MergedPart(a, rest);
    Assoc(Part(a), [NEWLINE], Part(rest));
    PartInjective(m, Merged(a, rest));
    SortSorts(Gather(PartOf, other));
    assert Leq(Parts(order)[0], Parts(order)[1]);
    RestStarts(order[1..]);
    LeqTransitive(Part(a), Part(order[1]), Part(rest));
  }

  lemma RestStarts(order: seq<Authority>)
    requires order != []
    ensures Leq(Part(order[0]), Join(Parts(order)))
  {
    var parts := Parts(order);
    if |order| == 1 {
      LeqTotal(parts[0], parts[0]);
    } else {
      Assoc(parts[0], [NEWLINE], Join(parts[1..]));
      LeqExtends(parts[0], [NEWLINE] + Join(parts[1..]));
    }
  }

  /** Exactly which lists the fingerprint commits to when the others may hold any version: the empty one, and
      a single observation that does not spell out two. */
  lemma FingerprintExactly(all: seq<Authority>)
    requires AllShaped(all)
    ensures Committed(all) <==> all == [] || (|all| == 1 && !Divides(all[0]))
  {
    if 2 <= |all| {
      ManyCollide(all);
    } else if |all| == 1 {
      assert all == [all[0]];
      SinglePreimage(all[0]);
      SingleExactly(all[0]);
    } else {
      forall other | AllShaped(other) && Preimage(other) == Preimage(all) ensures multiset(other) == multiset(all) {
        PreimageNonEmpty(all);
        PreimageNonEmpty(other);
      }
    }
  }

  lemma SingleExactly(m: Authority)
    requires Clean(m)
    ensures Committed([m]) <==> !Divides(m)
  {
    hide Part, Clean, Merged, Preimage;
    SinglePreimage(m);
    if a, b :| Clean(a) && Clean(b) && Leq(Part(a), Part(b)) && m == Merged(a, b) {
      VersionLineBreaks(a, b);
      assert AllShaped([a, b]);
    } else {
      forall other | AllShaped(other) && Preimage(other) == Preimage([m]) ensures multiset(other) == multiset([m]) {
        PreimageNonEmpty([m]);
        PreimageNonEmpty(other);
        SameSingle(m, other);
      }
    }
  }

  lemma SameSingle(m: Authority, other: seq<Authority>)
    requires Clean(m) && AllShaped(other) && other != [] && Preimage(other) == Part(m)
    ensures other == [m] || Divides(m)
  {
    if 2 <= |other| {
      SeveralDivide(m, other);
    } else {
      assert other == [other[0]];
      SinglePreimage(other[0]);
      PartInjective(m, other[0]);
    }
  }

  // ----- The check -----

  /** The declarations, which name no tool twice, by tool. */
  ghost predicate Indexes(deps: seq<Dependency>, requirements: map<string, Dependency>) {
    && Unique(Gather(DependencyTool, deps)) && |requirements| == |deps|
    && (forall d :: d in deps ==> d.tool in requirements && requirements[d.tool] == d)
    && (forall t :: t in requirements ==> requirements[t] in deps && requirements[t].tool == t)
  }

  lemma Indexed(deps: seq<Dependency>, requirements: map<string, Dependency>, tool: string)
    requires Indexes(deps, requirements)
    ensures tool in requirements <==> tool in Gather(DependencyTool, deps)
  {
    GatherMember(DependencyTool, deps, tool);
    if tool in requirements { assert tool in DependencyTool(requirements[tool]); }
  }

  lemma IndexesMore(deps: seq<Dependency>, requirements: map<string, Dependency>, d: Dependency)
    requires Indexes(deps, requirements)
    ensures d.tool !in requirements ==> Indexes(deps + [d], requirements[d.tool := d])
    ensures d.tool in requirements ==> !Unique(Gather(DependencyTool, deps + [d]))
  {
    hide Unique, Gather;
    Indexed(deps, requirements, d.tool);
    GatherMore(DependencyTool, deps, d);
    UniqueMore(Gather(DependencyTool, deps), d.tool);
    if d.tool !in requirements {
      var more := requirements[d.tool := d];
      forall q | q in deps + [d] ensures q.tool in more && more[q.tool] == q { assert q in deps || q == d; }
      forall t | t in more
        ensures more[t] in deps + [d] && more[t].tool == t
      {
        assert t == d.tool || t in requirements;
      }
    }
  }

  lemma UniqueToolsPrefix(deps: seq<Dependency>, i: nat)
    requires i <= |deps| && Unique(Gather(DependencyTool, deps))
    ensures Unique(Gather(DependencyTool, deps[..i]))
  {
    assert deps == deps[..i] + deps[i..];
    GatherConcat(DependencyTool, deps[..i], deps[i..]);
    UniquePrefix(Gather(DependencyTool, deps[..i]), Gather(DependencyTool, deps[i..]));
  }

  /** A tool declared twice is refused. */
  method ReadDependencies(deps: seq<Dependency>) returns (ok: bool, requirements: map<string, Dependency>)
    ensures ok <==> Unique(Gather(DependencyTool, deps))
    ensures ok ==> Indexes(deps, requirements)
  {
    hide Unique;
    requirements := map[];
    var i := 0;
    NothingDeclared();
    while i < |deps|
      invariant i <= |deps| && Indexes(deps[..i], requirements)
    {
      assert deps[..i + 1] == deps[..i] + [deps[i]];
      IndexesMore(deps[..i], requirements, deps[i]);
      if deps[i].tool in requirements {
        if Unique(Gather(DependencyTool, deps)) { UniqueToolsPrefix(deps, i + 1); }
        return false, requirements;
      }
      requirements := requirements[deps[i].tool := deps[i]];
      i := i + 1;
    }
    assert deps[..i] == deps;
    ok := true;
  }

  lemma NothingDeclared()
    ensures Indexes([], map[])
  {
  }

  /** What the pass demands of one observation, apart from its tool not having come before. */
  predicate Admissible(requirements: map<string, Dependency>, expected: map<string, Expectation>, now: int,
                       o: Observation) {
    && o.tool in requirements
    && o.requirement == requirements[o.tool].requirement && o.access == requirements[o.tool].access
    && (o.ready ==> Bound(expected, now, o))
  }

  ghost predicate Passing(requirements: map<string, Dependency>, expected: map<string, Expectation>, now: int,
                          obs: seq<Observation>) {
    Unique(Gather(ToolOf, obs)) && forall o :: o in obs ==> Admissible(requirements, expected, now, o)
  }

  lemma PassingMore(requirements: map<string, Dependency>, expected: map<string, Expectation>, now: int,
                    obs: seq<Observation>, o: Observation)
    ensures Passing(requirements, expected, now, obs + [o]) <==>
              && Passing(requirements, expected, now, obs)
              && o.tool !in Gather(ToolOf, obs) && Admissible(requirements, expected, now, o)
  {
    GatherMore(ToolOf, obs, o);
    UniqueMore(Gather(ToolOf, obs), o.tool);
    assert forall q :: q in obs + [o] <==> q in obs || q == o;
  }

  lemma PassingPrefix(requirements: map<string, Dependency>, expected: map<string, Expectation>, now: int,
                      obs: seq<Observation>, i: nat)
    requires i <= |obs| && Passing(requirements, expected, now, obs)
    ensures Passing(requirements, expected, now, obs[..i])
  {
    assert obs == obs[..i] + obs[i..];
    GatherConcat(ToolOf, obs[..i], obs[i..]);
    UniquePrefix(Gather(ToolOf, obs[..i]), Gather(ToolOf, obs[i..]));
  }

  method Observe(requirements: map<string, Dependency>, expected: map<string, Expectation>, now: int,
                 obs: seq<Observation>)
    returns (ok: bool, seen: set<string>, ready: seq<Observation>, requiredOut: bool, optionalOut: bool)
    ensures ok <==> Passing(requirements, expected, now, obs)
    ensures ok ==> ready == Readies(obs) && forall t :: t in seen <==> t in Gather(ToolOf, obs)
    ensures ok ==> (requiredOut <==> exists o :: o in obs && !o.ready && o.requirement == Needed)
    ensures ok ==> (optionalOut <==> exists o :: o in obs && !o.ready && o.requirement != Needed)
  {
    hide Bound;
    seen, ready, requiredOut, optionalOut := {}, [], false, false;
    var i := 0;
    while i < |obs|
      invariant i <= |obs| && Passing(requirements, expected, now, obs[..i]) && ready == Readies(obs[..i])
      invariant forall t :: t in seen <==> t in Gather(ToolOf, obs[..i])
      invariant requiredOut <==> exists o :: o in obs[..i] && !o.ready && o.requirement == Needed
      invariant optionalOut <==> exists o :: o in obs[..i] && !o.ready && o.requirement != Needed
    {
      var o := obs[i];
      ghost var before := obs[..i];
      assert obs[..i + 1] == before + [o];
      PassingMore(requirements, expected, now, before, o);
      GatherMore(ToolOf, before, o);
      GatherMore(ReadyOnly, before, o);
      if o.tool in seen || !Admissible(requirements, expected, now, o) {
        if Passing(requirements, expected, now, obs) { PassingPrefix(requirements, expected, now, obs, i + 1); }
        return false, seen, ready, requiredOut, optionalOut;
      }
      seen := seen + {o.tool};
      assert forall q :: q in obs[..i + 1] <==> q in before || q == o;
      if o.ready {
        ready := ready + [o];
      } else if requirements[o.tool].requirement == Needed {
        requiredOut := true;
      } else {
        optionalOut := true;
      }
      i := i + 1;
    }
    assert obs[..i] == obs;
    ok := true;
  }

  /** The window the ready observations give: a running maximum and a running minimum. */
  method WindowOf(ready: seq<Observation>) returns (latest: int, earliest: int)
    requires ready != [] && forall i :: 0 <= i < |ready| ==> Timed(ready[i])
    ensures Window(ready, latest, earliest)
  {
    latest, earliest := ready[0].observedAt.value, ready[0].expiresAt.value;
    var i := 1;
    while i < |ready|
      invariant 1 <= i <= |ready| && Window(ready[..i], latest, earliest)
    {
      assert ready[..i + 1] == ready[..i] + [ready[i]];
      assert forall o :: o in ready[..i + 1] <==> o in ready[..i] || o == ready[i];
      if latest < ready[i].observedAt.value { latest := ready[i].observedAt.value; }
      if ready[i].expiresAt.value < earliest { earliest := ready[i].expiresAt.value; }
      i := i + 1;
    }
    assert ready[..i] == ready;
  }

  lemma WindowUnique(ready: seq<Observation>, a: int, b: int, a': int, b': int)
    requires Window(ready, a, b) && Window(ready, a', b')
    ensures a == a' && b == b'
  {
  }

  method CheckCoverage(passed: bool, coverage: Coverage, obs: seq<Observation>, requiredOut: bool, optionalOut: bool)
    returns (ok: bool)
    requires requiredOut <==> exists o :: o in obs && !o.ready && o.requirement == Needed
    requires optionalOut <==> exists o :: o in obs && !o.ready && o.requirement != Needed
    ensures ok <==> Covered(obs, passed, coverage)
  {
    var wantPassed, wantCoverage := true, Complete;
    if requiredOut {
      wantPassed, wantCoverage := false, Unavailable;
    } else if optionalOut {
      wantCoverage := Partial;
    }
    ok := passed == wantPassed && coverage == wantCoverage;
  }

  method CheckWindow(ready: seq<Observation>, observedAt: int, expiresAt: int) returns (ok: bool)
    requires forall i :: 0 <= i < |ready| ==> Timed(ready[i])
    ensures ok <==> Chronological(ready, observedAt, expiresAt)
  {
    if ready == [] { return expiresAt == observedAt; }
    var latest, earliest := WindowOf(ready);
    if Window(ready, observedAt, expiresAt) { WindowUnique(ready, latest, earliest, observedAt, expiresAt); }
    return observedAt == latest && expiresAt == earliest;
  }

  /** Accepts exactly the records that mean what they must, in one pass over declarations and observations. */
  method Validate<I(==)>(e: Evidence<I>, installation: I, deps: seq<Dependency>, expected: map<string, Expectation>,
                         now: int, hash: string -> string) returns (accepted: bool)
    ensures accepted <==> Accepted(e, installation, deps, expected, now, hash)
  {
    hide Passing, Covered, Chronological, Bound, Authorised, Unique, Gather;
    if e.installation != installation { return false; }
    var declared, requirements := ReadDependencies(deps);
    if !declared { return false; }
    if |e.observations| != |requirements| { return false; }
    var passing, seen, ready, requiredOut, optionalOut := Observe(requirements, expected, now, e.observations);
    PassingMeans(requirements, expected, now, deps, e.observations);
    if !passing { return false; }
    forall t ensures t in seen <==> exists o :: o in e.observations && o.tool == t {
      GatherMember(ToolOf, e.observations, t);
    }
    if !(expected.Keys <= seen) { return false; }
    var covered := CheckCoverage(e.passed, e.coverage, e.observations, requiredOut, optionalOut);
    if !covered { return false; }
    if e.promotionEligible && e.coverage != Complete { return false; }
    if now < e.observedAt { return false; }
    ReadiesTimed(expected, now, e.observations);
    var timely := CheckWindow(ready, e.observedAt, e.expiresAt);
    if !timely { return false; }
    return e.fingerprint == hash(Preimage(Gather(AuthorityOf, e.observations)));
  }

  lemma PassingMeans(requirements: map<string, Dependency>, expected: map<string, Expectation>, now: int,
                     deps: seq<Dependency>, obs: seq<Observation>)
    requires |obs| == |deps| && Indexes(deps, requirements)
    ensures Passing(requirements, expected, now, obs) <==>
              Declared(deps, obs) && forall o :: o in obs && o.ready ==> Bound(expected, now, o)
  {
  }

  lemma ReadiesMember(obs: seq<Observation>, o: Observation)
    ensures o in Readies(obs) <==> o in obs && o.ready
  {
    GatherMember(ReadyOnly, obs, o);
    if o in obs && o.ready { assert o in ReadyOnly(o); }
  }

  lemma ReadiesTimed(expected: map<string, Expectation>, now: int, obs: seq<Observation>)
    requires forall o :: o in obs && o.ready ==> Bound(expected, now, o)
    ensures forall i :: 0 <= i < |Readies(obs)| ==> Timed(Readies(obs)[i])
  {
    forall i | 0 <= i < |Readies(obs)| ensures Timed(Readies(obs)[i]) { ReadiesMember(obs, Readies(obs)[i]); }
  }

  // ----- What acceptance gives -----

  lemma {:induction false} GatherTools(obs: seq<Observation>)
    ensures |Gather(ToolOf, obs)| == |obs|
    ensures forall i :: 0 <= i < |obs| ==> Gather(ToolOf, obs)[i] == obs[i].tool
  {
    if obs != [] { GatherTools(obs[..|obs| - 1]); }
  }

  lemma {:induction false} GatherDependencyTools(deps: seq<Dependency>)
    ensures |Gather(DependencyTool, deps)| == |deps|
    ensures forall i :: 0 <= i < |deps| ==> Gather(DependencyTool, deps)[i] == deps[i].tool
  {
    if deps != [] { GatherDependencyTools(deps[..|deps| - 1]); }
  }

  lemma Pigeonhole<T(!new)>(s: seq<T>, t: seq<T>)
    requires Unique(s) && |s| == |t| && forall x :: x in s ==> x in t
    ensures multiset(s) == multiset(t)
  {
    forall x ensures multiset(s)[x] <= multiset(t)[x] {
      assert x in s <==> x in multiset(s);
      assert x in t <==> x in multiset(t);
    }
    assert multiset(s) <= multiset(t);
    assert multiset(t) == multiset(s) + (multiset(t) - multiset(s));
    assert |multiset(s)| == |s| && |multiset(t)| == |t|;
  }

  /** Observation i is of dependency d, with the authority d declares, and no other is. */
  ghost predicate Observes(obs: seq<Observation>, d: Dependency, i: nat) {
    && i < |obs| && obs[i].tool == d.tool && obs[i].requirement == d.requirement && obs[i].access == d.access
    && forall j :: 0 <= j < |obs| && j != i ==> obs[j].tool != d.tool
  }

  ghost predicate ObservesSome(deps: seq<Dependency>, obs: seq<Observation>, i: nat) {
    exists d :: d in deps && Observes(obs, d, i)
  }

  lemma ObservationDeclared(deps: seq<Dependency>, obs: seq<Observation>, i: nat)
    requires Declared(deps, obs) && i < |obs|
    ensures ObservesSome(deps, obs, i)
  {
    var tools := Gather(ToolOf, obs);
    GatherTools(obs);
    UniqueIndices(tools);
    assert Authorised(deps, obs[i]);
    var d :| d in deps && d.tool == obs[i].tool && d.requirement == obs[i].requirement && d.access == obs[i].access;
    forall j | 0 <= j < |obs| && j != i ensures obs[j].tool != d.tool { assert tools[i] != tools[j]; }
    assert Observes(obs, d, i);
  }

  lemma SameTools(deps: seq<Dependency>, obs: seq<Observation>)
    requires Declared(deps, obs)
    ensures multiset(Gather(ToolOf, obs)) == multiset(Gather(DependencyTool, deps))
  {
    var tools, wanted := Gather(ToolOf, obs), Gather(DependencyTool, deps);
    GatherTools(obs);
    GatherDependencyTools(deps);
    forall x | x in tools ensures x in wanted {
      var i :| 0 <= i < |obs| && tools[i] == x;
      assert Authorised(deps, obs[i]);
      GatherMember(DependencyTool, deps, x);
      var d :| d in deps && d.tool == x;
      assert x in DependencyTool(d);
    }
    Pigeonhole(tools, wanted);
  }

  lemma DependencyObserved(deps: seq<Dependency>, obs: seq<Observation>, d: Dependency) returns (i: nat)
    requires Declared(deps, obs) && d in deps
    ensures Observes(obs, d, i)
  {
    SameTools(deps, obs);
    GatherTools(obs);
    GatherMember(DependencyTool, deps, d.tool);
    assert d.tool in DependencyTool(d);
    assert d.tool in multiset(Gather(ToolOf, obs));
    i :| 0 <= i < |obs| && Gather(ToolOf, obs)[i] == d.tool;
    ObservationDeclared(deps, obs, i);
    var d' :| d' in deps && Observes(obs, d', i);
    SameDependency(deps, d, d');
  }

  /** Each observation is of some declared dependency, and each dependency has exactly one observation. */
  lemma ObservedExactly(deps: seq<Dependency>, obs: seq<Observation>)
    requires Declared(deps, obs)
    ensures forall i: nat :: i < |obs| ==> ObservesSome(deps, obs, i)
    ensures forall d :: d in deps ==> exists i :: Observes(obs, d, i)
  {
    forall i: nat | i < |obs| ensures ObservesSome(deps, obs, i) { ObservationDeclared(deps, obs, i); }
    forall d | d in deps ensures exists i :: Observes(obs, d, i) {
      var i := DependencyObserved(deps, obs, d);
    }
  }

  lemma SameDependency(deps: seq<Dependency>, d: Dependency, d': Dependency)
    requires Unique(Gather(DependencyTool, deps)) && d in deps && d' in deps && d.tool == d'.tool
    ensures d == d'
  {
    var k :| 0 <= k < |deps| && deps[k] == d;
    var k' :| 0 <= k' < |deps| && deps[k'] == d';
    GatherDependencyTools(deps);
    UniqueIndices(Gather(DependencyTool, deps));
  }

  /** An accepted record with any ready provider is valid now, from the latest of their observations to the
      earliest of their expiries; one without is valid for no time at all. */
  lemma ValidNow<I>(e: Evidence<I>, installation: I, deps: seq<Dependency>, expected: map<string, Expectation>,
                    now: int, hash: string -> string)
    requires Accepted(e, installation, deps, expected, now, hash)
    ensures (exists o :: o in e.observations && o.ready) ==>
              Window(Readies(e.observations), e.observedAt, e.expiresAt) && e.observedAt <= now < e.expiresAt
    ensures !(exists o :: o in e.observations && o.ready) ==> e.expiresAt == e.observedAt
  {
    var ready := Readies(e.observations);
    if o :| o in e.observations && o.ready { ReadiesMember(e.observations, o); }
    if ready != [] {
      var o :| o in ready && o.expiresAt == Some(e.expiresAt);
      ReadiesMember(e.observations, o);
      assert Bound(expected, now, o);
    }
  }

  // ----- Order -----

  lemma DeclaredPermuted(deps: seq<Dependency>, deps': seq<Dependency>, obs: seq<Observation>, obs': seq<Observation>)
    requires multiset(deps) == multiset(deps') && multiset(obs) == multiset(obs') && Declared(deps, obs)
    ensures Declared(deps', obs')
  {
    SameElements(deps, deps');
    SameElements(obs, obs');
    GatherPermutes(DependencyTool, deps, deps');
    GatherPermutes(ToolOf, obs, obs');
    forall o | o in obs' ensures Authorised(deps', o) { assert Authorised(deps, o); }
  }

  lemma ChronologicalPermuted(ready: seq<Observation>, ready': seq<Observation>, observedAt: int, expiresAt: int)
    requires multiset(ready) == multiset(ready') && Chronological(ready, observedAt, expiresAt)
    ensures Chronological(ready', observedAt, expiresAt)
  {
    SameElements(ready, ready');
  }

  /** Whether a record is accepted does not depend on the order of its observations or of the declarations. */
  lemma AcceptedPermuted<I>(e: Evidence<I>, e': Evidence<I>, installation: I, deps: seq<Dependency>,
                            deps': seq<Dependency>,
                            expected: map<string, Expectation>, now: int, hash: string -> string)
    requires e' == e.(observations := e'.observations)
    requires multiset(deps) == multiset(deps') && multiset(e.observations) == multiset(e'.observations)
    ensures Accepted(e, installation, deps, expected, now, hash) <==>
              Accepted(e', installation, deps', expected, now, hash)
  {
    if Accepted(e, installation, deps, expected, now, hash) {
      AcceptedOneWay(e, e', installation, deps, deps', expected, now, hash);
    }
    if Accepted(e', installation, deps', expected, now, hash) {
      AcceptedOneWay(e', e, installation, deps', deps, expected, now, hash);
    }
  }

  lemma CoveredPermuted(obs: seq<Observation>, obs': seq<Observation>, expected: map<string, Expectation>, now: int)
    requires multiset(obs) == multiset(obs')
    ensures Current(obs, expected, now) ==> Current(obs', expected, now)
    ensures forall passed, coverage :: Covered(obs, passed, coverage) <==> Covered(obs', passed, coverage)
  {
    SameElements(obs, obs');
  }

  lemma AcceptedOneWay<I>(e: Evidence<I>, e': Evidence<I>, installation: I, deps: seq<Dependency>,
                          deps': seq<Dependency>,
                          expected: map<string, Expectation>, now: int, hash: string -> string)
    requires e' == e.(observations := e'.observations)
    requires multiset(deps) == multiset(deps') && multiset(e.observations) == multiset(e'.observations)
    requires Accepted(e, installation, deps, expected, now, hash)
    ensures Accepted(e', installation, deps', expected, now, hash)
  {
    hide Current, Covered, Chronological, Declared;
    CoveredPermuted(e.observations, e'.observations, expected, now);
    DeclaredPermuted(deps, deps', e.observations, e'.observations);
    GatherPermutes(ReadyOnly, e.observations, e'.observations);
    ChronologicalPermuted(Readies(e.observations), Readies(e'.observations), e.observedAt, e.expiresAt);
    GatherPermutes(AuthorityOf, e.observations, e'.observations);
    PreimagePermuted(Gather(AuthorityOf, e.observations), Gather(AuthorityOf, e'.observations));
  }

  // ----- Acceptance, field by field -----

  /** A ready observation that repeats what is expected of its tool, which is valid now. */
  ghost predicate Repeats(expected: map<string, Expectation>, now: int, o: Observation) {
    exists t, x :: t in expected && expected[t] == x && o.tool == t
      && o.version == x.version && o.target == x.target && o.digest == x.digest
      && o.observedAt == Some(x.observedAt) && o.expiresAt == Some(x.expiresAt)
      && x.observedAt != 0 && x.expiresAt != 0 && x.observedAt <= now < x.expiresAt
  }

  lemma RepeatsExactly(expected: map<string, Expectation>, now: int, o: Observation)
    ensures Repeats(expected, now, o) <==> Bound(expected, now, o)
  {
    if Bound(expected, now, o) { assert o.tool in expected && expected[o.tool] == expected[o.tool]; }
  }

  /** Each tool declared once and observed once, with the authority declared. */
  ghost predicate Matched(deps: seq<Dependency>, obs: seq<Observation>) {
    && (forall i, j :: 0 <= i < j < |deps| ==> deps[i].tool != deps[j].tool)
    && |obs| == |deps|
    && (forall i, j :: 0 <= i < j < |obs| ==> obs[i].tool != obs[j].tool)
    && forall o :: o in obs ==> Dependency(o.tool, o.requirement, o.access) in deps
  }

  lemma ToolsOnce(deps: seq<Dependency>, obs: seq<Observation>)
    ensures Unique(Gather(DependencyTool, deps)) <==>
              forall i, j :: 0 <= i < j < |deps| ==> deps[i].tool != deps[j].tool
    ensures Unique(Gather(ToolOf, obs)) <==> forall i, j :: 0 <= i < j < |obs| ==> obs[i].tool != obs[j].tool
  {
    hide Gather, Unique;
    GatherDependencyTools(deps);
    GatherTools(obs);
    UniqueByTools(Gather(DependencyTool, deps));
    UniqueByTools(Gather(ToolOf, obs));
  }

  lemma AuthorisedExactly(deps: seq<Dependency>, o: Observation)
    ensures Authorised(deps, o) <==> Dependency(o.tool, o.requirement, o.access) in deps
  {
    if d :| d in deps && d.tool == o.tool && d.requirement == o.requirement && d.access == o.access {
      assert d == Dependency(o.tool, o.requirement, o.access);
    }
  }

  lemma DeclaredExactly(deps: seq<Dependency>, obs: seq<Observation>)
    ensures Declared(deps, obs) <==> Matched(deps, obs)
  {
    hide Gather, Unique, Authorised;
    ToolsOnce(deps, obs);
    forall o ensures Authorised(deps, o) <==> Dependency(o.tool, o.requirement, o.access) in deps {
      AuthorisedExactly(deps, o);
    }
  }

  lemma UniqueByTools(tools: seq<string>)
    ensures Unique(tools) <==> forall i, j :: 0 <= i < j < |tools| ==> tools[i] != tools[j]
  {
    UniqueIndices(tools);
  }

  /** Observed at the latest observation and expiring with the earliest expiry of the ready, or at once. */
  ghost predicate InTime(obs: seq<Observation>, observedAt: int, expiresAt: int) {
    if forall o :: o in obs ==> !o.ready then expiresAt == observedAt
    else && (forall o :: o in obs && o.ready && Timed(o) ==>
               o.observedAt.value <= observedAt && expiresAt <= o.expiresAt.value)
         && (exists o :: o in obs && o.ready && o.observedAt == Some(observedAt))
         && (exists o :: o in obs && o.ready && o.expiresAt == Some(expiresAt))
  }

  /** The result and coverage that the unavailable tools leave. */
  ghost predicate ResultFits(obs: seq<Observation>, passed: bool, coverage: Coverage) {
    var required := exists o :: o in obs && !o.ready && o.requirement == Needed;
    var missing := exists o :: o in obs && !o.ready;
    passed == !required && coverage == (if required then Unavailable else if missing then Partial else Complete)
  }

  /** A record is accepted exactly if it is of this installation, observes each declared tool once with its declared
      authority and nothing else, repeats what is expected of the ready ones, has the result, coverage and times that
      gives, and commits to the ready ones by its fingerprint. */
  lemma {:induction false} AcceptedExactly<I>(e: Evidence<I>, installation: I, deps: seq<Dependency>,
                                              expected: map<string, Expectation>, now: int, hash: string -> string)
    ensures Accepted(e, installation, deps, expected, now, hash) <==>
              && e.installation == installation && Matched(deps, e.observations)
              && (forall o :: o in e.observations && o.ready ==> Repeats(expected, now, o))
              && (forall t :: t in expected ==> exists o :: o in e.observations && o.tool == t)
              && ResultFits(e.observations, e.passed, e.coverage)
              && (e.promotionEligible ==> e.coverage == Complete)
              && e.observedAt <= now && InTime(e.observations, e.observedAt, e.expiresAt)
              && e.fingerprint == hash(Preimage(Gather(AuthorityOf, e.observations)))
  {
    hide Bound, Repeats, Declared, Preimage, Chronological, InTime, Matched;
    DeclaredExactly(deps, e.observations);
    forall o ensures Repeats(expected, now, o) <==> Bound(expected, now, o) { RepeatsExactly(expected, now, o); }
    if forall o :: o in e.observations && o.ready ==> Bound(expected, now, o) {
      ChronologicalExactly(e.observations, expected, now, e.observedAt, e.expiresAt);
    }
  }

  lemma ChronologicalExactly(obs: seq<Observation>, expected: map<string, Expectation>, now: int,
                             observedAt: int, expiresAt: int)
    requires forall o :: o in obs && o.ready ==> Bound(expected, now, o)
    ensures Chronological(Readies(obs), observedAt, expiresAt) <==> InTime(obs, observedAt, expiresAt)
  {
    var ready := Readies(obs);
    forall o ensures o in ready <==> o in obs && o.ready { ReadiesMember(obs, o); }
    if ready != [] { assert ready[0] in ready; }
  }

  /** What the fingerprint commits to: the fields of each ready observation, with zero bytes between them. */
  lemma FingerprintOf(o: Observation)
    ensures Preimage(Gather(AuthorityOf, [o])) ==
              if !o.ready then ""
              else o.tool + "\0" + o.version
                   + "\0" + (match o.requirement case Needed => "required" case Optional => "optional")
                   + "\0" + (match o.access case ReadOnly => "read-only" case ReadWrite => "read-write")
                   + "\0" + o.target + "\0" + o.digest
  {
    GatherMore(AuthorityOf, [], o);
    assert [] + [o] == [o];
    if o.ready {
      SinglePreimage(Authority(o.tool, o.version, o.requirement, o.access, o.target, o.digest));
    }
  }
}
