/** Composing the results of several capabilities into one status: a single pass whose outcome does not
    depend on the order in which the results arrive. */
module CapabilityComposer {
  import opened Gathering
  import opened Sorting

  datatype Status = Success | Unavailable | Failed | Cancelled | Unknown(text: string)

  datatype Expectation = Expectation(capability: string, source: string, required: bool)

  /** Times are instants; 0 is the zero time, which stands for none. */
  datatype CapabilityResult = CapabilityResult(capability: string, source: string, status: Status, required: bool,
                                               observedAt: int, freshUntil: int)

  datatype Verdict = IsSuccess | IsPartial | IsUnavailable | IsCancelled | IsAmbiguous

  datatype Composition = Composition(status: Verdict, coverage: seq<string>, observedAt: int, freshUntil: int,
                                     reasons: seq<string>, results: seq<CapabilityResult>)

  type Contract = map<string, Expectation>

  /** Unicode white space, as trimming removes it. */
  predicate Space(c: char) {
    var n := c as int;
    9 <= n <= 13 || 0x2000 <= n <= 0x200a || n in {32, 0x85, 0xa0, 0x1680, 0x2028, 0x2029, 0x202f, 0x205f, 0x3000}
  }

  predicate BlankText(s: string) {
    forall i :: 0 <= i < |s| ==> Space(s[i])
  }

  predicate Complete(e: Expectation) {
    !BlankText(e.capability) && !BlankText(e.source)
  }

  // ----- What the outcome means, without any order -----

  /** Every expectation is complete and no capability is expected twice. */
  ghost predicate Sound(expected: seq<Expectation>) {
    && (forall i :: 0 <= i < |expected| ==> Complete(expected[i]))
    && (forall i, j :: 0 <= i < j < |expected| ==> expected[i].capability != expected[j].capability)
  }

  predicate Valid(r: CapabilityResult) {
    !r.status.Unknown? && r.observedAt != 0 && r.freshUntil != 0 && r.observedAt < r.freshUntil
  }

  predicate Matches(c: Contract, r: CapabilityResult) {
    r.capability in c && r.source == c[r.capability].source && r.required == c[r.capability].required
  }

  predicate Required(c: Contract, capability: string) {
    capability in c && c[capability].required
  }

  /** A result that delivers nothing: invalid, unavailable or failed (cancelled ones count apart). */
  predicate Lacking(r: CapabilityResult) {
    !Valid(r) || r.status == Unavailable || r.status == Failed
  }

  ghost predicate Repeats(rs: seq<CapabilityResult>) {
    exists i, j :: 0 <= i < j < |rs| && rs[i].capability == rs[j].capability
  }

  predicate Missing(c: Contract, rs: seq<CapabilityResult>, capability: string) {
    Required(c, capability) && forall i :: 0 <= i < |rs| ==> rs[i].capability != capability
  }

  ghost predicate AnyCancelled(rs: seq<CapabilityResult>) {
    exists r :: r in rs && Valid(r) && r.status == Cancelled
  }

  ghost predicate Ambiguous(sound: bool, c: Contract, rs: seq<CapabilityResult>) {
    !sound || Repeats(rs) || exists r :: r in rs && !Matches(c, r)
  }

  ghost predicate RequiredLacking(c: Contract, rs: seq<CapabilityResult>) {
    exists r :: r in rs && Required(c, r.capability) && Lacking(r)
  }

  ghost predicate RequiredMissing(c: Contract, rs: seq<CapabilityResult>) {
    exists k :: k in c && Missing(c, rs, k)
  }

  ghost predicate OptionalLacking(c: Contract, rs: seq<CapabilityResult>) {
    exists r :: r in rs && !Required(c, r.capability) && Lacking(r)
  }

  ghost function StatusOf(sound: bool, c: Contract, rs: seq<CapabilityResult>): Verdict {
    if AnyCancelled(rs) then IsCancelled
    else if Ambiguous(sound, c, rs) then IsAmbiguous
    else if RequiredLacking(c, rs) || RequiredMissing(c, rs) then IsUnavailable
    else if OptionalLacking(c, rs) then IsPartial
    else IsSuccess
  }

  /** t is the earliest of the given times of the valid results, 0 when there is none. */
  ghost predicate EarliestObserved(rs: seq<CapabilityResult>, t: int) {
    && (t == 0 <==> forall r :: r in rs ==> !Valid(r))
    && (t != 0 ==> exists r :: r in rs && Valid(r) && r.observedAt == t)
    && (forall r :: r in rs && Valid(r) ==> t <= r.observedAt)
  }

  ghost predicate EarliestExpiry(rs: seq<CapabilityResult>, t: int) {
    && (t == 0 <==> forall r :: r in rs ==> !Valid(r))
    && (t != 0 ==> exists r :: r in rs && Valid(r) && r.freshUntil == t)
    && (forall r :: r in rs && Valid(r) ==> t <= r.freshUntil)
  }

  ghost predicate Covers(rs: seq<CapabilityResult>, coverage: seq<string>) {
    && Unique(coverage) && Sorted(coverage)
    && forall s :: s in coverage <==> !BlankText(s) && exists r :: r in rs && r.source == s
  }

  // ----- Reasons -----

  datatype Reason =
    | IncompleteExpectation
    | RepeatedExpectation(capability: string)
    | Unexpected(capability: string)
    | Repeated(capability: string)
    | Mismatch(capability: string)
    | Invalid(capability: string)
    | WasCancelled
    | RequiredLack(capability: string, status: Status)
    | NoResult(capability: string)

  /** The text of a blocking reason. */
  function Text(reason: Reason): string {
    match reason
    case IncompleteExpectation => "capability contract contains an incomplete expectation"
    case RepeatedExpectation(k) => "capability contract repeats " + k
    case Unexpected(k) => "unexpected capability result " + k
    case Repeated(k) => "capability " + k + " returned more than once"
    case Mismatch(k) => "capability " + k + " result does not match its expected source and requirement"
    case Invalid(k) => "capability " + k + " returned invalid status or freshness evidence"
    case WasCancelled => "orchestration was cancelled"
    case RequiredLack(k, s) =>
      "required capability " + k + " is " + (if s == Unavailable then "unavailable" else "failed")
    case NoResult(k) => "required capability " + k + " returned no result"
  }

  /** The reason a result's place in the contract gives; `seen` says whether its capability came before. */
  function Placing(c: Contract, r: CapabilityResult, seen: bool): seq<Reason> {
    if r.capability !in c then [Unexpected(r.capability)]
    else if seen then [Repeated(r.capability)]
    else if !Matches(c, r) then [Mismatch(r.capability)]
    else []
  }

  /** The reason a result's own content gives. */
  function Grading(c: Contract, r: CapabilityResult): seq<Reason> {
    if !Valid(r) then [Invalid(r.capability)]
    else if r.status == Cancelled then [WasCancelled]
    else if r.status != Success && Required(c, r.capability) then [RequiredLack(r.capability, r.status)]
    else []
  }

  function CapabilityOf(r: CapabilityResult): seq<string> {
    [r.capability]
  }

  predicate Seen(rs: seq<CapabilityResult>, k: string) {
    exists r :: r in rs && r.capability == k
  }

  function Placings(c: Contract, rs: seq<CapabilityResult>): seq<Reason> {
    if rs == [] then []
    else
      var front, last := rs[..|rs| - 1], rs[|rs| - 1];
      Placings(c, front) + Placing(c, last, Seen(front, last.capability))
  }

  function Gradings(c: Contract, rs: seq<CapabilityResult>): seq<Reason> {
    Gather(r => Grading(c, r), rs)
  }

  /** The reasons for capabilities that are required but absent. */
  ghost predicate Awaited(c: Contract, rs: seq<CapabilityResult>, missing: seq<Reason>) {
    && Unique(missing)
    && forall x :: x in missing <==> x.NoResult? && Missing(c, rs, x.capability)
  }

  function TextOf(reason: Reason): seq<string> {
    [Text(reason)]
  }

  /** Everything about an outcome but the reasons it gives. */
  ghost predicate Summary(expected: seq<Expectation>, rs: seq<CapabilityResult>, out: Composition) {
    && out.results == rs
    && out.status == StatusOf(Sound(expected), ReadContract(expected).contract, rs)
    && Covers(rs, out.coverage)
    && EarliestObserved(rs, out.observedAt) && EarliestExpiry(rs, out.freshUntil)
  }

  ghost predicate Reasons(expected: seq<Expectation>, rs: seq<CapabilityResult>, reasons: seq<string>) {
    var reading := ReadContract(expected);
    exists missing :: Awaited(reading.contract, rs, missing)
                      && reasons == Listed(reading.reasons, Placings(reading.contract, rs),
                                           Gradings(reading.contract, rs), missing)
  }

  function Listed(a: seq<Reason>, b: seq<Reason>, c: seq<Reason>, d: seq<Reason>): seq<string> {
    Sort(Gather(TextOf, a + b + c + d))
  }

  ghost predicate Outcome(expected: seq<Expectation>, rs: seq<CapabilityResult>, out: Composition) {
    Summary(expected, rs, out) && Reasons(expected, rs, out.reasons)
  }

  // ----- The contract -----

  datatype Reading = Reading(sound: bool, contract: Contract, reasons: seq<Reason>)

  function ReadContract(expected: seq<Expectation>): Reading {
    if expected == [] then Reading(true, map[], [])
    else
      var before := ReadContract(expected[..|expected| - 1]);
      var e := expected[|expected| - 1];
      if !Complete(e) then
        Reading(false, before.contract, before.reasons + [IncompleteExpectation])
      else if e.capability in before.contract then
        Reading(false, before.contract, before.reasons + [RepeatedExpectation(e.capability)])
      else Reading(before.sound, before.contract[e.capability := e], before.reasons)
  }

  ghost predicate Declares(expected: seq<Expectation>, k: string) {
    exists i :: 0 <= i < |expected| && Complete(expected[i]) && expected[i].capability == k
  }

  lemma DeclaresMore(before: seq<Expectation>, e: Expectation, k: string)
    ensures Declares(before + [e], k) <==> Declares(before, k) || (Complete(e) && e.capability == k)
  {
    var all := before + [e];
    if Declares(before, k) {
      var i :| 0 <= i < |before| && Complete(before[i]) && before[i].capability == k;
      assert all[i] == before[i];
    }
    if Complete(e) && e.capability == k { assert all[|before|] == e; }
  }

  /** The contract keeps one complete expectation of each capability that has any. */
  lemma {:induction false} ContractKeys(expected: seq<Expectation>)
    ensures var c := ReadContract(expected).contract;
            && (forall k :: k in c <==> Declares(expected, k))
            && (forall k :: k in c ==> c[k] in expected && c[k].capability == k)
  {
    if expected != [] {
      var before, e := expected[..|expected| - 1], expected[|expected| - 1];
      assert expected == before + [e];
      ContractKeys(before);
      forall k ensures Declares(expected, k) <==> Declares(before, k) || (Complete(e) && e.capability == k) {
        DeclaresMore(before, e, k);
      }
    }
  }

  lemma ContractHolds(expected: seq<Expectation>, k: string)
    ensures var c := ReadContract(expected).contract;
            && (k in c <==> Declares(expected, k))
            && (k in c ==> c[k] in expected && c[k].capability == k)
  {
  }

  lemma SoundMore(before: seq<Expectation>, e: Expectation)
    ensures Sound(before + [e]) <==> Sound(before) && Complete(e) && !Declares(before, e.capability)
  {
    var all := before + [e];
    assert forall i :: 0 <= i < |before| ==> all[i] == before[i];
    assert all[|before|] == e;
  }

  /** It is sound exactly when nothing was skipped. */
  lemma {:induction false} ContractSound(expected: seq<Expectation>)
    ensures ReadContract(expected).sound <==> Sound(expected)
  {
    if expected != [] {
      var before, e := expected[..|expected| - 1], expected[|expected| - 1];
      assert expected == before + [e];
      ContractSound(before);
      ContractKeys(before);
      SoundMore(before, e);
    }
  }

  method BuildContract(expected: seq<Expectation>) returns (r: Reading)
    ensures r == ReadContract(expected)
  {
    r := Reading(true, map[], []);
    var i := 0;
    while i < |expected|
      invariant i <= |expected| && r == ReadContract(expected[..i])
    {
      var item := expected[i];
      assert expected[..i + 1][..i] == expected[..i];
      if !Complete(item) {
        r := r.(sound := false, reasons := r.reasons + [IncompleteExpectation]);
      } else if item.capability in r.contract {
        r := r.(sound := false, reasons := r.reasons + [RepeatedExpectation(item.capability)]);
      } else {
        r := r.(contract := r.contract[item.capability := item]);
      }
      i := i + 1;
    }
    assert expected[..i] == expected;
  }

  // ----- The pass over the results -----

  ghost predicate Flagged(sound: bool, c: Contract, rs: seq<CapabilityResult>,
                          ambiguous: bool, cancelled: bool, requiredLacking: bool, optionalLacking: bool) {
    && (ambiguous <==> Ambiguous(sound, c, rs))
    && (cancelled <==> AnyCancelled(rs))
    && (requiredLacking <==> RequiredLacking(c, rs))
    && (optionalLacking <==> OptionalLacking(c, rs))
  }

  ghost predicate Sourced(rs: seq<CapabilityResult>, sources: seq<string>) {
    && Unique(sources)
    && forall s :: s in sources <==> !BlankText(s) && exists r :: r in rs && r.source == s
  }

  ghost predicate Reasoned(c: Contract, rs: seq<CapabilityResult>, reasons: seq<Reason>) {
    multiset(reasons) == multiset(Placings(c, rs)) + multiset(Gradings(c, rs))
  }

  lemma RepeatsMore(rs: seq<CapabilityResult>, r: CapabilityResult)
    ensures Repeats(rs + [r]) <==> Repeats(rs) || Seen(rs, r.capability)
  {
    var all := rs + [r];
    assert forall i :: 0 <= i < |rs| ==> all[i] == rs[i];
    assert all[|rs|] == r;
    if q :| q in rs && q.capability == r.capability {
      var i :| 0 <= i < |rs| && rs[i] == q;
      assert all[i].capability == all[|rs|].capability;
    }
  }

  lemma SeenMore(rs: seq<CapabilityResult>, r: CapabilityResult)
    ensures forall k :: Seen(rs + [r], k) <==> Seen(rs, k) || k == r.capability
  {
  }

  lemma FlagsMore(sound: bool, c: Contract, rs: seq<CapabilityResult>, r: CapabilityResult)
    ensures Ambiguous(sound, c, rs + [r]) <==>
              Ambiguous(sound, c, rs) || Seen(rs, r.capability) || !Matches(c, r)
    ensures AnyCancelled(rs + [r]) <==> AnyCancelled(rs) || (Valid(r) && r.status == Cancelled)
    ensures RequiredLacking(c, rs + [r]) <==> RequiredLacking(c, rs) || (Required(c, r.capability) && Lacking(r))
    ensures OptionalLacking(c, rs + [r]) <==> OptionalLacking(c, rs) || (!Required(c, r.capability) && Lacking(r))
  {
    RepeatsMore(rs, r);
    assert forall q :: q in rs + [r] <==> q in rs || q == r;
  }

  lemma WindowMore(rs: seq<CapabilityResult>, r: CapabilityResult, o: int, f: int)
    requires EarliestObserved(rs, o) && EarliestExpiry(rs, f)
    ensures EarliestObserved(rs + [r], if Valid(r) && (o == 0 || r.observedAt < o) then r.observedAt else o)
    ensures EarliestExpiry(rs + [r], if Valid(r) && (f == 0 || r.freshUntil < f) then r.freshUntil else f)
  {
  }

  lemma SourcesMore(rs: seq<CapabilityResult>, r: CapabilityResult, sources: seq<string>)
    requires Sourced(rs, sources)
    ensures Sourced(rs + [r], if BlankText(r.source) || r.source in sources then sources else sources + [r.source])
  {
  }

  lemma ReasonsMore(c: Contract, rs: seq<CapabilityResult>, r: CapabilityResult, reasons: seq<Reason>)
    requires Reasoned(c, rs, reasons)
    ensures Reasoned(c, rs + [r], reasons + Placing(c, r, Seen(rs, r.capability)) + Grading(c, r))
  {
  }

  lemma NothingYet(sound: bool, c: Contract)
    ensures Flagged(sound, c, [], !sound, false, false, false)
    ensures forall k :: !Seen([], k)
    ensures Sourced([], []) && Reasoned(c, [], [])
    ensures EarliestObserved([], 0) && EarliestExpiry([], 0)
  {
  }

  method PlaceResult(c: Contract, r: CapabilityResult, seen: bool) returns (ambiguous: bool, reasons: seq<Reason>)
    ensures ambiguous <==> seen || !Matches(c, r)
    ensures reasons == Placing(c, r, seen)
  {
    ambiguous, reasons := false, [];
    if r.capability !in c {
      ambiguous, reasons := true, [Unexpected(r.capability)];
    } else if seen {
      ambiguous, reasons := true, [Repeated(r.capability)];
    } else if r.source != c[r.capability].source || r.required != c[r.capability].required {
      ambiguous, reasons := true, [Mismatch(r.capability)];
    }
  }

  method GradeResult(c: Contract, r: CapabilityResult)
    returns (cancelled: bool, requiredLacking: bool, optionalLacking: bool, reasons: seq<Reason>)
    ensures cancelled <==> Valid(r) && r.status == Cancelled
    ensures requiredLacking <==> Required(c, r.capability) && Lacking(r)
    ensures optionalLacking <==> !Required(c, r.capability) && Lacking(r)
    ensures reasons == Grading(c, r)
  {
    cancelled, requiredLacking, optionalLacking, reasons := false, false, false, [];
    if !Valid(r) {
      if Required(c, r.capability) { requiredLacking := true; } else { optionalLacking := true; }
      reasons := [Invalid(r.capability)];
    } else if r.status == Cancelled {
      cancelled, reasons := true, [WasCancelled];
    } else if r.status != Success {
      if Required(c, r.capability) {
        requiredLacking, reasons := true, [RequiredLack(r.capability, r.status)];
      } else {
        optionalLacking := true;
      }
    }
  }

  /** One pass over the results in whatever order they came. */
  method TallyResults(sound: bool, c: Contract, rs: seq<CapabilityResult>)
    returns (ambiguous: bool, cancelled: bool, requiredLacking: bool, optionalLacking: bool, seen: set<string>,
             sources: seq<string>, observedAt: int, freshUntil: int, reasons: seq<Reason>)
    ensures Flagged(sound, c, rs, ambiguous, cancelled, requiredLacking, optionalLacking)
    ensures forall k :: k in seen <==> Seen(rs, k)
    ensures Sourced(rs, sources) && Reasoned(c, rs, reasons)
    ensures EarliestObserved(rs, observedAt) && EarliestExpiry(rs, freshUntil)
  {
    hide Ambiguous, AnyCancelled, RequiredLacking, OptionalLacking, Sourced, Reasoned, EarliestObserved, EarliestExpiry,
         Placing, Grading, Matches, BlankText, Seen, Valid, Lacking, Required;
    NothingYet(sound, c);
    ambiguous, cancelled, requiredLacking, optionalLacking := !sound, false, false, false;
    seen, sources, observedAt, freshUntil, reasons := {}, [], 0, 0, [];
    var i := 0;
    assert rs[..0] == [];
    while i < |rs|
      invariant i <= |rs| && Flagged(sound, c, rs[..i], ambiguous, cancelled, requiredLacking, optionalLacking)
      invariant forall k :: k in seen <==> Seen(rs[..i], k)
      invariant Sourced(rs[..i], sources) && Reasoned(c, rs[..i], reasons)
      invariant EarliestObserved(rs[..i], observedAt) && EarliestExpiry(rs[..i], freshUntil)
    {
      ghost var before := rs[..i];
      var r := rs[i];
      assert rs[..i + 1] == before + [r];
      FlagsMore(sound, c, before, r);
      WindowMore(before, r, observedAt, freshUntil);
      SourcesMore(before, r, sources);
      ReasonsMore(c, before, r, reasons);
      SeenMore(before, r);

      var odd, place := PlaceResult(c, r, r.capability in seen);
      ambiguous := ambiguous || odd;
      seen := seen + {r.capability};
      if !BlankText(r.source) && r.source !in sources { sources := sources + [r.source]; }
      if Valid(r) {
        if observedAt == 0 || r.observedAt < observedAt { observedAt := r.observedAt; }
        if freshUntil == 0 || r.freshUntil < freshUntil { freshUntil := r.freshUntil; }
      }
      var stopped, hard, soft, grade := GradeResult(c, r);
      cancelled, requiredLacking := cancelled || stopped, requiredLacking || hard;
      optionalLacking := optionalLacking || soft;
      reasons := reasons + place + grade;
      i := i + 1;
    }
    assert rs[..i] == rs;
  }

  /** The declared capabilities are visited in any order. */
  method CollectMissing(c: Contract, rs: seq<CapabilityResult>, seen: set<string>) returns (missing: seq<Reason>)
    requires forall k :: k in seen <==> Seen(rs, k)
    ensures Awaited(c, rs, missing)
  {
    missing := [];
    var left := c.Keys;
    while left != {}
      invariant left <= c.Keys && Unique(missing)
      invariant forall x :: x in missing <==> x.NoResult? && x.capability !in left && Missing(c, rs, x.capability)
      decreases |left|
    {
      var k :| k in left;
      left := left - {k};
      assert Missing(c, rs, k) <==> k !in seen && c[k].required;
      if k !in seen && c[k].required {
        assert NoResult(k) !in multiset(missing);
        missing := missing + [NoResult(k)];
      }
    }
  }

  /** Composes the results of several capabilities under a contract. */
  method Compose(expected: seq<Expectation>, rs: seq<CapabilityResult>) returns (out: Composition)
    ensures Outcome(expected, rs, out)
  {
    var reading := BuildContract(expected);
    ContractSound(expected);
    var c := reading.contract;
    var ambiguous, cancelled, requiredLacking, optionalLacking, seen, sources, observedAt, freshUntil, reasons :=
      TallyResults(reading.sound, c, rs);
    var missing := CollectMissing(c, rs, seen);
    MissingExactly(c, rs, missing);
    var unavailable := requiredLacking || missing != [];
    var status :=
      if cancelled then IsCancelled
      else if ambiguous then IsAmbiguous
      else if unavailable then IsUnavailable
      else if optionalLacking then IsPartial
      else IsSuccess;
    CoverageSorted(rs, sources);
    ListedExactly(reading.reasons, c, rs, reasons, missing);
    out := Composition(status, Sort(sources), observedAt, freshUntil,
                       Sort(Gather(TextOf, reading.reasons + reasons + missing)), rs);
  }

  lemma MissingExactly(c: Contract, rs: seq<CapabilityResult>, missing: seq<Reason>)
    requires Awaited(c, rs, missing)
    ensures missing != [] <==> RequiredMissing(c, rs)
  {
    if missing != [] { assert missing[0] in missing; }
    if k :| k in c && Missing(c, rs, k) { assert NoResult(k) in missing; }
  }

  lemma CoverageSorted(rs: seq<CapabilityResult>, sources: seq<string>)
    requires Sourced(rs, sources)
    ensures Covers(rs, Sort(sources))
  {
    SortSorts(sources);
    forall s ensures s in Sort(sources) <==> s in sources { SortMembers(sources, s); }
  }

  lemma ListedExactly(a: seq<Reason>, c: Contract, rs: seq<CapabilityResult>, reasons: seq<Reason>,
                      missing: seq<Reason>)
    requires Reasoned(c, rs, reasons)
    ensures Sort(Gather(TextOf, a + reasons + missing)) == Listed(a, Placings(c, rs), Gradings(c, rs), missing)
  {
    var b, d := Placings(c, rs), Gradings(c, rs);
    assert multiset(a + reasons + missing) == multiset(a + b + d + missing);
    GatherPermutes(TextOf, a + reasons + missing, a + b + d + missing);
    SortPermutes(Gather(TextOf, a + reasons + missing), Gather(TextOf, a + b + d + missing));
  }

  // ----- What success means -----

  ghost predicate Declared(expected: seq<Expectation>, r: CapabilityResult) {
    exists e :: e in expected && e.capability == r.capability && e.source == r.source && e.required == r.required
  }

  ghost predicate Met(e: Expectation, rs: seq<CapabilityResult>) {
    exists r :: r in rs && r.capability == e.capability
  }

  lemma SoundHolds(expected: seq<Expectation>, e: Expectation)
    requires Sound(expected) && e in expected
    ensures var c := ReadContract(expected).contract; e.capability in c && c[e.capability] == e
  {
    ContractHolds(expected, e.capability);
    assert Declares(expected, e.capability);
  }

  lemma SoundMatches(expected: seq<Expectation>, r: CapabilityResult)
    requires Sound(expected)
    ensures Matches(ReadContract(expected).contract, r) <==> Declared(expected, r)
  {
    ContractHolds(expected, r.capability);
    if e :| e in expected && e.capability == r.capability && e.source == r.source && e.required == r.required {
      SoundHolds(expected, e);
    }
  }

  lemma SoundMissing(expected: seq<Expectation>, rs: seq<CapabilityResult>)
    requires Sound(expected)
    ensures RequiredMissing(ReadContract(expected).contract, rs) <==>
              exists e :: e in expected && e.required && !Met(e, rs)
  {
    var c := ReadContract(expected).contract;
    if k :| k in c && Missing(c, rs, k) {
      ContractHolds(expected, k);
      assert c[k] in expected && !Met(c[k], rs);
    }
    if e :| e in expected && e.required && !Met(e, rs) {
      SoundHolds(expected, e);
      assert Missing(c, rs, e.capability);
    }
  }

  lemma AllSucceed(c: Contract, rs: seq<CapabilityResult>)
    ensures !AnyCancelled(rs) && !RequiredLacking(c, rs) && !OptionalLacking(c, rs) <==>
              forall r :: r in rs ==> Valid(r) && r.status == Success
  {
  }

  lemma AllDeclared(expected: seq<Expectation>, rs: seq<CapabilityResult>)
    requires Sound(expected)
    ensures Ambiguous(true, ReadContract(expected).contract, rs) <==>
              Repeats(rs) || exists r :: r in rs && !Declared(expected, r)
  {
    forall r ensures Matches(ReadContract(expected).contract, r) <==> Declared(expected, r) {
      SoundMatches(expected, r);
    }
  }

  /** Composition succeeds exactly when the contract is complete and free of repetition, every result is
      declared, valid and successful, no capability reports twice, and no required one is silent. */
  lemma SuccessExactly(expected: seq<Expectation>, rs: seq<CapabilityResult>, out: Composition)
    requires Outcome(expected, rs, out)
    ensures out.status == IsSuccess <==>
              && Sound(expected) && !Repeats(rs)
              && (forall r :: r in rs ==> Declared(expected, r) && Valid(r) && r.status == Success)
              && (forall e :: e in expected && e.required ==> Met(e, rs))
  {
    hide Sound, Declared, Met, Valid, Repeats, AnyCancelled, RequiredLacking, OptionalLacking, RequiredMissing,
        Reasons, ReadContract;
    AllSucceed(ReadContract(expected).contract, rs);
    if Sound(expected) {
      SoundMissing(expected, rs);
      AllDeclared(expected, rs);
    }
  }

  // ----- What each verdict means -----

  /** A result that says by its status and its times that its capability was cancelled. */
  predicate SaysCancelled(r: CapabilityResult) {
    r.status == Cancelled && r.observedAt != 0 && r.freshUntil != 0 && r.observedAt < r.freshUntil
  }

  /** A result that delivers, by its status and its times. */
  predicate Delivers(r: CapabilityResult) {
    r.status == Success && r.observedAt != 0 && r.freshUntil != 0 && r.observedAt < r.freshUntil
  }

  /** The contract or the results contradict themselves or each other. */
  ghost predicate Confused(expected: seq<Expectation>, rs: seq<CapabilityResult>) {
    || (exists e :: e in expected
          && ((forall i :: 0 <= i < |e.capability| ==> Space(e.capability[i]))
              || (forall i :: 0 <= i < |e.source| ==> Space(e.source[i]))))
    || (exists i, j :: 0 <= i < j < |expected| && expected[i].capability == expected[j].capability)
    || (exists i, j :: 0 <= i < j < |rs| && rs[i].capability == rs[j].capability)
    || (exists r :: r in rs && Expectation(r.capability, r.source, r.required) !in expected)
  }

  /** A required capability is silent, or has a result that neither delivers nor was cancelled. */
  ghost predicate Starved(expected: seq<Expectation>, rs: seq<CapabilityResult>) {
    exists e :: e in expected && e.required
      && forall r :: r in rs && r.capability == e.capability ==> !Delivers(r) && !SaysCancelled(r)
  }

  lemma SoundMeans(expected: seq<Expectation>, rs: seq<CapabilityResult>)
    ensures Confused(expected, rs) <==>
              !Sound(expected) || Repeats(rs) || exists r :: r in rs && !Declared(expected, r)
  {
    forall r ensures Declared(expected, r) <==> Expectation(r.capability, r.source, r.required) in expected {
      if e :| e in expected && e.capability == r.capability && e.source == r.source && e.required == r.required {
        assert e == Expectation(r.capability, r.source, r.required);
      }
    }
    if !Sound(expected) && forall i :: 0 <= i < |expected| ==> Complete(expected[i]) {
      assert exists i, j :: 0 <= i < j < |expected| && expected[i].capability == expected[j].capability;
    }
    if i :| 0 <= i < |expected| && !Complete(expected[i]) { assert expected[i] in expected; }
  }

  lemma CancelledMeans(rs: seq<CapabilityResult>)
    ensures AnyCancelled(rs) <==> exists r :: r in rs && SaysCancelled(r)
  {
  }

  lemma ConfusedExactly(expected: seq<Expectation>, rs: seq<CapabilityResult>)
    ensures Ambiguous(Sound(expected), ReadContract(expected).contract, rs) <==> Confused(expected, rs)
  {
    hide Sound, Declared, Repeats, ReadContract, Confused;
    SoundMeans(expected, rs);
    if Sound(expected) { AllDeclared(expected, rs); }
  }

  lemma RequiredMeans(expected: seq<Expectation>, r: CapabilityResult)
    requires Sound(expected) && Declared(expected, r)
    ensures Required(ReadContract(expected).contract, r.capability) <==> r.required
  {
    SoundMatches(expected, r);
  }

  lemma LackingExactly(expected: seq<Expectation>, rs: seq<CapabilityResult>, r: CapabilityResult)
    requires Sound(expected) && Declared(expected, r) && !SaysCancelled(r)
    ensures Lacking(r) <==> !Delivers(r)
    ensures Required(ReadContract(expected).contract, r.capability) <==> r.required
  {
    RequiredMeans(expected, r);
  }

  lemma {:induction false} StarvedIfLacking(expected: seq<Expectation>, rs: seq<CapabilityResult>)
    requires Sound(expected) && !Repeats(rs)
    requires forall r :: r in rs ==> Declared(expected, r) && !SaysCancelled(r)
    requires var c := ReadContract(expected).contract; RequiredLacking(c, rs) || RequiredMissing(c, rs)
    ensures Starved(expected, rs)
  {
    hide ReadContract, Sound, Required, Lacking, Declared, Repeats, RequiredMissing;
    var c := ReadContract(expected).contract;
    if r :| r in rs && Required(c, r.capability) && Lacking(r) {
      LackingExactly(expected, rs, r);
      StarvedBy(expected, rs, r);
    } else {
      SoundMissing(expected, rs);
    }
  }

  lemma {:induction false} LackingIfStarved(expected: seq<Expectation>, rs: seq<CapabilityResult>)
    requires Sound(expected) && Starved(expected, rs)
    requires forall r :: r in rs ==> Declared(expected, r) && !SaysCancelled(r)
    ensures var c := ReadContract(expected).contract; RequiredLacking(c, rs) || RequiredMissing(c, rs)
  {
    hide ReadContract, Sound, Required, Lacking, Declared, RequiredMissing;
    var e :| e in expected && e.required
      && forall r :: r in rs && r.capability == e.capability ==> !Delivers(r) && !SaysCancelled(r);
    if r :| r in rs && r.capability == e.capability {
      OnlyExpectation(expected, e, r);
      LackingExactly(expected, rs, r);
    } else {
      SoundMissing(expected, rs);
      assert !Met(e, rs);
    }
  }

  /** Without cancellation or confusion, a result lacks exactly if it does not deliver. */
  lemma {:induction false} StarvedExactly(expected: seq<Expectation>, rs: seq<CapabilityResult>)
    requires !Confused(expected, rs) && forall r :: r in rs ==> !SaysCancelled(r)
    ensures var c := ReadContract(expected).contract;
            && (RequiredLacking(c, rs) || RequiredMissing(c, rs) <==> Starved(expected, rs))
            && (RequiredLacking(c, rs) || OptionalLacking(c, rs) <==> exists r :: r in rs && !Delivers(r))
  {
    hide Confused, ReadContract, Sound, Required, Lacking, Declared, Repeats, RequiredMissing, Starved, Delivers,
        SaysCancelled;
    var c := ReadContract(expected).contract;
    SoundMeans(expected, rs);
    forall r | r in rs ensures Lacking(r) <==> !Delivers(r) { LackingExactly(expected, rs, r); }
    if RequiredLacking(c, rs) || RequiredMissing(c, rs) { StarvedIfLacking(expected, rs); }
    if Starved(expected, rs) { LackingIfStarved(expected, rs); }
  }

  lemma StarvedBy(expected: seq<Expectation>, rs: seq<CapabilityResult>, r: CapabilityResult)
    requires !Repeats(rs) && r in rs && Declared(expected, r) && r.required && !Delivers(r) && !SaysCancelled(r)
    ensures Starved(expected, rs)
  {
    var e :| e in expected && e.capability == r.capability && e.source == r.source && e.required == r.required;
    var i :| 0 <= i < |rs| && rs[i] == r;
    forall q | q in rs && q.capability == e.capability ensures q == r {
      var j :| 0 <= j < |rs| && rs[j] == q;
    }
  }

  lemma OnlyExpectation(expected: seq<Expectation>, e: Expectation, r: CapabilityResult)
    requires Sound(expected) && e in expected && Declared(expected, r) && r.capability == e.capability
    ensures r.required == e.required
  {
    var d :| d in expected && d.capability == r.capability && d.source == r.source && d.required == r.required;
    var i :| 0 <= i < |expected| && expected[i] == d;
    var j :| 0 <= j < |expected| && expected[j] == e;
  }

  /** Each verdict on expectations and results alone: cancelled if any valid result says so; else ambiguous if
      contract and results are confused; else unavailable if a required capability is starved; else partial if
      any result does not deliver. */
  lemma VerdictsExactly(expected: seq<Expectation>, rs: seq<CapabilityResult>, out: Composition)
    requires Outcome(expected, rs, out)
    ensures var cancelled := exists r :: r in rs && SaysCancelled(r);
            var confused, starved := Confused(expected, rs), Starved(expected, rs);
            var lacking := exists r :: r in rs && !Delivers(r);
            && (out.status == IsCancelled <==> cancelled)
            && (out.status == IsAmbiguous <==> !cancelled && confused)
            && (out.status == IsUnavailable <==> !cancelled && !confused && starved)
            && (out.status == IsPartial <==> !cancelled && !confused && !starved && lacking)
            && (out.status == IsSuccess <==> !cancelled && !confused && !starved && !lacking)
  {
    hide Sound, Confused, Starved, Reasons, ReadContract, Ambiguous, RequiredLacking, OptionalLacking,
        RequiredMissing, AnyCancelled, Delivers, SaysCancelled;
    CancelledMeans(rs);
    ConfusedExactly(expected, rs);
    if !Confused(expected, rs) && forall r :: r in rs ==> !SaysCancelled(r) { StarvedExactly(expected, rs); }
  }

  // ----- What the reasons say -----

  /** The expectation a contract keeps of a capability is the first complete one. */
  ghost predicate Kept(expected: seq<Expectation>, e: Expectation) {
    exists i :: 0 <= i < |expected| && expected[i] == e && Complete(e)
      && forall h :: 0 <= h < i && Complete(expected[h]) ==> expected[h].capability != e.capability
  }

  ghost predicate Wanted(expected: seq<Expectation>, k: string) {
    exists e :: Kept(expected, e) && e.capability == k
  }

  ghost predicate WantedMuch(expected: seq<Expectation>, k: string) {
    exists e :: Kept(expected, e) && e.capability == k && e.required
  }

  lemma KeptMore(before: seq<Expectation>, e: Expectation, d: Expectation)
    ensures Kept(before + [e], d) <==>
              Kept(before, d) || (d == e && Complete(e) && !Declares(before, e.capability))
  {
    var all := before + [e];
    assert forall i :: 0 <= i < |before| ==> all[i] == before[i];
    if d == e && Complete(e) && !Declares(before, e.capability) { assert all[|before|] == d; }
    if Kept(before, d) {
      var i :| 0 <= i < |before| && before[i] == d
        && forall h :: 0 <= h < i && Complete(before[h]) ==> before[h].capability != d.capability;
      assert all[i] == d;
    }
  }

  /** The contract holds an expectation exactly if it is the first complete one of its capability. */
  lemma {:induction false} KeptExactly(expected: seq<Expectation>, e: Expectation)
    ensures var c := ReadContract(expected).contract;
            Kept(expected, e) <==> e.capability in c && c[e.capability] == e
  {
    if expected != [] {
      var before, last := expected[..|expected| - 1], expected[|expected| - 1];
      assert expected == before + [last];
      hide Kept;
      KeptExactly(before, e);
      KeptMore(before, last, e);
      ContractHolds(before, last.capability);
    } else {
      assert !Kept([], e);
    }
  }

  lemma WantedExactly(expected: seq<Expectation>, k: string)
    ensures var c := ReadContract(expected).contract;
            && (k in c <==> Wanted(expected, k)) && (Required(c, k) <==> WantedMuch(expected, k))
  {
    hide Kept, ReadContract;
    var c := ReadContract(expected).contract;
    ContractHolds(expected, k);
    if k in c { KeptExactly(expected, c[k]); }
    forall e | Kept(expected, e) ensures e.capability in c && c[e.capability] == e { KeptExactly(expected, e); }
  }

  ghost predicate ContractSays(expected: seq<Expectation>, s: string) {
    || (s == "capability contract contains an incomplete expectation" && exists e :: e in expected && !Complete(e))
    || (exists i, j :: 0 <= i < j < |expected| && Complete(expected[i]) && Complete(expected[j])
          && expected[i].capability == expected[j].capability
          && s == "capability contract repeats " + expected[j].capability)
  }

  /** What a result's place in the contract makes it say. */
  ghost predicate PlaceSays(expected: seq<Expectation>, r: CapabilityResult, seen: bool, s: string) {
    var declared := Wanted(expected, r.capability);
    || (!declared && s == "unexpected capability result " + r.capability)
    || (declared && seen && s == "capability " + r.capability + " returned more than once")
    || (declared && !seen && !Kept(expected, Expectation(r.capability, r.source, r.required))
        && s == "capability " + r.capability + " result does not match its expected source and requirement")
  }

  /** What a result's content makes it say. */
  ghost predicate ContentSays(expected: seq<Expectation>, r: CapabilityResult, s: string) {
    var dated := r.observedAt != 0 && r.freshUntil != 0 && r.observedAt < r.freshUntil;
    || ((!dated || r.status.Unknown?)
        && s == "capability " + r.capability + " returned invalid status or freshness evidence")
    || (dated && r.status == Cancelled && s == "orchestration was cancelled")
    || (dated && WantedMuch(expected, r.capability)
        && ((r.status == Unavailable && s == "required capability " + r.capability + " is unavailable")
            || (r.status == Failed && s == "required capability " + r.capability + " is failed")))
  }

  ghost predicate SilenceSays(expected: seq<Expectation>, rs: seq<CapabilityResult>, s: string) {
    exists k :: WantedMuch(expected, k) && (forall r :: r in rs ==> r.capability != k)
      && s == "required capability " + k + " returned no result"
  }

  ghost predicate RepeatSaid(expected: seq<Expectation>, k: string) {
    exists i, j :: 0 <= i < j < |expected| && Complete(expected[i]) && Complete(expected[j])
      && expected[i].capability == k && expected[j].capability == k
  }

  lemma RepeatSaidMore(before: seq<Expectation>, e: Expectation, k: string)
    ensures RepeatSaid(before + [e], k) <==>
              RepeatSaid(before, k) || (Complete(e) && e.capability == k && Declares(before, k))
  {
    var all := before + [e];
    assert forall i :: 0 <= i < |before| ==> all[i] == before[i];
    assert all[|before|] == e;
    if RepeatSaid(before, k) {
      var i, j :| 0 <= i < j < |before| && Complete(before[i]) && Complete(before[j])
        && before[i].capability == k && before[j].capability == k;
      assert all[i].capability == k && all[j].capability == k;
    }
    if Complete(e) && e.capability == k && Declares(before, k) {
      var i :| 0 <= i < |before| && Complete(before[i]) && before[i].capability == k;
      assert all[i].capability == k && all[|before|].capability == k;
    }
  }

  lemma {:induction false} ContractReasons(expected: seq<Expectation>, x: Reason)
    ensures x in ReadContract(expected).reasons <==>
              || (x == IncompleteExpectation && exists e :: e in expected && !Complete(e))
              || (x.RepeatedExpectation? && RepeatSaid(expected, x.capability))
  {
    if expected != [] {
      var before, e := expected[..|expected| - 1], expected[|expected| - 1];
      assert expected == before + [e];
      hide Complete, RepeatSaid;
      ContractReasons(before, x);
      ContractHolds(before, e.capability);
      if x.RepeatedExpectation? { RepeatSaidMore(before, e, x.capability); }
    }
  }

  lemma ContractTexts()
    ensures Text(IncompleteExpectation) == "capability contract contains an incomplete expectation"
    ensures forall k :: Text(RepeatedExpectation(k)) == "capability contract repeats " + k
  {
  }

  lemma ContractSaid(expected: seq<Expectation>, s: string)
    ensures ContractSays(expected, s) <==> exists x :: x in ReadContract(expected).reasons && Text(x) == s
  {
    hide Complete, ReadContract, Text, RepeatSaid;
    var reasons := ReadContract(expected).reasons;
    ContractTexts();
    forall k ensures RepeatedExpectation(k) in reasons <==> RepeatSaid(expected, k) {
      ContractReasons(expected, RepeatedExpectation(k));
    }
    ContractReasons(expected, IncompleteExpectation);
    RepeatsSaid(expected, s);
    if x :| x in reasons && Text(x) == s { ContractReasons(expected, x); }
  }

  lemma RepeatsSaid(expected: seq<Expectation>, s: string)
    ensures (exists i, j :: 0 <= i < j < |expected| && Complete(expected[i]) && Complete(expected[j])
               && expected[i].capability == expected[j].capability
               && s == "capability contract repeats " + expected[j].capability) <==>
              exists k :: RepeatSaid(expected, k) && s == "capability contract repeats " + k
  {
    hide Complete;
    if i, j :| 0 <= i < j < |expected| && Complete(expected[i]) && Complete(expected[j])
               && expected[i].capability == expected[j].capability
               && s == "capability contract repeats " + expected[j].capability {
      assert RepeatSaid(expected, expected[j].capability);
    }
  }

  /** The reasons placed are those of every result at its place. */
  lemma {:induction false} PlacingsMember(c: Contract, rs: seq<CapabilityResult>, x: Reason)
    ensures x in Placings(c, rs) <==>
              exists i :: 0 <= i < |rs| && x in Placing(c, rs[i], Seen(rs[..i], rs[i].capability))
  {
    if rs != [] {
      var front, last := rs[..|rs| - 1], rs[|rs| - 1];
      assert rs[..|front|] == front;
      assert forall i :: 0 <= i < |front| ==> rs[i] == front[i] && rs[..i] == front[..i];
      hide Placing, Seen;
      PlacingsMember(c, front, x);
      assert Placings(c, rs) == Placings(c, front) + Placing(c, last, Seen(front, last.capability));
    }
  }

  lemma ResultTexts(k: string)
    ensures Text(Unexpected(k)) == "unexpected capability result " + k
    ensures Text(Repeated(k)) == "capability " + k + " returned more than once"
    ensures Text(Mismatch(k)) == "capability " + k + " result does not match its expected source and requirement"
    ensures Text(Invalid(k)) == "capability " + k + " returned invalid status or freshness evidence"
    ensures Text(WasCancelled) == "orchestration was cancelled"
    ensures Text(RequiredLack(k, Unavailable)) == "required capability " + k + " is unavailable"
    ensures Text(RequiredLack(k, Failed)) == "required capability " + k + " is failed"
  {
  }

  /** A list of at most one reason says just that reason's text. */
  lemma SaidOnce(reasons: seq<Reason>, s: string)
    requires |reasons| <= 1
    ensures (exists x :: x in reasons && Text(x) == s) <==> reasons != [] && Text(reasons[0]) == s
  {
    hide Text;
  }

  lemma PlaceSaid(expected: seq<Expectation>, r: CapabilityResult, seen: bool, s: string)
    ensures PlaceSays(expected, r, seen, s) <==>
              exists x :: x in Placing(ReadContract(expected).contract, r, seen) && Text(x) == s
  {
    hide Kept, ReadContract, Wanted, Text;
    WantedExactly(expected, r.capability);
    ContractHolds(expected, r.capability);
    KeptExactly(expected, Expectation(r.capability, r.source, r.required));
    ResultTexts(r.capability);
    SaidOnce(Placing(ReadContract(expected).contract, r, seen), s);
  }

  lemma ContentSaid(expected: seq<Expectation>, r: CapabilityResult, s: string)
    ensures ContentSays(expected, r, s) <==>
              exists x :: x in Grading(ReadContract(expected).contract, r) && Text(x) == s
  {
    hide ReadContract, WantedMuch, Required, Text;
    WantedExactly(expected, r.capability);
    ResultTexts(r.capability);
    SaidOnce(Grading(ReadContract(expected).contract, r), s);
  }

  lemma SilenceSaid(expected: seq<Expectation>, rs: seq<CapabilityResult>, missing: seq<Reason>, s: string)
    requires Awaited(ReadContract(expected).contract, rs, missing)
    ensures SilenceSays(expected, rs, s) <==> exists x :: x in missing && Text(x) == s
  {
    hide ReadContract, WantedMuch, Required;
    forall k ensures WantedMuch(expected, k) <==> Required(ReadContract(expected).contract, k) {
      WantedExactly(expected, k);
    }
    if k :| WantedMuch(expected, k) && (forall r :: r in rs ==> r.capability != k)
            && s == "required capability " + k + " returned no result" {
      assert NoResult(k) in missing;
    }
  }

  /** The blocking reasons are sorted, and one of them reads `s` exactly if the contract, a result by its place
      or by its content, or the silence of a required capability gives a reason of that text. */
  lemma {:induction false} ReasonsExactly(expected: seq<Expectation>, rs: seq<CapabilityResult>, out: Composition,
                                          s: string)
    requires Outcome(expected, rs, out)
    ensures Sorted(out.reasons)
    ensures s in out.reasons <==>
              || ContractSays(expected, s)
              || (exists i :: 0 <= i < |rs| && PlaceSays(expected, rs[i], Seen(rs[..i], rs[i].capability), s))
              || (exists r :: r in rs && ContentSays(expected, r, s))
              || SilenceSays(expected, rs, s)
  {
    hide Summary, ReadContract, ContractSays, PlaceSays, ContentSays, SilenceSays, Placing, Placings, Grading,
        Gradings, Awaited, Seen, Text, TextOf, Listed, Sorted;
    var reading := ReadContract(expected);
    var c := reading.contract;
    var missing :| Awaited(c, rs, missing)
      && out.reasons == Listed(reading.reasons, Placings(c, rs), Gradings(c, rs), missing);
    ListedMember(reading.reasons, Placings(c, rs), Gradings(c, rs), missing, s);
    ContractSaid(expected, s);
    SilenceSaid(expected, rs, missing, s);
    PlacingsSaid(expected, rs, s);
    GradingsSaid(expected, rs, s);
  }

  lemma ListedMember(a: seq<Reason>, b: seq<Reason>, d: seq<Reason>, m: seq<Reason>, s: string)
    ensures Sorted(Listed(a, b, d, m))
    ensures s in Listed(a, b, d, m) <==>
              || (exists x :: x in a && Text(x) == s) || (exists x :: x in b && Text(x) == s)
              || (exists x :: x in d && Text(x) == s) || (exists x :: x in m && Text(x) == s)
  {
    hide Text;
    var all := a + b + d + m;
    SortSorts(Gather(TextOf, all));
    SortMembers(Gather(TextOf, all), s);
    GatherMember(TextOf, all, s);
    assert forall x :: s in TextOf(x) <==> Text(x) == s;
  }

  lemma PlacingsSaid(expected: seq<Expectation>, rs: seq<CapabilityResult>, s: string)
    ensures (exists x :: x in Placings(ReadContract(expected).contract, rs) && Text(x) == s) <==>
              exists i :: 0 <= i < |rs| && PlaceSays(expected, rs[i], Seen(rs[..i], rs[i].capability), s)
  {
    hide ReadContract, PlaceSays, Placing, Placings, Seen, Text;
    var c := ReadContract(expected).contract;
    forall x ensures x in Placings(c, rs) <==>
                       exists i :: 0 <= i < |rs| && x in Placing(c, rs[i], Seen(rs[..i], rs[i].capability)) {
      PlacingsMember(c, rs, x);
    }
    forall i | 0 <= i < |rs|
      ensures var seen := Seen(rs[..i], rs[i].capability);
              PlaceSays(expected, rs[i], seen, s) <==> exists x :: x in Placing(c, rs[i], seen) && Text(x) == s
    {
      PlaceSaid(expected, rs[i], Seen(rs[..i], rs[i].capability), s);
    }
  }

  lemma GradingsSaid(expected: seq<Expectation>, rs: seq<CapabilityResult>, s: string)
    ensures (exists x :: x in Gradings(ReadContract(expected).contract, rs) && Text(x) == s) <==>
              exists r :: r in rs && ContentSays(expected, r, s)
  {
    hide ReadContract, ContentSays, Grading, Text;
    var c := ReadContract(expected).contract;
    forall x ensures x in Gradings(c, rs) <==> exists r :: r in rs && x in Grading(c, r) {
      GatherMember(r => Grading(c, r), rs, x);
    }
    forall r ensures ContentSays(expected, r, s) <==> exists x :: x in Grading(c, r) && Text(x) == s {
      ContentSaid(expected, r, s);
    }
  }

  // ----- Order -----

  function Returns(rs: seq<CapabilityResult>, k: string): nat {
    multiset(Gather(CapabilityOf, rs))[k]
  }

  lemma ReturnsMore(rs: seq<CapabilityResult>, r: CapabilityResult, k: string)
    ensures Returns(rs + [r], k) == Returns(rs, k) + (if r.capability == k then 1 else 0)
  {
  }

  lemma {:induction false} ReturnsSeen(rs: seq<CapabilityResult>, k: string)
    ensures 0 < Returns(rs, k) <==> Seen(rs, k)
  {
    if rs != [] {
      var front, last := rs[..|rs| - 1], rs[|rs| - 1];
      assert rs == front + [last];
      ReturnsSeen(front, k);
      ReturnsMore(front, last, k);
      SeenMore(front, last);
    }
  }

  lemma {:induction false} RepeatsCounted(rs: seq<CapabilityResult>)
    ensures Repeats(rs) <==> exists k :: 1 < Returns(rs, k)
  {
    if rs != [] {
      var front, last := rs[..|rs| - 1], rs[|rs| - 1];
      assert rs == front + [last];
      RepeatsCounted(front);
      RepeatsMore(front, last);
      ReturnsSeen(front, last.capability);
      forall k ensures Returns(rs, k) == Returns(front, k) + (if last.capability == k then 1 else 0) {
        ReturnsMore(front, last, k);
      }
      assert Seen(front, last.capability) ==> 1 < Returns(rs, last.capability);
      assert forall k :: 1 < Returns(front, k) ==> 1 < Returns(rs, k);
    }
  }

  lemma SoundPermuted(expected: seq<Expectation>, expected': seq<Expectation>)
    requires multiset(expected) == multiset(expected') && Sound(expected)
    ensures Sound(expected')
  {
    SameElements(expected, expected');
    forall i, j | 0 <= i < j < |expected'| ensures expected'[i].capability != expected'[j].capability {
      forall a, b | 0 <= a < b < |expected| ensures expected[a] != expected[b] {
        assert expected[a].capability != expected[b].capability;
      }
      UniqueIndices(expected);
      UniqueIndices(expected');
      assert Unique(expected');
      assert expected'[i] in expected && expected'[j] in expected;
    }
    forall i | 0 <= i < |expected'| ensures Complete(expected'[i]) {
      assert expected'[i] in expected;
    }
  }

  lemma ContractPermuted(expected: seq<Expectation>, expected': seq<Expectation>)
    requires multiset(expected) == multiset(expected') && Sound(expected)
    ensures ReadContract(expected).contract == ReadContract(expected').contract
  {
    SameElements(expected, expected');
    SoundPermuted(expected, expected');
    var c, c' := ReadContract(expected).contract, ReadContract(expected').contract;
    forall k ensures (k in c <==> k in c') && (k in c ==> c[k] == c'[k]) {
      ContractHolds(expected, k);
      ContractHolds(expected', k);
      if k in c { SoundHolds(expected', c[k]); }
      if k in c' { SoundHolds(expected, c'[k]); }
    }
  }

  lemma FlagsPermuted(sound: bool, c: Contract, rs: seq<CapabilityResult>, rs': seq<CapabilityResult>)
    requires multiset(rs) == multiset(rs')
    ensures AnyCancelled(rs) <==> AnyCancelled(rs')
    ensures Ambiguous(sound, c, rs) <==> Ambiguous(sound, c, rs')
    ensures RequiredLacking(c, rs) <==> RequiredLacking(c, rs')
    ensures OptionalLacking(c, rs) <==> OptionalLacking(c, rs')
    ensures forall k :: Missing(c, rs, k) <==> Missing(c, rs', k)
  {
    SameElements(rs, rs');
    RepeatsCounted(rs);
    RepeatsCounted(rs');
    GatherPermutes(CapabilityOf, rs, rs');
    assert forall k :: Returns(rs, k) == Returns(rs', k);
    forall k ensures Missing(c, rs, k) <==> Missing(c, rs', k) {
      assert Missing(c, rs, k) <==> Required(c, k) && forall r :: r in rs ==> r.capability != k;
      assert Missing(c, rs', k) <==> Required(c, k) && forall r :: r in rs' ==> r.capability != k;
    }
  }

  lemma {:induction false} StatusPermuted(expected: seq<Expectation>, expected': seq<Expectation>,
                       rs: seq<CapabilityResult>, rs': seq<CapabilityResult>)
    requires multiset(expected) == multiset(expected') && multiset(rs) == multiset(rs')
    ensures StatusOf(Sound(expected), ReadContract(expected).contract, rs)
            == StatusOf(Sound(expected'), ReadContract(expected').contract, rs')
  {
    var c, c' := ReadContract(expected).contract, ReadContract(expected').contract;
    FlagsPermuted(Sound(expected), c, rs, rs');
    if Sound(expected) {
      SoundPermuted(expected, expected');
      ContractPermuted(expected, expected');
    } else if Sound(expected') {
      SoundPermuted(expected', expected);
    }
  }

  lemma CoveragePermuted(rs: seq<CapabilityResult>, rs': seq<CapabilityResult>, v: seq<string>, v': seq<string>)
    requires multiset(rs) == multiset(rs') && Covers(rs, v) && Covers(rs', v')
    ensures v == v'
  {
    SameElements(rs, rs');
    forall x ensures multiset(v)[x] == multiset(v')[x] {
      assert x in v <==> x in multiset(v);
      assert x in v' <==> x in multiset(v');
    }
    SortedUnique(v, v');
  }

  /** Status, coverage and time window do not depend on the order of the results, nor on that of the
      expectations, nor on the order in which declared capabilities are visited. */
  lemma OrderFree(expected: seq<Expectation>, expected': seq<Expectation>, rs: seq<CapabilityResult>,
                  rs': seq<CapabilityResult>, out: Composition, out': Composition)
    requires multiset(expected) == multiset(expected') && multiset(rs) == multiset(rs')
    requires Outcome(expected, rs, out) && Outcome(expected', rs', out')
    ensures out.status == out'.status && out.coverage == out'.coverage
    ensures out.observedAt == out'.observedAt && out.freshUntil == out'.freshUntil
  {
    StatusPermuted(expected, expected', rs, rs');
    CoveragePermuted(rs, rs', out.coverage, out'.coverage);
    SameElements(rs, rs');
  }

  // ----- Order and reasons -----

  /** Results that repeat a declared capability agree on whether they match the contract. */
  ghost predicate Uniform(c: Contract, rs: seq<CapabilityResult>) {
    forall r, q :: r in rs && q in rs && r.capability == q.capability && r.capability in c ==>
      (Matches(c, r) <==> Matches(c, q))
  }

  lemma UnrepeatedIsUniform(c: Contract, rs: seq<CapabilityResult>)
    requires !Repeats(rs)
    ensures Uniform(c, rs)
  {
  }

  ghost predicate Misplaced(c: Contract, rs: seq<CapabilityResult>, k: string) {
    exists r :: r in rs && r.capability == k && !Matches(c, r)
  }

  /** How often the contract gives a reason, whatever the order. */
  ghost function Times(c: Contract, rs: seq<CapabilityResult>, x: Reason): nat {
    match x
    case Unexpected(k) => if k in c then 0 else Returns(rs, k)
    case Repeated(k) => if k in c && 0 < Returns(rs, k) then Returns(rs, k) - 1 else 0
    case Mismatch(k) => if k in c && Misplaced(c, rs, k) then 1 else 0
    case _ => 0
  }

  lemma PlacingCounted(c: Contract, r: CapabilityResult, seen: bool, x: Reason)
    ensures multiset(Placing(c, r, seen))[x] == if Placing(c, r, seen) == [x] then 1 else 0
  {
  }

  lemma TimesMore(c: Contract, rs: seq<CapabilityResult>, r: CapabilityResult, x: Reason)
    requires Uniform(c, rs + [r])
    ensures Times(c, rs + [r], x) == Times(c, rs, x) + multiset(Placing(c, r, Seen(rs, r.capability)))[x]
  {
    hide Uniform, Seen, Misplaced, Matches, Returns;
    var seen := Seen(rs, r.capability);
    PlacingCounted(c, r, seen, x);
    match x
    case Unexpected(k) => ReturnsMore(rs, r, k);
    case Repeated(k) => ReturnsMore(rs, r, k); ReturnsSeen(rs, r.capability);
    case Mismatch(k) => MismatchMore(c, rs, r, k);
    case _ =>
  }

  lemma MismatchMore(c: Contract, rs: seq<CapabilityResult>, r: CapabilityResult, k: string)
    requires Uniform(c, rs + [r])
    ensures k in c ==> (Misplaced(c, rs + [r], k) <==>
              Misplaced(c, rs, k) || (r.capability == k && !Seen(rs, k) && !Matches(c, r)))
    ensures k in c && r.capability == k && !Seen(rs, k) ==> !Misplaced(c, rs, k)
  {
  }

  lemma {:induction false} PlacingsCounted(c: Contract, rs: seq<CapabilityResult>, x: Reason)
    requires Uniform(c, rs)
    ensures multiset(Placings(c, rs))[x] == Times(c, rs, x)
  {
    if rs != [] {
      var front, last := rs[..|rs| - 1], rs[|rs| - 1];
      assert rs == front + [last];
      hide Matches, Placing, Times;
      PlacingsCounted(c, front, x);
      TimesMore(c, front, last, x);
    }
  }

  lemma TimesPermuted(c: Contract, rs: seq<CapabilityResult>, rs': seq<CapabilityResult>, x: Reason)
    requires multiset(rs) == multiset(rs')
    ensures Times(c, rs, x) == Times(c, rs', x)
  {
    SameElements(rs, rs');
    GatherPermutes(CapabilityOf, rs, rs');
    if x.Mismatch? { assert Misplaced(c, rs, x.capability) <==> Misplaced(c, rs', x.capability); }
  }

  lemma {:induction false} PlacingsPermuted(c: Contract, rs: seq<CapabilityResult>, rs': seq<CapabilityResult>)
    requires multiset(rs) == multiset(rs') && Uniform(c, rs)
    ensures multiset(Placings(c, rs)) == multiset(Placings(c, rs'))
  {
    SameElements(rs, rs');
    hide Times;
    forall x ensures multiset(Placings(c, rs))[x] == multiset(Placings(c, rs'))[x] {
      PlacingsCounted(c, rs, x);
      PlacingsCounted(c, rs', x);
      TimesPermuted(c, rs, rs', x);
    }
  }

  lemma ListedPermuted(a: seq<Reason>, b: seq<Reason>, b': seq<Reason>, d: seq<Reason>, d': seq<Reason>,
                       m: seq<Reason>, m': seq<Reason>)
    requires multiset(b) == multiset(b') && multiset(d) == multiset(d') && multiset(m) == multiset(m')
    ensures Listed(a, b, d, m) == Listed(a, b', d', m')
  {
    assert multiset(a + b + d + m) == multiset(a + b' + d' + m');
    GatherPermutes(TextOf, a + b + d + m, a + b' + d' + m');
    SortPermutes(Gather(TextOf, a + b + d + m), Gather(TextOf, a + b' + d' + m'));
  }

  lemma {:induction false} ReasonsAgree(expected: seq<Expectation>, rs: seq<CapabilityResult>,
                                        rs': seq<CapabilityResult>,
                     why: seq<string>, why': seq<string>)
    requires multiset(rs) == multiset(rs') && Reasons(expected, rs, why) && Reasons(expected, rs', why')
    requires var c := ReadContract(expected).contract; multiset(Placings(c, rs)) == multiset(Placings(c, rs'))
    ensures why == why'
  {
    var reading := ReadContract(expected);
    var c := reading.contract;
    var m :| Awaited(c, rs, m) && why == Listed(reading.reasons, Placings(c, rs), Gradings(c, rs), m);
    var m' :| Awaited(c, rs', m') && why' == Listed(reading.reasons, Placings(c, rs'), Gradings(c, rs'), m');
    FlagsPermuted(true, c, rs, rs');
    UniqueSame(m, m');
    GatherPermutes(r => Grading(c, r), rs, rs');
    ListedPermuted(reading.reasons, Placings(c, rs), Placings(c, rs'), Gradings(c, rs), Gradings(c, rs'), m, m');
  }

  /** The outcome does not depend on the order in which the declared capabilities are visited. */
  lemma Deterministic(expected: seq<Expectation>, rs: seq<CapabilityResult>, out: Composition, out': Composition)
    requires Outcome(expected, rs, out) && Outcome(expected, rs, out')
    ensures out == out'
  {
    OrderFree(expected, expected, rs, rs, out, out');
    ReasonsAgree(expected, rs, rs, out.reasons, out'.reasons);
  }

  lemma PlacingsMore(c: Contract, rs: seq<CapabilityResult>, r: CapabilityResult)
    ensures Placings(c, rs + [r]) == Placings(c, rs) + Placing(c, r, Seen(rs, r.capability))
  {
  }

  lemma SwapDiffers(c: Contract, r: CapabilityResult, q: CapabilityResult)
    requires r.capability == q.capability && r.capability in c && Matches(c, r) && !Matches(c, q)
    ensures |Placings(c, [q, r])| == |Placings(c, [r, q])| + 1
  {
  }

  lemma SwapSeen(r: CapabilityResult, q: CapabilityResult, rest: seq<CapabilityResult>, k: string)
    ensures Seen([q, r] + rest, k) <==> Seen([r, q] + rest, k)
  {
  }

  lemma {:induction false} PlacingsDiffer(c: Contract, r: CapabilityResult, q: CapabilityResult,
                                          rest: seq<CapabilityResult>)
    requires r.capability == q.capability && r.capability in c && Matches(c, r) && !Matches(c, q)
    ensures |Placings(c, [q, r] + rest)| == |Placings(c, [r, q] + rest)| + 1
  {
    hide Placing, Placings, Seen, Matches;
    if rest == [] {
      SwapDiffers(c, r, q);
      assert [q, r] + rest == [q, r] && [r, q] + rest == [r, q];
    } else {
      var front, last := rest[..|rest| - 1], rest[|rest| - 1];
      PlacingsDiffer(c, r, q, front);
      PlacingsMore(c, [q, r] + front, last);
      PlacingsMore(c, [r, q] + front, last);
      SwapSeen(r, q, front, last.capability);
      assert [q, r] + rest == [q, r] + front + [last] && [r, q] + rest == [r, q] + front + [last];
    }
  }

  lemma {:induction false} GatherTexts(reasons: seq<Reason>)
    ensures |Gather(TextOf, reasons)| == |reasons|
  {
    if reasons != [] { GatherTexts(reasons[..|reasons| - 1]); }
  }

  lemma ListedLength(a: seq<Reason>, b: seq<Reason>, d: seq<Reason>, m: seq<Reason>)
    ensures |Listed(a, b, d, m)| == |a| + |b| + |d| + |m|
  {
    GatherTexts(a + b + d + m);
    SortSorts(Gather(TextOf, a + b + d + m));
    SameElements(Sort(Gather(TextOf, a + b + d + m)), Gather(TextOf, a + b + d + m));
  }

  lemma {:induction false} ReasonsLength(expected: seq<Expectation>, rs: seq<CapabilityResult>,
                                         rs': seq<CapabilityResult>,
                      why: seq<string>, why': seq<string>)
    requires multiset(rs) == multiset(rs') && Reasons(expected, rs, why) && Reasons(expected, rs', why')
    ensures var c := ReadContract(expected).contract;
            |why| - |Placings(c, rs)| == |why'| - |Placings(c, rs')|
  {
    var reading := ReadContract(expected);
    var c := reading.contract;
    var m :| Awaited(c, rs, m) && why == Listed(reading.reasons, Placings(c, rs), Gradings(c, rs), m);
    var m' :| Awaited(c, rs', m') && why' == Listed(reading.reasons, Placings(c, rs'), Gradings(c, rs'), m');
    FlagsPermuted(true, c, rs, rs');
    UniqueSame(m, m');
    SameElements(m, m');
    GatherPermutes(r => Grading(c, r), rs, rs');
    SameElements(Gradings(c, rs), Gradings(c, rs'));
    ListedLength(reading.reasons, Placings(c, rs), Gradings(c, rs), m);
    ListedLength(reading.reasons, Placings(c, rs'), Gradings(c, rs'), m');
  }

  /** Two results brought to the front. */
  lemma Fronted<S>(s: seq<S>, x: S, y: S) returns (rest: seq<S>)
    requires x in s && y in s && x != y
    ensures multiset([x, y] + rest) == multiset(s) && multiset([y, x] + rest) == multiset(s)
  {
    var left := Front(s, x);
    assert y in multiset([x] + left);
    rest := Front(left, y);
    assert [x, y] + rest == [x] + ([y] + rest);
    assert multiset([y, x] + rest) == multiset{x, y} + multiset(rest);
  }

  ghost predicate ReasonsFixed(expected: seq<Expectation>, rs: seq<CapabilityResult>, ps: seq<CapabilityResult>,
                               qs: seq<CapabilityResult>) {
    multiset(ps) == multiset(rs) && multiset(qs) == multiset(rs) ==>
      forall why, why' :: Reasons(expected, ps, why) && Reasons(expected, qs, why') ==> why == why'
  }

  /** The reasons are the same for every order of the results exactly when results that repeat a declared
      capability all match the contract or all fail to; so in particular when no capability repeats. */
  lemma ReasonsOrderFreeExactly(expected: seq<Expectation>, rs: seq<CapabilityResult>)
    ensures (forall ps, qs :: ReasonsFixed(expected, rs, ps, qs)) <==> Uniform(ReadContract(expected).contract, rs)
    ensures !Repeats(rs) ==> forall ps, qs :: ReasonsFixed(expected, rs, ps, qs)
  {
    hide ReasonsFixed, Matches, ReadContract;
    var c := ReadContract(expected).contract;
    if Uniform(c, rs) {
      forall ps, qs ensures ReasonsFixed(expected, rs, ps, qs) { UniformFixes(expected, rs, ps, qs); }
    } else {
      var r, q :| r in rs && q in rs && r.capability == q.capability && r.capability in c
                  && Matches(c, r) && !Matches(c, q);
      var rest := Fronted(rs, r, q);
      MixedBreaks(expected, rs, r, q, rest);
    }
    if !Repeats(rs) { UnrepeatedIsUniform(c, rs); }
  }

  lemma {:induction false} SomeMissing(c: Contract, rs: seq<CapabilityResult>, keys: set<string>)
    returns (missing: seq<Reason>)
    requires keys <= c.Keys
    ensures Unique(missing)
    ensures forall x :: x in missing <==> x.NoResult? && x.capability in keys && Missing(c, rs, x.capability)
  {
    missing := [];
    if keys != {} {
      var k :| k in keys;
      missing := SomeMissing(c, rs, keys - {k});
      if Missing(c, rs, k) {
        assert NoResult(k) !in multiset(missing);
        missing := missing + [NoResult(k)];
      }
    }
  }

  lemma SomeReasons(expected: seq<Expectation>, rs: seq<CapabilityResult>) returns (why: seq<string>)
    ensures Reasons(expected, rs, why)
  {
    var reading := ReadContract(expected);
    var missing := SomeMissing(reading.contract, rs, reading.contract.Keys);
    assert Awaited(reading.contract, rs, missing);
    why := Listed(reading.reasons, Placings(reading.contract, rs), Gradings(reading.contract, rs), missing);
  }

  lemma UniformFixes(expected: seq<Expectation>, rs: seq<CapabilityResult>, ps: seq<CapabilityResult>,
                     qs: seq<CapabilityResult>)
    requires Uniform(ReadContract(expected).contract, rs)
    ensures ReasonsFixed(expected, rs, ps, qs)
  {
    if multiset(ps) == multiset(rs) && multiset(qs) == multiset(rs) {
      var c := ReadContract(expected).contract;
      PlacingsPermuted(c, rs, ps);
      PlacingsPermuted(c, rs, qs);
      forall why, why' | Reasons(expected, ps, why) && Reasons(expected, qs, why') ensures why == why' {
        ReasonsAgree(expected, ps, qs, why, why');
      }
    }
  }

  lemma MixedBreaks(expected: seq<Expectation>, rs: seq<CapabilityResult>, r: CapabilityResult, q: CapabilityResult,
                    rest: seq<CapabilityResult>)
    requires var c := ReadContract(expected).contract;
             r.capability == q.capability && r.capability in c && Matches(c, r) && !Matches(c, q)
    requires multiset([r, q] + rest) == multiset(rs) && multiset([q, r] + rest) == multiset(rs)
    ensures !ReasonsFixed(expected, rs, [r, q] + rest, [q, r] + rest)
  {
    var c := ReadContract(expected).contract;
    var why := SomeReasons(expected, [r, q] + rest);
    var why' := SomeReasons(expected, [q, r] + rest);
    ReasonsLength(expected, [r, q] + rest, [q, r] + rest, why, why');
    PlacingsDiffer(c, r, q, rest);
  }
}
