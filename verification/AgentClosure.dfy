/** The dependency closure of an agent, computed twice: by the installer, which records what it
    installed, and by the verifier, which derives from the installed manifests what must be recorded. */
module AgentClosure {
  import opened Sorting

  datatype Kind = Skill | Agent | Tool

  datatype Binding = Binding(kind: Kind, package: string, version: string, resolved: bool)

  datatype Key = Key(kind: Kind, id: string)

  datatype Member = Member(key: Key, version: string)

  datatype Orchestration = None | Bindings(bindings: seq<Binding>)

  datatype Manifest = Manifest(version: string, orchestration: Orchestration)

  datatype Result<T> = Ok(value: T) | Err

  type Manifests = map<Key, Manifest>

  function KeyOf(b: Binding): Key { Key(b.kind, b.package) }

  function MemberOf(b: Binding): Member { Member(KeyOf(b), b.version) }

  /** What a binding brings in: the bindings of the agent it resolves to. */
  function Next(ms: Manifests, b: Binding): seq<Binding> {
    if b.resolved && b.kind == Agent && KeyOf(b) in ms && ms[KeyOf(b)].orchestration.Bindings?
    then ms[KeyOf(b)].orchestration.bindings else []
  }

  ghost predicate Closed(root: seq<Binding>, ms: Manifests, s: set<Binding>) {
    && (forall b :: b in root ==> b in s)
    && (forall b, c :: b in s && c in Next(ms, b) ==> c in s)
  }

  /** The transitive bindings: the least set with the root's that is closed under `Next`. */
  ghost predicate Bound(root: seq<Binding>, ms: Manifests, b: Binding) {
    forall s :: Closed(root, ms, s) ==> b in s
  }

  lemma BoundCloses(root: seq<Binding>, ms: Manifests)
    ensures forall b :: b in root ==> Bound(root, ms, b)
    ensures forall b, c :: Bound(root, ms, b) && c in Next(ms, b) ==> Bound(root, ms, c)
  {
  }

  /** All bindings are bound, and all that the finished agents bring in is there. */
  ghost predicate Collecting(root: seq<Binding>, ms: Manifests, bindings: seq<Binding>, i: nat, seen: set<string>) {
    && i <= |bindings|
    && (forall b :: b in root ==> b in bindings)
    && (forall b :: b in bindings ==> Bound(root, ms, b))
    && (forall j :: 0 <= j < i && bindings[j].resolved && bindings[j].kind == Agent ==> bindings[j].package in seen)
    && (forall p :: p in seen ==>
          && Key(Agent, p) in ms && ms[Key(Agent, p)].orchestration.Bindings?
          && Binding(Agent, p, ms[Key(Agent, p)].version, true) in bindings)
    && (forall p, c :: p in seen && c in ms[Key(Agent, p)].orchestration.bindings ==> c in bindings)
  }

  lemma CollectNext(root: seq<Binding>, ms: Manifests, bindings: seq<Binding>, i: nat, seen: set<string>)
    requires Collecting(root, ms, bindings, i, seen) && i < |bindings|
    requires bindings[i].resolved && bindings[i].kind == Agent && KeyOf(bindings[i]) in ms
    requires ms[KeyOf(bindings[i])].version == bindings[i].version && ms[KeyOf(bindings[i])].orchestration.Bindings?
    ensures var b := bindings[i];
            Collecting(root, ms, bindings + ms[KeyOf(b)].orchestration.bindings, i + 1, seen + {b.package})
  {
    BoundCloses(root, ms);
    var more := ms[KeyOf(bindings[i])].orchestration.bindings;
    assert bindings[i] in bindings && more == Next(ms, bindings[i]);
    assert forall j :: 0 <= j < i ==> (bindings + more)[j] == bindings[j];
  }

  lemma CollectedAll(root: seq<Binding>, ms: Manifests, bindings: seq<Binding>, seen: set<string>)
    requires Collecting(root, ms, bindings, |bindings|, seen)
    ensures forall b :: b in bindings <==> Bound(root, ms, b)
  {
    var s := set b | b in bindings;
    assert Closed(root, ms, s) by {
      forall b, c | b in s && c in Next(ms, b) ensures c in s {
        var j :| 0 <= j < |bindings| && bindings[j] == b;
        assert b.package in seen;
      }
    }
  }

  /** A resolved agent binding the installer cannot follow. */
  predicate Unusable(ms: Manifests, b: Binding) {
    b.resolved && b.kind == Agent
    && (KeyOf(b) !in ms || ms[KeyOf(b)].version != b.version || ms[KeyOf(b)].orchestration.None?)
  }

  /** The installer's worklist: it grows while it is being read. */
  method CollectBindings(root: seq<Binding>, ms: Manifests) returns (r: Result<seq<Binding>>)
    ensures r.Ok? ==> forall b :: b in r.value <==> Bound(root, ms, b)
    ensures r.Ok? ==> forall b :: Bound(root, ms, b) && b.resolved && b.kind == Agent ==>
                        && KeyOf(b) in ms && ms[KeyOf(b)].orchestration.Bindings?
                        && Bound(root, ms, b.(version := ms[KeyOf(b)].version))
    ensures r.Err? ==> exists b :: Bound(root, ms, b) && Unusable(ms, b)
  {
    var bindings := root;
    var seen: set<string> := {};
    var i := 0;
    BoundCloses(root, ms);
    while i < |bindings|
      invariant Collecting(root, ms, bindings, i, seen)
      decreases ms.Keys - (set p | p in seen :: Key(Agent, p)), |bindings| - i
    {
      var b := bindings[i];
      assert b in bindings;
      if b.kind == Agent && b.resolved && b.package !in seen {
        if Unusable(ms, b) { return Err; }
        CollectNext(root, ms, bindings, i, seen);
        assert KeyOf(b) in ms.Keys - (set p | p in seen :: Key(Agent, p));
        seen := seen + {b.package};
        assert KeyOf(b) in (set p | p in seen :: Key(Agent, p));
        bindings := bindings + ms[KeyOf(b)].orchestration.bindings;
      }
      i := i + 1;
    }
    CollectedAll(root, ms, bindings, seen);
    forall b | Bound(root, ms, b) && b.resolved && b.kind == Agent
      ensures KeyOf(b) in ms && ms[KeyOf(b)].orchestration.Bindings?
              && Bound(root, ms, b.(version := ms[KeyOf(b)].version))
    {
      assert b in bindings && b.package in seen;
      assert b.(version := ms[KeyOf(b)].version) == Binding(Agent, b.package, ms[Key(Agent, b.package)].version, true);
    }
    r := Ok(bindings);
  }

  // ----- The installer's record -----

  /** A registry entry: its latest version and the versions it offers. */
  datatype Release = Release(latest: string, versions: set<string>)

  type Registry = map<Key, Release>

  predicate Wanted(b: Binding, kind: Kind) {
    b.kind == kind && b.resolved
  }

  predicate Pinned(reg: Registry, b: Binding) {
    KeyOf(b) in reg && b.version in reg[KeyOf(b)].versions && reg[KeyOf(b)].latest == b.version
  }

  /** The packages of one kind, each once, in order. */
  method DependencyIDs(bindings: seq<Binding>, kind: Kind) returns (ids: seq<string>)
    ensures Unique(ids) && Sorted(ids)
    ensures forall id :: id in ids <==> exists b :: b in bindings && Wanted(b, kind) && b.package == id
  {
    ids := [];
    var i := 0;
    while i < |bindings|
      invariant i <= |bindings| && Unique(ids)
      invariant forall id :: id in ids ==> exists b :: b in bindings && Wanted(b, kind) && b.package == id
      invariant forall j :: 0 <= j < i && Wanted(bindings[j], kind) ==> bindings[j].package in ids
    {
      var b := bindings[i];
      if Wanted(b, kind) && b.package !in ids {
        assert b in bindings;
        ids := ids + [b.package];
      }
      i := i + 1;
    }
    ghost var found := ids;
    SortSorts(ids);
    ids := Sort(ids);
    forall id ensures id in ids <==> id in found { SortMembers(found, id); }
  }

  method VerifyPinned(bindings: seq<Binding>, kind: Kind, reg: Registry) returns (ok: bool)
    ensures ok <==> forall b :: b in bindings && Wanted(b, kind) ==> Pinned(reg, b)
  {
    var i := 0;
    while i < |bindings|
      invariant i <= |bindings| && forall j :: 0 <= j < i && Wanted(bindings[j], kind) ==> Pinned(reg, bindings[j])
    {
      if Wanted(bindings[i], kind) && !Pinned(reg, bindings[i]) { return false; }
      i := i + 1;
    }
    ok := true;
  }

  /** What a package's own manifest says of its version; a package without manifest has none. */
  datatype Local = Versioned(version: string) | Unversioned | Broken

  datatype Option<T> = Nothing | Some(value: T)

  const UNVERSIONED := "unversioned-local"

  /** The version a package is recorded at: the registry's latest or, if that is blank, its manifest's. */
  function Selected(reg: Registry, locals: Key -> Local, k: Key): Option<string> {
    if k !in reg then Nothing
    else if reg[k].latest != "" then Some(reg[k].latest)
    else match locals(k) case Versioned(v) => Some(v) case Unversioned => Some(UNVERSIONED) case Broken => Nothing
  }

  /** Records one member for each package. `placed` are those that can be installed, or are installed already
      with a receipt that verifies or can be written. */
  method InstallSet(ids: seq<string>, kind: Kind, reg: Registry, locals: Key -> Local, placed: set<Key>)
    returns (r: Result<seq<Member>>)
    requires Unique(ids)
    ensures r.Ok? <==> forall id :: id in ids ==> Selected(reg, locals, Key(kind, id)).Some? && Key(kind, id) in placed
    ensures r.Ok? ==> Unique(r.value)
    ensures r.Ok? ==> forall m :: m in r.value <==>
              m.key.kind == kind && m.key.id in ids && Some(m.version) == Selected(reg, locals, m.key)
    ensures r.Ok? ==> forall m :: m in r.value ==>
              m.key in reg && m.version == if reg[m.key].latest != "" then reg[m.key].latest
                                           else if locals(m.key).Versioned? then locals(m.key).version
                                           else "unversioned-local"
  {
    var members := [];
    var i := 0;
    while i < |ids|
      invariant i <= |ids| && |members| == i
      invariant forall j :: 0 <= j < i ==> Selected(reg, locals, Key(kind, ids[j])).Some? && Key(kind, ids[j]) in placed
      invariant forall j :: 0 <= j < i ==>
                  members[j] == Member(Key(kind, ids[j]), Selected(reg, locals, Key(kind, ids[j])).value)
    {
      var k := Key(kind, ids[i]);
      var version := Selected(reg, locals, k);
      if version.Nothing? || k !in placed { return Err; }
      members := members + [Member(k, version.value)];
      i := i + 1;
    }
    UniqueByIndex(ids, members);
    r := Ok(members);
  }

  lemma UniqueByIndex(ids: seq<string>, members: seq<Member>)
    requires Unique(ids) && |members| == |ids|
    requires forall j :: 0 <= j < |ids| ==> members[j].key.id == ids[j]
    ensures Unique(members)
  {
    UniqueIndices(ids);
    UniqueIndices(members);
  }

  /** The record lists every transitive resolved binding once, at its version, and nothing else. */
  ghost predicate Records(root: seq<Binding>, ms: Manifests, members: seq<Member>) {
    && Unique(members)
    && forall m :: m in members <==> exists b :: Bound(root, ms, b) && b.resolved && m == MemberOf(b)
  }

  ghost predicate Installable(root: seq<Binding>, ms: Manifests, reg: Registry) {
    forall b :: Bound(root, ms, b) && b.resolved ==> Pinned(reg, b) && !Unusable(ms, b)
  }

  /** The packages themselves allow it: each passes the checks made before anything is written, has a version,
      and can be put in place. */
  ghost predicate Placeable(root: seq<Binding>, ms: Manifests, reg: Registry, locals: Key -> Local,
                            admitted: set<Key>, placed: set<Key>) {
    forall b :: Bound(root, ms, b) && b.resolved ==>
      KeyOf(b) in admitted && KeyOf(b) in placed && Selected(reg, locals, KeyOf(b)).Some?
  }

  /** The record lists the package of every transitive resolved binding once, at its selected version. */
  ghost predicate RecordsSelected(root: seq<Binding>, ms: Manifests, reg: Registry, locals: Key -> Local,
                                  members: seq<Member>) {
    && Unique(members)
    && forall m :: m in members <==>
         Some(m.version) == Selected(reg, locals, m.key)
         && exists b :: Bound(root, ms, b) && b.resolved && m.key == KeyOf(b)
  }

  /** Where no binding is pinned to a blank version, the selected versions are the pinned ones. */
  lemma SelectedArePinned(root: seq<Binding>, ms: Manifests, reg: Registry, locals: Key -> Local, members: seq<Member>)
    requires Installable(root, ms, reg) && RecordsSelected(root, ms, reg, locals, members)
    requires forall b :: Bound(root, ms, b) && b.resolved ==> b.version != ""
    ensures Records(root, ms, members)
  {
    forall m ensures m in members <==> exists b :: Bound(root, ms, b) && b.resolved && m == MemberOf(b) {
      forall b | Bound(root, ms, b) && b.resolved && m.key == KeyOf(b)
        ensures Some(m.version) == Selected(reg, locals, m.key) <==> m == MemberOf(b)
      {
        assert Pinned(reg, b);
      }
    }
  }

  /** What is asked of one resolved binding: a registered package whose latest release is the pinned one, an agent
      that can be followed at that version, admission, a version to record, and a place. */
  predicate Meets(b: Binding, ms: Manifests, reg: Registry, locals: Key -> Local, admitted: set<Key>,
                  placed: set<Key>) {
    var k := Key(b.kind, b.package);
    && k in reg && b.version in reg[k].versions && b.version == reg[k].latest
    && (b.kind == Agent ==> k in ms && ms[k].version == b.version && ms[k].orchestration != None)
    && k in admitted && k in placed
    && (b.version == "" ==> locals(k) != Broken)
  }

  lemma MeetsExactly(root: seq<Binding>, ms: Manifests, reg: Registry, locals: Key -> Local,
                     admitted: set<Key>, placed: set<Key>)
    ensures Installable(root, ms, reg) && Placeable(root, ms, reg, locals, admitted, placed) <==>
              forall b :: Bound(root, ms, b) && b.resolved ==> Meets(b, ms, reg, locals, admitted, placed)
  {
    forall b: Binding | b.resolved
      ensures Meets(b, ms, reg, locals, admitted, placed) <==>
                && Pinned(reg, b) && !Unusable(ms, b)
                && KeyOf(b) in admitted && KeyOf(b) in placed && Selected(reg, locals, KeyOf(b)).Some?
    {
    }
  }

  /** Members of different kinds never coincide. */
  lemma UniqueConcat(a: seq<Member>, b: seq<Member>)
    requires Unique(a) && Unique(b) && forall m :: m in a ==> m !in b
    ensures Unique(a + b)
  {
    assert multiset(a + b) == multiset(a) + multiset(b);
    forall m ensures multiset(a + b)[m] <= 1 {
      assert m in a <==> m in multiset(a);
      assert m in b <==> m in multiset(b);
    }
  }

  /** Before anything is written, every package of every kind is checked and every pin verified. */
  method Preflight(bindings: seq<Binding>, reg: Registry, admitted: set<Key>) returns (ok: bool)
    ensures ok <==> forall b :: b in bindings && b.resolved ==> Pinned(reg, b) && KeyOf(b) in admitted
  {
    var kinds := [Skill, Agent, Tool];
    AllKinds(kinds);
    var k := 0;
    while k < 3
      invariant k <= 3
      invariant forall b :: b in bindings && b.resolved && b.kind in kinds[..k] ==>
                  Pinned(reg, b) && KeyOf(b) in admitted
    {
      assert kinds[k] in kinds && kinds[..k + 1] == kinds[..k] + [kinds[k]];
      var ids := DependencyIDs(bindings, kinds[k]);
      var i := 0;
      while i < |ids|
        invariant i <= |ids| && forall j :: 0 <= j < i ==> Key(kinds[k], ids[j]) in admitted
      {
        if Key(kinds[k], ids[i]) !in admitted {
          assert ids[i] in ids;
          var b :| b in bindings && Wanted(b, kinds[k]) && b.package == ids[i];
          return false;
        }
        i := i + 1;
      }
      var pinned := VerifyPinned(bindings, kinds[k], reg);
      if !pinned {
        var b :| b in bindings && Wanted(b, kinds[k]) && !Pinned(reg, b);
        return false;
      }
      forall b | b in bindings && b.resolved && b.kind == kinds[k] ensures Pinned(reg, b) && KeyOf(b) in admitted {
        assert Wanted(b, kinds[k]) && b.package in ids;
      }
      k := k + 1;
    }
    assert kinds[..k] == kinds;
    ok := true;
  }

  lemma AllKinds(kinds: seq<Kind>)
    requires kinds == [Skill, Agent, Tool]
    ensures forall kind :: kind in kinds
  {
    assert kinds[0] == Skill && kinds[1] == Agent && kinds[2] == Tool;
    forall kind: Kind ensures kind in kinds { match kind case Skill => case Agent => case Tool => }
  }

  /** Installs the packages kind by kind and joins their records. */
  method InstallSets(bindings: seq<Binding>, reg: Registry, locals: Key -> Local, placed: set<Key>)
    returns (r: Result<seq<Member>>)
    ensures r.Ok? <==> forall b :: b in bindings && b.resolved ==>
              Selected(reg, locals, KeyOf(b)).Some? && KeyOf(b) in placed
    ensures r.Ok? ==> Unique(r.value) && forall m :: m in r.value <==>
              Some(m.version) == Selected(reg, locals, m.key)
              && exists b :: b in bindings && b.resolved && m.key == KeyOf(b)
  {
    var kinds := [Skill, Agent, Tool];
    AllKinds(kinds);
    var members: seq<Member> := [];
    var k := 0;
    while k < 3
      invariant k <= 3 && Unique(members)
      invariant forall b :: b in bindings && b.resolved && b.kind in kinds[..k] ==>
                  Selected(reg, locals, KeyOf(b)).Some? && KeyOf(b) in placed
      invariant forall m :: m in members <==>
                  m.key.kind in kinds[..k] && Some(m.version) == Selected(reg, locals, m.key)
                  && exists b :: b in bindings && b.resolved && m.key == KeyOf(b)
    {
      hide Selected;
      var kind := kinds[k];
      assert kinds[..k + 1] == kinds[..k] + [kind] && kind !in kinds[..k];
      var ids := DependencyIDs(bindings, kind);
      var batch := InstallSet(ids, kind, reg, locals, placed);
      if batch.Err? {
        var id :| id in ids && !(Selected(reg, locals, Key(kind, id)).Some? && Key(kind, id) in placed);
        var b :| b in bindings && Wanted(b, kind) && b.package == id;
        assert KeyOf(b) == Key(kind, id);
        return Err;
      }
      SetKeys(bindings, kind, ids);
      forall b | b in bindings && b.resolved && b.kind == kind
        ensures Selected(reg, locals, KeyOf(b)).Some? && KeyOf(b) in placed
      {
        assert Wanted(b, kind) && b.package in ids;
      }
      UniqueConcat(members, batch.value);
      members := members + batch.value;
      k := k + 1;
    }
    assert kinds[..k] == kinds;
    r := Ok(members);
  }

  lemma SetKeys(bindings: seq<Binding>, kind: Kind, ids: seq<string>)
    requires forall id :: id in ids <==> exists b :: b in bindings && Wanted(b, kind) && b.package == id
    ensures forall k: Key :: k.kind == kind && k.id in ids <==>
              k.kind == kind && exists b :: b in bindings && b.resolved && k == KeyOf(b)
  {
    forall k: Key | k.kind == kind
      ensures k.id in ids <==> exists b :: b in bindings && b.resolved && k == KeyOf(b)
    {
      if b :| b in bindings && b.resolved && k == KeyOf(b) { assert Wanted(b, kind) && b.package == k.id; }
      if k.id in ids {
        var b :| b in bindings && Wanted(b, kind) && b.package == k.id;
        assert k == KeyOf(b);
      }
    }
  }

  /** The installer: collects the closure, checks it all, then installs its packages. It succeeds exactly when
      every transitive resolved binding can be followed, is pinned to the latest release, and its package can be
      placed; the record is then exactly the closure, whatever the order of the bindings. */
  method InstallDependencies(root: seq<Binding>, ms: Manifests, reg: Registry, locals: Key -> Local,
                             admitted: set<Key>, placed: set<Key>) returns (r: Result<seq<Member>>)
    ensures r.Ok? <==> Installable(root, ms, reg) && Placeable(root, ms, reg, locals, admitted, placed)
    ensures r.Ok? <==> forall b :: Bound(root, ms, b) && b.resolved ==>
              Meets(b, ms, reg, locals, admitted, placed)
    ensures r.Ok? ==> RecordsSelected(root, ms, reg, locals, r.value)
    ensures r.Ok? && (forall b :: Bound(root, ms, b) && b.resolved ==> b.version != "") ==> Records(root, ms, r.value)
  {
    hide Selected, Records;
    var collected := CollectBindings(root, ms);
    MeetsExactly(root, ms, reg, locals, admitted, placed);
    if collected.Err? { return Err; }
    var bindings := collected.value;
    var ready := Preflight(bindings, reg, admitted);
    if !ready {
      var b :| b in bindings && b.resolved && !(Pinned(reg, b) && KeyOf(b) in admitted);
      return Err;
    }
    PinnedAreUsable(root, ms, reg, bindings);
    r := InstallSets(bindings, reg, locals, placed);
    if r.Ok? && forall b :: Bound(root, ms, b) && b.resolved ==> b.version != "" {
      SelectedArePinned(root, ms, reg, locals, r.value);
    }
  }

  lemma PinnedAreUsable(root: seq<Binding>, ms: Manifests, reg: Registry, bindings: seq<Binding>)
    requires forall b :: b in bindings <==> Bound(root, ms, b)
    requires forall b :: Bound(root, ms, b) && b.resolved ==> Pinned(reg, b)
    requires forall b :: Bound(root, ms, b) && b.resolved && b.kind == Agent ==>
               KeyOf(b) in ms && ms[KeyOf(b)].orchestration.Bindings?
               && Bound(root, ms, b.(version := ms[KeyOf(b)].version))
    ensures Installable(root, ms, reg)
  {
    forall b | Bound(root, ms, b) && b.resolved ensures Pinned(reg, b) && !Unusable(ms, b) {
      if b.kind == Agent { assert Pinned(reg, b.(version := ms[KeyOf(b)].version)); }
    }
  }

  // ----- The verifier's derivation -----

  predicate Derivable(installed: Manifests, b: Binding) {
    && KeyOf(b) in installed && installed[KeyOf(b)].version == b.version
    && (b.kind == Agent ==> installed[KeyOf(b)].orchestration.Bindings?)
  }

  ghost predicate Deriving(root: seq<Binding>, ms: Manifests, bindings: seq<Binding>, i: nat,
                           expected: map<Key, string>) {
    && i <= |bindings|
    && (forall b :: b in root ==> b in bindings)
    && (forall b :: b in bindings ==> Bound(root, ms, b))
    && (forall j :: 0 <= j < i && bindings[j].resolved ==>
          KeyOf(bindings[j]) in expected && expected[KeyOf(bindings[j])] == bindings[j].version)
    && (forall k :: k in expected ==>
          && k in ms && ms[k].version == expected[k]
          && (k.kind == Agent ==> ms[k].orchestration.Bindings?)
          && Binding(k.kind, k.id, expected[k], true) in bindings)
    && (forall k, c :: k in expected && k.kind == Agent && c in ms[k].orchestration.bindings ==> c in bindings)
  }

  lemma DeriveNext(root: seq<Binding>, ms: Manifests, bindings: seq<Binding>, i: nat, expected: map<Key, string>)
    requires Deriving(root, ms, bindings, i, expected) && i < |bindings|
    requires bindings[i].resolved && KeyOf(bindings[i]) !in expected && Derivable(ms, bindings[i])
    ensures Deriving(root, ms, bindings + Next(ms, bindings[i]), i + 1,
                     expected[KeyOf(bindings[i]) := bindings[i].version])
  {
    BoundCloses(root, ms);
    var b := bindings[i];
    assert b in bindings && b == Binding(b.kind, b.package, b.version, true);
    assert forall j :: 0 <= j <= i ==> (bindings + Next(ms, b))[j] == bindings[j];
  }

  lemma DerivedAll(root: seq<Binding>, ms: Manifests, bindings: seq<Binding>, expected: map<Key, string>)
    requires Deriving(root, ms, bindings, |bindings|, expected)
    ensures forall b :: b in bindings <==> Bound(root, ms, b)
    ensures forall b :: Bound(root, ms, b) && b.resolved ==>
              Derivable(ms, b) && KeyOf(b) in expected && expected[KeyOf(b)] == b.version
    ensures forall k :: k in expected ==> Bound(root, ms, Binding(k.kind, k.id, expected[k], true))
  {
    var s := set b | b in bindings;
    assert Closed(root, ms, s) by {
      forall b, c | b in s && c in Next(ms, b) ensures c in s {
        var j :| 0 <= j < |bindings| && bindings[j] == b;
        assert KeyOf(b) in expected;
      }
    }
    forall b | Bound(root, ms, b) && b.resolved
      ensures Derivable(ms, b) && KeyOf(b) in expected && expected[KeyOf(b)] == b.version
    {
      assert b in s;
      var j :| 0 <= j < |bindings| && bindings[j] == b;
    }
  }

  /** The verifier's worklist over the installed manifests; the receipt has no say in it. */
  method DeriveExpected(root: seq<Binding>, installed: Manifests) returns (r: Result<map<Key, string>>)
    ensures r.Ok? <==> forall b :: Bound(root, installed, b) && b.resolved ==> Derivable(installed, b)
    ensures r.Ok? ==> forall k: Key, v: string :: k in r.value && r.value[k] == v <==>
                        Bound(root, installed, Binding(k.kind, k.id, v, true))
  {
    var bindings := root;
    var expected: map<Key, string> := map[];
    var i := 0;
    BoundCloses(root, installed);
    while i < |bindings|
      invariant Deriving(root, installed, bindings, i, expected)
      decreases installed.Keys - expected.Keys, |bindings| - i
    {
      var b := bindings[i];
      assert b in bindings;
      if b.resolved {
        if KeyOf(b) in expected {
          if expected[KeyOf(b)] != b.version { return Err; }
        } else {
          if !Derivable(installed, b) { return Err; }
          DeriveNext(root, installed, bindings, i, expected);
          assert KeyOf(b) in installed.Keys - expected.Keys;
          expected := expected[KeyOf(b) := b.version];
          bindings := bindings + Next(installed, b);
        }
      }
      i := i + 1;
    }
    DerivedAll(root, installed, bindings, expected);
    forall k: Key, v: string | Bound(root, installed, Binding(k.kind, k.id, v, true))
      ensures k in expected && expected[k] == v
    {
      assert KeyOf(Binding(k.kind, k.id, v, true)) == k;
    }
    r := Ok(expected);
  }

  // ----- The receipt -----

  /** The receipt lists exactly what is expected, each once. */
  ghost predicate Lists(expected: map<Key, string>, closure: seq<Member>) {
    && Unique(closure)
    && forall m :: m in closure <==> m.key in expected && m.version == expected[m.key]
  }

  function Keys(closure: seq<Member>): set<Key> {
    set m | m in closure :: m.key
  }

  lemma {:induction false} KeysSize(closure: seq<Member>)
    requires forall i, j :: 0 <= i < j < |closure| ==> closure[i].key != closure[j].key
    ensures |Keys(closure)| == |closure|
  {
    if closure != [] {
      var n := |closure| - 1;
      var rest := closure[..n];
      KeysSize(rest);
      assert closure == rest + [closure[n]];
      assert Keys(closure) == Keys(rest) + {closure[n].key};
      assert closure[n].key !in Keys(rest);
    }
  }

  lemma SameSize(a: set<Key>, b: set<Key>)
    requires a <= b && |a| == |b|
    ensures a == b
  {
    assert |b - a| == |b| - |a|;
  }

  lemma ListedSize(expected: map<Key, string>, closure: seq<Member>)
    requires Lists(expected, closure)
    ensures forall i, j :: 0 <= i < j < |closure| ==> closure[i].key != closure[j].key
    ensures |closure| == |expected|
  {
    UniqueIndices(closure);
    forall i, j | 0 <= i < j < |closure| ensures closure[i].key != closure[j].key {
      assert closure[i] in closure && closure[j] in closure;
    }
    KeysSize(closure);
    forall k | k in expected ensures k in Keys(closure) { assert Member(k, expected[k]) in closure; }
    assert Keys(closure) == expected.Keys;
  }

  /** Right size, right members, no key twice: nothing is missing. */
  lemma SizeLists(expected: map<Key, string>, closure: seq<Member>)
    requires |closure| == |expected|
    requires forall i, j :: 0 <= i < j < |closure| ==> closure[i].key != closure[j].key
    requires forall m :: m in closure ==> m.key in expected && m.version == expected[m.key]
    ensures Lists(expected, closure)
  {
    KeysSize(closure);
    SameSize(Keys(closure), expected.Keys);
    UniqueIndices(closure);
    forall m: Member | m.key in expected && m.version == expected[m.key] ensures m in closure {
      assert m.key in Keys(closure);
    }
  }

  method CheckReceipt(expected: map<Key, string>, closure: seq<Member>, bound: set<Member>) returns (accepted: bool)
    ensures accepted <==> Lists(expected, closure) && forall m :: m in closure ==> m in bound
  {
    if Lists(expected, closure) { ListedSize(expected, closure); }
    if |closure| != |expected| { return false; }
    var seen: set<Key> := {};
    var i := 0;
    while i < |closure|
      invariant i <= |closure| && seen == set j | 0 <= j < i :: closure[j].key
      invariant forall j :: 0 <= j < i ==>
        closure[j] in bound && closure[j].key in expected && closure[j].version == expected[closure[j].key]
      invariant forall j, k :: 0 <= j < k < i ==> closure[j].key != closure[k].key
    {
      var m := closure[i];
      assert m in closure;
      if m.key !in expected || m.key in seen || m.version != expected[m.key] || m !in bound { return false; }
      seen := seen + {m.key};
      i := i + 1;
    }
    SizeLists(expected, closure);
    accepted := true;
  }

  /** Every transitive resolved binding is installed at its pinned version, the receipt lists each of them once and
      nothing else, and each listed member's own receipt is bound to this one. */
  ghost predicate Accepts(root: seq<Binding>, installed: Manifests, closure: seq<Member>, bound: set<Member>) {
    && (forall b :: Bound(root, installed, b) && b.resolved ==> Derivable(installed, b))
    && Records(root, installed, closure)
    && forall m :: m in closure ==> m in bound
  }

  method VerifyClosure(root: seq<Binding>, installed: Manifests, closure: seq<Member>, bound: set<Member>)
    returns (accepted: bool)
    ensures accepted <==> Accepts(root, installed, closure, bound)
  {
    var derived := DeriveExpected(root, installed);
    if derived.Err? { return false; }
    accepted := CheckReceipt(derived.value, closure, bound);
    ListsRecords(root, installed, derived.value, closure);
  }

  lemma ListsRecords(root: seq<Binding>, ms: Manifests, expected: map<Key, string>, closure: seq<Member>)
    requires forall k: Key, v: string :: k in expected && expected[k] == v <==>
               Bound(root, ms, Binding(k.kind, k.id, v, true))
    ensures Lists(expected, closure) <==> Records(root, ms, closure)
  {
    forall m: Member
      ensures m.key in expected && m.version == expected[m.key]
              <==> exists b :: Bound(root, ms, b) && b.resolved && m == MemberOf(b)
    {
      var b := Binding(m.key.kind, m.key.id, m.version, true);
      assert m == MemberOf(b);
      forall c | Bound(root, ms, c) && c.resolved && m == MemberOf(c) ensures c == b { }
    }
  }

  // ----- The two computations agree -----

  /** The recorded agents carry the manifests they were installed from; neither side is asked about others. */
  ghost predicate AgentsKept(ms: Manifests, installed: Manifests, members: seq<Member>) {
    forall m :: m in members && m.key.kind == Agent ==>
      m.key in ms && m.key in installed && installed[m.key] == ms[m.key]
  }

  /** The installed package of every recorded member that is not an agent has the version it is recorded at. The
      installer never compares the two: it copies the local tree and records what the registry says. */
  ghost predicate AsRecorded(installed: Manifests, members: seq<Member>) {
    forall m :: m in members && m.key.kind != Agent ==> m.key in installed && installed[m.key].version == m.version
  }

  /** Below a binding of the closure, both sets of manifests bring in the same. */
  lemma SameNext(root: seq<Binding>, ms: Manifests, installed: Manifests, members: seq<Member>, b: Binding)
    requires Records(root, ms, members) && AgentsKept(ms, installed, members) && Bound(root, ms, b)
    ensures Next(ms, b) == Next(installed, b)
  {
    if b.resolved && b.kind == Agent { assert MemberOf(b) in members; }
  }

  lemma SameClosure(root: seq<Binding>, ms: Manifests, installed: Manifests, members: seq<Member>, b: Binding)
    requires Records(root, ms, members) && AgentsKept(ms, installed, members)
    ensures Bound(root, ms, b) <==> Bound(root, installed, b)
  {
    BoundCloses(root, ms);
    forall c | Bound(root, ms, c) ensures Next(ms, c) == Next(installed, c) {
      SameNext(root, ms, installed, members, c);
    }
    forall s | Closed(root, ms, s) && Bound(root, installed, b) ensures b in s {
      assert Closed(root, installed, set c | c in s && Bound(root, ms, c));
    }
    forall s | Closed(root, installed, s) && Bound(root, ms, b) ensures b in s {
      assert Closed(root, ms, set c | c in s && Bound(root, ms, c));
    }
  }

  lemma DerivableExactly(root: seq<Binding>, ms: Manifests, reg: Registry, installed: Manifests, members: seq<Member>)
    requires Installable(root, ms, reg) && Records(root, ms, members) && AgentsKept(ms, installed, members)
    ensures (forall b :: Bound(root, ms, b) && b.resolved ==> Derivable(installed, b)) <==>
              AsRecorded(installed, members)
  {
    forall b | Bound(root, ms, b) && b.resolved && (b.kind == Agent || AsRecorded(installed, members))
      ensures Derivable(installed, b)
    {
      assert MemberOf(b) in members && !Unusable(ms, b);
    }
    if forall b :: Bound(root, ms, b) && b.resolved ==> Derivable(installed, b) {
      forall m | m in members ensures m.key in installed && installed[m.key].version == m.version {
        var b :| Bound(root, ms, b) && b.resolved && m == MemberOf(b);
      }
    }
  }

  lemma RecordedAlike(root: seq<Binding>, ms: Manifests, installed: Manifests, members: seq<Member>,
                      receipt: seq<Member>)
    requires Records(root, ms, members) && forall b :: Bound(root, ms, b) <==> Bound(root, installed, b)
    ensures Records(root, installed, receipt) <==> multiset(receipt) == multiset(members)
  {
    if Records(root, installed, receipt) {
      forall m ensures multiset(receipt)[m] == multiset(members)[m] {
        assert m in receipt <==> m in multiset(receipt);
        assert m in members <==> m in multiset(members);
      }
    }
    if multiset(receipt) == multiset(members) {
      forall m ensures m in receipt <==> m in members {
        assert m in receipt <==> m in multiset(receipt);
        assert m in members <==> m in multiset(members);
      }
    }
  }

  /** From the installed manifests alone, the verifier accepts exactly what the installer recorded of an installable
      closure, and accepts that exactly when every member that is not an agent was installed from a tree of the
      version recorded and each member's own receipt is bound. */
  lemma {:induction false} ProducerConsumerAgree(root: seq<Binding>, ms: Manifests, reg: Registry, installed: Manifests,
                                                 members: seq<Member>, receipt: seq<Member>, bound: set<Member>)
    requires Installable(root, ms, reg) && Records(root, ms, members) && AgentsKept(ms, installed, members)
    ensures Accepts(root, installed, receipt, bound) <==>
              && multiset(receipt) == multiset(members) && AsRecorded(installed, members)
              && forall m :: m in members ==> m in bound
  {
    hide Installable, AgentsKept, AsRecorded, Bound, Records;
    forall b ensures Bound(root, ms, b) <==> Bound(root, installed, b) {
      SameClosure(root, ms, installed, members, b);
    }
    DerivableExactly(root, ms, reg, installed, members);
    RecordedAlike(root, ms, installed, members, receipt);
    if multiset(receipt) == multiset(members) {
      assert forall m :: m in receipt <==> m in multiset(receipt);
      assert forall m :: m in members <==> m in multiset(members);
    }
  }

  /** A skill pinned to the registry's latest release whose local tree has another version is installed and recorded,
      and the record is then refused. */
  lemma StaleTreeRefused(id: string, pinned: string, actual: string, locals: Key -> Local, bound: set<Member>)
    requires pinned != "" && actual != pinned
    ensures var b := Binding(Skill, id, pinned, true);
            var reg := map[KeyOf(b) := Release(pinned, {pinned})];
            var installed := map[KeyOf(b) := Manifest(actual, None)];
            && Installable([b], map[], reg) && Placeable([b], map[], reg, locals, {KeyOf(b)}, {KeyOf(b)})
            && Records([b], map[], [MemberOf(b)]) && AgentsKept(map[], installed, [MemberOf(b)])
            && !Accepts([b], installed, [MemberOf(b)], bound)
  {
    var b := Binding(Skill, id, pinned, true);
    assert Closed([b], map[], {b}) && b in [b];
    forall c ensures Bound([b], map[], c) <==> c == b { }
    assert Bound([b], map[KeyOf(b) := Manifest(actual, None)], b);
  }
}
