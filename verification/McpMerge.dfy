/** Which server declarations may be moved at all, and merging the moved ones into one configuration: every
    declaration is screened before and after its move, and no name may be declared twice. */
module McpMerge {
  import opened McpRebase

  // ----- Portable servers -----

  /** A command is a path below the component's root or a bare name. */
  predicate PortableCommand(v: string) {
    if "./" <= v then ValidRelative(v) else v != "" && forall i :: 0 <= i < |v| ==> v[i] !in "/\\\0 \t\r\n"
  }

  predicate PortableDirectory(v: string) {
    if v == ROOT then true
    else if ROOT + "/" <= v then ValidRelative("./" + v[|ROOT| + 1..])
    else if v == DATA then true
    else if DATA + "/" <= v then ValidRelative("./" + v[|DATA| + 1..])
    else ValidRelative(v)
  }

  predicate Portable(s: Server) {
    && PortableCommand(s.command) && (s.cwd == "" || PortableDirectory(s.cwd))
    && "PLUGIN_ROOT" !in s.env && "PLUGIN_DATA" !in s.env
  }

  /** A slash right after the prefix that makes a command or a directory relative to the component. */
  predicate Doubled(s: Server) {
    ".//" <= s.command || ".//" <= s.cwd || ROOT + "//" <= s.cwd
  }

  // ----- Component paths -----

  predicate IdChar(c: char) {
    'a' <= c <= 'z' || '0' <= c <= '9' || c == '-'
  }

  predicate IdPart(v: string) {
    v != "" && forall i :: 0 <= i < |v| ==> IdChar(v[i])
  }

  /** A component's identifier: two parts with a slash between them. */
  datatype PackageId = PackageId(owner: string, name: string)

  predicate Admitted(id: PackageId) {
    IdPart(id.owner) && IdPart(id.name)
  }

  function Above(id: PackageId): string {
    "bundled" + "/" + ("tools-mcp" + "/" + id.owner)
  }

  /** Where the dependency lock makes a component lie. */
  function PathOf(id: PackageId): string {
    "./" + (Above(id) + "/" + id.name)
  }

  lemma {:induction false} PartPlain(v: string)
    requires forall i :: 0 <= i < |v| ==> IdChar(v[i])
    ensures Segments(v) == [v] && '/' !in v && '$' !in v && '\\' !in v && '.' !in v
  {
    if v != [] {
      assert v == [v[0]] + v[1..];
      PartPlain(v[1..]);
    }
  }

  lemma PartAllPlain(v: string)
    requires IdPart(v)
    ensures AllPlain(Segments(v))
  {
    PartPlain(v);
  }

  lemma AbovePlain(id: PackageId)
    requires Admitted(id)
    ensures AllPlain(Segments(Above(id)))
  {
    hide Segments, AllPlain;
    PartAllPlain(id.owner);
    PartAllPlain("bundled");
    PartAllPlain("tools-mcp");
    PlainJoin("tools-mcp", id.owner);
    PlainJoin("bundled", "tools-mcp" + "/" + id.owner);
  }

  lemma AboveChars(id: PackageId)
    requires Admitted(id)
    ensures '$' !in Above(id) && '\\' !in Above(id) && Above(id)[0] == 'b'
  {
    PartPlain(id.owner);
  }

  lemma PathShape(id: PackageId)
    ensures var v, path := Above(id) + "/" + id.name, PathOf(id);
            "./" <= path && path[1..] == "/" + v && path[2..] == v && path == "./" + v
  {
    hide Above;
  }

  /** Every path the lock admits is canonical and free of placeholders. */
  lemma AdmittedPath(id: PackageId)
    requires Admitted(id)
    ensures ComponentPath(PathOf(id)) && ValidRelative(PathOf(id)) && PathOf(id)[2] != '/'
  {
    AbovePlain(id);
    AboveChars(id);
    PartPlain(id.name);
    PlainJoin(Above(id), id.name);
    PathShape(id);
    hide Above, Segments, PathOf, Inert, AllPlain, Admitted;
    assert PathOf(id)[2] == Above(id)[0];
    DollarFreeIsInert(PathOf(id)[1..]);
  }

  /** So every server of an accepted plugin, rebased and launched at the plugin's root, is the original
      launched at its component's. */
  lemma AdmittedLaunch(id: PackageId, s: Server, root: string, data: string)
    requires Admitted(id)
    ensures LaunchAt(Rebased(s, PathOf(id)), root, data) == LaunchAt(s, root + PathOf(id)[1..], data)
  {
    AdmittedPath(id);
    RebasePreservesLaunch(s, PathOf(id), root, data);
  }

  // ----- What rebasing does to portability -----

  lemma {:induction false} SegmentsHead(a: string, y: string)
    requires '/' !in a
    ensures Segments(a + y) == [a + Segments(y)[0]] + Segments(y)[1..]
  {
    if a == [] {
      assert a + y == y && [] + Segments(y)[0] == Segments(y)[0];
    } else {
      assert (a + y)[0] == a[0] && (a + y)[1..] == a[1..] + y;
      SegmentsHead(a[1..], y);
      assert [a[0]] + (a[1..] + Segments(y)[0]) == a + Segments(y)[0];
    }
  }

  /** A plain segment may take the place of the beginning of a first one. */
  lemma SwapHead(a: string, b: string, y: string)
    requires '/' !in a && '/' !in b && Plain(b) && AllPlain(Segments(a + y))
    ensures AllPlain(Segments(b + y))
  {
    SegmentsHead(a, y);
    SegmentsHead(b, y);
    var h := Segments(y)[0];
    assert (b + h)[0] == b[0] && (|b| > 1 ==> (b + h)[1] == b[1]);
    forall i | 0 <= i < |Segments(b + y)| ensures Plain(Segments(b + y)[i]) {
      if i > 0 { assert Segments(b + y)[i] == Segments(a + y)[i]; }
    }
  }

  lemma PlainJoin(a: string, b: string)
    ensures AllPlain(Segments(a + "/" + b)) <==> AllPlain(Segments(a)) && AllPlain(Segments(b))
  {
    SegmentsJoin(a, b);
    var s, t := Segments(a), Segments(b);
    if AllPlain(s + t) {
      assert forall i :: 0 <= i < |s| ==> s[i] == (s + t)[i];
      assert forall i :: 0 <= i < |t| ==> t[i] == (s + t)[|s| + i];
    }
  }

  lemma {:induction false} SlashFree(v: string)
    requires '/' !in v
    ensures Segments(v) == [v]
  {
    assert v + "" == v;
    SegmentsHead(v, "");
  }

  /** Putting the component's path behind placeholders inside a plain path keeps it plain. */
  lemma {:induction false} RebaseKeepsPlain(o: string, x: string, id: PackageId)
    requires Admitted(id) && '/' !in o && AllPlain(Segments(o + x))
    ensures AllPlain(Segments(o + RebasePlaceholder(x, PathOf(id)[1..])))
    decreases |x|
  {
    hide Above, IdPart, AllPlain, Segments;
    if x == [] {
    } else if ROOT <= x {
      var y := x[|ROOT|..];
      NameIsPlain(id);
      assert o + x == (o + ROOT) + y;
      RootPlain(o);
      SwapHead(o + ROOT, id.name, y);
      RebaseKeepsPlain(id.name, y, id);
      BehindRoot(o, x, id);
    } else if x[0] == '/' {
      AcrossSlash(o, x);
      RebaseKeepsPlain("", x[1..], id);
      BehindSlash(o, x, id);
    } else {
      assert o + x == (o + [x[0]]) + x[1..];
      RebaseKeepsPlain(o + [x[0]], x[1..], id);
      var suffix := PathOf(id)[1..];
      assert o + RebasePlaceholder(x, suffix) == (o + [x[0]]) + RebasePlaceholder(x[1..], suffix);
    }
  }

  lemma BehindRoot(o: string, x: string, id: PackageId)
    requires Admitted(id) && '/' !in o && ROOT <= x
    requires AllPlain(Segments(id.name + RebasePlaceholder(x[|ROOT|..], PathOf(id)[1..])))
    ensures AllPlain(Segments(o + RebasePlaceholder(x, PathOf(id)[1..])))
  {
    var suffix := PathOf(id)[1..];
    var w := RebasePlaceholder(x[|ROOT|..], suffix);
    RebaseAtRoot(x, suffix);
    RootPlain(o);
    AbovePlain(id);
    PlainJoin(Above(id), id.name + w);
    PlainJoin(o + ROOT, Above(id) + "/" + (id.name + w));
    Regroup(o, id, w);
  }

  lemma AcrossSlash(o: string, x: string)
    requires x != [] && x[0] == '/' && AllPlain(Segments(o + x))
    ensures AllPlain(Segments("" + x[1..])) && AllPlain(Segments(o))
  {
    assert o + x == o + "/" + x[1..] && "" + x[1..] == x[1..];
    PlainJoin(o, x[1..]);
  }

  lemma BehindSlash(o: string, x: string, id: PackageId)
    requires x != [] && x[0] == '/' && AllPlain(Segments(o))
    requires AllPlain(Segments("" + RebasePlaceholder(x[1..], PathOf(id)[1..])))
    ensures AllPlain(Segments(o + RebasePlaceholder(x, PathOf(id)[1..])))
  {
    var suffix := PathOf(id)[1..];
    var w := RebasePlaceholder(x[1..], suffix);
    assert x == "/" + x[1..] && "" + w == w;
    RebaseSlash(x[1..], suffix);
    PlainJoin(o, w);
    assert o + RebasePlaceholder(x, suffix) == o + "/" + w;
  }

  lemma NameIsPlain(id: PackageId)
    requires Admitted(id)
    ensures '/' !in id.name && Plain(id.name)
  {
    PartPlain(id.name);
  }

  lemma RootPlain(o: string)
    requires '/' !in o
    ensures '/' !in o + ROOT && AllPlain(Segments(o + ROOT))
  {
    SlashFree(o + ROOT);
  }

  lemma Regroup(o: string, id: PackageId, w: string)
    ensures o + (ROOT + (PathOf(id)[1..] + w)) == (o + ROOT) + "/" + (Above(id) + "/" + (id.name + w))
  {
    assert PathOf(id)[1..] == "/" + (Above(id) + "/" + id.name);
  }

  lemma {:induction false} RebaseChars(v: string, suffix: string, c: char)
    requires c !in suffix
    ensures c in RebasePlaceholder(v, suffix) <==> c in v
  {
    if v == [] {
    } else if ROOT <= v {
      RebaseAtRoot(v, suffix);
      RebaseChars(v[|ROOT|..], suffix, c);
      assert v == ROOT + v[|ROOT|..];
    } else {
      RebaseChars(v[1..], suffix, c);
      assert v == [v[0]] + v[1..];
    }
  }

  /** Rebasing below a prefix that stays keeps a path valid, doubled slash included. */
  lemma RebasedBelow(x: string, id: PackageId)
    requires Admitted(id) && ValidRelative("./" + x)
    ensures ValidRelative("./" + RebasePlaceholder(x, PathOf(id)[1..]))
  {
    var suffix := PathOf(id)[1..];
    var r := RebasePlaceholder(x, suffix);
    AboveChars(id);
    NameIsPlain(id);
    PartPlain(id.name);
    RebaseChars(x, suffix, '\\');
    assert ("./" + x)[2..] == x && ("./" + r)[2..] == r;
    if x[0] == '/' {
      var y := x[1..];
      assert r == "/" + RebasePlaceholder(y, suffix) && r[1..] == RebasePlaceholder(y, suffix);
      if y != [] {
        assert "" + y == y && "" + r[1..] == r[1..];
        RebaseKeepsPlain("", y, id);
      }
    } else {
      assert "" + x == x && "" + r == r;
      RebaseKeepsPlain("", x, id);
      FirstNotSlash(r);
    }
  }

  lemma FirstNotSlash(r: string)
    requires AllPlain(Segments(r))
    ensures r != [] && r[0] != '/'
  {
    assert Plain(Segments(r)[0]);
  }

  /** Rebasing at the root puts the component's path in front, where a doubled slash is no longer valid. */
  lemma RebasedAtRoot(x: string, id: PackageId)
    requires Admitted(id) && ValidRelative("./" + x)
    ensures var w := RebasePlaceholder(x, PathOf(id)[1..]);
            ValidRelative("./" + (Above(id) + "/" + (id.name + "/" + w))) <==> x[0] != '/'
  {
    var w := RebasePlaceholder(x, PathOf(id)[1..]);
    var v := Above(id) + "/" + (id.name + "/" + w);
    RebasedBelow(x, id);
    AbovePlain(id);
    AboveChars(id);
    PartPlain(id.name);
    PlainJoin(Above(id), id.name + "/" + w);
    PlainJoin(id.name, w);
    hide Above, Segments, RebasePlaceholder;
    assert ("./" + v)[2..] == v && ("./" + w)[2..] == w && ("./" + x)[2..] == x;
    FirstKept(x, PathOf(id)[1..]);
    if x[0] == '/' {
      LeadingSlash(w);
    }
  }

  lemma FirstKept(x: string, suffix: string)
    requires x != []
    ensures var w := RebasePlaceholder(x, suffix); w != [] && w[0] == x[0]
  {
    if ROOT <= x { RebaseAtRoot(x, suffix); }
  }

  lemma LeadingSlash(w: string)
    requires w != [] && w[0] == '/'
    ensures !AllPlain(Segments(w))
  {
    assert Segments(w)[0] == [];
  }

  lemma AtDot(v: string)
    requires "./" <= v
    ensures PortableDirectory(v) <==> ValidRelative(v)
    ensures !(ROOT <= v) && !(DATA <= v)
  {
    assert v[0] == '.' && ROOT[0] == DATA[0] == '$';
  }

  lemma AtRoot(v: string, x: string)
    requires v == ROOT + ("/" + x)
    ensures PortableDirectory(v) <==> ValidRelative("./" + x)
    ensures ROOT + "//" <= v <==> "/" <= x
    ensures !("./" <= v)
  {
    assert v[0] == '$' && v[|ROOT|] == '/' && v[|ROOT| + 1..] == x;
    assert v[..|ROOT| + 1] == ROOT + "/";
  }

  lemma AtData(v: string, x: string)
    requires v == DATA + ("/" + x)
    ensures PortableDirectory(v) <==> ValidRelative("./" + x)
    ensures !(ROOT <= v) && !("./" <= v)
  {
    assert v[0] == '$' && v[9] == 'D' && ROOT[9] == 'R';
    assert v[|DATA|] == '/' && v[|DATA| + 1..] == x;
    assert v[..|DATA| + 1] == DATA + "/";
  }

  /** A portable directory is below the component, or is or is below one of the two placeholders. */
  lemma DirectoryShapes(v: string)
    requires PortableDirectory(v)
    ensures "./" <= v || v == ROOT || v == DATA
            || (ROOT + "/" <= v && v == ROOT + ("/" + v[|ROOT| + 1..]))
            || (DATA + "/" <= v && v == DATA + ("/" + v[|DATA| + 1..]))
  {
    Below(v, ROOT);
    Below(v, DATA);
  }

  lemma Below(v: string, p: string)
    ensures p + "/" <= v ==> |p| + 1 <= |v| && v == p + ("/" + v[|p| + 1..])
  {
    if p + "/" <= v { assert v == (p + "/") + v[|p| + 1..]; }
  }

  lemma RebasedDirectory(cwd: string, id: PackageId)
    requires Admitted(id) && (cwd == "" || PortableDirectory(cwd))
    ensures PortableDirectory(RebaseDirectory(cwd, PathOf(id))) <==> !(".//" <= cwd) && !(ROOT + "//" <= cwd)
  {
    hide PortableDirectory, ValidRelative, Above, RebasePlaceholder;
    var path := PathOf(id);
    AdmittedPath(id);
    AtDot(path);
    if cwd == "" {
    } else if "./" <= cwd {
      AtDot(cwd);
      AtDot(RebasePath(cwd, path));
      DotRebased(cwd, id);
    } else {
      DirectoryShapes(cwd);
      if ROOT <= cwd { DirectoryAtRoot(cwd, id); } else { DirectoryAtData(cwd, id); }
    }
  }

  lemma DotRebased(v: string, id: PackageId)
    requires Admitted(id) && ValidRelative(v)
    ensures ValidRelative(RebasePath(v, PathOf(id))) <==> !(".//" <= v)
    ensures !(ROOT + "//" <= v)
  {
    AdmittedPath(id);
    RebasedPathValid(v, PathOf(id));
    assert v[..2] == "./" && (".//" <= v <==> v[2] == '/');
    assert v[0] == '.' && (ROOT + "//")[0] == '$';
  }

  lemma DirectoryAtRoot(cwd: string, id: PackageId)
    requires Admitted(id) && PortableDirectory(cwd) && ROOT <= cwd
    ensures PortableDirectory(RebasePlaceholder(cwd, PathOf(id)[1..])) <==> !(ROOT + "//" <= cwd)
  {
    hide PortableDirectory, ValidRelative, Above, RebasePlaceholder;
    var path := PathOf(id);
    var suffix, below := path[1..], Above(id) + "/" + id.name;
    var r := RebasePlaceholder(cwd, suffix);
    AdmittedPath(id);
    RebaseAtRoot(cwd, suffix);
    DirectoryShapes(cwd);
    assert suffix == "/" + below && path == "./" + below;
    assert cwd[0] == ROOT[0] == '$' && cwd[9] == ROOT[9] == 'R' && DATA[9] == 'D' && (DATA + "/")[9] == 'D';
    if cwd == ROOT {
      RebaseEmpty(suffix);
      assert r == ROOT + ("/" + below);
      AtRoot(r, below);
    } else {
      var x := cwd[|ROOT| + 1..];
      var w := RebasePlaceholder(x, suffix);
      AtRoot(cwd, x);
      assert cwd[|ROOT|..] == "/" + x;
      RebaseSlash(x, suffix);
      var v := Above(id) + "/" + (id.name + "/" + w);
      assert suffix + ("/" + w) == "/" + v;
      AtRoot(r, v);
      RebasedAtRoot(x, id);
      NotEmpty(x);
      assert "/" <= x <==> x[0] == '/';
    }
  }

  lemma NotEmpty(x: string)
    requires ValidRelative("./" + x)
    ensures x != []
  {
    assert ("./" + x)[2..] == x;
  }

  lemma RebaseEmpty(suffix: string)
    ensures RebasePlaceholder("", suffix) == ""
    ensures ROOT[|ROOT|..] == "" && DATA[|DATA|..] == ""
  {
  }

  lemma RebaseSlash(x: string, suffix: string)
    ensures RebasePlaceholder("/" + x, suffix) == "/" + RebasePlaceholder(x, suffix)
  {
    assert ("/" + x)[1..] == x && ROOT[0] == '$';
  }

  lemma DirectoryAtData(cwd: string, id: PackageId)
    requires Admitted(id) && PortableDirectory(cwd) && DATA <= cwd
    ensures PortableDirectory(RebasePlaceholder(cwd, PathOf(id)[1..])) && !(ROOT + "//" <= cwd)
  {
    hide PortableDirectory, ValidRelative, RebasePlaceholder;
    var suffix := PathOf(id)[1..];
    var r := RebasePlaceholder(cwd, suffix);
    RebaseAtData(cwd, suffix);
    DirectoryShapes(cwd);
    assert cwd[0] == DATA[0] == '$' && cwd[9] == DATA[9] == 'D'
           && ROOT[9] == (ROOT + "/")[9] == (ROOT + "//")[9] == 'R';
    if cwd == DATA {
      RebaseEmpty(suffix);
      assert r == DATA;
    } else {
      var x := cwd[|DATA| + 1..];
      AtData(cwd, x);
      assert cwd[|DATA|..] == "/" + x;
      RebaseSlash(x, suffix);
      var w := RebasePlaceholder(x, suffix);
      assert r == r[..|DATA|] + r[|DATA|..] == DATA + ("/" + w);
      AtData(r, w);
      RebasedBelow(x, id);
    }
  }

  /** A portable server stays portable exactly when neither its command nor its directory has a slash right
      after the prefix that makes it relative. */
  lemma RebasedPortable(s: Server, id: PackageId)
    requires Admitted(id) && Portable(s)
    ensures Portable(Rebased(s, PathOf(id))) <==> !Doubled(s)
  {
    RebasedDirectory(s.cwd, id);
    AdmittedPath(id);
    if "./" <= s.command { DotRebased(s.command, id); }
    assert RebaseDirectory(s.cwd, PathOf(id)) != "" by { DirectoryNotEmpty(s.cwd, id); }
  }

  lemma DirectoryNotEmpty(cwd: string, id: PackageId)
    requires Admitted(id)
    ensures RebaseDirectory(cwd, PathOf(id)) != ""
  {
    if cwd != "" && !("./" <= cwd) { FirstKept(cwd, PathOf(id)[1..]); }
  }

  // ----- Merging -----

  /** A server reached over the network is kept as it is; whether its endpoint may be declared is given. */
  datatype Declaration = Stdio(server: Server) | Remote(raw: string, permitted: bool)

  datatype Component = Component(id: PackageId, servers: map<string, Declaration>)

  datatype Merge<V> = Merged(servers: map<string, V>) | Refused

  predicate Acceptable(d: Declaration) {
    match d case Stdio(s) => Portable(s) case Remote(_, permitted) => permitted
  }

  function Moved(d: Declaration, id: PackageId): Declaration {
    match d case Stdio(s) => Stdio(Rebased(s, PathOf(id))) case Remote(_, _) => d
  }

  /** Acceptable before the move, and without the doubled slash that would spoil it. */
  predicate Movable(d: Declaration) {
    Acceptable(d) && (d.Stdio? ==> !Doubled(d.server))
  }

  lemma MovableExactly(d: Declaration, id: PackageId)
    requires Admitted(id)
    ensures Movable(d) <==> Acceptable(d) && Acceptable(Moved(d, id))
  {
    if d.Stdio? && Portable(d.server) { RebasedPortable(d.server, id); }
  }

  ghost predicate Disjoint<V>(ms: seq<map<string, V>>) {
    forall i, j :: 0 <= i < j < |ms| ==> ms[i].Keys !! ms[j].Keys
  }

  /** m holds exactly what the maps hold. */
  ghost predicate UnionOf<V>(ms: seq<map<string, V>>, m: map<string, V>) {
    && (forall k :: k in m ==> exists i :: 0 <= i < |ms| && k in ms[i])
    && (forall i, k :: 0 <= i < |ms| && k in ms[i] ==> k in m && m[k] == ms[i][k])
  }

  lemma DisjointNext<V>(ms: seq<map<string, V>>, c: map<string, V>, m: map<string, V>)
    requires Disjoint(ms) && UnionOf(ms, m)
    ensures m.Keys !! c.Keys <==> Disjoint(ms + [c])
  {
    var all := ms + [c];
    if m.Keys !! c.Keys {
      forall i, j | 0 <= i < j < |all| ensures all[i].Keys !! all[j].Keys {
        if j < |ms| { assert all[i] == ms[i] && all[j] == ms[j]; }
        else { forall k | k in ms[i] ensures k !in c { assert k in m; } }
      }
    } else {
      var k :| k in m && k in c;
      var i :| 0 <= i < |ms| && k in ms[i];
      assert all[i] == ms[i] && all[|ms|] == c && !(all[i].Keys !! all[|ms|].Keys);
    }
  }

  lemma UnionNext<V>(ms: seq<map<string, V>>, c: map<string, V>, m: map<string, V>)
    requires UnionOf(ms, m) && m.Keys !! c.Keys
    ensures UnionOf(ms + [c], m + c)
  {
    var all := ms + [c];
    forall k | k in m + c ensures exists i :: 0 <= i < |all| && k in all[i] {
      if k in c { assert all[|ms|] == c; }
      else {
        var i :| 0 <= i < |ms| && k in ms[i];
        assert all[i] == ms[i];
      }
    }
  }

  /** m holds a component's declarations, moved, under their names. */
  ghost predicate IsMoved(c: Component, m: map<string, Declaration>) {
    m.Keys == c.servers.Keys && forall k :: k in m ==> m[k] == Moved(c.servers[k], c.id)
  }

  ghost predicate AllMovable(c: Component) {
    forall k :: k in c.servers ==> Movable(c.servers[k])
  }

  method Screen(servers: map<string, Declaration>) returns (ok: bool)
    ensures ok <==> forall k :: k in servers ==> Acceptable(servers[k])
  {
    hide Acceptable;
    var left := servers.Keys;
    while left != {}
      invariant left <= servers.Keys && forall k :: k in servers && k !in left ==> Acceptable(servers[k])
      decreases left
    {
      var name :| name in left;
      if !Acceptable(servers[name]) { return false; }
      left := left - {name};
    }
    ok := true;
  }

  method Move(d: Declaration, id: PackageId) returns (r: Declaration)
    requires Admitted(id)
    ensures r == Moved(d, id)
  {
    r := d;
    if d.Stdio? {
      var s := RebaseServer(d.server, PathOf(id));
      r := Stdio(s);
    }
  }

  /** Screens a component's declarations, then moves each and screens it again. */
  method MoveComponent(c: Component) returns (m: Merge<Declaration>)
    requires Admitted(c.id)
    ensures m.Merged? <==> AllMovable(c)
    ensures m.Merged? ==> IsMoved(c, m.servers)
  {
    hide Movable, Acceptable, Moved;
    forall k | k in c.servers
      ensures Movable(c.servers[k]) <==> Acceptable(c.servers[k]) && Acceptable(Moved(c.servers[k], c.id))
    {
      MovableExactly(c.servers[k], c.id);
    }
    var screened := Screen(c.servers);
    if !screened { return Refused; }
    var moved: map<string, Declaration> := map[];
    var left := c.servers.Keys;
    while left != {}
      invariant left <= c.servers.Keys && moved.Keys == c.servers.Keys - left
      invariant forall k :: k in moved ==> moved[k] == Moved(c.servers[k], c.id) && Movable(c.servers[k])
      decreases left
    {
      var name :| name in left;
      var d := Move(c.servers[name], c.id);
      if !Acceptable(d) { return Refused; }
      moved := moved[name := d];
      left := left - {name};
    }
    m := Merged(moved);
  }

  /** Adds one component's servers, stopping at the first name that is taken. */
  method AddServers<V>(servers: map<string, V>, added: map<string, V>) returns (m: Merge<V>)
    ensures m.Merged? <==> servers.Keys !! added.Keys
    ensures m.Merged? ==> m.servers == servers + added
  {
    var left := added.Keys;
    var merged := servers;
    while left != {}
      invariant left <= added.Keys && servers.Keys !! (added.Keys - left)
      invariant merged == servers + (added - left)
      decreases left
    {
      var name :| name in left;
      if name in merged { return Refused; }
      Grow(servers, added, left, name);
      merged := merged[name := added[name]];
      left := left - {name};
    }
    assert added - left == added;
    m := Merged(merged);
  }

  lemma Grow<V>(servers: map<string, V>, target: map<string, V>, left: set<string>, name: string)
    requires name in left && name in target && name !in servers
    ensures (servers + (target - left))[name := target[name]] == servers + (target - (left - {name}))
  {
  }

  ghost predicate Merging<V>(all: seq<map<string, V>>, i: nat, servers: map<string, V>) {
    i <= |all| && Disjoint(all[..i]) && UnionOf(all[..i], servers)
  }

  lemma MergeNext<V>(all: seq<map<string, V>>, i: nat, servers: map<string, V>)
    requires i < |all| && Merging(all, i, servers)
    ensures if servers.Keys !! all[i].Keys then Merging(all, i + 1, servers + all[i]) else !Disjoint(all)
  {
    assert all[..i + 1] == all[..i] + [all[i]];
    DisjointNext(all[..i], all[i], servers);
    if servers.Keys !! all[i].Keys { UnionNext(all[..i], all[i], servers); } else { Overlap(all, i + 1); }
  }

  method AddNext<V>(ghost all: seq<map<string, V>>, ghost i: nat, servers: map<string, V>, added: map<string, V>)
    returns (m: Merge<V>)
    requires i < |all| && Merging(all, i, servers) && added == all[i]
    ensures if m.Merged? then Merging(all, i + 1, m.servers) else !Disjoint(all)
  {
    MergeNext(all, i, servers);
    m := AddServers(servers, added);
  }

  lemma MergingEnds<V>(all: seq<map<string, V>>, servers: map<string, V>)
    ensures Merging(all, 0, map[])
    ensures Merging(all, |all|, servers) ==> Disjoint(all) && UnionOf(all, servers)
  {
  }

  /** Merges already rebased servers, component by component. */
  method MergeAll<V>(all: seq<map<string, V>>) returns (m: Merge<V>)
    ensures m.Merged? <==> Disjoint(all)
    ensures m.Merged? ==> UnionOf(all, m.servers)
  {
    m := Merged(map[]);
    MergingEnds(all, map[]);
    var i := 0;
    while m.Merged? && i < |all|
      invariant i <= |all|
      invariant if m.Merged? then Merging(all, i, m.servers) else !Disjoint(all)
    {
      m := AddNext(all, i, m.servers, all[i]);
      i := i + 1;
    }
    if m.Merged? { MergingEnds(all, m.servers); }
  }

  ghost predicate Located(components: seq<Component>) {
    forall i :: 0 <= i < |components| ==> Admitted(components[i].id)
  }

  ghost predicate EachMovable(components: seq<Component>) {
    forall i :: 0 <= i < |components| ==> AllMovable(components[i])
  }

  method MoveComponents(components: seq<Component>) returns (ok: bool, all: seq<map<string, Declaration>>)
    requires Located(components)
    ensures ok <==> EachMovable(components)
    ensures ok ==> |all| == |components| && forall i :: 0 <= i < |all| ==> IsMoved(components[i], all[i])
  {
    hide AllMovable, IsMoved;
    all := [];
    while |all| < |components|
      invariant |all| <= |components|
      invariant forall i :: 0 <= i < |all| ==> AllMovable(components[i]) && IsMoved(components[i], all[i])
    {
      var moved := MoveComponent(components[|all|]);
      if moved.Refused? { return false, all; }
      all := all + [moved.servers];
    }
    ok := true;
  }

  /** The components' declarations under one roof: all of them, moved, and nothing else. */
  ghost predicate MergedFrom(components: seq<Component>, servers: map<string, Declaration>) {
    && (forall name :: name in servers ==> exists i :: 0 <= i < |components| && name in components[i].servers)
    && (forall i, name :: 0 <= i < |components| && name in components[i].servers ==>
          && name in servers
          && servers[name] == Moved(components[i].servers[name], components[i].id))
  }

  ghost predicate NamesDisjoint(components: seq<Component>) {
    forall i, j :: 0 <= i < j < |components| ==> components[i].servers.Keys !! components[j].servers.Keys
  }

  /** Moves and merges the components' servers into one configuration at the plugin's root; it fails exactly
      when two components declare the same name, or a declaration is not acceptable, or it has the doubled
      slash that makes it unacceptable once moved. */
  method MergeServers(components: seq<Component>) returns (m: Merge<Declaration>)
    requires Located(components)
    ensures m.Merged? <==> NamesDisjoint(components) && EachMovable(components)
    ensures m.Merged? ==> MergedFrom(components, m.servers)
  {
    var movable, all := MoveComponents(components);
    if !movable { return Refused; }
    m := MergeAll(all);
    SameNames(components, all);
    if m.Merged? { UnionIsMerged(components, all, m.servers); }
  }

  /** A command that is valid where it stands and refused once moved. */
  lemma DoubledSlashRefused(s: Server, id: PackageId, x: string)
    requires Admitted(id) && Portable(s) && s.command == ".//" + x
    ensures !Movable(Stdio(s)) && !Portable(Rebased(s, PathOf(id)))
  {
    RebasedPortable(s, id);
  }

  lemma DoubledSlashPasses()
    ensures Portable(Server(".//run", [], map[], ""))
  {
    var v := ".//run";
    assert v[2..] == "/run" && v[2..][1..] == "run";
    PartAllPlain("run");
  }

  lemma SameNames(components: seq<Component>, all: seq<map<string, Declaration>>)
    requires Located(components) && |all| == |components|
    requires forall i :: 0 <= i < |all| ==> IsMoved(components[i], all[i])
    ensures Disjoint(all) <==> NamesDisjoint(components)
  {
  }

  lemma UnionIsMerged(components: seq<Component>, all: seq<map<string, Declaration>>, servers: map<string, Declaration>)
    requires Located(components) && |all| == |components| && UnionOf(all, servers)
    requires forall i :: 0 <= i < |all| ==> IsMoved(components[i], all[i])
    ensures MergedFrom(components, servers)
  {
  }

  lemma Overlap<V>(ms: seq<map<string, V>>, n: nat)
    requires n <= |ms| && !Disjoint(ms[..n])
    ensures !Disjoint(ms)
  {
  }

  /** The outcome does not depend on the order of the components. */
  lemma MergePermutes(a: seq<Component>, b: seq<Component>, m: map<string, Declaration>, n: map<string, Declaration>)
    requires multiset(a) == multiset(b) && Located(a) && Located(b)
    requires MergedFrom(a, m) && MergedFrom(b, n)
    ensures m == n
  {
    MergeWithin(a, b, m, n);
    MergeWithin(b, a, n, m);
  }

  lemma MergeWithin(a: seq<Component>, b: seq<Component>, m: map<string, Declaration>, n: map<string, Declaration>)
    requires multiset(a) == multiset(b) && Located(a) && Located(b)
    requires MergedFrom(a, m) && MergedFrom(b, n)
    ensures forall k :: k in m ==> k in n && m[k] == n[k]
  {
    forall k | k in m ensures k in n && m[k] == n[k] {
      var c := Declares(a, m, k);
      assert c in multiset(a);
      ValueAt(a, m, c, k);
      ValueAt(b, n, c, k);
    }
  }

  lemma Declares(a: seq<Component>, m: map<string, Declaration>, k: string) returns (c: Component)
    requires Located(a) && MergedFrom(a, m) && k in m
    ensures c in a && k in c.servers
  {
    var i :| 0 <= i < |a| && k in a[i].servers;
    c := a[i];
  }

  lemma ValueAt(a: seq<Component>, m: map<string, Declaration>, c: Component, k: string)
    requires Located(a) && MergedFrom(a, m) && c in a && k in c.servers
    ensures k in m && m[k] == Moved(c.servers[k], c.id)
  {
  }
}
