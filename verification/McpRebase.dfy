/** Moving an MCP server declaration from a component's root to the plugin's root: the strings change,
    what is launched does not. */
module McpRebase {

  const ROOT := "${PLUGIN_ROOT}"
  const DATA := "${PLUGIN_DATA}"

  // ----- Replacement -----

  /** Every occurrence of a non-empty pattern, from the left, without overlap. */
  function ReplaceAll(v: string, pattern: string, text: string): string
    requires pattern != []
  {
    if v == [] then []
    else if pattern <= v then text + ReplaceAll(v[|pattern|..], pattern, text)
    else [v[0]] + ReplaceAll(v[1..], pattern, text)
  }

  function RebasePlaceholder(v: string, suffix: string): string {
    ReplaceAll(v, ROOT, ROOT + suffix)
  }

  /** The launcher's substitution of both placeholders, in one pass. */
  function Expand(v: string, root: string, data: string): string {
    if v == [] then []
    else if ROOT <= v then root + Expand(v[|ROOT|..], root, data)
    else if DATA <= v then data + Expand(v[|DATA|..], root, data)
    else [v[0]] + Expand(v[1..], root, data)
  }

  lemma {:induction false} ReplaceSkips(t: string, v: string, suffix: string)
    requires '$' !in t
    ensures RebasePlaceholder(t + v, suffix) == t + RebasePlaceholder(v, suffix)
  {
    if t == [] {
      assert t + v == v;
    } else {
      assert (t + v)[0] == t[0] != ROOT[0];
      assert (t + v)[1..] == t[1..] + v;
      ReplaceSkips(t[1..], v, suffix);
    }
  }

  lemma {:induction false} ExpandSkips(t: string, v: string, root: string, data: string)
    requires '$' !in t
    ensures Expand(t + v, root, data) == t + Expand(v, root, data)
  {
    if t == [] {
      assert t + v == v;
    } else {
      assert (t + v)[0] == t[0] && ROOT[0] == DATA[0] == '$';
      assert (t + v)[1..] == t[1..] + v;
      ExpandSkips(t[1..], v, root, data);
    }
  }

  /** Replacement never produces or destroys a prefix free of '$'. */
  lemma {:induction false} PrefixKept(t: string, v: string, suffix: string)
    requires '$' !in t
    ensures t <= RebasePlaceholder(v, suffix) <==> t <= v
  {
    var r := RebasePlaceholder(v, suffix);
    if t != [] && v != [] {
      if ROOT <= v {
        assert r[0] == ROOT[0] == v[0];
      } else {
        assert r[0] == v[0] && r[1..] == RebasePlaceholder(v[1..], suffix);
        PrefixKept(t[1..], v[1..], suffix);
        assert t <= r <==> t[0] == r[0] && t[1..] <= r[1..];
        assert t <= v <==> t[0] == v[0] && t[1..] <= v[1..];
      }
    }
  }

  predicate Comparable(a: string, b: string) {
    a <= b || b <= a
  }

  /** No placeholder begins in the text, not even one that later text might complete. */
  predicate Inert(suffix: string) {
    forall i :: 0 <= i < |suffix| ==> !Comparable(suffix[i..], ROOT) && !Comparable(suffix[i..], DATA)
  }

  lemma DollarFreeIsInert(suffix: string)
    requires '$' !in suffix
    ensures Inert(suffix)
  {
    forall i | 0 <= i < |suffix| ensures !Comparable(suffix[i..], ROOT) && !Comparable(suffix[i..], DATA) {
      assert suffix[i..][0] == suffix[i] && ROOT[0] == DATA[0] == '$';
    }
  }

  lemma {:induction false} InertSkips(t: string, v: string, root: string, data: string)
    requires Inert(t)
    ensures Expand(t + v, root, data) == t + Expand(v, root, data)
  {
    if t == [] {
      assert t + v == v;
    } else {
      assert t[0..] == t && !Comparable(t, ROOT) && !Comparable(t, DATA);
      Apart(t, v, ROOT);
      Apart(t, v, DATA);
      assert (t + v)[1..] == t[1..] + v;
      forall i | 0 <= i < |t[1..]| ensures !Comparable(t[1..][i..], ROOT) && !Comparable(t[1..][i..], DATA) {
        assert t[1..][i..] == t[i + 1..];
      }
      InertSkips(t[1..], v, root, data);
    }
  }

  lemma Apart(t: string, v: string, p: string)
    ensures p <= t + v ==> Comparable(t, p)
  {
    if p <= t + v {
      if |t| <= |p| { assert t == (t + v)[..|t|] == p[..|t|]; } else { assert p == (t + v)[..|p|] == t[..|p|]; }
    }
  }

  lemma RebaseAtRoot(v: string, suffix: string)
    requires ROOT <= v
    ensures var w := RebasePlaceholder(v[|ROOT|..], suffix);
            var r := RebasePlaceholder(v, suffix);
            r == ROOT + (suffix + w) && r[|ROOT|..] == suffix + w
  {
    var w := RebasePlaceholder(v[|ROOT|..], suffix);
    assert RebasePlaceholder(v, suffix) == (ROOT + suffix) + w;
  }

  lemma RebaseAtData(v: string, suffix: string)
    requires DATA <= v
    ensures var r := RebasePlaceholder(v, suffix);
            DATA <= r && !(ROOT <= r) && r[|DATA|..] == RebasePlaceholder(v[|DATA|..], suffix)
  {
    var rest := v[|DATA|..];
    assert v == DATA + rest && v[9] == 'D' && ROOT[9] == 'R';
    assert v[1..] == DATA[1..] + rest;
    ReplaceSkips(DATA[1..], rest, suffix);
    assert RebasePlaceholder(v, suffix) == DATA + RebasePlaceholder(rest, suffix);
  }

  /** Placing the component's path behind every placeholder is the same as launching at the component. */
  lemma {:induction false} ExpandRebased(v: string, suffix: string, root: string, data: string)
    requires Inert(suffix)
    ensures Expand(RebasePlaceholder(v, suffix), root, data) == Expand(v, root + suffix, data)
    decreases |v|
  {
    hide Inert;
    if v == [] {
    } else if ROOT <= v {
      RebaseAtRoot(v, suffix);
      InertSkips(suffix, RebasePlaceholder(v[|ROOT|..], suffix), root, data);
      ExpandRebased(v[|ROOT|..], suffix, root, data);
    } else if DATA <= v {
      RebaseAtData(v, suffix);
      ExpandRebased(v[|DATA|..], suffix, root, data);
    } else {
      NoNewPlaceholder(v, suffix);
      ExpandRebased(v[1..], suffix, root, data);
    }
  }

  lemma NoNewPlaceholder(v: string, suffix: string)
    requires v != [] && !(ROOT <= v) && !(DATA <= v)
    ensures var r := RebasePlaceholder(v, suffix);
            r == [v[0]] + RebasePlaceholder(v[1..], suffix) && !(ROOT <= r) && !(DATA <= r)
  {
    var r := RebasePlaceholder(v, suffix);
    PrefixKept(ROOT[1..], v[1..], suffix);
    PrefixKept(DATA[1..], v[1..], suffix);
    assert r[1..] == RebasePlaceholder(v[1..], suffix);
  }

  lemma {:induction false} Shrinks(x: string)
    ensures |Expand(x, "", "")| <= |x|
  {
    if x == [] {
    } else if ROOT <= x {
      Shrinks(x[|ROOT|..]);
    } else if DATA <= x {
      Shrinks(x[|DATA|..]);
    } else {
      Shrinks(x[1..]);
    }
  }

  lemma {:induction false} ShrinksAt(x: string, i: nat)
    requires i < |x| && (ROOT <= x[i..] || DATA <= x[i..])
    ensures |Expand(x, "", "")| < |x|
  {
    assert x[0..] == x;
    if ROOT <= x {
      Shrinks(x[|ROOT|..]);
    } else if DATA <= x {
      Shrinks(x[|DATA|..]);
    } else {
      assert x[1..][i - 1..] == x[i..];
      ShrinksAt(x[1..], i - 1);
    }
  }

  /** What would complete a placeholder p of which t is the beginning, or which begins t. */
  function Completion(t: string, p: string): string
    requires Comparable(t, p)
  {
    if p <= t then "" else p[|t|..]
  }

  lemma Completes(suffix: string, i: nat, p: string)
    requires i < |suffix| && p in {ROOT, DATA} && Comparable(suffix[i..], p)
    ensures var w := Completion(suffix[i..], p); '$' !in w && p <= (suffix + w)[i..]
  {
    var t := suffix[i..];
    var w := Completion(t, p);
    assert (suffix + w)[i..] == t + w;
    assert forall k :: 1 <= k < |p| ==> p[k] != '$';
  }

  /** A text in which a placeholder begins at i is expanded again, alone or before what completes it. */
  lemma OpenBreaks(suffix: string, i: nat, p: string) returns (v: string)
    requires i < |suffix| && p in {ROOT, DATA} && Comparable(suffix[i..], p)
    ensures Expand(RebasePlaceholder(v, suffix), "", "") != Expand(v, suffix, "")
  {
    var w := Completion(suffix[i..], p);
    Completes(suffix, i, p);
    v := ROOT + w;
    assert v[|ROOT|..] == w && w + "" == w;
    RebaseAtRoot(v, suffix);
    ReplaceSkips(w, "", suffix);
    ShrinksAt(suffix + w, i);
    ExpandSkips(w, "", suffix, "");
    ExpandAtRoot(v, suffix);
    ExpandAtRoot(RebasePlaceholder(v, suffix), "");
  }

  lemma ExpandAtRoot(v: string, root: string)
    requires ROOT <= v
    ensures Expand(v, root, "") == root + Expand(v[|ROOT|..], root, "")
  {
  }

  ghost predicate LaunchesAlike(suffix: string) {
    forall v, root, data :: Expand(RebasePlaceholder(v, suffix), root, data) == Expand(v, root + suffix, data)
  }

  /** Rebasing keeps what every string expands to exactly when no placeholder begins in the component's path. */
  lemma RebaseExactly(suffix: string)
    ensures LaunchesAlike(suffix) <==> Inert(suffix)
  {
    if Inert(suffix) {
      forall v, root, data ensures Expand(RebasePlaceholder(v, suffix), root, data) == Expand(v, root + suffix, data) {
        ExpandRebased(v, suffix, root, data);
      }
    } else {
      var i :| 0 <= i < |suffix| && !(!Comparable(suffix[i..], ROOT) && !Comparable(suffix[i..], DATA));
      var v := OpenBreaks(suffix, i, if Comparable(suffix[i..], ROOT) then ROOT else DATA);
      assert "" + suffix == suffix;
      assert Expand(RebasePlaceholder(v, suffix), "", "") != Expand(v, "" + suffix, "");
    }
  }

  // ----- Servers -----

  datatype Server = Server(command: string, args: seq<string>, env: map<string, string>, cwd: string)

  /** What the runtime starts: a program, its arguments and environment, a directory. */
  datatype Launch = Launch(program: string, args: seq<string>, env: map<string, string>, directory: string)

  /** Launching a server at a root directory, with the plugin's data directory beside. */
  function LaunchAt(s: Server, root: string, data: string): Launch {
    Launch(if "./" <= s.command then root + "/" + s.command[2..] else s.command,
           seq(|s.args|, i requires 0 <= i < |s.args| => Expand(s.args[i], root, data)),
           map k | k in s.env :: Expand(s.env[k], root, data),
           DirectoryAt(s.cwd, root, data))
  }

  function DirectoryAt(cwd: string, root: string, data: string): string {
    if cwd == "" then root
    else if "./" <= cwd then root + "/" + cwd[2..]
    else Expand(cwd, root, data)
  }

  predicate ComponentPath(path: string) {
    "./" <= path && Inert(path[1..])
  }

  function RebasePath(v: string, path: string): string
    requires "./" <= v
  {
    path + "/" + v[2..]
  }

  function RebaseDirectory(cwd: string, path: string): string
    requires "./" <= path
  {
    if cwd == "" then path
    else if "./" <= cwd then RebasePath(cwd, path)
    else RebasePlaceholder(cwd, path[1..])
  }

  function Rebased(s: Server, path: string): Server
    requires "./" <= path
  {
    Server(if "./" <= s.command then RebasePath(s.command, path) else s.command,
           seq(|s.args|, i requires 0 <= i < |s.args| => RebasePlaceholder(s.args[i], path[1..])),
           map k | k in s.env :: RebasePlaceholder(s.env[k], path[1..]),
           RebaseDirectory(s.cwd, path))
  }

  /** The rebased server, launched at the plugin's root, is the original launched at its component's. */
  lemma RebasePreservesLaunch(s: Server, path: string, root: string, data: string)
    requires ComponentPath(path)
    ensures LaunchAt(Rebased(s, path), root, data) == LaunchAt(s, root + path[1..], data)
  {
    var r, at, suffix := Rebased(s, path), root + path[1..], path[1..];
    assert path[1] == '/' && root + "/" + path[2..] == at;
    forall v ensures Expand(RebasePlaceholder(v, suffix), root, data) == Expand(v, at, data) {
      ExpandRebased(v, suffix, root, data);
    }
    if "./" <= s.command { ResolvesAlike(s.command, path, root); }
    DirectoryRebased(s.cwd, path, root, data);
    assert LaunchAt(r, root, data).args == LaunchAt(s, at, data).args;
    assert LaunchAt(r, root, data).env == LaunchAt(s, at, data).env;
  }

  lemma ResolvesAlike(v: string, path: string, root: string)
    requires "./" <= v && "./" <= path
    ensures "./" <= RebasePath(v, path)
    ensures root + "/" + RebasePath(v, path)[2..] == (root + path[1..]) + "/" + v[2..]
  {
  }

  lemma DirectoryRebased(cwd: string, path: string, root: string, data: string)
    requires ComponentPath(path)
    ensures DirectoryAt(RebaseDirectory(cwd, path), root, data) == DirectoryAt(cwd, root + path[1..], data)
  {
    if cwd == "" {
      assert path[1..] == "/" + path[2..];
    } else if "./" <= cwd {
      ResolvesAlike(cwd, path, root);
    } else {
      PrefixKept("./", cwd, path[1..]);
      ExpandRebased(cwd, path[1..], root, data);
    }
  }

  /** The rebasing as it is carried out, field by field. */
  method RebaseServer(s: Server, path: string) returns (r: Server)
    requires "./" <= path
    ensures r == Rebased(s, path)
  {
    r := s;
    if "./" <= r.command { r := r.(command := RebasePath(r.command, path)); }
    if r.cwd == "" { r := r.(cwd := path); } else { r := r.(cwd := RebaseDirectory(r.cwd, path)); }
    var i := 0;
    while i < |r.args|
      invariant i <= |r.args| == |s.args| && r.env == s.env
      invariant r.command == Rebased(s, path).command && r.cwd == Rebased(s, path).cwd
      invariant forall j :: 0 <= j < |s.args| ==>
        r.args[j] == if j < i then RebasePlaceholder(s.args[j], path[1..]) else s.args[j]
    {
      r := r.(args := r.args[i := RebasePlaceholder(r.args[i], path[1..])]);
      i := i + 1;
    }
    var left := s.env.Keys;
    while left != {}
      invariant left <= s.env.Keys == r.env.Keys && r.args == Rebased(s, path).args
      invariant r.command == Rebased(s, path).command && r.cwd == Rebased(s, path).cwd
      invariant forall k :: k in s.env ==>
        r.env[k] == if k in left then s.env[k] else RebasePlaceholder(s.env[k], path[1..])
      decreases left
    {
      var k :| k in left;
      r := r.(env := r.env[k := RebasePlaceholder(r.env[k], path[1..])]);
      left := left - {k};
    }
  }

  // ----- Portable paths -----

  function Segments(v: string): (r: seq<string>)
    ensures r != []
  {
    if v == [] then [[]]
    else if v[0] == '/' then [[]] + Segments(v[1..])
    else [[v[0]] + Segments(v[1..])[0]] + Segments(v[1..])[1..]
  }

  predicate Plain(segment: string) {
    segment != "" && segment != "." && segment != ".."
  }

  predicate AllPlain(segments: seq<string>) {
    forall i :: 0 <= i < |segments| ==> Plain(segments[i])
  }

  /** Paths after "./" that cleaning leaves alone and that do not escape; one leading slash passes. */
  predicate Canonical(v: string) {
    if v != [] && v[0] == '/' then v == "/" || AllPlain(Segments(v[1..])) else AllPlain(Segments(v))
  }

  predicate ValidRelative(v: string) {
    "./" <= v && '\\' !in v && v[2..] != [] && Canonical(v[2..])
  }

  lemma {:induction false} SegmentsJoin(a: string, b: string)
    ensures Segments(a + "/" + b) == Segments(a) + Segments(b)
  {
    if a == [] {
      assert a + "/" + b == "/" + b && ("/" + b)[1..] == b;
    } else {
      assert (a + "/" + b)[0] == a[0] && (a + "/" + b)[1..] == a[1..] + "/" + b;
      SegmentsJoin(a[1..], b);
    }
  }

  /** A valid path under a valid component path stays valid exactly when it has no doubled slash at its
      start, which the check on the original lets pass. */
  lemma RebasedPathValid(v: string, path: string)
    requires ValidRelative(v) && ValidRelative(path) && path[2] != '/'
    ensures ValidRelative(RebasePath(v, path)) <==> v[2] != '/'
  {
    var a, b := path[2..], v[2..];
    var r := RebasePath(v, path);
    assert r[2..] == a + "/" + b && r[2] == path[2];
    SegmentsJoin(a, b);
    assert '\\' !in r;
    var n := |Segments(a)|;
    if b[0] == '/' {
      assert Segments(b)[0] == [];
      assert (Segments(a) + Segments(b))[n] == [];
    }
  }
}
