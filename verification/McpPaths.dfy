/** What a canonical path is, by the cleaning it must survive unchanged, and that servers which are accepted for
    moving are launched inside their component. */
module McpPaths {
  import opened McpRebase
  import opened McpMerge

  // ----- Cleaning -----

  /** One segment of a path, after those on the stack: empty ones and dots are dropped, and two dots take back a
      name, or stand for themselves when there is none to take back; above the root there is nothing. */
  function Push(stack: seq<string>, rooted: bool, segment: string): seq<string> {
    if segment == "" || segment == "." then stack
    else if segment != ".." then stack + [segment]
    else if stack != [] && stack[|stack| - 1] != ".." then stack[..|stack| - 1]
    else if rooted then stack
    else stack + [segment]
  }

  function Walk(stack: seq<string>, rooted: bool, segments: seq<string>): seq<string>
    decreases |segments|
  {
    if segments == [] then stack else Walk(Push(stack, rooted, segments[0]), rooted, segments[1..])
  }

  function Slashed(names: seq<string>): string {
    if names == [] then "" else if |names| == 1 then names[0] else names[0] + ("/" + Slashed(names[1..]))
  }

  /** The shortest path that means the same. */
  function Clean(v: string): string {
    if v == "" then "."
    else
      var names := Walk([], v[0] == '/', Segments(v));
      if v[0] == '/' then "/" + Slashed(names) else if Slashed(names) == "" then "." else Slashed(names)
  }

  ghost predicate SlashFreeAll(names: seq<string>) {
    forall i :: 0 <= i < |names| ==> '/' !in names[i]
  }

  /** What walking leaves: names without slash, and two dots only in front, below the root not at all. */
  ghost predicate Walked(names: seq<string>, rooted: bool) {
    && SlashFreeAll(names)
    && (forall i :: 0 <= i < |names| ==> names[i] != "" && names[i] != ".")
    && (forall i :: 0 <= i < |names| && names[i] == ".." ==> !rooted && (i == 0 || names[i - 1] == ".."))
  }

  lemma {:induction false} SegmentsSlashFree(v: string)
    ensures SlashFreeAll(Segments(v))
  {
    if v != [] { SegmentsSlashFree(v[1..]); }
  }

  lemma {:induction false} WalkWalks(stack: seq<string>, rooted: bool, segments: seq<string>)
    requires Walked(stack, rooted) && SlashFreeAll(segments)
    ensures Walked(Walk(stack, rooted, segments), rooted)
    decreases |segments|
  {
    if segments != [] {
      assert Walked(Push(stack, rooted, segments[0]), rooted);
      WalkWalks(Push(stack, rooted, segments[0]), rooted, segments[1..]);
    }
  }

  lemma {:induction false} WalkPlain(stack: seq<string>, rooted: bool, segments: seq<string>)
    requires AllPlain(segments)
    ensures Walk(stack, rooted, segments) == stack + segments
    decreases |segments|
  {
    if segments == [] {
      assert stack + segments == stack;
    } else {
      WalkPlain(stack + [segments[0]], rooted, segments[1..]);
      assert stack + segments == (stack + [segments[0]]) + segments[1..];
    }
  }

  lemma {:induction false} WalkOn(stack: seq<string>, rooted: bool, a: seq<string>, b: seq<string>)
    ensures Walk(stack, rooted, a + b) == Walk(Walk(stack, rooted, a), rooted, b)
    decreases |a|
  {
    if a == [] {
      assert a + b == b;
    } else {
      assert (a + b)[0] == a[0] && (a + b)[1..] == a[1..] + b;
      WalkOn(Push(stack, rooted, a[0]), rooted, a[1..], b);
    }
  }

  lemma WalkSlash(stack: seq<string>, segments: seq<string>)
    ensures Walk(stack, true, [""] + segments) == Walk(stack, true, segments)
  {
    assert ([""] + segments)[1..] == segments;
  }

  lemma NothingThere(stack: seq<string>)
    ensures Segments("") == [""] && Walk(stack, true, [""]) == stack
  {
    assert Walk(stack, true, [""]) == Walk(stack, true, []);
  }

  lemma {:induction false} SlashedSegments(v: string)
    ensures Slashed(Segments(v)) == v
  {
    if v != [] {
      SlashedSegments(v[1..]);
      assert v == [v[0]] + v[1..];
      if v[0] == '/' {
        assert Segments(v) == [[]] + Segments(v[1..]);
      } else {
        var names := Segments(v[1..]);
        assert Segments(v)[1..] == names[1..];
      }
    }
  }

  lemma {:induction false} SegmentsSlashed(names: seq<string>)
    requires names != [] && SlashFreeAll(names)
    ensures Segments(Slashed(names)) == names
  {
    SlashFree(names[0]);
    if |names| == 1 {
      assert names == [names[0]];
    } else {
      SegmentsSlashed(names[1..]);
      SegmentsJoin(names[0], Slashed(names[1..]));
      assert names[0] + "/" + Slashed(names[1..]) == Slashed(names);
      assert names == [names[0]] + names[1..];
    }
  }

  /** A relative path that begins with two dots as a name of its own. */
  predicate Upward(v: string) {
    v == ".." || "../" <= v
  }

  lemma UpwardFirst(names: seq<string>)
    requires names != [] && names[0] == ".."
    ensures Upward(Slashed(names))
  {
  }

  lemma FirstOfSegments(v: string)
    ensures v == "." ==> Segments(v)[0] == "."
    ensures Upward(v) ==> Segments(v)[0] == ".."
  {
    SlashFree(".");
    SlashFree("..");
    if "../" <= v {
      assert v == ".." + "/" + v[3..];
      SegmentsJoin("..", v[3..]);
    }
  }

  lemma CleanRelative(v: string)
    requires v != [] && v[0] != '/'
    ensures AllPlain(Segments(v)) <==> Clean(v) == v && v != "." && !Upward(v)
  {
    var names := Walk([], false, Segments(v));
    SlashedSegments(v);
    FirstOfSegments(v);
    if AllPlain(Segments(v)) {
      WalkPlain([], false, Segments(v));
      assert [] + Segments(v) == Segments(v);
    }
    if Clean(v) == v && v != "." && !Upward(v) {
      SegmentsSlashFree(v);
      WalkWalks([], false, Segments(v));
      SegmentsSlashed(names);
      NoneUpward(names);
    }
  }

  lemma NoneUpward(names: seq<string>)
    requires Walked(names, false) && names != [] && !Upward(Slashed(names))
    ensures AllPlain(names)
  {
    if names[0] == ".." { UpwardFirst(names); }
    var i: nat := 1;
    while i < |names|
      invariant 1 <= i <= |names| && forall j :: 0 <= j < i ==> names[j] != ".."
    {
      assert names[i - 1] != "..";
      i := i + 1;
    }
  }

  lemma CleanRooted(v: string)
    requires v != [] && v[0] == '/'
    ensures v == "/" || AllPlain(Segments(v[1..])) <==> Clean(v) == v
  {
    var names := Walk([], true, Segments(v));
    assert v == "/" + v[1..] && Segments(v) == [""] + Segments(v[1..]);
    WalkSlash([], Segments(v[1..]));
    if v == "/" {
      NothingThere([]);
    } else if AllPlain(Segments(v[1..])) {
      WalkPlain([], true, Segments(v[1..]));
      assert [] + Segments(v[1..]) == Segments(v[1..]);
      SlashedSegments(v[1..]);
    }
    if Clean(v) == v {
      assert v[1..] == ("/" + Slashed(names))[1..] == Slashed(names);
      SegmentsSlashFree(v);
      WalkWalks([], true, Segments(v));
      if names != [] { SegmentsSlashed(names); }
    }
  }

  /** Exactly the paths that begin with a dot and a slash, have no backslash, and whose rest is its own cleaning and
      does not lead upwards. */
  lemma ValidExactly(v: string)
    ensures ValidRelative(v) <==>
              && "./" <= v && '\\' !in v && v[2..] != "" && Clean(v[2..]) == v[2..]
              && v[2..] != "." && v[2..] != ".." && !("../" <= v[2..])
  {
    if "./" <= v && v[2..] != "" {
      var x := v[2..];
      if x[0] == '/' { CleanRooted(x); } else { CleanRelative(x); }
    }
  }

  /** Such as this one, which leaves its component. */
  lemma UpwardRefused(x: string)
    ensures !ValidRelative("./../" + x) && !Portable(Server("./../" + x, [], map[], ""))
  {
    var v := "./../" + x;
    assert v[2..] == "../" + x;
    ValidExactly(v);
  }

  // ----- Inside -----

  /** A clean absolute path with at least one name. */
  predicate Absolute(dir: string) {
    dir != "" && dir[0] == '/' && AllPlain(Segments(dir[1..]))
  }

  /** The names an absolute path leads through once dots are resolved. */
  function Names(path: string): seq<string> {
    Walk([], true, Segments(path))
  }

  predicate Within(path: string, dir: string) {
    Names(dir) <= Names(path)
  }

  lemma AbsoluteNames(dir: string)
    requires Absolute(dir)
    ensures Names(dir) == Segments(dir[1..])
  {
    assert dir == "/" + dir[1..] && Segments(dir) == [""] + Segments(dir[1..]);
    WalkSlash([], Segments(dir[1..]));
    WalkPlain([], true, Segments(dir[1..]));
    assert [] + Segments(dir[1..]) == Segments(dir[1..]);
  }

  lemma NamesOn(dir: string, rest: string)
    ensures Names(dir + "/" + rest) == Walk(Names(dir), true, Segments(rest))
  {
    SegmentsJoin(dir, rest);
    WalkOn([], true, Segments(dir), Segments(rest));
  }

  /** A canonical path, possibly behind one more slash, below any directory. */
  lemma CanonicalInside(dir: string, x: string)
    requires x != "" && Canonical(x)
    ensures Within(dir + "/" + x, dir)
  {
    NamesOn(dir, x);
    if x[0] == '/' {
      assert Segments(x) == [""] + Segments(x[1..]);
      WalkSlash(Names(dir), Segments(x[1..]));
      if x != "/" { WalkPlain(Names(dir), true, Segments(x[1..])); } else { NothingThere(Names(dir)); }
    } else {
      WalkPlain(Names(dir), true, Segments(x));
    }
  }

  /** The last name of an absolute path, and what is before it. */
  lemma {:induction false} LastName(r: string) returns (front: string, last: string)
    requires AllPlain(Segments(r))
    ensures "/" + r == front + "/" + last && '/' !in last && Plain(last)
    ensures front == "" || (front[0] == '/' && AllPlain(Segments(front[1..])))
  {
    hide Segments, Slashed, Plain;
    var names := Segments(r);
    SegmentsSlashFree(r);
    SlashedSegments(r);
    var before := names[..|names| - 1];
    last := names[|names| - 1];
    assert before + [last] == names;
    if before == [] {
      OneName(last);
      front := "";
    } else {
      front := "/" + Slashed(before);
      SegmentsSlashed(before);
      SlashedMore(before, last);
      assert front[1..] == Slashed(before) && "/" + (Slashed(before) + "/" + last) == front + "/" + last;
    }
  }

  lemma OneName(name: string)
    ensures Slashed([] + [name]) == name
  {
  }

  lemma {:induction false} SlashedMore(names: seq<string>, last: string)
    requires names != []
    ensures Slashed(names + [last]) == Slashed(names) + "/" + last
  {
    var more := names + [last];
    assert more[0] == names[0] && more[1..] == names[1..] + [last];
    if |names| > 1 {
      SlashedMore(names[1..], last);
      assert names[0] + ("/" + (Slashed(names[1..]) + "/" + last)) == Slashed(names) + "/" + last;
    }
  }

  /** Two dots that become a name of their own only when the placeholder behind them is expanded. */
  predicate Treacherous(x: string) {
    ".." + ROOT <= x || ".." + DATA <= x
  }

  /** What ending segment o makes of the names below the base. */
  function Ended(below: seq<string>, o: string): seq<string> {
    if Plain(o) then below + [o] else if o == ".." && below != [] then below[..|below| - 1] else below
  }

  lemma EndsSegment(base: seq<string>, below: seq<string>, o: string)
    requires AllPlain(below) && (below != [] || o != "..")
    ensures AllPlain(Ended(below, o)) && Walk(base + below, true, [o]) == base + Ended(below, o)
  {
    assert Walk(base + below, true, [o]) == Push(base + below, true, o);
    assert Plain(o) ==> (base + below) + [o] == base + (below + [o]);
    if below != [] {
      assert (base + below)[|base + below| - 1] == below[|below| - 1];
      assert (base + below)[..|base + below| - 1] == base + below[..|below| - 1];
    }
  }

  /** Walking on from below the base through segment o, which an absolute path ends. */
  lemma WalksFront(base: seq<string>, below: seq<string>, o: string, front: string) returns (more: seq<string>)
    requires '/' !in o && AllPlain(below) && (below != [] || o != "..")
    requires front == "" || (front[0] == '/' && AllPlain(Segments(front[1..])))
    ensures AllPlain(more) && Walk(base + below, true, Segments(o + front)) == base + more
  {
    hide Segments, Walk, Ended;
    SlashFree(o);
    EndsSegment(base, below, o);
    more := Ended(below, o);
    if front == "" {
      assert o + front == o;
    } else {
      var names := Segments(front[1..]);
      assert o + front == o + "/" + front[1..];
      SegmentsJoin(o, front[1..]);
      WalkOn(base + below, true, [o], names);
      WalkPlain(base + more, true, names);
      assert (base + more) + names == base + (more + names);
      more := more + names;
    }
  }

  lemma EndPlain(base: seq<string>, below: seq<string>, o: string)
    requires AllPlain([o])
    ensures base <= Walk(base + below, true, [o])
  {
    WalkPlain(base + below, true, [o]);
    assert (base + below) + [o] == base + (below + [o]);
  }

  lemma StaysPlain(o: string, c: char)
    ensures Plain(o) ==> Plain(o + [c])
  {
    assert (o + [c])[..|o|] == o;
  }

  /** Expanding placeholders inside a plain path never leads above where it starts, unless its first segment does
      so at once. */
  lemma {:induction false} ExpandInside(base: seq<string>, below: seq<string>, o: string, x: string,
                                        root: string, data: string)
    requires Absolute(root) && Absolute(data) && '/' !in o && AllPlain(below) && AllPlain(Segments(o + x))
    requires below != [] || Plain(o) || !Treacherous(o + x)
    ensures base <= Walk(base + below, true, Segments(o + Expand(x, root, data)))
    decreases |x|
  {
    hide AllPlain, Segments, Walk, Absolute, Plain, Expand, Treacherous;
    if x == [] {
      assert o + x == o;
      ExpandNothing(root, data);
      assert o + "" == o;
      SlashFree(o);
      EndPlain(base, below, o);
    } else if ROOT <= x {
      PlaceholderInside(base, below, o, x, ROOT, root, root, data);
      ExpandsTo(x, ROOT, root, data);
    } else if DATA <= x {
      PlaceholderInside(base, below, o, x, DATA, data, root, data);
      ExpandsTo(x, DATA, root, data);
    } else if x[0] == '/' {
      SlashInside(base, below, o, x, root, data);
    } else {
      CharInside(base, below, o, x, root, data);
    }
  }

  lemma ExpandsTo(x: string, p: string, root: string, data: string)
    requires p in {ROOT, DATA} && p <= x && (p == DATA ==> !(ROOT <= x))
    ensures Expand(x, root, data) == (if p == ROOT then root else data) + Expand(x[|p|..], root, data)
  {
  }

  lemma {:induction false} CharInside(base: seq<string>, below: seq<string>, o: string, x: string,
                                      root: string, data: string)
    requires Absolute(root) && Absolute(data) && '/' !in o && AllPlain(below) && AllPlain(Segments(o + x))
    requires x != [] && !(ROOT <= x) && !(DATA <= x) && x[0] != '/'
    requires below != [] || Plain(o) || !Treacherous(o + x)
    ensures base <= Walk(base + below, true, Segments(o + Expand(x, root, data)))
    decreases |x|, 0
  {
    hide AllPlain, Segments, Walk, Absolute, Plain, Expand, Treacherous;
    ExpandsChar(o, x, root, data);
    StaysPlain(o, x[0]);
    ExpandInside(base, below, o + [x[0]], x[1..], root, data);
  }

  lemma ExpandsChar(o: string, x: string, root: string, data: string)
    requires x != [] && !(ROOT <= x) && !(DATA <= x)
    ensures o + x == (o + [x[0]]) + x[1..]
    ensures o + Expand(x, root, data) == (o + [x[0]]) + Expand(x[1..], root, data)
  {
    assert o + ([x[0]] + Expand(x[1..], root, data)) == (o + [x[0]]) + Expand(x[1..], root, data);
  }

  lemma {:induction false} PlaceholderInside(base: seq<string>, below: seq<string>, o: string, x: string, p: string,
                                             dir: string, root: string, data: string)
    requires Absolute(root) && Absolute(data) && (dir == root || dir == data)
    requires '/' !in o && AllPlain(below) && AllPlain(Segments(o + x))
    requires p in {ROOT, DATA} && p <= x && (below != [] || Plain(o) || !Treacherous(o + x))
    ensures base <= Walk(base + below, true, Segments(o + (dir + Expand(x[|p|..], root, data))))
    decreases |x|, 0
  {
    hide Segments, Walk, Expand, AllPlain;
    var y := x[|p|..];
    var e := Expand(y, root, data);
    var front, last := LastName(dir[1..]);
    DotsAhead(o, x, p);
    var more := WalksFront(base, below, o, front);
    Swapped(o, x, p, last);
    ExpandInside(base, more, last, y, root, data);
    Regrouped(o, dir, front, last, e);
    SegmentsJoin(o + front, last + e);
    WalkOn(base + below, true, Segments(o + front), Segments(last + e));
  }

  lemma {:induction false} SlashInside(base: seq<string>, below: seq<string>, o: string, x: string,
                                       root: string, data: string)
    requires Absolute(root) && Absolute(data) && '/' !in o && AllPlain(below) && AllPlain(Segments(o + x))
    requires x != [] && x[0] == '/'
    ensures base <= Walk(base + below, true, Segments(o + Expand(x, root, data)))
    decreases |x|, 0
  {
    hide Segments, Walk;
    AcrossSlash(o, x);
    SlashFree(o);
    var e := Expand(x[1..], root, data);
    assert ROOT[0] == DATA[0] == '$' && Expand(x, root, data) == "/" + e;
    ExpandInside(base, below + [o], "", x[1..], root, data);
    assert o + Expand(x, root, data) == o + "/" + e && "" + e == e;
    SegmentsJoin(o, e);
    WalkOn(base + below, true, [o], Segments(e));
    WalkPlain(base + below, true, [o]);
    assert (base + below) + [o] == base + (below + [o]);
  }

  lemma DotsAhead(o: string, x: string, p: string)
    requires p in {ROOT, DATA} && p <= x
    ensures o == ".." ==> Treacherous(o + x)
  {
    assert x == p + x[|p|..] && o + x == (o + p) + x[|p|..];
  }

  lemma Swapped(o: string, x: string, p: string, last: string)
    requires p in {ROOT, DATA} && p <= x && '/' !in o && AllPlain(Segments(o + x)) && '/' !in last && Plain(last)
    ensures AllPlain(Segments(last + x[|p|..]))
  {
    assert o + x == (o + p) + x[|p|..];
    SwapHead(o + p, last, x[|p|..]);
  }

  lemma Regrouped(o: string, dir: string, front: string, last: string, e: string)
    requires dir != "" && "/" + dir[1..] == front + "/" + last && dir[0] == '/'
    ensures o + (dir + e) == (o + front) + "/" + (last + e)
  {
    assert dir == front + "/" + last;
  }

  // ----- Working directories -----

  function Unslashed(x: string): string {
    if "/" <= x then x[1..] else x
  }

  /** The directory does not begin by leading upwards once it is expanded. */
  predicate Straight(cwd: string) {
    forall p :: p in [ROOT, DATA] && p + "/" <= cwd ==> !Treacherous(Unslashed(cwd[|p| + 1..]))
  }

  /** A canonical path below a directory, placeholders expanded, stays below it. */
  lemma {:induction false} ExpandedInside(dir: string, x: string, root: string, data: string)
    requires Absolute(root) && Absolute(data) && ValidRelative("./" + x) && !Treacherous(Unslashed(x))
    ensures Within(dir + "/" + Expand(x, root, data), dir)
  {
    hide Segments, Walk, Treacherous, Absolute;
    assert ("./" + x)[2..] == x;
    var e := Expand(x, root, data);
    NamesOn(dir, e);
    if x[0] == '/' {
      var y := x[1..];
      ExpandSlash(y, root, data);
      var f := Expand(y, root, data);
      SegmentsSlash(f);
      WalkSlash(Names(dir), Segments(f));
      if y == "" {
        NothingThere(Names(dir));
      } else {
        assert "" + y == y && "" + f == f && Names(dir) + [] == Names(dir);
        ExpandInside(Names(dir), [], "", y, root, data);
      }
    } else {
      assert "" + x == x && "" + e == e && Names(dir) + [] == Names(dir);
      ExpandInside(Names(dir), [], "", x, root, data);
    }
  }

  lemma ExpandSlash(y: string, root: string, data: string)
    ensures Expand("/" + y, root, data) == "/" + Expand(y, root, data)
  {
    assert ("/" + y)[1..] == y && ("/" + y)[0] == '/' && ROOT[0] == DATA[0] == '$';
  }

  lemma SegmentsSlash(f: string)
    ensures Segments("/" + f) == [""] + Segments(f)
  {
    assert ("/" + f)[1..] == f;
  }

  /** What a placeholder in front of a directory stands for. */
  function BaseOf(p: string, root: string, data: string): string {
    if p == ROOT then root else data
  }

  lemma ExpandBehind(p: string, rest: string, root: string, data: string)
    requires p in {ROOT, DATA}
    ensures Expand(p + rest, root, data) == BaseOf(p, root, data) + Expand(rest, root, data)
  {
    assert (p + rest)[|p|..] == rest && p <= p + rest;
    if p == DATA { assert (p + rest)[9] == 'D' && ROOT[9] == 'R'; }
  }

  lemma Itself(dir: string)
    ensures Within(dir, dir) && dir + "" == dir
  {
  }

  /** Where a server works: below its component's root, unless its directory is given from the data directory. */
  function Home(cwd: string, root: string, data: string): string {
    if DATA <= cwd then data else root
  }

  lemma BehindPlaceholder(p: string, x: string, root: string, data: string)
    requires p in {ROOT, DATA} && Absolute(root) && Absolute(data) && ValidRelative("./" + x)
    requires !Treacherous(Unslashed(x))
    ensures Within(Expand(p + ("/" + x), root, data), BaseOf(p, root, data))
  {
    ExpandBehind(p, "/" + x, root, data);
    ExpandSlash(x, root, data);
    ExpandedInside(BaseOf(p, root, data), x, root, data);
    var dir, e := BaseOf(p, root, data), Expand(x, root, data);
    assert dir + ("/" + e) == dir + "/" + e;
  }

  lemma {:induction false} DirectoryInside(cwd: string, root: string, data: string)
    requires Absolute(root) && Absolute(data) && (cwd == "" || PortableDirectory(cwd)) && Straight(cwd)
    ensures Within(DirectoryAt(cwd, root, data), Home(cwd, root, data))
  {
    hide PortableDirectory, Within, Straight, Absolute, ValidRelative, Expand;
    Itself(root);
    Itself(data);
    if cwd == "" {
    } else if "./" <= cwd {
      AtDot(cwd);
      RelativeInside(cwd, root);
    } else {
      var p, x := Shape(cwd);
      if cwd == p {
        ExpandBehind(p, "", root, data);
        assert p + "" == p;
        ExpandNothing(root, data);
        Itself(BaseOf(p, root, data));
      } else {
        StraightBehind(p, x);
        BehindPlaceholder(p, x, root, data);
      }
    }
  }

  /** A directory that is given by a placeholder is that placeholder, or is a valid path behind it. */
  lemma Shape(cwd: string) returns (p: string, x: string)
    requires PortableDirectory(cwd) && !("./" <= cwd)
    ensures p in {ROOT, DATA} && (p == DATA <==> DATA <= cwd)
    ensures cwd == p || (cwd == p + ("/" + x) && ValidRelative("./" + x))
  {
    hide PortableDirectory, ValidRelative;
    DirectoryShapes(cwd);
    p := if ROOT <= cwd then ROOT else DATA;
    if ROOT <= cwd { assert cwd[9] == 'R' && DATA[9] == 'D'; }
    x := "";
    if cwd != p {
      x := cwd[|p| + 1..];
      if p == ROOT { AtRoot(cwd, x); } else { AtData(cwd, x); }
    }
  }

  lemma StraightBehind(p: string, x: string)
    requires p in {ROOT, DATA}
    ensures Straight(p + ("/" + x)) <==> !Treacherous(Unslashed(x))
  {
    var cwd := p + ("/" + x);
    assert cwd[..|p| + 1] == p + "/" && cwd[|p| + 1..] == x;
    assert p in [ROOT, DATA] && p + "/" <= cwd;
    forall q | q in [ROOT, DATA] && q + "/" <= cwd ensures q == p {
      assert cwd[9] == p[9] && (q + "/")[9] == q[9] && ROOT[9] == 'R' && DATA[9] == 'D';
    }
  }

  lemma ExpandNothing(root: string, data: string)
    ensures Expand("", root, data) == ""
  {
  }

  lemma RelativeInside(v: string, dir: string)
    requires ValidRelative(v)
    ensures Within(dir + "/" + v[2..], dir)
  {
    CanonicalInside(dir, v[2..]);
  }

  // ----- Launches -----

  /** The program is named without a path, or lies below the component; the working directory lies below the
      component or below the plugin's data. */
  predicate Inside(l: Launch, root: string, data: string) {
    && ('/' !in l.program || Within(l.program, root))
    && (Within(l.directory, root) || Within(l.directory, data))
  }

  lemma LaunchInside(s: Server, root: string, data: string)
    requires Absolute(root) && Absolute(data) && Portable(s) && Straight(s.cwd)
    ensures Inside(LaunchAt(s, root, data), root, data)
  {
    hide Within, Straight, Absolute, ValidRelative, PortableDirectory;
    DirectoryInside(s.cwd, root, data);
    if "./" <= s.command { RelativeInside(s.command, root); }
    else { assert forall i :: 0 <= i < |s.command| ==> s.command[i] !in "/\\\0 \t\r\n"; }
  }

  lemma ComponentRoot(id: PackageId, root: string)
    requires Admitted(id) && Absolute(root)
    ensures Absolute(root + PathOf(id)[1..]) && Within(root + PathOf(id)[1..], root)
  {
    hide Segments, Walk;
    AdmittedPath(id);
    PathShape(id);
    AbovePlain(id);
    PartAllPlain(id.name);
    PlainJoin(Above(id), id.name);
    var v := Above(id) + "/" + id.name;
    var dir := root + PathOf(id)[1..];
    assert dir == root + "/" + v && dir[1..] == root[1..] + "/" + v;
    PlainJoin(root[1..], v);
    NamesOn(root, v);
    WalkPlain(Names(root), true, Segments(v));
  }

  /** Every server that merging lets through is launched inside the component that declares it. */
  lemma {:induction false} MergedInside(components: seq<Component>, servers: map<string, Declaration>, i: nat,
                                        name: string, root: string, data: string)
    requires Located(components) && EachMovable(components) && MergedFrom(components, servers)
    requires i < |components| && name in components[i].servers && components[i].servers[name].Stdio?
    requires Absolute(root) && Absolute(data) && Straight(components[i].servers[name].server.cwd)
    ensures name in servers && servers[name].Stdio?
    ensures Inside(LaunchAt(servers[name].server, root, data), root + PathOf(components[i].id)[1..], data)
  {
    hide Inside, Straight, Absolute, Portable, ComponentPath;
    var s, id := components[i].servers[name].server, components[i].id;
    assert AllMovable(components[i]) && Movable(components[i].servers[name]);
    ComponentRoot(id, root);
    LaunchInside(s, root + PathOf(id)[1..], data);
    AdmittedLaunch(id, s, root, data);
  }

  // ----- Exactly which directories -----

  const ROOT_DIR := "/x/y"
  const DATA_DIR := "/u/v"

  lemma Sample(dir: string, a: string, b: string)
    requires dir == "/" + (a + "/" + b) && '/' !in a && '/' !in b && Plain(a) && Plain(b)
    ensures Absolute(dir) && Names(dir) == [a, b]
  {
    SlashFree(a);
    SlashFree(b);
    SegmentsJoin(a, b);
    assert dir[1..] == a + "/" + b;
    AbsoluteNames(dir);
  }

  lemma Samples()
    ensures Absolute(ROOT_DIR) && Names(ROOT_DIR) == ["x", "y"]
    ensures Absolute(DATA_DIR) && Names(DATA_DIR) == ["u", "v"]
  {
    Sample(ROOT_DIR, "x", "y");
    Sample(DATA_DIR, "u", "v");
  }

  lemma UpAndInto(a: string, b: string, c: string)
    requires Plain(b) && '/' !in c && Plain(c)
    ensures Walk([a, b], true, Segments("../" + c)) == [a, c]
  {
    SlashFree("..");
    SlashFree(c);
    SegmentsJoin("..", c);
    assert ".." + "/" + c == "../" + c;
    var top := Push([a, b], true, "..");
    assert top == [a] && [".."] + [c] == ["..", c];
    assert Walk([a, b], true, ["..", c]) == Walk(top, true, [c]) == Push(top, true, c) == [a] + [c];
  }

  /** From a directory of two names, upwards and into another of two names. */
  lemma {:induction false} Strays(dir: string, a: string, b: string, other: string, c: string, d: string, q: string,
                                  z: string, root: string, data: string)
    requires Absolute(root) && Absolute(data) && Names(dir) == [a, b] && Plain(b)
    requires q in {ROOT, DATA} && other == BaseOf(q, root, data) == "/" + (c + "/" + d)
    requires '/' !in c && Plain(c) && '/' !in d && Plain(d) && AllPlain(Segments(".." + (q + z)))
    ensures [a, c] <= Names(dir + "/" + Expand(".." + (q + z), root, data))
  {
    hide Walk, AllPlain, Segments, Absolute, Plain, Expand, Names;
    var e := Expand(z, root, data);
    StraysOn(a, c, d, q, z, root, data);
    DotsExpand(q, z, root, data);
    Reassembled(other, c, d, e);
    NamesOn(dir, ("../" + c) + "/" + (d + e));
    SegmentsJoin("../" + c, d + e);
    WalkOn([a, b], true, Segments("../" + c), Segments(d + e));
    UpAndInto(a, b, c);
  }

  lemma {:induction false} StraysOn(a: string, c: string, d: string, q: string, z: string, root: string, data: string)
    requires Absolute(root) && Absolute(data) && q in {ROOT, DATA}
    requires '/' !in d && Plain(d) && AllPlain(Segments(".." + (q + z)))
    ensures [a, c] <= Walk([a, c], true, Segments(d + Expand(z, root, data)))
  {
    assert AllPlain([]);
    hide Walk, AllPlain, Segments, Absolute, Expand;
    assert (q + z)[|q|..] == z && q <= q + z;
    Swapped("..", q + z, q, d);
    assert [a, c] + [] == [a, c];
    ExpandInside([a, c], [], d, z, root, data);
  }

  lemma Reassembled(other: string, c: string, d: string, e: string)
    requires other == "/" + (c + "/" + d)
    ensures ".." + (other + e) == ("../" + c) + "/" + (d + e)
  {
  }

  lemma DotsExpand(q: string, z: string, root: string, data: string)
    requires q in {ROOT, DATA}
    ensures Expand(".." + (q + z), root, data) == ".." + (BaseOf(q, root, data) + Expand(z, root, data))
  {
    ExpandSkips("..", q + z, root, data);
    ExpandBehind(q, z, root, data);
  }

  /** A second slash behind the directory changes nothing. */
  lemma SecondSlash(dir: string, x: string, root: string, data: string)
    ensures Names(dir + "/" + Expand(x, root, data)) == Names(dir + "/" + Expand(Unslashed(x), root, data))
  {
    if "/" <= x {
      var f := Expand(x[1..], root, data);
      assert x == "/" + x[1..];
      ExpandSlash(x[1..], root, data);
      SegmentsSlash(f);
      NamesOn(dir, "/" + f);
      NamesOn(dir, f);
      WalkSlash(Names(dir), Segments(f));
    }
  }

  lemma {:induction false} TreacherousStrays(p: string, x: string)
    requires p in {ROOT, DATA} && ValidRelative("./" + x) && Treacherous(Unslashed(x))
    ensures var l := Expand(p + ("/" + x), ROOT_DIR, DATA_DIR); !Within(l, ROOT_DIR) && !Within(l, DATA_DIR)
  {
    hide Expand, Walk, Segments, Absolute, Plain, Names, AllPlain, ValidRelative;
    Samples();
    var y, dir := Unslashed(x), BaseOf(p, ROOT_DIR, DATA_DIR);
    var q := if ".." + ROOT <= y then ROOT else DATA;
    var z := y[2 + |q|..];
    assert y == ".." + (q + z);
    PlainRest(x);
    ExpandBehind(p, "/" + x, ROOT_DIR, DATA_DIR);
    ExpandSlash(x, ROOT_DIR, DATA_DIR);
    assert dir + ("/" + Expand(x, ROOT_DIR, DATA_DIR)) == dir + "/" + Expand(x, ROOT_DIR, DATA_DIR);
    SecondSlash(dir, x, ROOT_DIR, DATA_DIR);
    OneLetter("x");
    OneLetter("y");
    OneLetter("u");
    OneLetter("v");
    var a, b := if p == ROOT then "x" else "u", if p == ROOT then "y" else "v";
    var c, d := if q == ROOT then "x" else "u", if q == ROOT then "y" else "v";
    Strays(dir, a, b, BaseOf(q, ROOT_DIR, DATA_DIR), c, d, q, z, ROOT_DIR, DATA_DIR);
    var names := Names(dir + "/" + Expand(y, ROOT_DIR, DATA_DIR));
    assert names[1] == [a, c][1];
  }

  lemma OneLetter(s: string)
    requires |s| == 1 && s[0] != '.' && s[0] != '/'
    ensures Plain(s) && '/' !in s
  {
  }

  lemma PlainRest(x: string)
    requires ValidRelative("./" + x) && Unslashed(x) != ""
    ensures AllPlain(Segments(Unslashed(x)))
  {
    assert ("./" + x)[2..] == x;
  }

  /** A portable directory lies inside for all roots and data directories exactly when its first segment does not
      lead upwards as soon as a placeholder is expanded. */
  lemma StraightExactly(cwd: string)
    requires PortableDirectory(cwd)
    ensures Straight(cwd) <==>
              forall root, data :: Absolute(root) && Absolute(data) ==>
                Within(DirectoryAt(cwd, root, data), root) || Within(DirectoryAt(cwd, root, data), data)
  {
    hide PortableDirectory, Within, Straight, Absolute, Treacherous, Expand, ValidRelative;
    if Straight(cwd) {
      forall root, data | Absolute(root) && Absolute(data)
        ensures Within(DirectoryAt(cwd, root, data), root) || Within(DirectoryAt(cwd, root, data), data)
      {
        DirectoryInside(cwd, root, data);
      }
    } else {
      Samples();
      Crooked(cwd);
    }
  }

  lemma Crooked(cwd: string)
    requires PortableDirectory(cwd) && !Straight(cwd)
    ensures var l := DirectoryAt(cwd, ROOT_DIR, DATA_DIR); !Within(l, ROOT_DIR) && !Within(l, DATA_DIR)
  {
    hide PortableDirectory, Within, Treacherous, Expand, ValidRelative;
    assert !("./" <= cwd) by { if "./" <= cwd { AtDot(cwd); } }
    var p, x := Shape(cwd);
    if cwd != p {
      StraightBehind(p, x);
      TreacherousStrays(p, x);
    }
  }

  /** What may be declared, spelt out: a clean path below the component or a bare name; no directory, a clean one
      below the component, or a placeholder alone or before a clean path; and neither placeholder's variable set. */
  lemma AcceptedExactly(s: Server)
    ensures Acceptable(Stdio(s)) <==>
              && (if "./" <= s.command then Settled(s.command[2..]) && '\\' !in s.command
                  else s.command != "" && forall c :: c in s.command ==> c !in ['/', '\\', '\0', ' ', '\t', '\r', '\n'])
              && (s.cwd in ["", ROOT, DATA]
                  || ("./" <= s.cwd && Settled(s.cwd[2..]) && '\\' !in s.cwd)
                  || exists p :: p in [ROOT, DATA] && p + "/" <= s.cwd
                       && Settled(s.cwd[|p| + 1..]) && '\\' !in s.cwd[|p| + 1..])
              && "PLUGIN_ROOT" !in s.env.Keys && "PLUGIN_DATA" !in s.env.Keys
  {
    hide ValidRelative;
    if "./" <= s.command { ValidExactly(s.command); }
    PortableCwd(s.cwd);
  }

  /** Its own cleaning, and not upwards. */
  predicate Settled(v: string) {
    v != "" && Clean(v) == v && v != "." && v != ".." && !("../" <= v)
  }

  lemma PortableCwd(v: string)
    ensures v == "" || PortableDirectory(v) <==>
              || v in ["", ROOT, DATA]
              || ("./" <= v && Settled(v[2..]) && '\\' !in v)
              || exists p :: p in [ROOT, DATA] && p + "/" <= v && Settled(v[|p| + 1..]) && '\\' !in v[|p| + 1..]
  {
    hide ValidRelative, Clean;
    ValidExactly(v);
    forall p | p in [ROOT, DATA] && p + "/" <= v
      ensures ValidRelative("./" + v[|p| + 1..]) <==> Settled(v[|p| + 1..]) && '\\' !in v[|p| + 1..]
    {
      var x := v[|p| + 1..];
      assert ("./" + x)[2..] == x;
      ValidExactly("./" + x);
    }
    assert ROOT in [ROOT, DATA] && DATA in [ROOT, DATA];
    if "./" <= v { assert v[0] == '.'; }
    if ROOT + "/" <= v { assert v[9] == 'R' && v[|ROOT|] == '/'; }
    if DATA + "/" <= v { assert v[9] == 'D' && v[|DATA|] == '/'; }
  }
}
