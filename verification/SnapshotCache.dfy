/** The registry snapshots kept for offline use: each under a name that starts with its time, only the
    newest five of them kept, and the newest valid one loaded. */
module SnapshotCache {
  import opened Sorting

  datatype Option<T> = None | Some(value: T)

  const KEEP := 5

  const SUFFIX := ".json"

  predicate Json(name: string) {
    |SUFFIX| <= |name| && name[|name| - |SUFFIX|..] == SUFFIX
  }

  lemma JsonMeans(name: string)
    ensures Json(name) <==> 5 <= |name| && name[|name| - 5..] == ".json"
  {
  }

  // ----- Names -----

  function Pow10(n: nat): nat {
    if n == 0 then 1 else 10 * Pow10(n - 1)
  }

  function Digit(d: nat): char
    requires d < 10
  {
    ('0' as int + d) as char
  }

  /** The last `width` decimal digits of n, with leading zeros. */
  function Pad(n: nat, width: nat): (s: string)
    ensures |s| == width
  {
    if width == 0 then "" else Pad(n / 10, width - 1) + [Digit(n % 10)]
  }

  /** A stamp is a count of nanoseconds that fits a signed 64-bit integer. */
  type Stamp = n: nat | n < 0x8000_0000_0000_0000

  function Name(stamp: Stamp, tag: string): (s: string)
    ensures Json(s)
  {
    var s := Pad(stamp, 20) + "-" + tag + SUFFIX;
    assert s[|s| - |SUFFIX|..] == SUFFIX;
    s
  }

  predicate Less(a: string, b: string) {
    Leq(a, b) && a != b
  }

  lemma {:induction false} LessExtends(p: string, q: string, x: string, y: string)
    requires |p| == |q| && Less(p, q)
    ensures Less(p + x, q + y)
  {
    assert p != [];
    assert (p + x)[1..] == p[1..] + x && (q + y)[1..] == q[1..] + y;
    assert p == [p[0]] + p[1..] && q == [q[0]] + q[1..];
    if p[0] == q[0] { LessExtends(p[1..], q[1..], x, y); }
  }

  lemma {:induction false} SamePrefixLess(p: string, x: string, y: string)
    requires Less(x, y)
    ensures Less(p + x, p + y)
  {
    if p == [] {
      assert p + x == x && p + y == y;
    } else {
      assert (p + x)[1..] == p[1..] + x && (p + y)[1..] == p[1..] + y;
      SamePrefixLess(p[1..], x, y);
      assert p + x == [p[0]] + (p[1..] + x) && p + y == [p[0]] + (p[1..] + y);
    }
  }

  /** Padded to one width, numbers are ordered as their digits are. */
  lemma {:induction false} PadOrder(a: nat, b: nat, width: nat)
    requires a < b < Pow10(width)
    ensures Less(Pad(a, width), Pad(b, width))
  {
    if a / 10 < b / 10 {
      PadOrder(a / 10, b / 10, width - 1);
      LessExtends(Pad(a / 10, width - 1), Pad(b / 10, width - 1), [Digit(a % 10)], [Digit(b % 10)]);
    } else {
      assert a / 10 == b / 10 && a % 10 < b % 10;
      SamePrefixLess(Pad(a / 10, width - 1), [Digit(a % 10)], [Digit(b % 10)]);
    }
  }

  lemma NameOrder(a: Stamp, s: string, b: Stamp, t: string)
    requires a < b
    ensures Less(Name(a, s), Name(b, t))
  {
    assert Pow10(5) == 100_000;
    assert Pow10(10) == 10_000_000_000;
    assert Pow10(15) == 1_000_000_000_000_000;
    assert Pow10(20) == 100_000_000_000_000_000_000;
    PadOrder(a, b, 20);
    LessExtends(Pad(a, 20), Pad(b, 20), "-" + s + SUFFIX, "-" + t + SUFFIX);
    assert Pad(a, 20) + ("-" + s + SUFFIX) == Name(a, s);
    assert Pad(b, 20) + ("-" + t + SUFFIX) == Name(b, t);
  }

  // ----- Sorted listings -----

  /** A listing is strictly increasing. */
  ghost predicate Increasing(s: seq<string>) {
    forall i, j :: 0 <= i < j < |s| ==> Less(s[i], s[j])
  }

  ghost predicate Lists(s: seq<string>, names: set<string>) {
    Increasing(s) && forall n :: n in s <==> n in names
  }

  lemma LessTrans(a: string, b: string, c: string)
    requires Less(a, b) && Less(b, c)
    ensures Less(a, c)
  {
    LeqTransitive(a, b, c);
    LeqTotal(a, b);
  }

  function Last(s: seq<string>): (t: seq<string>)
    ensures |t| == if |s| <= 5 then |s| else 5
  {
    if |s| <= KEEP then s else s[|s| - KEEP..]
  }

  lemma LastTail(s: seq<string>)
    requires KEEP < |s|
    ensures Last(s) == Last(s[1..])
  {
  }

  lemma TailListed(s: seq<string>, names: set<string>)
    requires Lists(s, names) && s != []
    ensures Lists(s[1..], names - {s[0]})
    ensures forall n :: n in s[1..] ==> Less(s[0], n)
  {
  }

  lemma ListsEmpty(s: seq<string>, names: set<string>)
    requires Lists(s, names)
    ensures s == [] <==> names == {}
  {
    if s != [] { assert s[0] in names; }
  }

  lemma {:induction false} ListingUnique(s: seq<string>, t: seq<string>, names: set<string>)
    requires Lists(s, names) && Lists(t, names)
    ensures s == t
    decreases |s|
  {
    ListsEmpty(s, names);
    ListsEmpty(t, names);
    if s != [] {
      TailListed(s, names);
      TailListed(t, names);
      assert s[0] in t && t[0] in s;
      assert s[0] == t[0] by {
        if s[0] != t[0] {
          assert Less(t[0], s[0]) by { assert s[0] in t[1..]; }
          assert Less(s[0], t[0]) by { assert t[0] in s[1..]; }
          LeqTotal(s[0], t[0]);
        }
      }
      ListingUnique(s[1..], t[1..], names - {s[0]});
      assert s == [s[0]] + s[1..] && t == [t[0]] + t[1..];
    }
  }

  /** The newest five of a store that has lost none of the log's newest five are the log's newest five. */
  lemma {:induction false} NewestAgree(store: seq<string>, log: seq<string>, kept: set<string>, all: set<string>)
    requires Lists(store, kept) && Lists(log, all) && kept <= all
    requires forall n :: n in Last(log) ==> n in kept
    ensures Last(store) == Last(log)
    decreases |log|
  {
    if |log| <= KEEP {
      assert kept == all;
      ListingUnique(store, log, all);
    } else {
      var first := log[0];
      TailListed(log, all);
      LastTail(log);
      assert first in all && first !in Last(log[1..]);
      if first in kept {
        assert store != [] && store[0] == first by { FirstKept(store, kept, first, log[1..]); }
        TailListed(store, kept);
        NewestAgree(store[1..], log[1..], kept - {first}, all - {first});
        assert |Last(store[1..])| == KEEP;
        LastTail(store);
      } else {
        NewestAgree(store, log[1..], kept, all - {first});
      }
    }
  }

  lemma FirstKept(store: seq<string>, kept: set<string>, first: string, rest: seq<string>)
    requires Lists(store, kept) && first in kept
    requires forall n :: n in kept ==> n == first || n in rest
    requires forall n :: n in rest ==> Less(first, n)
    ensures store != [] && store[0] == first
  {
    assert first in store;
    assert store[0] in kept;
    if store[0] != first {
      TailListed(store, kept);
      assert first in store[1..];
      LeqTotal(first, store[0]);
    }
  }

  // ----- The store -----

  function JsonOnly(names: seq<string>): seq<string> {
    if names == [] then [] else (if Json(names[0]) then [names[0]] else []) + JsonOnly(names[1..])
  }

  function Snapshots(names: set<string>): set<string> {
    set n | n in names && Json(n)
  }

  lemma {:induction false} JsonListed(s: seq<string>, names: set<string>)
    requires Lists(s, names)
    ensures Lists(JsonOnly(s), Snapshots(names))
    decreases |s|
  {
    if s == [] {
      ListsEmpty(s, names);
    } else {
      TailListed(s, names);
      JsonListed(s[1..], names - {s[0]});
      var rest := JsonOnly(s[1..]);
      assert s[0] in names;
      forall n ensures n in JsonOnly(s) <==> n in Snapshots(names) {
        assert n in rest <==> n in Snapshots(names - {s[0]});
      }
      forall n | n in rest ensures Less(s[0], n) { assert n in s[1..]; }
      assert JsonOnly(s) == if Json(s[0]) then [s[0]] + rest else rest;
    }
  }

  /** The newest valid snapshot of a listing. */
  function NewestValid(names: seq<string>, files: map<string, string>, valid: string -> bool): Option<string>
    requires forall n :: n in names ==> n in files
  {
    if names == [] then None
    else
      var last := names[|names| - 1];
      if valid(files[last]) then Some(files[last]) else NewestValid(names[..|names| - 1], files, valid)
  }

  /** What it means: some valid snapshot none later than which is valid, or none at all. */
  lemma {:induction false} NewestValidMeans(names: seq<string>, files: map<string, string>, valid: string -> bool)
    requires forall n :: n in names ==> n in files
    ensures match NewestValid(names, files, valid)
            case None => forall i :: 0 <= i < |names| ==> !valid(files[names[i]])
            case Some(data) => exists i :: 0 <= i < |names| && files[names[i]] == data && valid(data)
                                           && forall j :: i < j < |names| ==> !valid(files[names[j]])
  {
    if names != [] && !valid(files[names[|names| - 1]]) {
      NewestValidMeans(names[..|names| - 1], files, valid);
    }
  }

  /** Dropping all but the newest five loses nothing exactly when one of them is valid or nothing is. */
  lemma PruningExactly(names: seq<string>, files: map<string, string>, valid: string -> bool)
    requires forall n :: n in names ==> n in files
    ensures forall n :: n in Last(names) ==> n in names
    ensures NewestValid(Last(names), files, valid) == NewestValid(names, files, valid) <==>
              AnyValid(Last(names), files, valid) || !AnyValid(names, files, valid)
  {
    if KEEP < |names| {
      var k := |names| - KEEP;
      assert names == names[..k] + names[k..];
      NewestValidSplit(names[..k], names[k..], files, valid);
      NewestValidMeans(names[..k], files, valid);
      NewestValidMeans(names[k..], files, valid);
    }
  }

  lemma NewestValidMore(names: seq<string>, n: string, files: map<string, string>, valid: string -> bool)
    requires n in files && forall q :: q in names ==> q in files
    ensures NewestValid(names + [n], files, valid)
            == if valid(files[n]) then Some(files[n]) else NewestValid(names, files, valid)
  {
  }

  lemma {:induction false} NewestValidSplit(s: seq<string>, t: seq<string>, files: map<string, string>,
                                            valid: string -> bool)
    requires (forall n :: n in s ==> n in files) && (forall n :: n in t ==> n in files)
    ensures NewestValid(s + t, files, valid)
            == if NewestValid(t, files, valid).Some? then NewestValid(t, files, valid) else NewestValid(s, files, valid)
  {
    if t == [] {
      assert s + t == s;
    } else {
      assert (s + t)[..|s + t| - 1] == s + t[..|t| - 1];
      NewestValidSplit(s, t[..|t| - 1], files, valid);
    }
  }

  /** The same files give the same answer. */
  lemma {:induction false} NewestValidSame(names: seq<string>, files: map<string, string>, files': map<string, string>,
                                           valid: string -> bool)
    requires forall n :: n in names ==> n in files && n in files' && files[n] == files'[n]
    ensures NewestValid(names, files, valid) == NewestValid(names, files', valid)
  {
    if names != [] { NewestValidSame(names[..|names| - 1], files, files', valid); }
  }

  function Elements(names: seq<string>): set<string> {
    set n | n in names
  }

  /** Of the names seen so far, whose snapshots are listed, all but the newest five snapshots have gone. */
  ghost predicate Pruned(before: set<string>, after: set<string>, seen: set<string>, listed: seq<string>,
                         stuck: set<string>) {
    forall n :: n in before ==> (n in after <==> n !in seen || !Json(n) || n in Last(listed) || n in stuck)
  }

  lemma PrunedMore(before: set<string>, after: set<string>, seen: set<string>, later: seq<string>, stuck: set<string>,
                   n: string)
    requires Pruned(before, after, seen, later, stuck) && n in before && n !in seen && n !in later
    ensures !Json(n) ==> Pruned(before, after, seen + {n}, later, stuck)
    ensures Json(n) && |Last(later)| < KEEP ==>
              Pruned(before, after, seen + {n}, [n] + later, stuck) && |Last([n] + later)| == |Last(later)| + 1
    ensures Json(n) && |Last(later)| == KEEP ==>
              Pruned(before, if n in stuck then after else after - {n}, seen + {n}, [n] + later, stuck)
              && |Last([n] + later)| == KEEP
  {
  }

  // ----- What has been written -----

  datatype Snapshot = Snapshot(stamp: Stamp, tag: string, data: string)

  /** What the directory would hold if nothing were ever removed. */
  function LogOf(history: seq<Snapshot>): (log: map<string, string>)
    ensures forall n :: n in log ==> Json(n)
  {
    if history == [] then map[]
    else
      var last := history[|history| - 1];
      LogOf(history[..|history| - 1])[Name(last.stamp, last.tag) := last.data]
  }

  function Names(history: seq<Snapshot>): seq<string> {
    seq(|history|, i requires 0 <= i < |history| => Name(history[i].stamp, history[i].tag))
  }

  ghost predicate Stamped(history: seq<Snapshot>) {
    forall i, j :: 0 <= i < j < |history| ==> history[i].stamp < history[j].stamp
  }

  lemma LogMore(history: seq<Snapshot>, w: Snapshot)
    ensures LogOf(history + [w]) == LogOf(history)[Name(w.stamp, w.tag) := w.data]
  {
  }

  lemma NamesIncreasing(history: seq<Snapshot>)
    requires Stamped(history)
    ensures Increasing(Names(history))
  {
    forall i, j | 0 <= i < j < |history| ensures Less(Names(history)[i], Names(history)[j]) {
      NameOrder(history[i].stamp, history[i].tag, history[j].stamp, history[j].tag);
    }
  }

  lemma {:induction false} LogNames(history: seq<Snapshot>, n: string)
    ensures n in Names(history) <==> n in LogOf(history)
  {
    if history != [] {
      var front, last := history[..|history| - 1], history[|history| - 1];
      assert Names(history) == Names(front) + [Name(last.stamp, last.tag)];
      LogNames(front, n);
    }
  }

  lemma {:induction false} LogData(history: seq<Snapshot>, i: nat)
    requires i < |history| && Increasing(Names(history))
    ensures Names(history)[i] in LogOf(history) && LogOf(history)[Names(history)[i]] == history[i].data
  {
    if i < |history| - 1 {
      var front := history[..|history| - 1];
      assert Names(front) == Names(history)[..|history| - 1];
      LogData(front, i);
      assert Less(Names(history)[i], Names(history)[|history| - 1]);
    }
  }

  /** While the clock advances, the order of the names is the order of the writes. */
  lemma {:induction false} InOrder(history: seq<Snapshot>)
    requires Stamped(history)
    ensures Lists(Names(history), LogOf(history).Keys)
    ensures forall i :: 0 <= i < |history| ==>
              Names(history)[i] in LogOf(history) && LogOf(history)[Names(history)[i]] == history[i].data
  {
    NamesIncreasing(history);
    forall n ensures n in Names(history) <==> n in LogOf(history) { LogNames(history, n); }
    forall i | 0 <= i < |history|
      ensures Names(history)[i] in LogOf(history) && LogOf(history)[Names(history)[i]] == history[i].data
    {
      LogData(history, i);
    }
  }

  /** The data of the last write that is valid. */
  function LastValid(history: seq<Snapshot>, valid: string -> bool): Option<string> {
    if history == [] then None
    else
      var last := history[|history| - 1].data;
      if valid(last) then Some(last) else LastValid(history[..|history| - 1], valid)
  }

  lemma {:induction false} NewestIsLast(history: seq<Snapshot>, log: map<string, string>, valid: string -> bool)
    requires forall i :: 0 <= i < |history| ==> Names(history)[i] in log && log[Names(history)[i]] == history[i].data
    ensures forall n :: n in Names(history) ==> n in log
    ensures NewestValid(Names(history), log, valid) == LastValid(history, valid)
  {
    if history != [] {
      var front := history[..|history| - 1];
      assert Names(history)[..|history| - 1] == Names(front);
      assert forall i :: 0 <= i < |front| ==> Names(front)[i] == Names(history)[i];
      NewestIsLast(front, log, valid);
    }
  }

  /** The directory of one package selection, and all that was ever written there. */
  class SnapshotStore {
    var files: map<string, string>
    ghost var history: seq<Snapshot>

    /** Every snapshot is as it was last written, and the newest five by name are all there. */
    ghost predicate Valid()
      reads this
    {
      var log := LogOf(history);
      && (forall n :: n in files && Json(n) ==> n in log && log[n] == files[n])
      && forall s :: Lists(s, log.Keys) ==> forall n :: n in Last(s) ==> n in files
    }

    constructor ()
      ensures Valid() && history == []
    {
      files := map[];
      history := [];
    }

    /** The directory's names in order. */
    method ReadDir() returns (names: seq<string>)
      ensures Lists(names, files.Keys)
    {
      var left := files.Keys;
      names := [];
      while left != {}
        invariant Lists(names, files.Keys - left) && left <= files.Keys
        decreases |left|
      {
        var n :| n in left;
        left := left - {n};
        names := Place(n, names, files.Keys - left - {n});
        assert files.Keys - left - {n} + {n} == files.Keys - left;
      }
    }

    /** Removes all but the newest five snapshots, as far as removing works. */
    method Prune(stuck: set<string>)
      modifies this`files
      ensures files.Keys <= old(files.Keys) && forall n :: n in files ==> files[n] == old(files)[n]
      ensures forall n :: n in old(files) && n !in files ==> 5 <= |n| && n[|n| - 5..] == ".json"
      ensures exists s ::
                && Lists(s, Snapshots(old(files.Keys)))
                && Pruned(old(files.Keys), files.Keys, old(files.Keys), s, stuck)
    {
      var names := ReadDir();
      JsonListed(names, files.Keys);
      var i, remaining := |names|, KEEP;
      assert names[i..] == [];
      assert Last(JsonOnly([])) == [] && Elements([]) == {};
      hide JsonOnly, Last, Elements, Json;
      while 0 < i
        invariant 0 <= i <= |names| && remaining == KEEP - |Last(JsonOnly(names[i..]))|
        invariant files.Keys <= old(files.Keys) && forall n :: n in files ==> files[n] == old(files)[n]
        invariant Pruned(old(files.Keys), files.Keys, Elements(names[i..]), JsonOnly(names[i..]), stuck)
        invariant forall n :: n in old(files) && n !in files ==> Json(n)
      {
        i := i - 1;
        ghost var later, seen := JsonOnly(names[i + 1..]), Elements(names[i + 1..]);
        JsonStep(names, i);
        PrunedMore(old(files.Keys), files.Keys, seen, later, stuck, names[i]);
        if Json(names[i]) {
          if 0 < remaining {
            remaining := remaining - 1;
          } else if names[i] !in stuck {
            files := files - {names[i]};
          }
        }
      }
      assert names[0..] == names;
      ElementsListed(names, old(files.Keys));
      forall n | Json(n) ensures 5 <= |n| && n[|n| - 5..] == ".json" { JsonMeans(n); }
    }

    /** Adds a snapshot and prunes. Whatever was written before, in whatever order of time, and whatever
        removals fail, the store stays valid; and if none fails now it holds exactly the newest five. */
    method Write(w: Snapshot, stuck: set<string>)
      requires Valid()
      modifies this
      ensures Valid() && history == old(history) + [w]
      ensures stuck == {} ==> forall s, l :: Lists(s, Snapshots(files.Keys)) && Lists(l, LogOf(history).Keys) ==>
                s == Last(l)
    {
      var name := Name(w.stamp, w.tag);
      ghost var was := LogOf(history);
      LogMore(history, w);
      files := files[name := w.data];
      history := history + [w];
      ghost var before, log := files.Keys, LogOf(history);
      forall l | Lists(l, log.Keys) ensures forall n :: n in Last(l) ==> n in before {
        if name in was {
          assert log.Keys == was.Keys;
        } else {
          assert log.Keys - {name} == was.Keys;
          var rest := Unlist(l, log.Keys, name);
        }
      }
      Prune(stuck);
      ghost var s :| Lists(s, Snapshots(before)) && Pruned(before, files.Keys, before, s, stuck);
      forall l | Lists(l, log.Keys) ensures Last(s) == Last(l) {
        NewestAgree(s, l, Snapshots(before), log.Keys);
      }
      if stuck == {} {
        forall t, l | Lists(t, Snapshots(files.Keys)) && Lists(l, log.Keys) ensures t == Last(l) {
          LastListed(s, Snapshots(before));
          assert Lists(Last(s), Snapshots(files.Keys));
          ListingUnique(t, Last(s), Snapshots(files.Keys));
        }
      }
    }

    /** The store answers as the whole log would, if one of the log's newest five is valid. */
    lemma Agrees(s: seq<string>, l: seq<string>, valid: string -> bool)
      requires Valid() && Lists(s, Snapshots(files.Keys)) && Lists(l, LogOf(history).Keys)
      requires AnyValid(Last(l), LogOf(history), valid)
      ensures NewestValid(s, files, valid) == NewestValid(l, LogOf(history), valid)
    {
      var log := LogOf(history);
      NewestAgree(s, l, Snapshots(files.Keys), log.Keys);
      PruningExactly(s, files, valid);
      PruningExactly(l, log, valid);
      NewestValidSame(Last(s), files, log, valid);
    }

    /** Loads the newest valid snapshot: what an unpruned store would give if one of its newest five is
        valid, which is the last valid one written if the clock has always advanced. */
    method Load(valid: string -> bool) returns (data: Option<string>)
      requires Valid()
      ensures exists s :: Lists(s, Snapshots(files.Keys)) && data == NewestValid(s, files, valid)
      ensures forall l :: Lists(l, LogOf(history).Keys) && AnyValid(Last(l), LogOf(history), valid) ==>
                            data == NewestValid(l, LogOf(history), valid)
      ensures Stamped(history) && AnyValid(Last(Names(history)), LogOf(history), valid) ==>
                data == LastValid(history, valid)
    {
      data := Scan(valid);
      ghost var s :| Lists(s, Snapshots(files.Keys)) && data == NewestValid(s, files, valid);
      forall l | Lists(l, LogOf(history).Keys) && AnyValid(Last(l), LogOf(history), valid)
        ensures data == NewestValid(l, LogOf(history), valid)
      {
        Agrees(s, l, valid);
      }
      if Stamped(history) {
        InOrder(history);
        NewestIsLast(history, LogOf(history), valid);
      }
    }

    method Scan(valid: string -> bool) returns (data: Option<string>)
      ensures exists s :: Lists(s, Snapshots(files.Keys)) && data == NewestValid(s, files, valid)
    {
      var names := ReadDir();
      JsonListed(names, files.Keys);
      ghost var all := JsonOnly(names);
      var i := |names|;
      assert names[..i] == names;
      assert JsonOnly([]) == [] && NewestValid([], files, valid) == None;
      hide JsonOnly, NewestValid, Json, Lists;
      while 0 < i
        invariant 0 <= i <= |names|
        invariant forall n :: n in JsonOnly(names[..i]) ==> n in files
        invariant NewestValid(JsonOnly(names[..i]), files, valid) == NewestValid(all, files, valid)
      {
        i := i - 1;
        assert names[..i + 1] == names[..i] + [names[i]];
        JsonAppend(names[..i], names[i]);
        if Json(names[i]) {
          assert names[i] in JsonOnly(names[..i + 1]);
          NewestValidMore(JsonOnly(names[..i]), names[i], files, valid);
          if valid(files[names[i]]) { return Some(files[names[i]]); }
        }
      }
      assert names[..0] == [];
      data := None;
    }
  }

  ghost predicate AnyValid(names: seq<string>, log: map<string, string>, valid: string -> bool) {
    exists n :: n in names && n in log && valid(log[n])
  }

  function Without(s: seq<string>, k: nat): seq<string>
    requires k < |s|
  {
    s[..k] + s[k + 1..]
  }

  lemma WithoutListed(s: seq<string>, names: set<string>, k: nat)
    requires Lists(s, names) && k < |s|
    ensures Lists(Without(s, k), names - {s[k]})
  {
  }

  /** Without one name, a listing's newest five still hold all of its newest five but that name. */
  lemma Unlist(s: seq<string>, names: set<string>, n: string) returns (rest: seq<string>)
    requires Lists(s, names) && n in names
    ensures Lists(rest, names - {n})
    ensures forall q :: q in Last(s) ==> q == n || q in Last(rest)
  {
    assert n in s;
    var k :| 0 <= k < |s| && s[k] == n;
    rest := Without(s, k);
    WithoutListed(s, names, k);
    forall q | q in Last(s) && q != n ensures q in Last(rest) {
      var a :| 0 <= a < |s| && s[a] == q && |s| - KEEP <= a;
      assert q == rest[if a < k then a else a - 1];
      InLast(rest, if a < k then a else a - 1);
    }
  }

  lemma InLast(s: seq<string>, i: nat)
    requires i < |s| && |s| - KEEP <= i
    ensures s[i] in Last(s)
  {
  }

  /** Inserts a name that is not there into a listing. */
  method Place(n: string, names: seq<string>, ghost there: set<string>) returns (more: seq<string>)
    requires Lists(names, there) && n !in there
    ensures Lists(more, there + {n})
  {
    var i := 0;
    while i < |names| && Less(names[i], n)
      invariant i <= |names| && forall j :: 0 <= j < i ==> Less(names[j], n)
    {
      i := i + 1;
    }
    more := names[..i] + [n] + names[i..];
    forall j | i <= j < |names| ensures Less(n, names[j]) {
      LeqTotal(n, names[i]);
      assert names[i] in there;
      if i < j { LessTrans(n, names[i], names[j]); }
    }
    forall q ensures q in more <==> q in there + {n} {
      assert names == names[..i] + names[i..];
    }
  }

  lemma NotLater(names: seq<string>, i: nat)
    requires Increasing(names) && i < |names|
    ensures names[i] !in names[i + 1..]
  {
  }

  lemma ElementsListed(s: seq<string>, names: set<string>)
    requires Lists(s, names)
    ensures Elements(s) == names
  {
  }

  lemma JsonStep(names: seq<string>, i: nat)
    requires Increasing(names) && i < |names|
    ensures JsonOnly(names[i..])
            == if Json(names[i]) then [names[i]] + JsonOnly(names[i + 1..]) else JsonOnly(names[i + 1..])
    ensures Elements(names[i..]) == Elements(names[i + 1..]) + {names[i]}
    ensures names[i] !in JsonOnly(names[i + 1..]) && names[i] !in Elements(names[i + 1..])
  {
    assert names[i..] == [names[i]] + names[i + 1..];
    NotLater(names, i);
    JsonMember(names[i + 1..], names[i]);
  }

  lemma {:induction false} JsonMember(names: seq<string>, n: string)
    ensures n in JsonOnly(names) <==> n in names && Json(n)
  {
    if names != [] { JsonMember(names[1..], n); }
  }

  lemma {:induction false} JsonAppend(names: seq<string>, n: string)
    ensures JsonOnly(names + [n]) == if Json(n) then JsonOnly(names) + [n] else JsonOnly(names)
  {
    if names == [] {
      assert [] + [n] == [n];
    } else {
      assert (names + [n])[1..] == names[1..] + [n];
      JsonAppend(names[1..], n);
    }
  }

  lemma LastListed(s: seq<string>, names: set<string>)
    requires Lists(s, names)
    ensures Increasing(Last(s)) && forall n :: n in Last(s) ==> n in names
  {
  }
}
