/** Reconciling browser and server events: one canonical event for each key, holding the first value seen of
    each field and listing every later value that differs from it. */
module Reconciler {
  import opened Gathering
  import opened Sorting

  datatype Option<T> = None | Some(value: T)

  datatype Source = Browser | Server

  /** The fields that repeated events may fill in or contradict; null and absent are both None. */
  datatype Fields<V> = Fields(order: Option<V>, value: Option<V>, currency: Option<V>)

  datatype FieldName = Order | Value | Currency

  /** An absent name and a null one are different things. */
  datatype EventName = Absent | Null | Named(text: string)

  datatype Event<V> = Event(id: Option<string>, name: EventName, fields: Fields<V>, source: Source)

  datatype Conflict<V> = Conflict(field: FieldName, kept: V, received: V, source: Source)

  datatype Canonical<V> = Canonical(key: string, name: EventName, id: Option<string>, fields: Fields<V>,
                                    sources: seq<Source>, conflicts: seq<Conflict<V>>)

  /** A result known for an order. */
  datatype Outcome<V> = Outcome(order: Option<V>, status: string)

  datatype Warning<V> =
    | MissingId(source: Source, key: string)
    | EventConflict(key: string, fields: seq<FieldName>)

  datatype Report<V> = Report(raw: nat, canonical: nat, duplicates: nat, verified: nat, undone: nat,
                              events: seq<Canonical<V>>, outcomes: seq<Option<Outcome<V>>>, warnings: seq<Warning<V>>)

  predicate HasId<V>(e: Event<V>) {
    e.id.Some? && e.id.value != ""
  }

  /** The key: name and id, or a digest of the whole event when there is no id. */
  function Key<V>(digest: Event<V> -> string, e: Event<V>): string {
    if HasId(e) then
      (match e.name case Absent => "unknown" case Null => "None" case Named(t) => t) + ":" + e.id.value
    else "unmatched:" + digest(e)
  }

  /** How a name shows in a key. */
  function Shown(name: EventName): string {
    match name case Named(t) => t case Null => "None" case Absent => "unknown"
  }

  lemma ColonSplits(a: string, b: string, i: string, j: string)
    requires ':' !in a && ':' !in b
    ensures a + ":" + i == b + ":" + j <==> a == b && i == j
  {
    if a + ":" + i == b + ":" + j {
      var x := a + ":" + i;
      assert x[|a|] == ':' && forall k :: 0 <= k < |a| ==> x[k] == a[k] != ':';
      assert x == b + ":" + j && x[|b|] == ':' && forall k :: 0 <= k < |b| ==> x[k] == b[k] != ':';
      assert x[..|a|] == a && x[..|b|] == b && x[|a| + 1..] == i && x[|b| + 1..] == j;
    }
  }

  /** Which events are taken for the same, if no name has a colon: those with the same name as shown and the same
      identifier, those without identifier whose digests agree, and one of each kind if the one is named
      "unmatched" and identified by the other's digest. */
  lemma SameKeyExactly<V>(digest: Event<V> -> string, e: Event<V>, f: Event<V>)
    requires ':' !in Shown(e.name) && ':' !in Shown(f.name)
    ensures var ids := (e.id.Some? && e.id.value != "", f.id.Some? && f.id.value != "");
            Key(digest, e) == Key(digest, f) <==>
              match ids
              case (true, true) => Shown(e.name) == Shown(f.name) && e.id == f.id
              case (false, false) => digest(e) == digest(f)
              case (true, false) => Shown(e.name) == "unmatched" && e.id.value == digest(f)
              case (false, true) => Shown(f.name) == "unmatched" && f.id.value == digest(e)
  {
    var a, i := if HasId(e) then Shown(e.name) else "unmatched", if HasId(e) then e.id.value else digest(e);
    var b, j := if HasId(f) then Shown(f.name) else "unmatched", if HasId(f) then f.id.value else digest(f);
    assert Key(digest, e) == a + ":" + i && Key(digest, f) == b + ":" + j;
    ColonSplits(a, b, i, j);
  }

  /** With colons, events of different names and identifiers can be taken for the same, and so can an unnamed event
      and one that is called "unknown". */
  lemma KeysCollide<V>(digest: Event<V> -> string, a: string, b: string, c: string, fields: Fields<V>, source: Source)
    requires b != "" && c != ""
    ensures Key(digest, Event(Some(b + ":" + c), Named(a), fields, source))
            == Key(digest, Event(Some(c), Named(a + ":" + b), fields, source))
    ensures Key(digest, Event(Some(c), Absent, fields, source))
            == Key(digest, Event(Some(c), Named("unknown"), fields, source))
  {
    assert a + ":" + (b + ":" + c) == (a + ":" + b) + ":" + c;
  }

  // ----- What a canonical event is -----

  /** The events of one key, in stream order. */
  function Group<V>(digest: Event<V> -> string, stream: seq<Event<V>>, k: string): seq<Event<V>> {
    if stream == [] then []
    else
      var last := stream[|stream| - 1];
      Group(digest, stream[..|stream| - 1], k) + (if Key(digest, last) == k then [last] else [])
  }

  function Fill<V>(kept: Option<V>, incoming: Option<V>): Option<V> {
    if kept.Some? then kept else incoming
  }

  function FillAll<V>(kept: Fields<V>, incoming: Fields<V>): Fields<V> {
    Fields(Fill(kept.order, incoming.order), Fill(kept.value, incoming.value), Fill(kept.currency, incoming.currency))
  }

  /** The first value of each field. */
  function First<V>(group: seq<Event<V>>): Fields<V> {
    if group == [] then Fields(None, None, None)
    else FillAll(First(group[..|group| - 1]), group[|group| - 1].fields)
  }

  function Clash<V(==)>(field: FieldName, kept: Option<V>, incoming: Option<V>, source: Source): seq<Conflict<V>> {
    if kept.Some? && incoming.Some? && kept != incoming
    then [Conflict(field, kept.value, incoming.value, source)] else []
  }

  /** How one event contradicts the kept values. */
  function Clashes<V(==)>(kept: Fields<V>, e: Event<V>): seq<Conflict<V>> {
    Clash(Order, kept.order, e.fields.order, e.source) + Clash(Value, kept.value, e.fields.value, e.source)
    + Clash(Currency, kept.currency, e.fields.currency, e.source)
  }

  function AllClashes<V(==)>(kept: Fields<V>, group: seq<Event<V>>): seq<Conflict<V>> {
    if group == [] then [] else AllClashes(kept, group[..|group| - 1]) + Clashes(kept, group[|group| - 1])
  }

  function SourceOf<V>(e: Event<V>): seq<Source> {
    [e.source]
  }

  /** r stands for the events of the group: it keeps the first value of each field, and its conflicts are, in
      stream order, exactly the values that differ from what is kept. */
  ghost predicate Reflects<V>(r: Canonical<V>, k: string, group: seq<Event<V>>) {
    && group != [] && r.key == k && r.name == group[0].name && r.id == group[0].id
    && r.fields == First(group)
    && r.sources == Gather(SourceOf, group)
    && r.conflicts == AllClashes(First(group), group)
  }

  function Get<V>(fields: Fields<V>, f: FieldName): Option<V> {
    match f case Order => fields.order case Value => fields.value case Currency => fields.currency
  }

  predicate FirstAt<V>(group: seq<Event<V>>, f: FieldName, i: nat)
    requires i < |group|
  {
    Get(group[i].fields, f).Some? && forall j :: 0 <= j < i ==> Get(group[j].fields, f).None?
  }

  /** The kept value is the first that is not null, and is missing only if there is none. */
  lemma {:induction false} FirstMeans<V>(group: seq<Event<V>>, f: FieldName)
    ensures match Get(First(group), f)
            case None => forall i :: 0 <= i < |group| ==> Get(group[i].fields, f).None?
            case Some(v) => exists i :: 0 <= i < |group| && Get(group[i].fields, f) == Some(v) && FirstAt(group, f, i)
  {
    if group != [] {
      var front := group[..|group| - 1];
      FirstMeans(front, f);
      if Get(First(front), f).Some? {
        var i :| 0 <= i < |front| && Get(front[i].fields, f) == Get(First(front), f) && FirstAt(front, f, i);
        assert FirstAt(group, f, i);
      } else if Get(group[|front|].fields, f).Some? {
        assert FirstAt(group, f, |front|);
      }
    }
  }

  /** x is how event e contradicts the kept values. */
  predicate Contradicts<V(==)>(kept: Fields<V>, e: Event<V>, x: Conflict<V>) {
    Get(kept, x.field) == Some(x.kept) && x.kept != x.received && e.source == x.source
    && Get(e.fields, x.field) == Some(x.received)
  }

  lemma ClashMeans<V>(kept: Fields<V>, e: Event<V>, x: Conflict<V>)
    ensures x in Clashes(kept, e) <==> Contradicts(kept, e, x)
  {
  }

  lemma {:induction false} ClashesMean<V>(kept: Fields<V>, group: seq<Event<V>>, x: Conflict<V>)
    ensures x in AllClashes(kept, group) <==> exists j :: 0 <= j < |group| && Contradicts(kept, group[j], x)
  {
    if group != [] {
      ClashesMean(kept, group[..|group| - 1], x);
      ClashMeans(kept, group[|group| - 1], x);
    }
  }

  /** A conflict is a received value, later than the kept one and different from it. */
  lemma {:induction false} ConflictsMean<V>(group: seq<Event<V>>, x: Conflict<V>)
    ensures x in AllClashes(First(group), group) <==>
              exists i, j :: 0 <= i < j < |group| && FirstAt(group, x.field, i)
                && Get(group[i].fields, x.field) == Some(x.kept)
                             && Contradicts(First(group), group[j], x)
  {
    ClashesMean(First(group), group, x);
    FirstMeans(group, x.field);
    if j :| 0 <= j < |group| && Contradicts(First(group), group[j], x) {
      var i :| 0 <= i < |group| && Get(group[i].fields, x.field) == Some(x.kept) && FirstAt(group, x.field, i);
      assert i < j;
    }
  }

  // ----- One more event -----

  ghost predicate Without<V>(group: seq<Event<V>>, f: FieldName) {
    forall i :: 0 <= i < |group| ==> Get(group[i].fields, f).None?
  }

  /** The kept values may change on fields of which the events have no value. */
  lemma {:induction false} EarlierClashes<V>(group: seq<Event<V>>, kept: Fields<V>, kept': Fields<V>)
    requires kept.order == kept'.order || Without(group, Order)
    requires kept.value == kept'.value || Without(group, Value)
    requires kept.currency == kept'.currency || Without(group, Currency)
    ensures AllClashes(kept', group) == AllClashes(kept, group)
  {
    if group != [] {
      var front, last := group[..|group| - 1], group[|group| - 1];
      assert forall f :: Without(group, f) ==> Without(front, f) && Get(last.fields, f).None?;
      EarlierClashes(front, kept, kept');
    }
  }

  /** One more event of the same key fills in what is missing and adds its own contradictions. */
  lemma ReflectsMore<V>(r: Canonical<V>, k: string, group: seq<Event<V>>, e: Event<V>)
    requires Reflects(r, k, group)
    ensures Reflects(r.(fields := FillAll(r.fields, e.fields), sources := r.sources + [e.source],
                        conflicts := r.conflicts + Clashes(r.fields, e)), k, group + [e])
  {
    var more, kept := group + [e], FillAll(r.fields, e.fields);
    assert more[..|group|] == group && more[|group|] == e;
    assert First(more) == kept;
    GatherMore(SourceOf, group, e);
    FirstMeans(group, Order);
    FirstMeans(group, Value);
    FirstMeans(group, Currency);
    assert Get(r.fields, Order) == r.fields.order && Get(r.fields, Value) == r.fields.value
           && Get(r.fields, Currency) == r.fields.currency;
    EarlierClashes(group, r.fields, kept);
    assert Clashes(kept, e) == Clashes(r.fields, e);
  }

  lemma ReflectsOne<V>(k: string, e: Event<V>)
    ensures Reflects(Canonical(k, e.name, e.id, e.fields, [e.source], []), k, [e])
  {
  }

  // ----- The pass over the stream -----

  /** The keys of a stream in the order in which they first occur. */
  function Keys<V>(digest: Event<V> -> string, stream: seq<Event<V>>): seq<string> {
    if stream == [] then []
    else
      var before, k := Keys(digest, stream[..|stream| - 1]), Key(digest, stream[|stream| - 1]);
      if k in before then before else before + [k]
  }

  lemma {:induction false} KeysUnique<V>(digest: Event<V> -> string, stream: seq<Event<V>>)
    ensures Unique(Keys(digest, stream))
  {
    if stream != [] {
      var front, k := stream[..|stream| - 1], Key(digest, stream[|stream| - 1]);
      KeysUnique(digest, front);
      UniqueMore(Keys(digest, front), k);
    }
  }

  lemma GroupMore<V>(digest: Event<V> -> string, stream: seq<Event<V>>, e: Event<V>, k: string)
    ensures Group(digest, stream + [e], k)
            == if Key(digest, e) == k then Group(digest, stream, k) + [e] else Group(digest, stream, k)
  {
  }

  lemma KeysMore<V>(digest: Event<V> -> string, stream: seq<Event<V>>, e: Event<V>)
    ensures var before, k := Keys(digest, stream), Key(digest, e);
            Keys(digest, stream + [e]) == if k in before then before else before + [k]
  {
  }

  ghost predicate Occurs<V>(digest: Event<V> -> string, stream: seq<Event<V>>, k: string) {
    exists e :: e in stream && Key(digest, e) == k
  }

  lemma {:induction false} KeysMember<V>(digest: Event<V> -> string, stream: seq<Event<V>>, k: string)
    ensures k in Keys(digest, stream) <==> Group(digest, stream, k) != []
    ensures k in Keys(digest, stream) <==> Occurs(digest, stream, k)
  {
    if stream != [] {
      hide Key, Group, Keys;
      var front, last := stream[..|stream| - 1], stream[|stream| - 1];
      assert stream == front + [last];
      KeysMember(digest, front, k);
      KeysMore(digest, front, last);
      GroupMore(digest, front, last, k);
      assert forall e :: e in stream <==> e in front || e == last;
    }
  }

  ghost predicate Collected<V>(digest: Event<V> -> string, stream: seq<Event<V>>,
                               canonical: map<string, Canonical<V>>) {
    && (forall k :: k in canonical <==> k in Keys(digest, stream))
    && (forall k :: k in canonical ==> Reflects(canonical[k], k, Group(digest, stream, k)))
  }

  lemma {:induction false} CollectedMore<V>(digest: Event<V> -> string, stream: seq<Event<V>>,
                                            canonical: map<string, Canonical<V>>,
                         e: Event<V>, r: Canonical<V>)
    requires Collected(digest, stream, canonical)
    requires var k := Key(digest, e); Reflects(r, k, Group(digest, stream, k) + [e])
    ensures Collected(digest, stream + [e], canonical[Key(digest, e) := r])
  {
    hide Key, Group, Keys, Reflects;
    KeysMore(digest, stream, e);
    forall q ensures Group(digest, stream + [e], q)
                     == if Key(digest, e) == q then Group(digest, stream, q) + [e] else Group(digest, stream, q)
    {
      GroupMore(digest, stream, e, q);
    }
  }

  method Merge<V(==)>(field: FieldName, existing: Option<V>, incoming: Option<V>, source: Source)
    returns (kept: Option<V>, conflicts: seq<Conflict<V>>)
    ensures kept == Fill(existing, incoming) && conflicts == Clash(field, existing, incoming, source)
  {
    kept, conflicts := existing, [];
    if existing.None? && incoming.Some? {
      kept := incoming;
    } else if incoming.Some? && existing.Some? && existing != incoming {
      conflicts := [Conflict(field, existing.value, incoming.value, source)];
    }
  }

  method Absorb<V(==)>(r: Canonical<V>, e: Event<V>) returns (more: Canonical<V>)
    ensures more == r.(fields := FillAll(r.fields, e.fields), sources := r.sources + [e.source],
                       conflicts := r.conflicts + Clashes(r.fields, e))
  {
    var order, a := Merge(Order, r.fields.order, e.fields.order, e.source);
    var value, b := Merge(Value, r.fields.value, e.fields.value, e.source);
    var currency, c := Merge(Currency, r.fields.currency, e.fields.currency, e.source);
    more := r.(fields := Fields(order, value, currency), sources := r.sources + [e.source],
               conflicts := r.conflicts + (a + b + c));
  }

  function MissingIds<V>(digest: Event<V> -> string, stream: seq<Event<V>>): seq<Warning<V>> {
    if stream == [] then []
    else
      var last := stream[|stream| - 1];
      MissingIds(digest, stream[..|stream| - 1])
      + (if HasId(last) then [] else [MissingId(last.source, Key(digest, last))])
  }

  method Collect<V(==)>(digest: Event<V> -> string, stream: seq<Event<V>>)
    returns (canonical: map<string, Canonical<V>>, keys: seq<string>, warnings: seq<Warning<V>>)
    ensures Collected(digest, stream, canonical) && keys == Keys(digest, stream)
    ensures warnings == MissingIds(digest, stream)
  {
    hide Reflects, Key;
    canonical, keys, warnings := map[], [], [];
    var n := 0;
    while n < |stream|
      invariant n <= |stream| && Collected(digest, stream[..n], canonical) && keys == Keys(digest, stream[..n])
      invariant warnings == MissingIds(digest, stream[..n])
    {
      var e := stream[n];
      var k := Key(digest, e);
      assert stream[..n + 1] == stream[..n] + [e];
      assert stream[..n + 1][..n] == stream[..n];
      KeysMember(digest, stream[..n], k);
      if !HasId(e) { warnings := warnings + [MissingId(e.source, k)]; }
      var r;
      if k !in canonical {
        r := Canonical(k, e.name, e.id, e.fields, [e.source], []);
        ReflectsOne(k, e);
        assert Group(digest, stream[..n], k) + [e] == [e];
        keys := keys + [k];
      } else {
        r := Absorb(canonical[k], e);
        ReflectsMore(canonical[k], k, Group(digest, stream[..n], k), e);
      }
      CollectedMore(digest, stream[..n], canonical, e, r);
      canonical := canonical[k := r];
      n := n + 1;
    }
    assert stream[..n] == stream;
  }

  // ----- Outcomes -----

  /** The last result known for an order; orders that count as empty are never looked up. */
  function OutcomeFor<V(==)>(outcomes: seq<Outcome<V>>, present: V -> bool, order: Option<V>): Option<Outcome<V>> {
    if outcomes == [] then None
    else
      var last := outcomes[|outcomes| - 1];
      if last.order.Some? && present(last.order.value) && last.order == order then Some(last)
      else OutcomeFor(outcomes[..|outcomes| - 1], present, order)
  }

  method IndexOutcomes<V(==)>(outcomes: seq<Outcome<V>>, present: V -> bool) returns (index: map<V, Outcome<V>>)
    ensures forall v :: OutcomeFor(outcomes, present, Some(v)) == if v in index then Some(index[v]) else None
    ensures OutcomeFor(outcomes, present, None) == None
  {
    index := map[];
    var n := 0;
    while n < |outcomes|
      invariant n <= |outcomes|
      invariant forall v :: OutcomeFor(outcomes[..n], present, Some(v)) == if v in index then Some(index[v]) else None
      invariant OutcomeFor(outcomes[..n], present, None) == None
    {
      var o := outcomes[n];
      assert outcomes[..n + 1][..n] == outcomes[..n];
      if o.order.Some? && present(o.order.value) { index := index[o.order.value := o]; }
      n := n + 1;
    }
    assert outcomes[..n] == outcomes;
  }

  predicate Verified(status: string) {
    status in {"settled", "qualified", "active"}
  }

  predicate Undone(status: string) {
    status in {"refunded", "cancelled", "disputed"}
  }

  function CountIf<V>(found: seq<Option<Outcome<V>>>, p: string -> bool): nat {
    if found == [] then 0
    else
      var last := found[|found| - 1];
      CountIf(found[..|found| - 1], p) + (if last.Some? && p(last.value.status) then 1 else 0)
  }

  function FieldsOfConflicts<V>(conflicts: seq<Conflict<V>>): seq<FieldName> {
    seq(|conflicts|, i requires 0 <= i < |conflicts| => conflicts[i].field)
  }

  function ConflictWarnings<V>(events: seq<Canonical<V>>): seq<Warning<V>> {
    if events == [] then []
    else
      var last := events[|events| - 1];
      ConflictWarnings(events[..|events| - 1])
      + (if last.conflicts != [] then [EventConflict(last.key, FieldsOfConflicts(last.conflicts))] else [])
  }

  function Repeats<V>(events: seq<Canonical<V>>): int {
    if events == [] then 0 else Repeats(events[..|events| - 1]) + |events[|events| - 1].sources| - 1
  }

  // ----- Conservation -----

  function Sizes<V>(digest: Event<V> -> string, stream: seq<Event<V>>, keys: seq<string>): nat {
    if keys == [] then 0
    else Sizes(digest, stream, keys[..|keys| - 1]) + |Group(digest, stream, keys[|keys| - 1])|
  }

  lemma CountMore(keys: seq<string>, last: string, k: string)
    ensures multiset(keys + [last])[k] == multiset(keys)[k] + (if last == k then 1 else 0)
  {
  }

  lemma SizesStep<V>(digest: Event<V> -> string, stream: seq<Event<V>>, keys: seq<string>, last: string)
    ensures Sizes(digest, stream, keys + [last]) == Sizes(digest, stream, keys) + |Group(digest, stream, last)|
  {
  }

  lemma {:induction false} SizesMore<V>(digest: Event<V> -> string, stream: seq<Event<V>>, e: Event<V>,
                                        keys: seq<string>)
    ensures Sizes(digest, stream + [e], keys) == Sizes(digest, stream, keys) + multiset(keys)[Key(digest, e)]
  {
    if keys != [] {
      hide Key, Group, Sizes;
      var front, last := keys[..|keys| - 1], keys[|keys| - 1];
      assert keys == front + [last];
      GroupMore(digest, stream, e, last);
      SizesMore(digest, stream, e, front);
      SizesStep(digest, stream, front, last);
      SizesStep(digest, stream + [e], front, last);
      CountMore(front, last, Key(digest, e));
    }
  }

  lemma {:induction false} SizesNone<V>(digest: Event<V> -> string, keys: seq<string>)
    ensures Sizes(digest, [], keys) == 0
  {
    if keys != [] { SizesNone(digest, keys[..|keys| - 1]); }
  }

  /** Every event is in the group of exactly one key. */
  lemma {:induction false} SizesAll<V>(digest: Event<V> -> string, stream: seq<Event<V>>, keys: seq<string>)
    requires Unique(keys) && forall i :: 0 <= i < |stream| ==> Key(digest, stream[i]) in keys
    ensures Sizes(digest, stream, keys) == |stream|
  {
    if stream == [] {
      SizesNone(digest, keys);
    } else {
      var front, last := stream[..|stream| - 1], stream[|stream| - 1];
      SizesAll(digest, front, keys);
      assert stream == front + [last];
      SizesMore(digest, front, last, keys);
      assert Key(digest, last) in multiset(keys);
    }
  }

  /** events are the canonical events of the stream, in the order in which their keys first occur. */
  ghost predicate Canonicals<V>(digest: Event<V> -> string, stream: seq<Event<V>>, events: seq<Canonical<V>>) {
    && |events| == |Keys(digest, stream)|
    && forall i :: 0 <= i < |events| ==>
         Reflects(events[i], Keys(digest, stream)[i], Group(digest, stream, Keys(digest, stream)[i]))
  }

  lemma {:induction false} RepeatsSizes<V>(digest: Event<V> -> string, stream: seq<Event<V>>, keys: seq<string>,
                                           events: seq<Canonical<V>>)
    requires |events| == |keys|
    requires forall i :: 0 <= i < |events| ==> Reflects(events[i], keys[i], Group(digest, stream, keys[i]))
    ensures Repeats(events) == Sizes(digest, stream, keys) - |keys| && 0 <= Repeats(events)
  {
    if keys != [] {
      var k := |keys| - 1;
      RepeatsSizes(digest, stream, keys[..k], events[..k]);
      assert Reflects(events[k], keys[k], Group(digest, stream, keys[k]));
      SourcesCounted(Group(digest, stream, keys[k]));
    }
  }

  lemma {:induction false} SourcesCounted<V>(group: seq<Event<V>>)
    ensures |Gather(SourceOf, group)| == |group|
  {
    if group != [] { SourcesCounted(group[..|group| - 1]); }
  }

  /** No event is lost: each raw event is a canonical one or a duplicate. */
  lemma {:induction false} Conservation<V>(digest: Event<V> -> string, stream: seq<Event<V>>, events: seq<Canonical<V>>)
    requires Canonicals(digest, stream, events)
    ensures |stream| == |events| + Repeats(events) && 0 <= Repeats(events)
  {
    var keys := Keys(digest, stream);
    KeysUnique(digest, stream);
    forall i | 0 <= i < |stream| ensures Key(digest, stream[i]) in keys {
      assert stream[i] in stream;
      KeysMember(digest, stream, Key(digest, stream[i]));
    }
    SizesAll(digest, stream, keys);
    RepeatsSizes(digest, stream, keys, events);
  }

  // ----- The whole report -----

  ghost predicate Found<V>(outcomes: seq<Outcome<V>>, present: V -> bool, events: seq<Canonical<V>>,
                           found: seq<Option<Outcome<V>>>) {
    && |found| == |events|
    && forall i :: 0 <= i < |events| ==> found[i] == OutcomeFor(outcomes, present, events[i].fields.order)
  }

  method Tally<V(==)>(canonical: map<string, Canonical<V>>, keys: seq<string>, outcomes: seq<Outcome<V>>,
                      present: V -> bool)
    returns (events: seq<Canonical<V>>, found: seq<Option<Outcome<V>>>, verified: nat, undone: nat,
             duplicates: int, warnings: seq<Warning<V>>)
    requires forall i :: 0 <= i < |keys| ==> keys[i] in canonical
    ensures |events| == |keys| && forall i :: 0 <= i < |keys| ==> events[i] == canonical[keys[i]]
    ensures Found(outcomes, present, events, found)
    ensures verified == CountIf(found, Verified) && undone == CountIf(found, Undone)
    ensures duplicates == Repeats(events) && warnings == ConflictWarnings(events)
  {
    var index := IndexOutcomes(outcomes, present);
    events, found, verified, undone, duplicates, warnings := [], [], 0, 0, 0, [];
    while |events| < |keys|
      invariant |events| <= |keys| && forall i :: 0 <= i < |events| ==> events[i] == canonical[keys[i]]
      invariant Found(outcomes, present, events, found)
      invariant verified == CountIf(found, Verified) && undone == CountIf(found, Undone)
      invariant duplicates == Repeats(events) && warnings == ConflictWarnings(events)
    {
      var e := canonical[keys[|events|]];
      var outcome := None;
      if e.fields.order.Some? && e.fields.order.value in index { outcome := Some(index[e.fields.order.value]); }
      assert outcome == OutcomeFor(outcomes, present, e.fields.order);
      if outcome.Some? && Verified(outcome.value.status) { verified := verified + 1; }
      if outcome.Some? && Undone(outcome.value.status) { undone := undone + 1; }
      if e.conflicts != [] { warnings := warnings + [EventConflict(e.key, FieldsOfConflicts(e.conflicts))]; }
      duplicates := duplicates + |e.sources| - 1;
      assert (events + [e])[..|events|] == events && (found + [outcome])[..|found|] == found;
      events, found := events + [e], found + [outcome];
    }
  }

  /** No outcome counts twice. */
  lemma {:induction false} CountsDisjoint<V>(found: seq<Option<Outcome<V>>>)
    ensures CountIf(found, Verified) + CountIf(found, Undone) <= |found|
  {
    if found != [] { CountsDisjoint(found[..|found| - 1]); }
  }

  /** Reconciles the browser events and then the server events. */
  method Reconcile<V(==)>(digest: Event<V> -> string, browser: seq<Event<V>>, server: seq<Event<V>>,
                          outcomes: seq<Outcome<V>>, present: V -> bool) returns (report: Report<V>)
    ensures Canonicals(digest, browser + server, report.events)
    ensures report.raw == |browser| + |server| && report.canonical == |report.events|
    ensures report.raw == report.canonical + report.duplicates
    ensures Found(outcomes, present, report.events, report.outcomes)
    ensures report.verified == CountIf(report.outcomes, Verified) && report.undone == CountIf(report.outcomes, Undone)
    ensures report.verified + report.undone <= report.canonical
    ensures forall status :: Verified(status) <==> status in ["settled", "qualified", "active"]
    ensures forall status :: Undone(status) <==> status in ["refunded", "cancelled", "disputed"]
    ensures report.warnings == MissingIds(digest, browser + server) + ConflictWarnings(report.events)
  {
    var stream := browser + server;
    var canonical, keys, missing := Collect(digest, stream);
    var events, found, verified, undone, duplicates, conflicts := Tally(canonical, keys, outcomes, present);
    Conservation(digest, stream, events);
    CountsDisjoint(found);
    report := Report(|stream|, |events|, duplicates, verified, undone, events, found, missing + conflicts);
  }

  /** How many canonical events there are does not depend on the order of the stream. */
  lemma CanonicalCountPermuted<V>(digest: Event<V> -> string, stream: seq<Event<V>>, stream': seq<Event<V>>)
    requires multiset(stream) == multiset(stream')
    ensures multiset(Keys(digest, stream)) == multiset(Keys(digest, stream'))
  {
    SameElements(stream, stream');
    KeysUnique(digest, stream);
    KeysUnique(digest, stream');
    forall k ensures k in Keys(digest, stream) <==> k in Keys(digest, stream') {
      KeysMember(digest, stream, k);
      KeysMember(digest, stream', k);
    }
    UniqueSame(Keys(digest, stream), Keys(digest, stream'));
  }
}
