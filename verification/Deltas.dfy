/** Deltas between snapshots (internal/snapshot/delta.go): what changed from one snapshot to
    another, and its application to the first. */
module Deltas {
  import opened Model
  import Sorting

  datatype Delta = Delta(
    environmentKey: string,
    projectKey: string,
    fromVersion: int,
    toVersion: int,
    upsertedFlags: seq<ResolvedFlag>,
    deletedFlags: seq<string>,
    upsertedSegments: seq<Segment>,
    deletedSegments: seq<string>,
    checksum: string)

  /** The JSON encoder, as far as it matters here: the text of an entry, and the sizes that
      decide whether a delta is worth sending. */
  datatype Encoder = Encoder(
    flagText: ResolvedFlag -> string,
    segmentText: Segment -> string,
    deltaSize: Delta -> nat,
    snapshotSize: Snapshot -> nat)

  function FlagKey(f: ResolvedFlag): string {
    f.key
  }

  function SegmentKey(s: Segment): string {
    s.key
  }

  // ----- What a delta contains -----

  /** Entries that are new, or whose text is another. */
  function Changed<V>(from: map<string, V>, to: map<string, V>, text: V -> string): set<string> {
    set k | k in to && (k !in from || text(from[k]) != text(to[k]))
  }

  function Gone<V>(from: map<string, V>, to: map<string, V>): set<string> {
    from.Keys - to.Keys
  }

  function Values<V>(m: map<string, V>, keys: seq<string>): (values: seq<V>)
    requires forall k | k in keys :: k in m
    ensures |values| == |keys|
  {
    if keys == [] then [] else Values(m, keys[..|keys| - 1]) + [m[keys[|keys| - 1]]]
  }

  /** `values` are the entries of `m` under the given keys, each once, in any order. */
  ghost predicate ListsValues<V>(values: seq<V>, m: map<string, V>, keys: set<string>) {
    exists order: seq<string> ::
      && Sorting.Distinct(order) && Sorting.KeySet(order) == keys
      && (forall k | k in order :: k in m)
      && values == Values(m, order)
  }

  ghost predicate ListsKeys(order: seq<string>, keys: set<string>) {
    Sorting.Distinct(order) && Sorting.KeySet(order) == keys
  }

  ghost predicate IsDelta(e: Encoder, from: Snapshot, to: Snapshot, d: Delta) {
    && d.environmentKey == to.environmentKey && d.projectKey == to.projectKey
    && d.fromVersion == from.version && d.toVersion == to.version && d.checksum == to.checksum
    && ListsValues(d.upsertedFlags, to.flags, Changed(from.flags, to.flags, e.flagText))
    && ListsKeys(d.deletedFlags, Gone(from.flags, to.flags))
    && ListsValues(d.upsertedSegments, to.segments, Changed(from.segments, to.segments, e.segmentText))
    && ListsKeys(d.deletedSegments, Gone(from.segments, to.segments))
  }

  // ----- Computing it -----

  lemma AppendKey(keys: seq<string>, k: string)
    requires Sorting.Distinct(keys) && k !in Sorting.KeySet(keys)
    ensures Sorting.Distinct(keys + [k]) && Sorting.KeySet(keys + [k]) == Sorting.KeySet(keys) + {k}
  {
    assert forall i | 0 <= i < |keys| :: keys[i] in Sorting.KeySet(keys);
  }

  method Upserts<V>(from: map<string, V>, to: map<string, V>, text: V -> string) returns (upserted: seq<V>)
    ensures ListsValues(upserted, to, Changed(from, to, text))
  {
    upserted := [];
    ghost var order: seq<string> := [];
    var rest := to.Keys;
    while rest != {}
      invariant rest <= to.Keys
      invariant Sorting.Distinct(order) && Sorting.KeySet(order) == Changed(from, to, text) - rest
      invariant (forall k | k in order :: k in to) && upserted == Values(to, order)
    {
      var key :| key in rest;
      if key !in from || text(from[key]) != text(to[key]) {
        AppendKey(order, key);
        upserted := upserted + [to[key]];
        order := order + [key];
      }
      rest := rest - {key};
    }
    assert Changed(from, to, text) - rest == Changed(from, to, text);
  }

  method Deletes<V>(from: map<string, V>, to: map<string, V>) returns (deleted: seq<string>)
    ensures ListsKeys(deleted, Gone(from, to))
  {
    deleted := [];
    var rest := from.Keys;
    while rest != {}
      invariant rest <= from.Keys
      invariant ListsKeys(deleted, Gone(from, to) - rest)
    {
      var key :| key in rest;
      if key !in to {
        AppendKey(deleted, key);
        deleted := deleted + [key];
      }
      rest := rest - {key};
    }
    assert Gone(from, to) - rest == Gone(from, to);
  }

  /** Go's map iteration may list the changes in any order, which is all that is open about
      the delta; there is none exactly when it would take more than 30 percent of the full
      snapshot. */
  method ComputeDelta(e: Encoder, from: Snapshot, to: Snapshot) returns (delta: Option<Delta>)
    ensures delta.Some? ==> IsDelta(e, from, to, delta.value)
    ensures delta.Some? ==> delta.value.fromVersion == from.version && delta.value.toVersion == to.version
    ensures delta.Some? ==> delta.value.environmentKey == to.environmentKey && delta.value.projectKey == to.projectKey
    ensures delta.Some? ==> delta.value.checksum == to.checksum
    ensures delta.Some? ==> e.deltaSize(delta.value) * 10 <= e.snapshotSize(to) * 3 || e.snapshotSize(to) == 0
    ensures delta.None? ==> exists d :: IsDelta(e, from, to, d) && e.deltaSize(d) * 10 > e.snapshotSize(to) * 3 > 0
  {
    var upsertedFlags := Upserts(from.flags, to.flags, e.flagText);
    var deletedFlags := Deletes(from.flags, to.flags);
    var upsertedSegments := Upserts(from.segments, to.segments, e.segmentText);
    var deletedSegments := Deletes(from.segments, to.segments);
    var d := Delta(to.environmentKey, to.projectKey, from.version, to.version,
                   upsertedFlags, deletedFlags, upsertedSegments, deletedSegments, to.checksum);
    assert IsDelta(e, from, to, d);
    if e.snapshotSize(to) > 0 {
      RatioAbove(e.deltaSize(d), e.snapshotSize(to));
      if e.deltaSize(d) as real / e.snapshotSize(to) as real > 0.30 {
        return None;
      }
    }
    return Some(d);
  }

  lemma RatioAbove(part: nat, whole: nat)
    requires whole > 0
    ensures part as real / whole as real > 0.30 <==> part * 10 > whole * 3
  {
    var ratio := part as real / whole as real;
    assert ratio * whole as real == part as real;
    Scaled(ratio, 0.30, whole as real);
  }

  lemma Scaled(x: real, y: real, factor: real)
    requires factor > 0.0
    ensures x > y <==> x * factor > y * factor
  {
  }

  // ----- Applying it -----

  function Put<V>(m: map<string, V>, values: seq<V>, keyOf: V -> string): map<string, V> {
    if values == [] then m
    else
      var last := values[|values| - 1];
      Put(m, values[..|values| - 1], keyOf)[keyOf(last) := last]
  }

  ghost function Patched<V>(m: map<string, V>, values: seq<V>, keyOf: V -> string, deleted: seq<string>): map<string, V> {
    Put(m, values, keyOf) - Sorting.KeySet(deleted)
  }

  method Patch<V>(base: map<string, V>, values: seq<V>, keyOf: V -> string, deleted: seq<string>)
    returns (next: map<string, V>)
    ensures next == Patched(base, values, keyOf, deleted)
  {
    next := map[];
    var rest := base.Keys;
    while rest != {}
      invariant rest <= base.Keys
      invariant next == base - rest
    {
      var k :| k in rest;
      next := next[k := base[k]];
      rest := rest - {k};
    }
    for i := 0 to |values|
      invariant next == Put(base, values[..i], keyOf)
    {
      assert values[..i + 1][..i] == values[..i];
      next := next[keyOf(values[i]) := values[i]];
    }
    assert values[..|values|] == values;
    for i := 0 to |deleted|
      invariant next == Put(base, values, keyOf) - Sorting.KeySet(deleted[..i])
    {
      assert Sorting.KeySet(deleted[..i + 1]) == Sorting.KeySet(deleted[..i]) + {deleted[i]};
      next := next - {deleted[i]};
    }
    assert deleted[..|deleted|] == deleted;
  }

  ghost function Applied(base: Snapshot, d: Delta): Snapshot {
    Snapshot(base.environmentKey, base.projectKey, d.toVersion,
             Patched(base.flags, d.upsertedFlags, FlagKey, d.deletedFlags),
             Patched(base.segments, d.upsertedSegments, SegmentKey, d.deletedSegments),
             d.checksum, base.publishedAt)
  }

  method ApplyDelta(base: Snapshot, d: Delta) returns (next: Snapshot)
    ensures next == Applied(base, d)
  {
    var flags := Patch(base.flags, d.upsertedFlags, FlagKey, d.deletedFlags);
    var segments := Patch(base.segments, d.upsertedSegments, SegmentKey, d.deletedSegments);
    next := Snapshot(base.environmentKey, base.projectKey, d.toVersion, flags, segments, d.checksum, base.publishedAt);
  }

  // ----- The round trip -----

  /** Map keys match their entries' keys. */
  ghost predicate Keyed<V>(m: map<string, V>, keyOf: V -> string) {
    forall k | k in m :: keyOf(m[k]) == k
  }

  ghost function Restrict<V>(m: map<string, V>, keys: set<string>): map<string, V> {
    map k | k in keys && k in m :: m[k]
  }

  lemma RestrictAdd<V>(base: map<string, V>, to: map<string, V>, keys: set<string>, k: string)
    requires k in to
    ensures (base + Restrict(to, keys))[k := to[k]] == base + Restrict(to, keys + {k})
  {
  }

  lemma PutLast<V>(base: map<string, V>, values: seq<V>, v: V, keyOf: V -> string)
    ensures Put(base, values + [v], keyOf) == Put(base, values, keyOf)[keyOf(v) := v]
  {
    assert (values + [v])[..|values|] == values;
  }

  lemma {:induction false} PutInOrder<V>(base: map<string, V>, to: map<string, V>, keyOf: V -> string, order: seq<string>)
    requires Keyed(to, keyOf) && forall k | k in order :: k in to
    ensures Put(base, Values(to, order), keyOf) == base + Restrict(to, Sorting.KeySet(order))
  {
    if order == [] {
      assert base + Restrict(to, Sorting.KeySet(order)) == base;
    } else {
      var n := |order| - 1;
      var before, last := order[..n], order[n];
      PutInOrder(base, to, keyOf, before);
      assert last in order;
      assert order == before + [last];
      assert Sorting.KeySet(order) == Sorting.KeySet(before) + {last};
      assert Values(to, order) == Values(to, before) + [to[last]];
      PutLast(base, Values(to, before), to[last], keyOf);
      RestrictAdd(base, to, Sorting.KeySet(before), last);
      hide Put, Values, Restrict;
    }
  }

  /** Whatever the order of the changes, applying them leaves every key of the target with
      the target's entry, or with the old one if the texts do not differ. */
  lemma PatchedEntries<V>(from: map<string, V>, to: map<string, V>, text: V -> string, keyOf: V -> string,
                          values: seq<V>, deleted: seq<string>)
    requires Keyed(to, keyOf)
    requires ListsValues(values, to, Changed(from, to, text)) && ListsKeys(deleted, Gone(from, to))
    ensures
      var result := Patched(from, values, keyOf, deleted);
      && result.Keys == to.Keys
      && forall k | k in to :: result[k] == if k in Changed(from, to, text) then to[k] else from[k]
  {
    var order: seq<string> :|
      && Sorting.Distinct(order) && Sorting.KeySet(order) == Changed(from, to, text)
      && (forall k | k in order :: k in to)
      && values == Values(to, order);
    PutInOrder(from, to, keyOf, order);
  }

  /** The encoder's texts tell the old entry under a key from the new one. */
  ghost predicate Tells<V>(from: map<string, V>, to: map<string, V>, text: V -> string) {
    forall k | k in from && k in to && text(from[k]) == text(to[k]) :: from[k] == to[k]
  }

  lemma PatchedIff<V>(from: map<string, V>, to: map<string, V>, text: V -> string, keyOf: V -> string,
                      values: seq<V>, deleted: seq<string>)
    requires Keyed(to, keyOf)
    requires ListsValues(values, to, Changed(from, to, text)) && ListsKeys(deleted, Gone(from, to))
    ensures Patched(from, values, keyOf, deleted) == to <==> Tells(from, to, text)
  {
    PatchedEntries(from, to, text, keyOf, values, deleted);
    var result := Patched(from, values, keyOf, deleted);
    if Tells(from, to, text) {
      forall k | k in to ensures result[k] == to[k] {
      }
    } else {
      var k :| k in from && k in to && text(from[k]) == text(to[k]) && from[k] != to[k];
      assert result[k] == from[k];
    }
  }

  ghost predicate WellKeyed(s: Snapshot) {
    Keyed(s.flags, FlagKey) && Keyed(s.segments, SegmentKey)
  }

  ghost predicate Agrees(s: Snapshot, t: Snapshot) {
    SameContent(s, t) && s.checksum == t.checksum
  }

  /** Applying a delta to its old snapshot, or to one that agrees with it, gives the new
      snapshot's flags, segments, version and checksum exactly when the encoder tells the
      entries apart. */
  lemma DeltaRoundTripIff(e: Encoder, from: Snapshot, to: Snapshot, base: Snapshot, d: Delta)
    requires IsDelta(e, from, to, d) && WellKeyed(to) && Agrees(base, from)
    requires from.environmentKey == to.environmentKey && from.projectKey == to.projectKey
    ensures Agrees(Applied(base, d), to) <==> TellsApart(e, from, to)
    ensures Applied(base, d).version == to.version && Applied(base, d).checksum == to.checksum
    ensures Applied(base, d).environmentKey == base.environmentKey && Applied(base, d).projectKey == base.projectKey
    ensures Applied(base, d).publishedAt == base.publishedAt
  {
    PatchedIff(from.flags, to.flags, e.flagText, FlagKey, d.upsertedFlags, d.deletedFlags);
    PatchedIff(from.segments, to.segments, e.segmentText, SegmentKey, d.upsertedSegments, d.deletedSegments);
  }

  /** A delta names only what changed, and never the same key twice. */
  lemma NamesOnlyChanges<V>(from: map<string, V>, to: map<string, V>, text: V -> string, keyOf: V -> string,
                            values: seq<V>, deleted: seq<string>)
    requires Keyed(to, keyOf)
    requires ListsValues(values, to, Changed(from, to, text)) && ListsKeys(deleted, Gone(from, to))
    ensures forall i | 0 <= i < |values| :: keyOf(values[i]) in Changed(from, to, text) && keyOf(values[i]) !in deleted
    ensures forall i, j | 0 <= i < j < |values| :: keyOf(values[i]) != keyOf(values[j])
    ensures forall k | k in deleted :: k in from && k !in to
  {
    var order: seq<string> :|
      && Sorting.Distinct(order) && Sorting.KeySet(order) == Changed(from, to, text)
      && (forall k | k in order :: k in to)
      && values == Values(to, order);
    forall i | 0 <= i < |order| ensures values[i] == to[order[i]] && order[i] in Changed(from, to, text) {
      ValueAt(to, order, i);
      assert order[i] in Sorting.KeySet(order);
    }
    forall k | k in deleted ensures k in from && k !in to {
      assert k in Sorting.KeySet(deleted);
    }
  }

  lemma {:induction false} ValueAt<V>(m: map<string, V>, keys: seq<string>, i: nat)
    requires i < |keys| && forall k | k in keys :: k in m
    ensures Values(m, keys)[i] == m[keys[i]]
  {
    if i < |keys| - 1 {
      ValueAt(m, keys[..|keys| - 1], i);
    }
  }

  ghost function AppliedAll(base: Snapshot, ds: seq<Delta>): Snapshot {
    if ds == [] then base else Applied(AppliedAll(base, ds[..|ds| - 1]), ds[|ds| - 1])
  }

  /** The encoder's texts tell the entries of these two snapshots apart. */
  ghost predicate TellsApart(e: Encoder, from: Snapshot, to: Snapshot) {
    Tells(from.flags, to.flags, e.flagText) && Tells(from.segments, to.segments, e.segmentText)
  }

  /** Deltas chain: applied one after the other they reach the last snapshot, if along the way
      no entry changed without its text changing. */
  lemma {:induction false} ChainReaches(e: Encoder, snaps: seq<Snapshot>, ds: seq<Delta>)
    requires |snaps| == |ds| + 1
    requires forall i | 0 <= i < |snaps| ::
               && WellKeyed(snaps[i])
               && snaps[i].environmentKey == snaps[0].environmentKey && snaps[i].projectKey == snaps[0].projectKey
    requires forall i | 0 <= i < |ds| :: IsDelta(e, snaps[i], snaps[i + 1], ds[i]) && TellsApart(e, snaps[i], snaps[i + 1])
    ensures Agrees(AppliedAll(snaps[0], ds), snaps[|ds|])
  {
    var n := |ds| - 1;
    if ds != [] {
      assert IsDelta(e, snaps[n], snaps[n + 1], ds[n]);
      ChainReaches(e, snaps[..|snaps| - 1], ds[..n]);
      DeltaRoundTripIff(e, snaps[n], snaps[n + 1], AppliedAll(snaps[0], ds[..n]), ds[n]);
    }
  }
}
