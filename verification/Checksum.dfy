/** The checksum of a snapshot: a digest of the canonical JSON of its content
    (internal/snapshot/canonical.go). */
module Checksum {
  import opened Model
  import opened Canonical
  import opened JsonStrings
  import Sorting
  import opened JsonTexts

  /** How entries and version numbers read as generic JSON values (a version takes a detour
      through a double), and the digest of a text in hexadecimal. */
  datatype Encoders = Encoders(
    flag: ResolvedFlag -> Json,
    segment: Segment -> Json,
    number: int -> NumberText,
    digest: string -> string)

  /** What the encoders write tells the entries of these two snapshots under the same key
      apart, and their versions. */
  ghost predicate Faithful(e: Encoders, s: Snapshot, t: Snapshot) {
    && (forall k | k in s.flags && k in t.flags && e.flag(s.flags[k]) == e.flag(t.flags[k]) :: s.flags[k] == t.flags[k])
    && (forall k | k in s.segments && k in t.segments && e.segment(s.segments[k]) == e.segment(t.segments[k]) ::
          s.segments[k] == t.segments[k])
    && (e.number(s.version) == e.number(t.version) ==> s.version == t.version)
  }

  function FlagObject(e: Encoders, flags: map<string, ResolvedFlag>): map<string, Json> {
    map k | k in flags :: e.flag(flags[k])
  }

  function SegmentObject(e: Encoders, segments: map<string, Segment>): map<string, Json> {
    map k | k in segments :: e.segment(segments[k])
  }

  /** Everything but the checksum itself and the time of publication. */
  function Payload(e: Encoders, s: Snapshot): Json {
    JObj(map[
      "environment_key" := JStr(s.environmentKey),
      "project_key" := JStr(s.projectKey),
      "version" := JNum(e.number(s.version)),
      "flags" := JObj(FlagObject(e, s.flags)),
      "segments" := JObj(SegmentObject(e, s.segments))])
  }

  method ChecksumOf(e: Encoders, s: Snapshot) returns (checksum: string)
    ensures checksum == "sha256:" + e.digest(Encode(Payload(e, s)))
  {
    var segments: map<string, Json> := map[];
    var rest := s.segments.Keys;
    while rest != {}
      invariant rest <= s.segments.Keys
      invariant segments == map k | k in s.segments && k !in rest :: e.segment(s.segments[k])
    {
      var k :| k in rest;
      segments := segments[k := e.segment(s.segments[k])];
      rest := rest - {k};
    }
    assert segments == SegmentObject(e, s.segments);
    var payload := JObj(map[
      "environment_key" := JStr(s.environmentKey),
      "project_key" := JStr(s.projectKey),
      "version" := JNum(e.number(s.version)),
      "flags" := JObj(FlagObject(e, s.flags)),
      "segments" := JObj(segments)]);
    var bytes := MarshalSorted(payload);
    checksum := "sha256:" + e.digest(bytes);
  }

  /** The digest is taken of the same text exactly when two snapshots have the same content,
      unless a difference is lost in encoding an entry or a version. */
  lemma DigestedTextIff(e: Encoders, s: Snapshot, t: Snapshot)
    ensures
      var same := Encode(Payload(e, s)) == Encode(Payload(e, t));
      && (SameContent(s, t) ==> same)
      && (same ==> (SameContent(s, t) <==> Faithful(e, s, t)))
  {
    EncodeInjective(Payload(e, s), Payload(e, t));
    if Payload(e, s) == Payload(e, t) {
      PayloadFields(e, s, t);
      SameKeys(e, s, t);
    }
  }

  lemma PayloadFields(e: Encoders, s: Snapshot, t: Snapshot)
    requires Payload(e, s) == Payload(e, t)
    ensures s.environmentKey == t.environmentKey && s.projectKey == t.projectKey
    ensures e.number(s.version) == e.number(t.version)
    ensures FlagObject(e, s.flags) == FlagObject(e, t.flags)
    ensures SegmentObject(e, s.segments) == SegmentObject(e, t.segments)
  {
    Lookups(e, s);
    Lookups(e, t);
    hide Payload, FlagObject, SegmentObject;
  }

  lemma Lookups(e: Encoders, s: Snapshot)
    ensures
      var o := Payload(e, s);
      && o.JObj?
      && o.fields.Keys == {"environment_key", "project_key", "version", "flags", "segments"}
      && o.fields["environment_key"] == JStr(s.environmentKey) && o.fields["project_key"] == JStr(s.projectKey)
      && o.fields["version"] == JNum(e.number(s.version))
      && o.fields["flags"] == JObj(FlagObject(e, s.flags))
      && o.fields["segments"] == JObj(SegmentObject(e, s.segments))
  {
    hide FlagObject, SegmentObject;
    assert |"environment_key"| == 15 && |"project_key"| == 11 && |"version"| == 7 && |"flags"| == 5 && |"segments"| == 8;
  }

  /** Equal objects have the same keys, and equal texts under each. */
  lemma SameKeys(e: Encoders, s: Snapshot, t: Snapshot)
    requires FlagObject(e, s.flags) == FlagObject(e, t.flags)
    requires SegmentObject(e, s.segments) == SegmentObject(e, t.segments)
    ensures s.flags.Keys == t.flags.Keys && s.segments.Keys == t.segments.Keys
    ensures forall k | k in s.flags :: e.flag(s.flags[k]) == e.flag(t.flags[k])
    ensures forall k | k in s.segments :: e.segment(s.segments[k]) == e.segment(t.segments[k])
  {
    forall k ensures k in s.flags <==> k in t.flags {
      assert k in FlagObject(e, s.flags) <==> k in FlagObject(e, t.flags);
    }
    forall k ensures k in s.segments <==> k in t.segments {
      assert k in SegmentObject(e, s.segments) <==> k in SegmentObject(e, t.segments);
    }
    forall k | k in s.flags ensures e.flag(s.flags[k]) == e.flag(t.flags[k]) {
      assert FlagObject(e, s.flags)[k] == FlagObject(e, t.flags)[k];
    }
    forall k | k in s.segments ensures e.segment(s.segments[k]) == e.segment(t.segments[k]) {
      assert SegmentObject(e, s.segments)[k] == SegmentObject(e, t.segments)[k];
    }
  }

  // ----- The text itself -----

  predicate Climbing(a: string, b: string, c: string, d: string, f: string) {
    Sorting.Less(a, b) && Sorting.Less(b, c) && Sorting.Less(c, d) && Sorting.Less(d, f)
  }

  lemma FiveSorted(a: string, b: string, c: string, d: string, f: string)
    requires Climbing(a, b, c, d, f)
    ensures Sorting.Sorted({a, b, c, d, f}) == [a, b, c, d, f]
  {
    hide Sorting.Less;
    Sorting.Transitive(a, b, c);
    Sorting.Transitive(a, c, d);
    Sorting.Transitive(a, d, f);
    Sorting.Transitive(b, c, d);
    Sorting.Transitive(b, d, f);
    Sorting.Transitive(c, d, f);
    Sorting.ListingUnique([a, b, c, d, f], Sorting.Sorted({a, b, c, d, f}), {a, b, c, d, f});
  }

  lemma FiveMembers(t: Tree)
    requires t.TObj? && |t.members| == 5
    ensures Text(t) == "{" + (MemberText(t, 0) + ("," + MemberText(t, 1) + ("," + MemberText(t, 2) + (","
                       + MemberText(t, 3) + ("," + MemberText(t, 4) + "}")))))
  {
    MemberStep(t, 0);
    MemberStep(t, 1);
    MemberStep(t, 2);
    MemberStep(t, 3);
    MemberStep(t, 4);
    assert MembersFrom(t, 5) == "}";
    hide MemberText, MembersFrom;
    assert "" + MemberText(t, 0) == MemberText(t, 0);
  }

  lemma MemberStep(t: Tree, i: nat)
    requires t.TObj? && i < |t.members|
    ensures MembersFrom(t, i) == Separator(i) + MemberText(t, i) + MembersFrom(t, i + 1)
  {
    hide Quote, Text;
  }

  function MemberText(t: Tree, i: nat): string
    requires t.TObj? && i < |t.members|
  {
    Quote(t.members[i].key) + ":" + Text(t.members[i].value)
  }

  lemma FiveMembersText(fields: map<string, Json>, a: string, b: string, c: string, d: string, f: string)
    requires Climbing(a, b, c, d, f) && fields.Keys == {a, b, c, d, f}
    ensures Encode(JObj(fields)) ==
            "{" + (Quote(a) + ":" + Encode(fields[a]) + ("," + (Quote(b) + ":" + Encode(fields[b]))
            + ("," + (Quote(c) + ":" + Encode(fields[c])) + ("," + (Quote(d) + ":" + Encode(fields[d]))
            + ("," + (Quote(f) + ":" + Encode(fields[f])) + "}")))))
  {
    FiveSorted(a, b, c, d, f);
    hide Climbing;
    var t := Arranged(JObj(fields));
    assert t == TObj([Member(a, Arranged(fields[a])), Member(b, Arranged(fields[b])), Member(c, Arranged(fields[c])),
                      Member(d, Arranged(fields[d])), Member(f, Arranged(fields[f]))]);
    hide Arranged, Quote, Text;
    FiveMembers(t);
  }

  lemma LessByFirst(a: string, b: string)
    requires a != "" && b != "" && a[0] < b[0]
    ensures Sorting.Less(a, b)
  {
  }

  lemma PayloadKeysClimb()
    ensures Climbing("environment_key", "flags", "project_key", "segments", "version")
  {
    LessByFirst("environment_key", "flags");
    LessByFirst("flags", "project_key");
    LessByFirst("project_key", "segments");
    LessByFirst("segments", "version");
    hide Sorting.Less;
  }

  /** What is digested, letter by letter: five members, in the order of their keys. */
  lemma PayloadText(e: Encoders, s: Snapshot)
    ensures
      Encode(Payload(e, s)) ==
      "{" + (Quote("environment_key") + ":" + Quote(s.environmentKey)
      + ("," + (Quote("flags") + ":" + Encode(JObj(FlagObject(e, s.flags))))
      + ("," + (Quote("project_key") + ":" + Quote(s.projectKey))
      + ("," + (Quote("segments") + ":" + Encode(JObj(SegmentObject(e, s.segments))))
      + ("," + (Quote("version") + ":" + e.number(s.version)) + "}")))))
  {
    Lookups(e, s);
    PayloadKeysClimb();
    PlainTexts(s.environmentKey, e.number(s.version));
    PlainTexts(s.projectKey, e.number(s.version));
    hide Payload, FlagObject, SegmentObject, Climbing, Encode, Quote;
    FiveMembersText(Payload(e, s).fields, "environment_key", "flags", "project_key", "segments", "version");
  }

  lemma PlainTexts(s: string, n: NumberText)
    ensures Encode(JStr(s)) == Quote(s) && Encode(JNum(n)) == n
  {
  }
}
