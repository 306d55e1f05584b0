/** Canonical JSON (internal/snapshot/canonical.go): object keys in sorted order, no white
    space. Equal texts mean equal values. */
module Canonical {
  import opened Model
  import opened JsonStrings
  import opened JsonTexts
  import Sorting

  // ----- Canonical text -----

  /** The value with the members of its objects in the order of their keys. */
  ghost function Arranged(v: Json): Tree {
    match v
    case JNull => TNull
    case JBool(b) => TBool(b)
    case JNum(text) => TNum(text)
    case JStr(s) => TStr(s)
    case JArr(elems) => TArr(seq(|elems|, i requires 0 <= i < |elems| => Arranged(elems[i])))
    case JObj(fields) =>
      var keys := Sorting.Sorted(fields.Keys);
      TObj(seq(|keys|, i requires 0 <= i < |keys| => Member(keys[i], Arranged(fields[keys[i]]))))
  }

  ghost function Encode(v: Json): string {
    Text(Arranged(v))
  }

  // ----- The code -----

  /** Go's map iteration: the keys in an order of the runtime's choosing. */
  method CollectKeys(fields: map<string, Json>) returns (keys: seq<string>)
    ensures Sorting.Distinct(keys) && Sorting.KeySet(keys) == fields.Keys
  {
    keys := [];
    var rest := fields.Keys;
    while rest != {}
      invariant rest <= fields.Keys
      invariant Sorting.Distinct(keys) && Sorting.KeySet(keys) == fields.Keys - rest
    {
      var k :| k in rest;
      assert forall i | 0 <= i < |keys| :: keys[i] in Sorting.KeySet(keys);
      assert Sorting.KeySet(keys + [k]) == Sorting.KeySet(keys) + {k};
      keys := keys + [k];
      rest := rest - {k};
    }
  }

  method MarshalSorted(v: Json) returns (result: string)
    ensures result == Encode(v)
    decreases v, 1
  {
    match v
    case JObj(_) => result := MarshalObject(v);
    case JArr(_) => result := MarshalArray(v);
    case JNull => result := "null";
    case JBool(b) => result := if b then "true" else "false";
    case JNum(text) => result := text;
    case JStr(s) => result := Quote(s);
  }

  method MarshalObject(v: Json) returns (result: string)
    requires v.JObj?
    ensures result == Encode(v)
    decreases v, 0
  {
    var keys := CollectKeys(v.fields);
    keys := Sorting.SortStrings(keys);
    assert keys == Sorting.Sorted(v.fields.Keys);
    result := "{";
    for i := 0 to |keys|
      invariant Encode(v) == result + MembersFrom(Arranged(v), i)
    {
      assert keys[i] in keys;
      var keyBytes := Quote(keys[i]);
      var valBytes := MarshalSorted(v.fields[keys[i]]);
      result := Appended(result, i, keyBytes + ":" + valBytes, MembersFrom(Arranged(v), i + 1), MembersFrom(Arranged(v), i));
    }
    result := result + "}";
  }

  method MarshalArray(v: Json) returns (result: string)
    requires v.JArr?
    ensures result == Encode(v)
    decreases v, 0
  {
    result := "[";
    for i := 0 to |v.elems|
      invariant Encode(v) == result + ElementsFrom(Arranged(v), i)
    {
      var elemBytes := MarshalSorted(v.elems[i]);
      result := Appended(result, i, elemBytes, ElementsFrom(Arranged(v), i + 1), ElementsFrom(Arranged(v), i));
    }
    result := result + "]";
  }

  /** Appends the i-th item, after a comma unless it is the first. */
  method Appended(result: string, i: nat, item: string, ghost rest: string, ghost all: string) returns (next: string)
    requires all == Separator(i) + item + rest
    ensures next + rest == result + all
  {
    next := result;
    if i > 0 {
      next := next + ",";
    }
    next := next + item;
    assert next == result + (Separator(i) + item);
  }

  // ----- Texts and values -----

  ghost function Restrict(m: map<string, Json>, keys: seq<string>): map<string, Json>
    requires forall k | k in keys :: k in m
  {
    map k | k in keys :: m[k]
  }

  lemma RestrictStep(m: map<string, Json>, keys: seq<string>, i: nat)
    requires i < |keys| && forall k | k in keys :: k in m
    ensures map[keys[i] := m[keys[i]]] + Restrict(m, keys[i + 1..]) == Restrict(m, keys[i..])
  {
    assert keys[i..] == [keys[i]] + keys[i + 1..];
  }

  /** Arranging a value does not change what it means. */
  lemma {:induction false} ArrangedMeans(v: Json)
    ensures Meaning(Arranged(v)) == v
    decreases v, 1, 0
  {
    match v
    case JArr(elems) =>
      ElementsMean(v, 0);
      assert elems[0..] == elems;
    case JObj(fields) =>
      var keys := Sorting.Sorted(fields.Keys);
      MembersMean(v, keys, 0);
      assert Restrict(fields, keys[0..]) == fields;
    case _ =>
  }

  lemma {:induction false} ElementsMean(v: Json, i: nat)
    requires v.JArr? && i <= |v.elems|
    ensures Elements(Arranged(v), i) == v.elems[i..]
    decreases v, 0, |v.elems| - i
  {
    if i < |v.elems| {
      ArrangedMeans(v.elems[i]);
      ElementsMean(v, i + 1);
      assert v.elems[i..] == [v.elems[i]] + v.elems[i + 1..];
    }
  }

  lemma {:induction false} MembersMean(v: Json, keys: seq<string>, i: nat)
    requires v.JObj? && keys == Sorting.Sorted(v.fields.Keys) && i <= |keys|
    ensures Fields(Arranged(v), i) == Restrict(v.fields, keys[i..])
    decreases v, 0, |keys| - i
  {
    if i < |keys| {
      ArrangedMeans(v.fields[keys[i]]);
      MembersMean(v, keys, i + 1);
      RestrictStep(v.fields, keys, i);
      hide Restrict;
    }
  }

  /** The decoder reads a value's canonical text and stops right behind it. */
  lemma ParseEncode(v: Json, rest: string)
    requires Ends(rest)
    ensures Parse(Encode(v) + rest) == Some((v, rest))
  {
    ArrangedMeans(v);
    ParseText(Arranged(v), rest);
    hide Parse, Text, Meaning, Arranged;
  }

  /** Decoding undoes encoding, with no byte left over. */
  lemma DecodeEncode(v: Json)
    ensures Decode(Encode(v)) == Some(v)
  {
    ArrangedMeans(v);
    DecodeText(Arranged(v));
    hide Decode, Text, Meaning, Arranged;
  }

  /** Two values have the same canonical text exactly when they are equal. */
  lemma EncodeInjective(u: Json, v: Json)
    ensures Encode(u) == Encode(v) <==> u == v
  {
    DecodeEncode(u);
    DecodeEncode(v);
    hide Decode, Text, Arranged;
  }

  // ----- Letter by letter -----

  lemma ConstantTexts()
    ensures Encode(JNull) == "null" && Encode(JBool(true)) == "true" && Encode(JBool(false)) == "false"
    ensures Encode(JArr([])) == "[]" && Encode(JObj(map[])) == "{}"
  {
    var none: map<string, Json> := map[];
    Sorting.EmptyListing(Sorting.Sorted(none.Keys), none.Keys);
    assert Arranged(JObj(none)) == TObj([]);
    assert MembersFrom(TObj([]), 0) == "}" && ElementsFrom(TArr([]), 0) == "]";
  }

  lemma PairText(u: Json, v: Json)
    ensures Encode(JArr([u, v])) == "[" + Encode(u) + "," + Encode(v) + "]"
  {
    var t := Arranged(JArr([u, v]));
    assert t == TArr([Arranged(u), Arranged(v)]);
    TwoElements(t);
    hide Arranged, Text;
  }

  lemma TwoElements(t: Tree)
    requires t.TArr? && |t.elems| == 2
    ensures Text(t) == "[" + Text(t.elems[0]) + "," + Text(t.elems[1]) + "]"
  {
    assert ElementsFrom(t, 2) == "]";
    assert ElementsFrom(t, 1) == "," + Text(t.elems[1]) + "]";
  }

  /** Members in the order of their keys, wherever the map has them. */
  lemma TwoMembersText(k: string, u: Json, l: string, v: Json)
    requires Sorting.Less(k, l)
    ensures Encode(JObj(map[l := v, k := u])) ==
            "{" + Quote(k) + ":" + Encode(u) + "," + Quote(l) + ":" + Encode(v) + "}"
  {
    Sorting.Trichotomy(k, l);
    var fields := map[l := v, k := u];
    Sorting.ListingUnique([k, l], Sorting.Sorted(fields.Keys), fields.Keys);
    var t := Arranged(JObj(fields));
    assert t == TObj([Member(k, Arranged(u)), Member(l, Arranged(v))]);
    TwoMembers(t);
    hide Arranged, Text, Quote, Sorting.Less;
  }

  lemma TwoMembers(t: Tree)
    requires t.TObj? && |t.members| == 2
    ensures
      var m, n := t.members[0], t.members[1];
      Text(t) == "{" + Quote(m.key) + ":" + Text(m.value) + "," + Quote(n.key) + ":" + Text(n.value) + "}"
  {
    hide Quote;
    assert MembersFrom(t, 2) == "}";
    assert MembersFrom(t, 1) == "," + (Quote(t.members[1].key) + ":" + Text(t.members[1].value)) + "}";
  }

  lemma QuoteLetter(c: char)
    requires Escape(c) == [c]
    ensures Quote([c]) == ['"', c, '"']
  {
    hide Escape;
    assert [c][1..] == "";
    assert Escaped([c]) == [c];
  }

  lemma Pieces(a: string, one: string, b: string, two: string)
    requires a == ['"', 'a', '"'] && b == ['"', 'b', '"'] && one == ['1'] && two == ['2']
    ensures "{" + a + ":" + one + "," + b + ":" + two + "}" == "{\"a\":1,\"b\":2}"
  {
    assert "{" + a == "{\"a\"";
    assert "{" + a + ":" + one == "{\"a\":1";
    assert "{" + a + ":" + one + "," + b == "{\"a\":1,\"b\"";
  }

  lemma SmallObjectText()
    ensures Encode(JObj(map["b" := JNum("2"), "a" := JNum("1")])) == "{\"a\":1,\"b\":2}"
  {
    TwoMembersText("a", JNum("1"), "b", JNum("2"));
    QuoteLetter('a');
    QuoteLetter('b');
    assert Encode(JNum("1")) == "1" && Encode(JNum("2")) == "2";
    hide Encode, Quote;
    Pieces(Quote("a"), "1", Quote("b"), "2");
  }
}
