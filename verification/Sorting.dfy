/** The order of strings and sorting by it, which canonical JSON relies on. Go compares bytes,
    which for UTF-8 is the same as comparing characters. */
module Sorting {

  predicate Less(a: string, b: string) {
    if b == "" then false
    else if a == "" then true
    else a[0] < b[0] || (a[0] == b[0] && Less(a[1..], b[1..]))
  }

  lemma {:induction false} Trichotomy(a: string, b: string)
    ensures Less(a, b) || a == b || Less(b, a)
    ensures !(Less(a, b) && Less(b, a))
    ensures !Less(a, a)
  {
    if a != "" {
      Trichotomy(a[1..], a[1..]);
      if b != "" {
        Trichotomy(a[1..], b[1..]);
        if a[0] == b[0] && a[1..] == b[1..] {
          assert a == [a[0]] + a[1..] && b == [b[0]] + b[1..];
        }
      }
    }
  }

  lemma {:induction false} Transitive(a: string, b: string, c: string)
    requires Less(a, b) && Less(b, c)
    ensures Less(a, c)
  {
    if a != "" && a[0] == b[0] && b[0] == c[0] {
      Transitive(a[1..], b[1..], c[1..]);
    }
  }

  /** The first i characters are the same, and then the first string ends or has the smaller
      character. */
  predicate AheadAt(a: string, b: string, i: nat) {
    && i <= |a| && i < |b| && a[..i] == b[..i]
    && (i == |a| || a[i] < b[i])
  }

  /** The order is that of dictionaries, by the numbers of the characters. */
  lemma {:induction false} LessIff(a: string, b: string)
    ensures Less(a, b) <==> exists i: nat :: AheadAt(a, b, i)
  {
    if b != "" && a != "" {
      var x, y := a[1..], b[1..];
      LessIff(x, y);
      if a[0] < b[0] {
        assert AheadAt(a, b, 0);
      } else if a[0] == b[0] && Less(x, y) {
        var i: nat :| AheadAt(x, y, i);
        assert a[..i + 1] == [a[0]] + x[..i] && b[..i + 1] == [b[0]] + y[..i];
        assert AheadAt(a, b, i + 1);
      }
      if i: nat :| AheadAt(a, b, i) {
        if i > 0 {
          assert a[..i][0] == b[..i][0];
          assert x[..i - 1] == a[..i][1..] && y[..i - 1] == b[..i][1..];
          assert AheadAt(x, y, i - 1);
        }
      }
    } else if b != "" {
      assert AheadAt(a, b, 0);
    }
  }

  /** Strictly ascending, so without repetitions. */
  ghost predicate Ascending(ks: seq<string>) {
    forall i, j | 0 <= i < j < |ks| :: Less(ks[i], ks[j])
  }

  ghost predicate Lists(ks: seq<string>, s: set<string>) {
    Ascending(ks) && forall k :: k in ks <==> k in s
  }

  lemma EmptyListing(ks: seq<string>, s: set<string>)
    requires Lists(ks, s)
    ensures ks == [] <==> s == {}
  {
    if ks != [] {
      assert ks[0] in s;
    }
  }

  /** A set of strings has one ascending listing. */
  lemma {:induction false} ListingUnique(ks: seq<string>, ls: seq<string>, s: set<string>)
    requires Lists(ks, s) && Lists(ls, s)
    ensures ks == ls
    decreases |ks|
  {
    EmptyListing(ks, s);
    EmptyListing(ls, s);
    if ks != [] {
      HeadsEqual(ks, ls, s);
      TailLists(ks, s);
      TailLists(ls, s);
      ListingUnique(ks[1..], ls[1..], s - {ks[0]});
    }
  }

  lemma HeadsEqual(ks: seq<string>, ls: seq<string>, s: set<string>)
    requires Lists(ks, s) && Lists(ls, s) && ks != [] && ls != []
    ensures ks[0] == ls[0]
  {
    assert ks[0] in ls && ls[0] in ks;
    var i :| 0 <= i < |ls| && ls[i] == ks[0];
    var j :| 0 <= j < |ks| && ks[j] == ls[0];
    Trichotomy(ks[0], ls[0]);
  }

  lemma TailLists(ks: seq<string>, s: set<string>)
    requires Lists(ks, s) && ks != []
    ensures Lists(ks[1..], s - {ks[0]})
  {
    forall k | k in ks[1..] ensures k in s - {ks[0]} {
      var i :| 0 < i < |ks| && ks[i] == k;
      assert ks[i] in ks;
      Trichotomy(ks[0], k);
    }
    forall k | k in s - {ks[0]} ensures k in ks[1..] {
      var i :| 0 <= i < |ks| && ks[i] == k;
      assert ks[1..][i - 1] == k;
    }
  }

  /** Where a new key belongs among ascending ones. */
  method Insert(ks: seq<string>, k: string, ghost s: set<string>) returns (ls: seq<string>)
    requires Lists(ks, s) && k !in s
    ensures Lists(ls, s + {k})
  {
    var i := 0;
    while i < |ks| && Less(ks[i], k)
      invariant 0 <= i <= |ks|
      invariant forall j | 0 <= j < i :: Less(ks[j], k)
    {
      i := i + 1;
    }
    ls := ks[..i] + [k] + ks[i..];
    Placed(ks, k, i, s);
  }

  lemma Placed(ks: seq<string>, k: string, i: nat, s: set<string>)
    requires Lists(ks, s) && k !in s && i <= |ks|
    requires forall j | 0 <= j < i :: Less(ks[j], k)
    requires i < |ks| ==> !Less(ks[i], k)
    ensures Lists(ks[..i] + [k] + ks[i..], s + {k})
  {
    forall j | i <= j < |ks| ensures Less(k, ks[j]) {
      assert ks[j] in s && ks[i] in s;
      Trichotomy(k, ks[i]);
      if i < j {
        Transitive(k, ks[i], ks[j]);
      }
    }
    var ls := ks[..i] + [k] + ks[i..];
    forall x ensures x in ls <==> x in s + {k} {
      assert x in ks <==> x in ks[..i] || x in ks[i..] by {
        assert ks == ks[..i] + ks[i..];
      }
    }
  }

  /** The keys of a map in the order of `sort.Strings`. */
  ghost function Sorted(s: set<string>): (ks: seq<string>)
    ensures Lists(ks, s)
  {
    SortedExists(s);
    var ks :| Lists(ks, s);
    ks
  }

  /** Read from any key to any later one, the listing goes up: at the first difference the
      earlier key has ended or has the smaller character. */
  lemma SortedGoesUp(s: set<string>, i: nat, j: nat)
    requires i < j < |Sorted(s)|
    ensures
      var a, b := Sorted(s)[i], Sorted(s)[j];
      exists n | 0 <= n <= |a| && n < |b| :: a[..n] == b[..n] && (n == |a| || a[n] < b[n])
  {
    var a, b := Sorted(s)[i], Sorted(s)[j];
    LessIff(a, b);
    var n: nat :| AheadAt(a, b, n);
    assert a[..n] == b[..n];
  }

  lemma SortedExists(s: set<string>)
    ensures exists ks :: Lists(ks, s)
  {
    var ks := Listing(s);
  }

  lemma {:induction false} Listing(s: set<string>) returns (ks: seq<string>)
    ensures Lists(ks, s)
    decreases |s|
  {
    if s == {} {
      ks := [];
    } else {
      var k :| k in s;
      var ls := Listing(s - {k});
      var i := Position(ls, k);
      Placed(ls, k, i, s - {k});
      assert s - {k} + {k} == s;
      ks := ls[..i] + [k] + ls[i..];
    }
  }

  lemma {:induction false} Position(ks: seq<string>, k: string) returns (i: nat)
    ensures i <= |ks| && (forall j | 0 <= j < i :: Less(ks[j], k)) && (i < |ks| ==> !Less(ks[i], k))
  {
    i := 0;
    while i < |ks| && Less(ks[i], k)
      invariant i <= |ks| && forall j | 0 <= j < i :: Less(ks[j], k)
    {
      i := i + 1;
    }
  }

  ghost predicate Distinct(keys: seq<string>) {
    forall i, j | 0 <= i < j < |keys| :: keys[i] != keys[j]
  }

  ghost function KeySet(keys: seq<string>): set<string> {
    set k | k in keys
  }

  /** Sorts distinct keys given in any order. */
  method SortStrings(keys: seq<string>) returns (sorted: seq<string>)
    requires Distinct(keys)
    ensures sorted == Sorted(KeySet(keys))
  {
    sorted := [];
    for i := 0 to |keys|
      invariant Lists(sorted, KeySet(keys[..i]))
    {
      ghost var s := KeySet(keys[..i]);
      sorted := Insert(sorted, keys[i], s);
      assert KeySet(keys[..i + 1]) == s + {keys[i]};
    }
    assert keys[..|keys|] == keys;
    ListingUnique(sorted, Sorted(KeySet(keys)), KeySet(keys));
  }
}
