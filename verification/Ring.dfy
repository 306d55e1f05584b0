/** The replay buffer of an environment (internal/stream/ring.go): a fixed circular
    buffer that must behave like "the last N messages appended". */
module Ring {
  import opened Model

  function Min(a: nat, b: nat): nat {
    if a <= b then a else b
  }

  /** The last `capacity` messages of `log`. */
  function Window<D>(log: seq<Message<D>>, capacity: nat): seq<Message<D>> {
    log[|log| - Min(|log|, capacity)..]
  }

  /** The messages of `log` that a ring of this capacity has overwritten. */
  function Evicted<D>(log: seq<Message<D>>, capacity: nat): seq<Message<D>> {
    log[..|log| - Min(|log|, capacity)]
  }

  /** The highest version in `log`, starting from the zero value of a fresh ring. */
  function MaxVersion<D>(log: seq<Message<D>>): int {
    if log == [] then 0
    else
      var m := MaxVersion(log[..|log| - 1]);
      if log[|log| - 1].version > m then log[|log| - 1].version else m
  }

  /** What `Since` answers for a ring of this capacity that was given `log`. */
  function Answer<D>(log: seq<Message<D>>, capacity: nat, v: int): Option<seq<Message<D>>>
    requires capacity > 0
  {
    if log == [] then Some([])
    else if v < Window(log, capacity)[0].version - 1 then None
    else if v >= MaxVersion(log) then Some([])
    else Some(Above(Window(log, capacity), v))
  }

  /** Where the i-th oldest of `count` messages sits when the next write goes to `head`. */
  function Slot(head: nat, count: nat, capacity: nat, i: nat): (s: nat)
    requires head < capacity && i < count <= capacity
    ensures s < capacity
  {
    if head + i < count then head + capacity - count + i else head - count + i
  }

  /** The slot after `head`. */
  function Next(head: nat, capacity: nat): (s: nat)
    requires head < capacity
    ensures s < capacity
  {
    if head + 1 < capacity then head + 1 else 0
  }

  /** The remainder that keeps an index inside the buffer. */
  method Wrapped(x: nat, capacity: nat) returns (s: nat)
    requires x < 2 * capacity
    ensures s == if x < capacity then x else x - capacity
  {
    s := x % capacity;
    if x < capacity {
      QuotientUnique(x, capacity, 0, x);
    } else {
      QuotientUnique(x, capacity, 1, x - capacity);
    }
  }

  lemma QuotientUnique(x: nat, c: nat, q: nat, r: nat)
    requires r < c && x == q * c + r
    ensures x % c == r
  {
    var p, t := x / c, x % c;
    assert x == p * c + t && 0 <= t < c;
    assert (p - q) * c == r - t;
    Multiple(p - q, c);
  }

  lemma Multiple(d: int, c: nat)
    requires -(c as int) < d * c < c
    ensures d == 0
  {
    Scaled(d, 1, c);
    Scaled(-1, d, c);
  }

  lemma Scaled(d: int, e: int, c: nat)
    ensures d >= e ==> d * c >= e * c
    ensures e >= d ==> e * c >= d * c
  {
    assert (d - e) * c == d * c - e * c;
  }

  /** The circular buffer `slots` holds exactly the messages of `window`, oldest first. */
  ghost predicate Holds<D>(slots: seq<Message<D>>, head: nat, count: nat, window: seq<Message<D>>) {
    && head < |slots|
    && count == |window| <= |slots|
    && forall i {:trigger Slot(head, count, |slots|, i)} | 0 <= i < count ::
         slots[Slot(head, count, |slots|, i)] == window[i]
  }

  lemma WindowAppend<D>(log: seq<Message<D>>, msg: Message<D>, capacity: nat)
    requires capacity > 0
    ensures Window(log + [msg], capacity) ==
            (if |Window(log, capacity)| < capacity then Window(log, capacity) else Window(log, capacity)[1..]) + [msg]
  {
  }

  lemma PushKeepsHolds<D>(slots: seq<Message<D>>, head: nat, count: nat, window: seq<Message<D>>, msg: Message<D>)
    requires Holds(slots, head, count, window)
    ensures Holds(
      slots[head := msg], Next(head, |slots|), if count < |slots| then count + 1 else count,
      (if count < |slots| then window else window[1..]) + [msg])
  {
    var cap := |slots|;
    var pushed := (if count < cap then window else window[1..]) + [msg];
    forall i | 0 <= i < |pushed|
      ensures slots[head := msg][Slot(Next(head, cap), |pushed|, cap, i)] == pushed[i]
    {
      if i < |pushed| - 1 {
        var k := i + count + 1 - |pushed|;
        assert Slot(Next(head, cap), |pushed|, cap, i) == Slot(head, count, cap, k) != head;
        assert slots[Slot(head, count, cap, k)] == window[k];
      }
    }
  }

  lemma AboveLast<D>(log: seq<Message<D>>, i: nat, v: int)
    requires i < |log|
    ensures Above(log[..i + 1], v) == Above(log[..i], v) + if log[i].version > v then [log[i]] else []
  {
    assert log[..i + 1] == log[..i] + [log[i]];
    AboveAppend(log[..i], [log[i]], v);
  }

  lemma MaxVersionAppend<D>(log: seq<Message<D>>, msg: Message<D>)
    ensures MaxVersion(log + [msg]) == if msg.version > MaxVersion(log) then msg.version else MaxVersion(log)
  {
    assert (log + [msg])[..|log|] == log;
  }

  /** The fields of a ring agree with the list of everything appended to it. */
  ghost predicate Represents<D>(slots: seq<Message<D>>, head: nat, count: nat, minVer: int, maxVer: int,
                                log: seq<Message<D>>) {
    && |slots| > 0
    && Holds(slots, head, count, Window(log, |slots|))
    && (log != [] ==> minVer == Window(log, |slots|)[0].version)
    && maxVer == MaxVersion(log)
  }

  lemma EmptyRepresents<D>(slots: seq<Message<D>>)
    requires |slots| > 0
    ensures Represents(slots, 0, 0, 0, 0, [])
  {
  }

  /** How the counters follow an append to `slots`. */
  function CountAfter(count: nat, capacity: nat): nat {
    if count < capacity then count + 1 else count
  }

  function MaxAfter(maxVer: int, version: int): int {
    if version > maxVer then version else maxVer
  }

  function MinAfter<D>(slots: seq<Message<D>>, head: nat, count: nat, minVer: int, version: int): int
    requires head < |slots|
  {
    if count == |slots| then slots[head].version else if count == 1 then version else minVer
  }

  lemma AppendRepresents<D>(slots: seq<Message<D>>, head: nat, count: nat, minVer: int, maxVer: int,
                            log: seq<Message<D>>, msg: Message<D>)
    requires Represents(slots, head, count, minVer, maxVer, log)
    ensures head < |slots|
    ensures
      var newSlots, newHead, newCount := slots[head := msg], Next(head, |slots|), CountAfter(count, |slots|);
      Represents(newSlots, newHead, newCount, MinAfter(newSlots, newHead, newCount, minVer, msg.version),
                 MaxAfter(maxVer, msg.version), log + [msg])
  {
    WindowAppend(log, msg, |slots|);
    PushKeepsHolds(slots, head, count, Window(log, |slots|), msg);
    MaxVersionAppend(log, msg);
    if count + 1 >= |slots| {
      assert Slot(Next(head, |slots|), |slots|, |slots|, 0) == Next(head, |slots|);
    }
  }

  class EventRing<D(0)> {
    const buf: array<Message<D>>
    var head: nat
    var count: nat
    var minVer: int
    var maxVer: int
    ghost var log: seq<Message<D>>  // everything ever appended

    ghost predicate Valid()
      reads this, buf
    {
      Represents(buf[..], head, count, minVer, maxVer, log)
    }

    constructor (capacity: nat)
      requires capacity > 0
      ensures Valid() && log == [] && buf.Length == capacity && fresh(buf)
    {
      buf := new Message<D>[capacity];
      head, count, minVer, maxVer := 0, 0, 0, 0;
      log := [];
      new;
      EmptyRepresents(buf[..]);
      hide Represents;
    }

    method Append(msg: Message<D>)
      requires Valid()
      modifies this, buf
      ensures Valid() && log == old(log) + [msg]
    {
      AppendRepresents(buf[..], head, count, minVer, maxVer, log, msg);
      hide Represents;
      ghost var slots, newCount := buf[..][head := msg], CountAfter(count, buf.Length);
      ghost var newMax := MaxAfter(maxVer, msg.version);
      var next := Wrapped(head + 1, buf.Length);
      assert next == Next(head, buf.Length);
      ghost var newMin := MinAfter(slots, next, newCount, minVer, msg.version);
      buf[head] := msg;
      assert buf[..] == slots;
      head := next;
      if count < buf.Length {
        count := count + 1;
      }
      assert count == newCount;
      if msg.version > maxVer {
        maxVer := msg.version;
      }
      assert maxVer == newMax;
      log := log + [msg];
      if count == buf.Length {
        minVer := buf[head].version;
      } else if count == 1 {
        minVer := msg.version;
      }
      assert minVer == newMin;
      hide CountAfter, MaxAfter, MinAfter, Next;
    }

    method Since(version: int) returns (out: seq<Message<D>>, ok: bool)
      requires Valid()
      ensures Answer(log, buf.Length, version) == if ok then Some(out) else None
    {
      out := [];
      if count == 0 {
        return [], true;
      }
      if version < minVer - 1 {
        return [], false;
      }
      if version >= maxVer {
        return [], true;
      }
      var start := Wrapped(head + buf.Length - count, buf.Length);
      ghost var w := Window(log, buf.Length);
      for i := 0 to count
        invariant out == Above(w[..i], version)
      {
        var slot := Wrapped(start + i, buf.Length);
        var msg := buf[slot];
        assert buf[..][Slot(head, count, buf.Length, i)] == w[i];
        AboveLast(w, i, version);
        if msg.version > version {
          out := out + [msg];
        }
      }
      assert w[..count] == w;
      ok := true;
    }
  }

  lemma {:induction false} MaxVersionBounds<D>(log: seq<Message<D>>, m: Message<D>)
    requires m in log
    ensures m.version <= MaxVersion(log)
  {
    var rest := log[..|log| - 1];
    assert log == rest + [log[|log| - 1]];
    if m in rest {
      MaxVersionBounds(rest, m);
    }
  }

  lemma WindowSplit<D>(log: seq<Message<D>>, capacity: nat)
    ensures log == Evicted(log, capacity) + Window(log, capacity)
  {
  }

  /** Every evicted message is older than the oldest message still held. */
  ghost predicate EvictedAreOlder<D>(log: seq<Message<D>>, capacity: nat)
    requires capacity > 0
  {
    forall m :: m in Evicted(log, capacity) && log != [] ==> m.version < Window(log, capacity)[0].version
  }

  /** `Since` is exact at `v`: when it answers at all, it answers with every message
      ever appended above `v`. */
  ghost predicate ExactAt<D>(log: seq<Message<D>>, capacity: nat, v: int)
    requires capacity > 0
  {
    Answer(log, capacity, v).Some? ==> Answer(log, capacity, v).value == Above(log, v)
  }

  lemma ExactWhenEvictedAreOlder<D>(log: seq<Message<D>>, capacity: nat, v: int)
    requires capacity > 0 && EvictedAreOlder(log, capacity)
    ensures ExactAt(log, capacity, v)
  {
    if log != [] && Answer(log, capacity, v).Some? {
      if v >= MaxVersion(log) {
        forall m | m in log ensures m.version <= v {
          MaxVersionBounds(log, m);
        }
        AboveNone(log, v);
      } else {
        WindowSplit(log, capacity);
        AboveAppend(Evicted(log, capacity), Window(log, capacity), v);
        AboveNone(Evicted(log, capacity), v);
      }
    }
  }

  /** The exact condition for an answer to be trustworthy: the answers for all versions
      are exact if and only if every evicted message is older than everything kept. */
  lemma SinceExactIff<D>(log: seq<Message<D>>, capacity: nat)
    requires capacity > 0
    ensures (forall v :: ExactAt(log, capacity, v)) <==> EvictedAreOlder(log, capacity)
  {
    if EvictedAreOlder(log, capacity) {
      forall v ensures ExactAt(log, capacity, v) {
        ExactWhenEvictedAreOlder(log, capacity, v);
      }
    } else {
      var w := Window(log, capacity);
      var e :| e in Evicted(log, capacity) && log != [] && e.version >= w[0].version;
      var v := w[0].version - 1;
      MaxVersionBounds(log, e);
      WindowSplit(log, capacity);
      AboveAppend(Evicted(log, capacity), w, v);
      AboveMember(Evicted(log, capacity), v, e);
      assert |Above(log, v)| > |Above(w, v)|;
      assert !ExactAt(log, capacity, v);
    }
  }

  /** Publishing in version order meets that condition. */
  lemma IncreasingSinceExact<D>(log: seq<Message<D>>, capacity: nat, v: int)
    requires capacity > 0 && Increasing(log)
    ensures ExactAt(log, capacity, v)
  {
    ExactWhenEvictedAreOlder(log, capacity, v);
  }

  lemma AboveAfter<D>(m: Message<D>, rest: seq<Message<D>>, v: int)
    requires forall r | r in rest :: r.version > v
    ensures Above([m] + rest, v) == if m.version > v then [m] + rest else rest
  {
    AboveAll(rest, v);
    assert ([m] + rest)[0] == m && ([m] + rest)[1..] == rest;
  }

  /** Two unserialised publishers can break it: a message appended before one with the version
      just below is lost to a client resuming from that version, as soon as it is evicted and
      the late one has become the oldest. The answer claims to be complete. */
  lemma OutOfOrderAppendLosesAMessage<D>(
    capacity: nat, v: int, early: Message<D>, late: Message<D>, rest: seq<Message<D>>)
    requires capacity >= 2 && |rest| == capacity - 1
    requires late.version == v && early.version == v + 1 && forall m | m in rest :: m.version > v
    ensures Answer([early, late] + rest, capacity, v) == Some(rest)
    ensures Above([early, late] + rest, v) == [early] + rest
  {
    hide Above, MaxVersion;
    var log, window := [early, late] + rest, [late] + rest;
    assert Window(log, capacity) == window;
    AboveAfter(late, rest, v);
    assert log[2] == rest[0] && rest[0] in rest;
    MaxVersionBounds(log, rest[0]);
    EarlyThenRest(early, late, rest, v);
  }

  lemma EarlyThenRest<D>(early: Message<D>, late: Message<D>, rest: seq<Message<D>>, v: int)
    requires late.version <= v < early.version && forall m | m in rest :: m.version > v
    ensures Above([early, late] + rest, v) == [early] + rest
  {
    var below := [late] + rest;
    assert [early, late] + rest == [early] + below;
    assert ([early] + below)[0] == early && ([early] + below)[1..] == below;
    AboveAfter(late, rest, v);
  }

  ghost predicate GapFree<D>(log: seq<Message<D>>) {
    forall i | 0 <= i < |log| :: log[i].version == log[0].version + i
  }

  /** For gap-free versions the ring refuses exactly when the first message the client
      needs is no longer, or never was, in the ring: it was evicted, or the client is
      so old that the message predates the first one the ring was ever given. */
  lemma RefusesIffNeededMessageIsGone<D>(log: seq<Message<D>>, capacity: nat, v: int)
    requires capacity > 0 && GapFree(log) && log != []
    ensures Answer(log, capacity, v).None? <==>
            (exists m :: m in Evicted(log, capacity) && m.version == v + 1) || v + 1 < log[0].version
  {
    var k := |log| - Min(|log|, capacity);
    var w := Window(log, capacity);
    assert w[0] == log[k];
    if v + 1 < w[0].version && v + 1 >= log[0].version {
      var i := v + 1 - log[0].version;
      assert log[i] == Evicted(log, capacity)[i];
      assert log[i] in Evicted(log, capacity);
    }
    if m :| m in Evicted(log, capacity) && m.version == v + 1 {
      var i :| 0 <= i < k && Evicted(log, capacity)[i] == m;
      assert log[i] == m;
    }
  }
}
