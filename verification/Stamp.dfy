/** Snapshot stamps under concurrency (internal/snapshot/builder.go). Mutators write the
    store and then bump the environment's version; `Build` reads the version first and
    the configuration afterwards, in several separate reads. Nothing makes either of
    them atomic. */
module Stamp {
  import opened Model

  /** What the store holds one value for. */
  datatype Cell = FlagCell(key: string) | ConfigCell(key: string) | SegmentCell(key: string)

  /** A write to a cell (`None` deletes it), whether it leaves a flag archived, and what the
      version bump that followed it returned, once it has. */
  datatype Write<+V> = Write(value: Option<V>, archived: bool, bump: Option<nat>)

  /** A snapshot under construction: the version it was stamped with, and how many of a
      cell's writes had happened when the cell was read. Listing the flags or the
      segments reads all cells of that kind at once; the configurations of the listed flags
      that are not archived follow one by one, and `unread` are those still to come. */
  datatype Build = Build(stamp: nat, seen: map<Cell, nat>, flagsListed: bool, segmentsListed: bool, unread: set<string>)

  datatype Store<+V> = Store(cells: map<Cell, seq<Write<V>>>, version: nat, builds: map<nat, Build>)

  datatype Step<+V> =
    | Put(cell: Cell, value: Option<V>, archived: bool)
    | Bump(cell: Cell, i: nat)
    | Start(b: nat)
    | ListFlags(b: nat)
    | ListSegments(b: nat)
    | ReadConfig(b: nat, key: string)

  function Init<V>(): Store<V> {
    Store(map[], 0, map[])
  }

  function History<V>(s: Store<V>, c: Cell): seq<Write<V>> {
    if c in s.cells then s.cells[c] else []
  }

  /** The write leaves a flag that snapshots include. */
  predicate Live<V>(w: Write<V>) {
    w.value.Some? && !w.archived
  }

  predicate EndsLive<V>(history: seq<Write<V>>) {
    history != [] && Live(history[|history| - 1])
  }

  function AfterPut<V>(s: Store<V>, c: Cell, value: Option<V>, archived: bool): Store<V> {
    s.(cells := s.cells[c := History(s, c) + [Write(value, archived, None)]])
  }

  /** The mutator that made the i-th write to `c` bumps the version, once. */
  predicate CanBump<V>(s: Store<V>, c: Cell, i: nat) {
    i < |History(s, c)| && History(s, c)[i].bump.None?
  }

  function AfterBump<V>(s: Store<V>, c: Cell, i: nat): Store<V>
    requires CanBump(s, c, i)
  {
    var h := History(s, c);
    s.(cells := s.cells[c := h[i := h[i].(bump := Some(s.version + 1))]], version := s.version + 1)
  }

  function AfterStart<V>(s: Store<V>, b: nat): Store<V> {
    s.(builds := s.builds[b := Build(s.version, map[], false, false, {})])
  }

  function AfterListFlags<V>(s: Store<V>, b: nat): Store<V>
    requires b in s.builds
  {
    var build := s.builds[b];
    var read := map c | c in s.cells && c.FlagCell? :: |s.cells[c]|;
    var live := set c | c in s.cells && c.FlagCell? && EndsLive(s.cells[c]) :: c.key;
    s.(builds := s.builds[b := build.(seen := build.seen + read, flagsListed := true, unread := live)])
  }

  function AfterListSegments<V>(s: Store<V>, b: nat): Store<V>
    requires b in s.builds
  {
    var build := s.builds[b];
    var read := map c | c in s.cells && c.SegmentCell? :: |s.cells[c]|;
    s.(builds := s.builds[b := build.(seen := build.seen + read, segmentsListed := true)])
  }

  function AfterReadConfig<V>(s: Store<V>, b: nat, key: string): Store<V>
    requires b in s.builds
  {
    var build, c := s.builds[b], ConfigCell(key);
    s.(builds := s.builds[b := build.(seen := build.seen[c := |History(s, c)|], unread := build.unread - {key})])
  }

  predicate Enabled<V>(s: Store<V>, step: Step<V>) {
    match step
    case Put(_, _, _) => true
    case Bump(c, i) => CanBump(s, c, i)
    case Start(b) => b !in s.builds
    case ListFlags(b) => b in s.builds && !s.builds[b].flagsListed
    case ListSegments(b) => b in s.builds && s.builds[b].flagsListed && !s.builds[b].segmentsListed
    case ReadConfig(b, key) => b in s.builds && s.builds[b].segmentsListed && key in s.builds[b].unread
  }

  function Apply<V>(s: Store<V>, step: Step<V>): Store<V>
    requires Enabled(s, step)
  {
    match step
    case Put(c, value, archived) => AfterPut(s, c, value, archived)
    case Bump(c, i) => AfterBump(s, c, i)
    case Start(b) => AfterStart(s, b)
    case ListFlags(b) => AfterListFlags(s, b)
    case ListSegments(b) => AfterListSegments(s, b)
    case ReadConfig(b, key) => AfterReadConfig(s, b, key)
  }

  ghost predicate Run<V(!new)>(states: seq<Store<V>>, steps: seq<Step<V>>) {
    && |states| == |steps| + 1
    && states[0] == Init()
    && forall i | 0 <= i < |steps| :: Enabled(states[i], steps[i]) && states[i + 1] == Apply(states[i], steps[i])
  }

  /** The build is what `Build` returns: both lists and every configuration have been read. */
  predicate Finished(build: Build) {
    build.flagsListed && build.segmentsListed && build.unread == {}
  }

  /** The build has read the cell. */
  predicate Covers(build: Build, c: Cell) {
    c in build.seen || (c.FlagCell? && build.flagsListed) || (c.SegmentCell? && build.segmentsListed)
  }

  function Seen(build: Build, c: Cell): nat {
    if c in build.seen then build.seen[c] else 0
  }

  /** The value a build has for a cell. */
  function Held<V>(s: Store<V>, build: Build, c: Cell): Option<V> {
    if 0 < Seen(build, c) <= |History(s, c)| then History(s, c)[Seen(build, c) - 1].value else None
  }

  /** What `build` has of a cell with this history is no older than any write whose bump
      returned at most the build's stamp. */
  ghost predicate Fresh<V>(history: seq<Write<V>>, build: Build, c: Cell) {
    && Seen(build, c) <= |history|
    && (Covers(build, c) ==>
          forall i | 0 <= i < |history| && history[i].bump.Some? && history[i].bump.value <= build.stamp ::
            i < Seen(build, c))
  }

  /** The build has listed this flag, and it was live. */
  predicate ListsLive<V>(history: seq<Write<V>>, build: Build, key: string) {
    0 < Seen(build, FlagCell(key)) <= |history| && Live(history[Seen(build, FlagCell(key)) - 1])
  }

  /** The configuration of every live flag listed has been read or still will be. */
  predicate Thorough<V>(history: seq<Write<V>>, build: Build, key: string) {
    build.flagsListed && ListsLive(history, build, key) ==> key in build.unread || ConfigCell(key) in build.seen
  }

  ghost predicate BumpsKnown<V>(history: seq<Write<V>>, version: nat) {
    forall i | 0 <= i < |history| && history[i].bump.Some? :: history[i].bump.value <= version
  }

  ghost predicate Sound<V>(s: Store<V>, build: Build) {
    && build.stamp <= s.version
    && (forall c :: Fresh(History(s, c), build, c))
    && (forall k :: Thorough(History(s, FlagCell(k)), build, k))
  }

  ghost predicate Inv<V>(s: Store<V>) {
    && (forall c :: BumpsKnown(History(s, c), s.version))
    && (forall b | b in s.builds :: Sound(s, s.builds[b]))
  }

  lemma PutSound<V>(s: Store<V>, c: Cell, value: Option<V>, archived: bool, build: Build)
    requires Sound(s, build)
    ensures Sound(AfterPut(s, c, value, archived), build)
  {
    var t := AfterPut(s, c, value, archived);
    forall d ensures Fresh(History(t, d), build, d) {
      assert Fresh(History(s, d), build, d);
    }
    forall k ensures Thorough(History(t, FlagCell(k)), build, k) {
      assert Fresh(History(s, FlagCell(k)), build, FlagCell(k));
      assert Thorough(History(s, FlagCell(k)), build, k);
    }
  }

  lemma PutKeeps<V>(s: Store<V>, c: Cell, value: Option<V>, archived: bool)
    requires Inv(s)
    ensures Inv(AfterPut(s, c, value, archived))
  {
    var t := AfterPut(s, c, value, archived);
    forall d ensures BumpsKnown(History(t, d), t.version) {
      assert BumpsKnown(History(s, d), s.version);
    }
    forall b | b in t.builds ensures Sound(t, t.builds[b]) {
      PutSound(s, c, value, archived, s.builds[b]);
    }
  }

  lemma BumpSound<V>(s: Store<V>, c: Cell, i: nat, build: Build)
    requires Sound(s, build) && CanBump(s, c, i)
    ensures Sound(AfterBump(s, c, i), build)
  {
    var t := AfterBump(s, c, i);
    forall d ensures Fresh(History(t, d), build, d) {
      assert Fresh(History(s, d), build, d);
    }
    forall k ensures Thorough(History(t, FlagCell(k)), build, k) {
      assert Thorough(History(s, FlagCell(k)), build, k);
    }
  }

  lemma BumpKeeps<V>(s: Store<V>, c: Cell, i: nat)
    requires Inv(s) && CanBump(s, c, i)
    ensures Inv(AfterBump(s, c, i))
  {
    var t := AfterBump(s, c, i);
    forall d ensures BumpsKnown(History(t, d), t.version) {
      assert BumpsKnown(History(s, d), s.version);
    }
    forall b | b in t.builds ensures Sound(t, t.builds[b]) {
      BumpSound(s, c, i, s.builds[b]);
    }
  }

  /** Reading a cell after the version was read is what makes the stamp sound. */
  lemma ReadFresh<V>(history: seq<Write<V>>, build: Build, next: Build, c: Cell)
    requires Fresh(history, build, c) && next.stamp == build.stamp
    requires Seen(next, c) == |history| || (Covers(next, c) == Covers(build, c) && Seen(next, c) == Seen(build, c))
    ensures Fresh(history, next, c)
  {
  }

  lemma BuildKeeps<V>(s: Store<V>, b: nat, next: Build)
    requires Inv(s) && Sound(s, next)
    ensures Inv(s.(builds := s.builds[b := next]))
  {
    var t := s.(builds := s.builds[b := next]);
    forall d ensures BumpsKnown(History(t, d), t.version) {
      assert History(t, d) == History(s, d);
    }
    forall k | k in t.builds ensures Sound(t, t.builds[k]) {
      SoundSameCells(s, t, t.builds[k]);
    }
  }

  lemma SoundSameCells<V>(s: Store<V>, t: Store<V>, build: Build)
    requires Sound(s, build) && t.cells == s.cells && t.version >= s.version
    ensures Sound(t, build)
  {
    forall c ensures Fresh(History(t, c), build, c) {
      assert Fresh(History(s, c), build, c);
    }
    forall k ensures Thorough(History(t, FlagCell(k)), build, k) {
      assert Thorough(History(s, FlagCell(k)), build, k);
    }
  }

  lemma StartKeeps<V>(s: Store<V>, b: nat)
    requires Inv(s)
    ensures Inv(AfterStart(s, b))
  {
    BuildKeeps(s, b, Build(s.version, map[], false, false, {}));
  }

  lemma ListFlagsKeeps<V>(s: Store<V>, b: nat)
    requires Inv(s) && b in s.builds
    ensures Inv(AfterListFlags(s, b))
  {
    var next := AfterListFlags(s, b).builds[b];
    forall c ensures Fresh(History(s, c), next, c) {
      assert Fresh(History(s, c), s.builds[b], c);
      ReadFresh(History(s, c), s.builds[b], next, c);
    }
    forall k ensures Thorough(History(s, FlagCell(k)), next, k) {
      if FlagCell(k) in s.cells && EndsLive(s.cells[FlagCell(k)]) {
        assert FlagCell(k).key in next.unread;
      }
    }
    BuildKeeps(s, b, next);
  }

  lemma ListSegmentsKeeps<V>(s: Store<V>, b: nat)
    requires Inv(s) && b in s.builds
    ensures Inv(AfterListSegments(s, b))
  {
    var next := AfterListSegments(s, b).builds[b];
    forall c ensures Fresh(History(s, c), next, c) {
      assert Fresh(History(s, c), s.builds[b], c);
      ReadFresh(History(s, c), s.builds[b], next, c);
    }
    forall k ensures Thorough(History(s, FlagCell(k)), next, k) {
      assert Thorough(History(s, FlagCell(k)), s.builds[b], k);
    }
    BuildKeeps(s, b, next);
  }

  lemma ReadConfigKeeps<V>(s: Store<V>, b: nat, key: string)
    requires Inv(s) && b in s.builds
    ensures Inv(AfterReadConfig(s, b, key))
  {
    var next := AfterReadConfig(s, b, key).builds[b];
    forall c ensures Fresh(History(s, c), next, c) {
      assert Fresh(History(s, c), s.builds[b], c);
      ReadFresh(History(s, c), s.builds[b], next, c);
    }
    forall k ensures Thorough(History(s, FlagCell(k)), next, k) {
      assert Thorough(History(s, FlagCell(k)), s.builds[b], k);
    }
    BuildKeeps(s, b, next);
  }

  lemma StepKeeps<V>(s: Store<V>, step: Step<V>)
    requires Inv(s) && Enabled(s, step)
    ensures Inv(Apply(s, step))
  {
    hide Inv;
    match step
    case Put(c, value, archived) => PutKeeps(s, c, value, archived);
    case Bump(c, i) => BumpKeeps(s, c, i);
    case Start(b) => StartKeeps(s, b);
    case ListFlags(b) => ListFlagsKeeps(s, b);
    case ListSegments(b) => ListSegmentsKeeps(s, b);
    case ReadConfig(b, key) => ReadConfigKeeps(s, b, key);
  }

  lemma {:induction false} RunsKeep<V(!new)>(states: seq<Store<V>>, steps: seq<Step<V>>, n: nat)
    requires Run(states, steps) && n <= |steps|
    ensures Inv(states[n])
  {
    if n > 0 {
      RunsKeep(states, steps, n - 1);
      StepKeeps(states[n - 1], steps[n - 1]);
    }
  }

  /** The snapshot shows the cell: all flags and segments, and the configurations of the flags
      it has that are not archived. */
  predicate Shows<V>(s: Store<V>, build: Build, c: Cell) {
    c.ConfigCell? ==> ListsLive(History(s, FlagCell(c.key)), build, c.key)
  }

  /** Of every cell it shows, a finished build has read all writes whose bumps returned at most
      its stamp. */
  lemma FinishedReads<V>(s: Store<V>, build: Build, c: Cell, i: nat)
    requires Sound(s, build) && Finished(build) && Shows(s, build, c)
    requires
      && i < |History(s, c)|
      && History(s, c)[i].bump.Some?
      && History(s, c)[i].bump.value <= build.stamp
    ensures i < Seen(build, c) <= |History(s, c)|
  {
    if c.ConfigCell? {
      assert Thorough(History(s, FlagCell(c.key)), build, c.key);
    }
    assert Fresh(History(s, c), build, c);
  }

  /** What a finished build shows of a cell is no older than any write whose bump returned at
      most the stamp. */
  lemma FinishedHolds<V>(s: Store<V>, build: Build, c: Cell, i: nat)
    requires Sound(s, build) && Finished(build) && Shows(s, build, c)
    requires
      && i < |History(s, c)|
      && History(s, c)[i].bump.Some?
      && History(s, c)[i].bump.value <= build.stamp
    ensures exists j | i <= j < |History(s, c)| :: Held(s, build, c) == History(s, c)[j].value
  {
    FinishedReads(s, build, c, i);
    var j := Seen(build, c) - 1;
    assert Held(s, build, c) == History(s, c)[j].value;
  }

  /** In every interleaving, a finished snapshot stamped v holds for each cell it shows the
      value of some write that is no older than any write whose version bump returned at
      most v. */
  lemma StampSoundInEveryRun<V(!new)>(states: seq<Store<V>>, steps: seq<Step<V>>, n: nat, b: nat, c: Cell, i: nat)
    requires Run(states, steps) && n <= |steps| && b in states[n].builds
    requires Finished(states[n].builds[b]) && Shows(states[n], states[n].builds[b], c)
    requires
      && i < |History(states[n], c)|
      && History(states[n], c)[i].bump.Some?
      && History(states[n], c)[i].bump.value <= states[n].builds[b].stamp
    ensures exists j | i <= j < |History(states[n], c)| ::
      Held(states[n], states[n].builds[b], c) == History(states[n], c)[j].value
  {
    RunsKeep(states, steps, n);
    FinishedHolds(states[n], states[n].builds[b], c, i);
  }
}
