/** The one way a registered stream loses an update (internal/api/server.go reads the
    version again after it has built the full snapshot): a run in which a bump falls into
    that window, step by step. */
module DeliveryWitness {
  import opened Model
  import opened Hub
  import HubRuns
  import Stamp
  import opened Delivery

  const CELL := Stamp.FlagCell("checkout")
  const CONFIG := Stamp.ConfigCell("checkout")

  /** The build the handler makes before anything was written: version 0, nothing seen. */
  function EmptyBuild(): Stamp.Build {
    Stamp.Build(0, map[], true, true, {})
  }

  function HubAfterSubscribe(e: Env): State<Stamp.Build> {
    State(map[1 := Sub(e, [], 0)], map[e := {1}], map[e := []], 1, 0, 0, 1)
  }

  function SysAfterSubscribe(e: Env): HubRuns.Sys<Stamp.Build> {
    HubRuns.Sys(HubAfterSubscribe(e), map[], map[], map[1 := 0], map[1 := []])
  }

  function StoreAfterBump(): Stamp.Store<int> {
    Stamp.Store(map[CELL := [Stamp.Write(Some(7), false, Some(1))]], 1, map[0 := EmptyBuild()])
  }

  /** The handler has sent a snapshot without the write, under the version that announces it. */
  function AfterWindow(e: Env): World<int> {
    World(e, SysAfterSubscribe(e), StoreAfterBump(), Streaming(1, 0, BySnapshot(EmptyBuild()), 1, []))
  }

  function LateBuild(): Stamp.Build {
    Stamp.Build(1, map[CELL := 1, CONFIG := 0], true, true, {})
  }

  function Update(): Msg {
    Message("put", 1, LateBuild())
  }

  /** The world can be reached by some run. */
  ghost predicate Reaches(w: World<int>) {
    exists worlds: seq<World<int>>, steps: seq<Step<int>> :: Run(worlds, steps) && worlds[|steps|] == w
  }

  lemma ReachesInit(e: Env)
    ensures Reaches(Init(e))
  {
    var worlds: seq<World<int>>, steps: seq<Step<int>> := [Init(e)], [];
    assert Run(worlds, steps) && worlds[|steps|] == Init(e);
  }

  lemma ReachesNext(w: World<int>, step: Step<int>, next: World<int>)
    requires Reaches(w) && Enabled(w, step) && Apply(w, step) == next
    ensures Reaches(next)
  {
    hide Enabled, Apply;
    var worlds, steps :| Run(worlds, steps) && worlds[|steps|] == w;
    assert Run(worlds + [next], steps + [step]) && (worlds + [next])[|steps + [step]|] == next;
  }

  function Opening(e: Env, store: Stamp.Store<int>, handler: Handler): World<int> {
    World(e, SysAfterSubscribe(e), store, handler)
  }

  lemma SubscribeStep(e: Env)
    ensures AfterSubscribe(Init<int>(e), 0) == Opening(e, Stamp.Init(), Resuming(1, 0))
  {
    assert {} + {1} == {1};
    assert Subscribed(HubRuns.Init<Stamp.Build>().hub, e).members == map[e := {1}];
  }

  lemma BuildSteps()
    ensures
      var started := Stamp.AfterStart(Stamp.Init<int>(), 0);
      var listed := Stamp.AfterListFlags(started, 0);
      && listed == Stamp.Store(map[], 0, map[0 := Stamp.Build(0, map[], true, false, {})])
      && Stamp.AfterListSegments(listed, 0) == Stamp.Store(map[], 0, map[0 := EmptyBuild()])
  {
    var started := Stamp.AfterStart(Stamp.Init<int>(), 0);
    var listed := Stamp.AfterListFlags(started, 0);
    assert listed.builds[0].seen == map[] && listed.builds[0].unread == {};
    assert Stamp.AfterListSegments(listed, 0).builds[0].seen == map[];
  }

  lemma WriteSteps()
    ensures
      var written := Stamp.AfterPut(Stamp.Store(map[], 0, map[0 := EmptyBuild()]), CELL, Some(7), false);
      Stamp.CanBump(written, CELL, 0) && Stamp.AfterBump(written, CELL, 0) == StoreAfterBump()
  {
    var written := Stamp.AfterPut(Stamp.Store(map[], 0, map[0 := EmptyBuild()]), CELL, Some(7), false);
    assert Stamp.History(written, CELL) == [Stamp.Write(Some(7), false, None)];
    var bumped := Stamp.History(written, CELL)[0 := Stamp.Write(Some(7), false, Some(1))];
    assert bumped == [Stamp.Write(Some(7), false, Some(1))];
    assert Stamp.AfterBump(written, CELL, 0).cells == map[CELL := bumped];
  }

  /** The handler subscribes, finds nothing to replay and starts its build ... */
  lemma ReachesStarted(e: Env)
    ensures Reaches(Opening(e, Stamp.AfterStart(Stamp.Init<int>(), 0), Building(1, 0, 0)))
  {
    ReachesInit(e);
    SubscribeStep(e);
    ReachesNext(Init(e), Step.Subscribe(0), Opening(e, Stamp.Init(), Resuming(1, 0)));
    ReachesNext(Opening(e, Stamp.Init(), Resuming(1, 0)), Replay, Opening(e, Stamp.Init(), NeedsSnapshot(1, 0)));
    ReachesNext(Opening(e, Stamp.Init(), NeedsSnapshot(1, 0)), StartBuild(0),
                Opening(e, Stamp.AfterStart(Stamp.Init<int>(), 0), Building(1, 0, 0)));
  }

  /** ... reads everything there is, which is nothing ... */
  lemma ReachesRead(e: Env)
    ensures Reaches(Opening(e, Stamp.Store(map[], 0, map[0 := EmptyBuild()]), Building(1, 0, 0)))
  {
    ReachesStarted(e);
    var h, started := Building(1, 0, 0), Stamp.AfterStart(Stamp.Init<int>(), 0);
    var flags := Stamp.AfterListFlags(started, 0);
    ReachesNext(Opening(e, started, h), StoreStep(Stamp.ListFlags(0)), Opening(e, flags, h));
    var built := Stamp.AfterListSegments(flags, 0);
    ReachesNext(Opening(e, flags, h), StoreStep(Stamp.ListSegments(0)), Opening(e, built, h));
    BuildSteps();
  }

  /** ... and sends the frame after a write and its bump have come in between. */
  lemma ReachesWindow(e: Env)
    ensures Reaches(AfterWindow(e))
  {
    ReachesRead(e);
    var h, built := Building(1, 0, 0), Stamp.Store(map[], 0, map[0 := EmptyBuild()]);
    var written := Stamp.AfterPut(built, CELL, Some(7), false);
    ReachesNext(Opening(e, built, h), StoreStep(Stamp.Put(CELL, Some(7), false)), Opening(e, written, h));
    WriteSteps();
    ReachesNext(Opening(e, written, h), StoreStep(Stamp.Bump(CELL, 0)), Opening(e, StoreAfterBump(), h));
    ReachesNext(Opening(e, StoreAfterBump(), h), FinishBuild, AfterWindow(e));
  }

  function StoreAtPublish(): Stamp.Store<int> {
    StoreAfterBump().(builds := map[0 := EmptyBuild(), 1 := LateBuild()])
  }

  /** The hub when the update has been offered to the handler's channel holding `ch`. */
  function SysWith(e: Env, ch: seq<Msg>, lastSent: int, flights: map<Env, HubRuns.Flight<Stamp.Build>>, received: seq<Msg>):
    HubRuns.Sys<Stamp.Build>
  {
    HubRuns.Sys(
      State(map[1 := Sub(e, ch, lastSent)], map[e := {1}], map[e := [Update()]], 1, 0, 1, 1),
      flights, map[e := [Update()]], map[1 := 0], map[1 := received])
  }

  function Handled(e: Env): World<int> {
    World(e, SysWith(e, [], 1, map[], [Update()]), StoreAtPublish(), AfterWindow(e).handler)
  }

  /** The store while the update's snapshot is being built. */
  function StoreBuilding(build: Stamp.Build): Stamp.Store<int> {
    StoreAfterBump().(builds := map[0 := EmptyBuild(), 1 := build])
  }

  lemma LateListFlags()
    ensures Stamp.AfterStart(StoreAfterBump(), 1) == StoreBuilding(Stamp.Build(1, map[], false, false, {}))
    ensures Stamp.AfterListFlags(StoreBuilding(Stamp.Build(1, map[], false, false, {})), 1) ==
            StoreBuilding(Stamp.Build(1, map[CELL := 1], true, false, {"checkout"}))
  {
    var started := StoreBuilding(Stamp.Build(1, map[], false, false, {}));
    assert Stamp.AfterStart(StoreAfterBump(), 1).builds == started.builds;
    var read := map c | c in started.cells && c.FlagCell? :: |started.cells[c]|;
    assert read == map[CELL := 1] && map[] + read == map[CELL := 1];
    var live := set c | c in started.cells && c.FlagCell? && Stamp.EndsLive(started.cells[c]) :: c.key;
    assert CELL in started.cells && Stamp.EndsLive(started.cells[CELL]) && CELL.key == "checkout";
    assert live == {"checkout"};
    assert Stamp.AfterListFlags(started, 1).builds ==
           StoreBuilding(Stamp.Build(1, map[CELL := 1], true, false, {"checkout"})).builds;
  }

  lemma LateListSegments()
    ensures Stamp.AfterListSegments(StoreBuilding(Stamp.Build(1, map[CELL := 1], true, false, {"checkout"})), 1) ==
            StoreBuilding(Stamp.Build(1, map[CELL := 1], true, true, {"checkout"}))
  {
    var listed := StoreBuilding(Stamp.Build(1, map[CELL := 1], true, false, {"checkout"}));
    assert Stamp.AfterListSegments(listed, 1).builds[1].seen == map[CELL := 1];
    assert Stamp.AfterListSegments(listed, 1).builds ==
           StoreBuilding(Stamp.Build(1, map[CELL := 1], true, true, {"checkout"})).builds;
  }

  lemma LateReadConfig()
    ensures Stamp.AfterReadConfig(StoreBuilding(Stamp.Build(1, map[CELL := 1], true, true, {"checkout"})), 1, "checkout") ==
            StoreAtPublish()
  {
    var listed := StoreBuilding(Stamp.Build(1, map[CELL := 1], true, true, {"checkout"}));
    assert {"checkout"} - {"checkout"} == {};
    assert |Stamp.History(listed, CONFIG)| == 0;
    assert map[CELL := 1][CONFIG := 0] == map[CELL := 1, CONFIG := 0];
    assert Stamp.AfterReadConfig(listed, 1, "checkout").builds == StoreAtPublish().builds;
  }

  lemma BeginStep(e: Env)
    ensures HubRuns.AfterBegin(SysAfterSubscribe(e), e, Update()) ==
            Publishing(e)
  {
    assert [] + [Update()] == [Update()];
  }

  lemma OfferStep(e: Env)
    ensures
      var before := Publishing(e);
      && HubRuns.CanOffer(before, e, 1)
      && HubRuns.AfterOffer(before, e, 1) == SysWith(e, [Update()], 1, map[e := HubRuns.Flight(Update(), {}, {})], [])
  {
    assert {1} - {1} == {};
    assert [] + [Update()] == [Update()];
  }

  lemma EndAndReceiveSteps(e: Env)
    ensures
      var offered := SysWith(e, [Update()], 1, map[e := HubRuns.Flight(Update(), {}, {})], []);
      var ended := SysWith(e, [Update()], 1, map[], []);
      && HubRuns.CanEnd(offered, e) && HubRuns.AfterEnd(offered, e) == ended
      && HubRuns.CanReceive(ended, 1)
      && HubRuns.AfterReceive(ended, 1) == SysWith(e, [], 1, map[], [Update()])
  {
    var flights := map[e := HubRuns.Flight(Update(), {}, {})];
    assert flights - {e} == map[];
    assert [Update()][1..] == [] && [] + [Update()] == [Update()];
  }

  function Publishing(e: Env): HubRuns.Sys<Stamp.Build> {
    SysWith(e, [], 0, map[e := HubRuns.Flight(Update(), {1}, {})], [])
  }

  /** After the frame: the update's snapshot is started ... */
  lemma ReachesListed(e: Env)
    ensures Reaches(World(e, SysAfterSubscribe(e), StoreBuilding(Stamp.Build(1, map[CELL := 1], true, false, {"checkout"})),
                          AfterWindow(e).handler))
  {
    ReachesWindow(e);
    var h, sys := AfterWindow(e).handler, SysAfterSubscribe(e);
    var started := StoreBuilding(Stamp.Build(1, map[], false, false, {}));
    var flags := StoreBuilding(Stamp.Build(1, map[CELL := 1], true, false, {"checkout"}));
    LateListFlags();
    ReachesNext(AfterWindow(e), StoreStep(Stamp.Start(1)), World(e, sys, started, h));
    ReachesNext(World(e, sys, started, h), StoreStep(Stamp.ListFlags(1)), World(e, sys, flags, h));
  }

  /** ... and built to the end ... */
  lemma ReachesBuilt(e: Env)
    ensures Reaches(World(e, SysAfterSubscribe(e), StoreAtPublish(), AfterWindow(e).handler))
  {
    ReachesListed(e);
    var h, sys := AfterWindow(e).handler, SysAfterSubscribe(e);
    var flags := StoreBuilding(Stamp.Build(1, map[CELL := 1], true, false, {"checkout"}));
    var segments := StoreBuilding(Stamp.Build(1, map[CELL := 1], true, true, {"checkout"}));
    LateListSegments();
    ReachesNext(World(e, sys, flags, h), StoreStep(Stamp.ListSegments(1)), World(e, sys, segments, h));
    LateReadConfig();
    ReachesNext(World(e, sys, segments, h), StoreStep(Stamp.ReadConfig(1, "checkout")), World(e, sys, StoreAtPublish(), h));
  }

  /** ... its publish begins ... */
  lemma ReachesPublish(e: Env)
    ensures Reaches(World(e, Publishing(e), StoreAtPublish(), AfterWindow(e).handler))
  {
    ReachesBuilt(e);
    var h, store := AfterWindow(e).handler, StoreAtPublish();
    BeginStep(e);
    assert store.builds[1] == Update().data;
    ReachesNext(World(e, SysAfterSubscribe(e), store, h), HubStep(HubRuns.Begin(e, Update())), World(e, Publishing(e), store, h));
  }

  function Offered(e: Env): HubRuns.Sys<Stamp.Build> {
    SysWith(e, [Update()], 1, map[e := HubRuns.Flight(Update(), {}, {})], [])
  }

  /** ... the update reaches the channel ... */
  lemma ReachesOffered(e: Env)
    ensures Reaches(World(e, Offered(e), StoreAtPublish(), AfterWindow(e).handler))
  {
    ReachesPublish(e);
    var h, store, begun := AfterWindow(e).handler, StoreAtPublish(), Publishing(e);
    OfferStep(e);
    ReachesNext(World(e, begun, store, h), HubStep(HubRuns.Offer(e, 1)), World(e, Offered(e), store, h));
  }

  /** ... and is skipped. */
  lemma ReachesHandled(e: Env)
    ensures Reaches(Handled(e))
  {
    ReachesOffered(e);
    var h, store := AfterWindow(e).handler, StoreAtPublish();
    EndAndReceiveSteps(e);
    var ended := SysWith(e, [Update()], 1, map[], []);
    ReachesNext(World(e, Offered(e), store, h), HubStep(HubRuns.End(e)), World(e, ended, store, h));
    ReachesNext(World(e, ended, store, h), Receive, Handled(e));
  }

  /** So the guarantee of a full-snapshot start really does depend on the window: here a
      registered stream with an empty channel and nothing in flight has been given neither
      the write nor the message that announces it. */
  lemma BumpInTheWindowLosesAnUpdate(e: Env)
    ensures exists w: World<int> ::
      && Reaches(w)
      && w.handler.Streaming? && w.handler.start.BySnapshot? && w.handler.frames == []
      && w.handler.id in w.sys.hub.subs
      && (var a := HubRuns.AccountOf(w.sys, w.handler.id);
          a.registered && a.pending.None? && a.ch == [] && a.log == [Update()])
      && Stamp.Finished(w.handler.start.build) && Stamp.Finished(Update().data)
      && Stamp.Shows(w.store, w.handler.start.build, CELL)
      && Stamp.Held(w.store, w.handler.start.build, CELL) == None
      && Stamp.History(w.store, CELL) == [Stamp.Write(Some(7), false, Some(Update().version))]
  {
    ReachesHandled(e);
    var w := Handled(e);
    assert HubRuns.AccountOf(w.sys, 1).ch == [];
  }
}
