/** Every interleaving of subscribers, publishers and stream handlers on the hub. A
    publish is not atomic here: its sends and disconnections interleave with all other
    operations. What is assumed is that the publishes of one environment do not overlap. */
module HubRuns {
  import opened Model
  import opened Hub

  /** A publish in progress: who is still to be offered the message, and who was full. */
  datatype Flight<+D> = Flight(msg: Message<D>, todo: set<nat>, full: set<nat>)

  /** The hub, with what the outside world has seen: all messages published, by
      environment; and for each subscriber where it joined and what it received. */
  datatype Sys<+D> = Sys(
    hub: State<D>,
    flights: map<Env, Flight<D>>,
    logs: map<Env, seq<Message<D>>>,
    joined: map<nat, nat>,
    received: map<nat, seq<Message<D>>>)

  datatype Step<+D> =
    | Subscribe(envKey: Env)
    | Unsubscribe(envKey: Env, id: nat)
    | Begin(envKey: Env, msg: Message<D>)
    | Offer(envKey: Env, id: nat)
    | Disconnect(envKey: Env, id: nat)
    | End(envKey: Env)
    | Receive(id: nat)

  function Init<D>(): Sys<D> {
    Sys(State(map[], map[], map[], 0, 0, 0, 0), map[], map[], map[], map[])
  }

  function LogOf<D>(logs: map<Env, seq<Message<D>>>, e: Env): seq<Message<D>> {
    if e in logs then logs[e] else []
  }

  function Log<D>(s: Sys<D>, e: Env): seq<Message<D>> {
    LogOf(s.logs, e)
  }

  function Received<D>(s: Sys<D>, id: nat): seq<Message<D>> {
    if id in s.received then s.received[id] else []
  }

  function AfterSubscribe<D>(s: Sys<D>, e: Env): Sys<D> {
    var id := s.hub.subSeq + 1;
    s.(hub := Subscribed(s.hub, e), joined := s.joined[id := |Log(s, e)|], received := s.received[id := []])
  }

  function AfterUnsubscribe<D>(s: Sys<D>, e: Env, id: nat): Sys<D> {
    s.(hub := Unsubscribed(s.hub, e, id))
  }

  function AfterBegin<D>(s: Sys<D>, e: Env, msg: Message<D>): Sys<D> {
    s.(hub := PublishBegun(s.hub, e, msg),
       flights := s.flights[e := Flight(msg, Registered(s.hub, e), {})],
       logs := s.logs[e := Log(s, e) + [msg]])
  }

  predicate CanOffer<D>(s: Sys<D>, e: Env, id: nat) {
    e in s.flights && id in s.flights[e].todo && id in s.hub.subs
  }

  function AfterOffer<D>(s: Sys<D>, e: Env, id: nat): Sys<D>
    requires CanOffer(s, e, id)
  {
    var f := s.flights[e];
    var full := if |s.hub.subs[id].ch| < CHANNEL_CAPACITY then f.full else f.full + {id};
    s.(hub := Offered(s.hub, id, f.msg), flights := s.flights[e := Flight(f.msg, f.todo - {id}, full)])
  }

  predicate CanDisconnect<D>(s: Sys<D>, e: Env, id: nat) {
    e in s.flights && s.flights[e].todo == {} && id in s.flights[e].full
  }

  function AfterDisconnect<D>(s: Sys<D>, e: Env, id: nat): Sys<D>
    requires CanDisconnect(s, e, id)
  {
    var f := s.flights[e];
    s.(hub := Disconnected(s.hub, e, id), flights := s.flights[e := f.(full := f.full - {id})])
  }

  predicate CanEnd<D>(s: Sys<D>, e: Env) {
    e in s.flights && s.flights[e].todo == {} && s.flights[e].full == {}
  }

  function AfterEnd<D>(s: Sys<D>, e: Env): Sys<D> {
    s.(flights := s.flights - {e})
  }

  predicate CanReceive<D>(s: Sys<D>, id: nat) {
    id in s.hub.subs && s.hub.subs[id].ch != []
  }

  function AfterReceive<D>(s: Sys<D>, id: nat): Sys<D>
    requires CanReceive(s, id)
  {
    var sub := s.hub.subs[id];
    s.(hub := s.hub.(subs := s.hub.subs[id := sub.(ch := sub.ch[1..])]),
       received := s.received[id := Received(s, id) + [sub.ch[0]]])
  }

  predicate Enabled<D>(s: Sys<D>, step: Step<D>) {
    match step
    case Subscribe(_) => true
    case Unsubscribe(_, _) => true
    case Begin(e, _) => e !in s.flights
    case Offer(e, id) => CanOffer(s, e, id)
    case Disconnect(e, id) => CanDisconnect(s, e, id)
    case End(e) => CanEnd(s, e)
    case Receive(id) => CanReceive(s, id)
  }

  function Apply<D>(s: Sys<D>, step: Step<D>): Sys<D>
    requires Enabled(s, step)
  {
    match step
    case Subscribe(e) => AfterSubscribe(s, e)
    case Unsubscribe(e, id) => AfterUnsubscribe(s, e, id)
    case Begin(e, msg) => AfterBegin(s, e, msg)
    case Offer(e, id) => AfterOffer(s, e, id)
    case Disconnect(e, id) => AfterDisconnect(s, e, id)
    case End(e) => AfterEnd(s, e)
    case Receive(id) => AfterReceive(s, id)
  }

  ghost predicate Run<D(!new)>(states: seq<Sys<D>>, steps: seq<Step<D>>) {
    && |states| == |steps| + 1
    && states[0] == Init()
    && forall i | 0 <= i < |steps| :: Enabled(states[i], steps[i]) && states[i + 1] == Apply(states[i], steps[i])
  }

  // ----- One subscriber's account -----

  /** What a subscriber received and still has in its channel, against the log of its
      environment and the point of that log at which it joined. `pending` is the message
      of a publish in progress that it was listed for and has not been given. */
  datatype Account<+D> = Account(
    ch: seq<Message<D>>,
    received: seq<Message<D>>,
    joined: nat,
    log: seq<Message<D>>,
    registered: bool,
    pending: Option<Message<D>>)

  function Pending<D>(flights: map<Env, Flight<D>>, e: Env, id: nat): Option<Message<D>> {
    if e in flights && (id in flights[e].todo || id in flights[e].full) then Some(flights[e].msg) else None
  }

  function AccountOf<D>(s: Sys<D>, id: nat): Account<D>
    requires id in s.hub.subs
  {
    var sub := s.hub.subs[id];
    Account(
      sub.ch, Received(s, id), if id in s.joined then s.joined[id] else 0, Log(s, sub.envKey),
      id in Registered(s.hub, sub.envKey), Pending(s.flights, sub.envKey, id))
  }

  ghost predicate Balanced<D>(a: Account<D>) {
    && a.joined <= |a.log|
    && |a.ch| <= CHANNEL_CAPACITY
    && a.received + a.ch <= a.log[a.joined..]
    && (a.pending.Some? ==> a.received + a.ch + [a.pending.value] == a.log[a.joined..])
    && (a.registered && a.pending.None? ==> a.received + a.ch == a.log[a.joined..])
  }

  lemma BalancedBegin<D>(a: Account<D>, msg: Message<D>)
    requires Balanced(a) && a.pending.None?
    ensures Balanced(a.(log := a.log + [msg], pending := if a.registered then Some(msg) else None))
  {
    assert (a.log + [msg])[a.joined..] == a.log[a.joined..] + [msg];
  }

  lemma BalancedOffer<D>(a: Account<D>)
    requires Balanced(a) && a.pending.Some? && |a.ch| < CHANNEL_CAPACITY
    ensures Balanced(a.(ch := a.ch + [a.pending.value], pending := None))
  {
    assert a.received + (a.ch + [a.pending.value]) == a.received + a.ch + [a.pending.value];
  }

  lemma BalancedReceive<D>(a: Account<D>)
    requires Balanced(a) && a.ch != []
    ensures Balanced(a.(ch := a.ch[1..], received := a.received + [a.ch[0]]))
  {
    assert a.received + [a.ch[0]] + a.ch[1..] == a.received + a.ch;
  }

  lemma BalancedLeave<D>(a: Account<D>, pending: Option<Message<D>>)
    requires Balanced(a) && (pending == None || pending == a.pending)
    ensures Balanced(a.(registered := false, pending := pending))
  {
  }

  lemma BalancedNew<D>(log: seq<Message<D>>)
    ensures Balanced(Account([], [], |log|, log, true, None))
  {
  }

  // ----- What every step keeps -----

  function AllRegistered(members: map<Env, set<nat>>): set<nat> {
    set e, id | e in members && id in members[e] :: id
  }

  /** A publish in progress only concerns subscribers of its environment. */
  ghost predicate FlightsInv<D>(flights: map<Env, Flight<D>>, subs: map<nat, Sub<D>>) {
    forall e | e in flights ::
      && flights[e].todo !! flights[e].full
      && forall id | id in flights[e].todo || id in flights[e].full :: id in subs && subs[id].envKey == e
  }

  ghost predicate IsSuffix<D>(ring: seq<Message<D>>, log: seq<Message<D>>) {
    |ring| <= |log| && ring == log[|log| - |ring|..]
  }

  lemma SuffixAppend<D>(ring: seq<Message<D>>, log: seq<Message<D>>, msg: Message<D>)
    requires IsSuffix(ring, log)
    ensures IsSuffix(ring + [msg], log + [msg])
  {
  }

  /** Each ring was given the log of its environment from some point on. */
  ghost predicate RingsInv<D>(rings: map<Env, seq<Message<D>>>, logs: map<Env, seq<Message<D>>>) {
    forall e | e in rings :: IsSuffix(rings[e], LogOf(logs, e))
  }

  ghost predicate ActiveInv<D>(h: State<D>) {
    h.active == |AllRegistered(h.members)|
  }

  ghost predicate SubsInv<D>(s: Sys<D>) {
    forall id | id in s.hub.subs :: Balanced(AccountOf(s, id))
  }

  ghost predicate Inv<D>(s: Sys<D>) {
    && WellFormed(s.hub)
    && ActiveInv(s.hub)
    && RingsInv(s.hub.rings, s.logs)
    && FlightsInv(s.flights, s.hub.subs)
    && SubsInv(s)
  }

  lemma SubscribeSubs<D>(s: Sys<D>, e: Env)
    requires WellFormed(s.hub) && FlightsInv(s.flights, s.hub.subs) && SubsInv(s)
    ensures SubsInv(AfterSubscribe(s, e))
  {
    var t, id := AfterSubscribe(s, e), s.hub.subSeq + 1;
    BalancedNew(Log(s, e));
    hide Balanced;
    forall j | j in t.hub.subs
      ensures Balanced(AccountOf(t, j))
    {
      assert AccountOf(t, j) ==
             if j == id then Account([], [], |Log(s, e)|, Log(s, e), true, None) else AccountOf(s, j);
    }
  }

  lemma AllRegisteredJoin(members: map<Env, set<nat>>, e: Env, id: nat)
    ensures AllRegistered(members[e := (if e in members then members[e] else {}) + {id}]) == AllRegistered(members) + {id}
  {
    var joined := members[e := (if e in members then members[e] else {}) + {id}];
    forall x | x in AllRegistered(members) ensures x in AllRegistered(joined) {
      var f :| f in members && x in members[f];
      assert x in joined[f];
    }
    assert id in joined[e];
  }

  lemma AllRegisteredLeave(members: map<Env, set<nat>>, e: Env, id: nat)
    requires e in members && id in members[e]
    requires forall f | f in members && f != e :: id !in members[f]
    ensures AllRegistered(members[e := members[e] - {id}]) == AllRegistered(members) - {id}
  {
    var left := members[e := members[e] - {id}];
    forall x | x in AllRegistered(members) - {id} ensures x in AllRegistered(left) {
      var f :| f in members && x in members[f];
      assert x in left[f];
    }
  }

  lemma AllRegisteredKnown<D>(h: State<D>)
    requires WellFormed(h)
    ensures AllRegistered(h.members) <= h.subs.Keys && h.subSeq + 1 !in h.subs
  {
  }

  lemma SubscribedMembers<D>(h: State<D>, e: Env)
    ensures
      var t := Subscribed(h, e);
      t.members == h.members[e := (if e in h.members then h.members[e] else {}) + {h.subSeq + 1}] && t.active == h.active + 1
  {
  }

  lemma ActiveJoin<D>(h: State<D>, e: Env)
    requires WellFormed(h) && ActiveInv(h)
    ensures ActiveInv(Subscribed(h, e))
  {
    AllRegisteredKnown(h);
    AllRegisteredJoin(h.members, e, h.subSeq + 1);
    SubscribedMembers(h, e);
    hide AllRegistered, Subscribed, WellFormed;
  }

  lemma ActiveLeave<D>(h: State<D>, e: Env, id: nat)
    requires WellFormed(h) && ActiveInv(h)
    ensures ActiveInv(Unsubscribed(h, e, id))
  {
    if id in Registered(h, e) {
      assert h.subs[id].envKey == e;
      AllRegisteredLeave(h.members, e, id);
      assert id in AllRegistered(h.members);
      hide AllRegistered;
    }
  }

  lemma NewRing<D>(rings: map<Env, seq<Message<D>>>, logs: map<Env, seq<Message<D>>>, e: Env)
    requires RingsInv(rings, logs)
    ensures RingsInv(if e in rings then rings else rings[e := []], logs)
  {
    var log := LogOf(logs, e);
    assert log[|log|..] == [];
    assert IsSuffix([], log);
    hide IsSuffix, LogOf;
  }

  lemma SubscribedShape<D>(h: State<D>, flights: map<Env, Flight<D>>, e: Env)
    requires WellFormed(h) && FlightsInv(flights, h.subs)
    ensures WellFormed(Subscribed(h, e)) && FlightsInv(flights, Subscribed(h, e).subs)
  {
    SubscribedWellFormed(h, e);
    var t := Subscribed(h, e);
    assert forall id | id in h.subs :: id in t.subs && t.subs[id] == h.subs[id];
    hide WellFormed, Subscribed;
  }

  lemma SubscribeKeeps<D>(s: Sys<D>, e: Env)
    requires Inv(s)
    ensures Inv(AfterSubscribe(s, e))
  {
    SubscribeSubs(s, e);
    ActiveJoin(s.hub, e);
    NewRing(s.hub.rings, s.logs, e);
    SubscribedShape(s.hub, s.flights, e);
    hide SubsInv, ActiveInv, RingsInv, WellFormed, FlightsInv;
  }

  lemma UnsubscribeSubs<D>(s: Sys<D>, e: Env, id: nat)
    requires SubsInv(s)
    ensures SubsInv(AfterUnsubscribe(s, e, id))
  {
    var t := AfterUnsubscribe(s, e, id);
    hide Balanced;
    forall j | j in t.hub.subs
      ensures Balanced(AccountOf(t, j))
    {
      BalancedLeave(AccountOf(s, j), AccountOf(s, j).pending);
    }
  }

  lemma UnsubscribeKeeps<D>(s: Sys<D>, e: Env, id: nat)
    requires Inv(s)
    ensures Inv(AfterUnsubscribe(s, e, id))
  {
    UnsubscribeSubs(s, e, id);
    ActiveLeave(s.hub, e, id);
    hide SubsInv, ActiveInv;
  }

  lemma BeginAccount<D>(s: Sys<D>, e: Env, msg: Message<D>, j: nat)
    requires e !in s.flights && j in s.hub.subs
    ensures j in AfterBegin(s, e, msg).hub.subs
    ensures
      var a := AccountOf(s, j);
      && (s.hub.subs[j].envKey == e ==> a.pending.None?)
      && AccountOf(AfterBegin(s, e, msg), j) ==
         if s.hub.subs[j].envKey == e then a.(log := a.log + [msg], pending := if a.registered then Some(msg) else None)
         else a
  {
  }

  lemma BeginSubs<D>(s: Sys<D>, e: Env, msg: Message<D>)
    requires SubsInv(s) && e !in s.flights
    ensures SubsInv(AfterBegin(s, e, msg))
  {
    var t := AfterBegin(s, e, msg);
    assert t.hub.subs == s.hub.subs;
    hide Balanced, AccountOf, AfterBegin;
    forall j | j in t.hub.subs
      ensures Balanced(AccountOf(t, j))
    {
      BeginAccount(s, e, msg, j);
      if s.hub.subs[j].envKey == e {
        BalancedBegin(AccountOf(s, j), msg);
      }
    }
  }

  lemma BeginRings<D>(s: Sys<D>, e: Env, msg: Message<D>)
    requires RingsInv(s.hub.rings, s.logs)
    ensures RingsInv(AfterBegin(s, e, msg).hub.rings, AfterBegin(s, e, msg).logs)
  {
    if e in s.hub.rings {
      SuffixAppend(s.hub.rings[e], Log(s, e), msg);
    }
    hide IsSuffix;
  }

  lemma BeginKeeps<D>(s: Sys<D>, e: Env, msg: Message<D>)
    requires Inv(s) && e !in s.flights
    ensures Inv(AfterBegin(s, e, msg))
  {
    BeginSubs(s, e, msg);
    BeginRings(s, e, msg);
    hide SubsInv, RingsInv, AllRegistered;
  }

  lemma OfferAccount<D>(s: Sys<D>, e: Env, id: nat, j: nat)
    requires FlightsInv(s.flights, s.hub.subs) && CanOffer(s, e, id) && j in s.hub.subs
    ensures
      var a := AccountOf(s, j);
      && (j == id ==> a.pending == Some(s.flights[e].msg))
      && AccountOf(AfterOffer(s, e, id), j) ==
         if j == id && |a.ch| < CHANNEL_CAPACITY then a.(ch := a.ch + [s.flights[e].msg], pending := None) else a
  {
  }

  lemma OfferSubs<D>(s: Sys<D>, e: Env, id: nat)
    requires SubsInv(s) && FlightsInv(s.flights, s.hub.subs) && CanOffer(s, e, id)
    ensures SubsInv(AfterOffer(s, e, id))
  {
    hide Balanced, AccountOf, FlightsInv;
    forall j | j in s.hub.subs
      ensures Balanced(AccountOf(AfterOffer(s, e, id), j))
    {
      OfferAccount(s, e, id, j);
      if j == id && |AccountOf(s, id).ch| < CHANNEL_CAPACITY {
        BalancedOffer(AccountOf(s, id));
      }
    }
  }

  /** Changing a subscriber's channel does not disturb who belongs where. */
  lemma ChannelUpdate<D>(h: State<D>, flights: map<Env, Flight<D>>, id: nat, sub: Sub<D>)
    requires WellFormed(h) && FlightsInv(flights, h.subs)
    requires id in h.subs && sub.envKey == h.subs[id].envKey
    ensures WellFormed(h.(subs := h.subs[id := sub])) && FlightsInv(flights, h.subs[id := sub])
  {
  }

  /** Nor does moving subscribers along inside a publish. */
  lemma FlightUpdate<D>(flights: map<Env, Flight<D>>, subs: map<nat, Sub<D>>, e: Env, next: Flight<D>)
    requires FlightsInv(flights, subs) && e in flights
    requires next.todo !! next.full && next.todo + next.full <= flights[e].todo + flights[e].full
    ensures FlightsInv(flights[e := next], subs)
  {
  }

  lemma OfferKeeps<D>(s: Sys<D>, e: Env, id: nat)
    requires Inv(s) && CanOffer(s, e, id)
    ensures Inv(AfterOffer(s, e, id))
  {
    OfferSubs(s, e, id);
    ChannelUpdate(s.hub, s.flights, id, OfferedSub(s.hub.subs[id], s.flights[e].msg));
    var t := AfterOffer(s, e, id);
    FlightUpdate(s.flights, t.hub.subs, e, t.flights[e]);
    hide SubsInv, RingsInv, AllRegistered, WellFormed, FlightsInv;
  }

  lemma DisconnectAccount<D>(s: Sys<D>, e: Env, id: nat, j: nat)
    requires FlightsInv(s.flights, s.hub.subs) && CanDisconnect(s, e, id) && j in s.hub.subs
    ensures
      var a := AccountOf(s, j);
      AccountOf(AfterDisconnect(s, e, id), j) == if j == id then a.(registered := false, pending := None) else a
  {
  }

  lemma DisconnectSubs<D>(s: Sys<D>, e: Env, id: nat)
    requires SubsInv(s) && FlightsInv(s.flights, s.hub.subs) && CanDisconnect(s, e, id)
    ensures SubsInv(AfterDisconnect(s, e, id))
  {
    var t := AfterDisconnect(s, e, id);
    assert t.hub.subs == s.hub.subs;
    hide Balanced, AccountOf, FlightsInv;
    forall j | j in s.hub.subs
      ensures Balanced(AccountOf(t, j))
    {
      DisconnectAccount(s, e, id, j);
      BalancedLeave(AccountOf(s, j), None);
    }
  }

  lemma LeaveShape<D>(h: State<D>, e: Env, id: nat)
    requires WellFormed(h)
    ensures WellFormed(Disconnected(h, e, id))
  {
  }

  lemma DisconnectKeeps<D>(s: Sys<D>, e: Env, id: nat)
    requires Inv(s) && CanDisconnect(s, e, id)
    ensures Inv(AfterDisconnect(s, e, id))
  {
    DisconnectSubs(s, e, id);
    ActiveLeave(s.hub, e, id);
    LeaveShape(s.hub, e, id);
    FlightUpdate(s.flights, s.hub.subs, e, AfterDisconnect(s, e, id).flights[e]);
    hide SubsInv, RingsInv, AllRegistered, FlightsInv, WellFormed;
  }

  lemma EndSubs<D>(s: Sys<D>, e: Env)
    requires SubsInv(s) && CanEnd(s, e)
    ensures SubsInv(AfterEnd(s, e))
  {
    hide Balanced;
    forall j | j in s.hub.subs
      ensures Balanced(AccountOf(AfterEnd(s, e), j))
    {
      assert AccountOf(AfterEnd(s, e), j) == AccountOf(s, j);
    }
  }

  lemma EndKeeps<D>(s: Sys<D>, e: Env)
    requires Inv(s) && CanEnd(s, e)
    ensures Inv(AfterEnd(s, e))
  {
    EndSubs(s, e);
    hide RingsInv, ActiveInv, WellFormed, SubsInv;
  }

  lemma ReceiveAccount<D>(s: Sys<D>, id: nat, j: nat)
    requires CanReceive(s, id) && j in s.hub.subs
    ensures
      var a := AccountOf(s, j);
      && (j == id ==> a.ch != [])
      && AccountOf(AfterReceive(s, id), j) ==
         if j == id then a.(ch := a.ch[1..], received := a.received + [a.ch[0]]) else a
  {
  }

  lemma ReceiveSubs<D>(s: Sys<D>, id: nat)
    requires SubsInv(s) && CanReceive(s, id)
    ensures SubsInv(AfterReceive(s, id))
  {
    hide Balanced, AccountOf;
    forall j | j in s.hub.subs
      ensures Balanced(AccountOf(AfterReceive(s, id), j))
    {
      ReceiveAccount(s, id, j);
      if j == id {
        BalancedReceive(AccountOf(s, id));
      }
    }
  }

  lemma ReceiveKeeps<D>(s: Sys<D>, id: nat)
    requires Inv(s) && CanReceive(s, id)
    ensures Inv(AfterReceive(s, id))
  {
    ReceiveSubs(s, id);
    ChannelUpdate(s.hub, s.flights, id, s.hub.subs[id].(ch := s.hub.subs[id].ch[1..]));
    hide SubsInv, RingsInv, AllRegistered, WellFormed;
  }

  lemma StepKeeps<D>(s: Sys<D>, step: Step<D>)
    requires Inv(s) && Enabled(s, step)
    ensures Inv(Apply(s, step))
  {
    hide Inv;
    match step
    case Subscribe(e) => SubscribeKeeps(s, e);
    case Unsubscribe(e, id) => UnsubscribeKeeps(s, e, id);
    case Begin(e, msg) => BeginKeeps(s, e, msg);
    case Offer(e, id) => OfferKeeps(s, e, id);
    case Disconnect(e, id) => DisconnectKeeps(s, e, id);
    case End(e) => EndKeeps(s, e);
    case Receive(id) => ReceiveKeeps(s, id);
  }

  lemma {:induction false} RunsKeep<D(!new)>(states: seq<Sys<D>>, steps: seq<Step<D>>, n: nat)
    requires Run(states, steps) && n <= |steps|
    ensures Inv(states[n])
  {
    if n == 0 {
      assert AllRegistered(map[]) == {};
    } else {
      RunsKeep(states, steps, n - 1);
      StepKeeps(states[n - 1], steps[n - 1]);
    }
  }

  // ----- What this means for every run -----

  /** Nothing is lost, repeated or reordered on a subscriber's channel, in any run: what
      it received followed by what it still has buffered is a prefix of the messages
      published to its environment since it subscribed, and all of them as long as it is
      registered and no publish in progress still owes it one. Channels stay bounded. */
  lemma DeliveryInEveryRun<D(!new)>(states: seq<Sys<D>>, steps: seq<Step<D>>, n: nat, id: nat)
    requires Run(states, steps) && n <= |steps| && id in states[n].hub.subs
    ensures
      var a := AccountOf(states[n], id);
      && a.joined <= |a.log|
      && a.received + a.ch <= a.log[a.joined..]
      && (a.registered && a.pending.None? ==> a.received + a.ch == a.log[a.joined..])
      && |a.ch| <= 32
  {
    RunsKeep(states, steps, n);
  }

  /** The active-connection gauge counts the registered subscribers of all environments. */
  lemma ActiveCountInEveryRun<D(!new)>(states: seq<Sys<D>>, steps: seq<Step<D>>, n: nat)
    requires Run(states, steps) && n <= |steps|
    ensures states[n].hub.active == |AllRegistered(states[n].hub.members)|
  {
    RunsKeep(states, steps, n);
  }

  predicate IsPublisherStep<D>(step: Step<D>, e: Env) {
    (step.Offer? || step.Disconnect? || step.End?) && step.envKey == e
  }

  /** The steps a publish in progress still has to take. */
  function Remaining<D>(s: Sys<D>, e: Env): nat {
    if e in s.flights then 2 * |s.flights[e].todo| + |s.flights[e].full| + 1 else 0
  }

  /** A publisher can always take its next step, whatever the subscribers do ... */
  lemma PublisherNeverBlocks<D(!new)>(states: seq<Sys<D>>, steps: seq<Step<D>>, n: nat, e: Env)
    requires Run(states, steps) && n <= |steps| && e in states[n].flights
    ensures exists step: Step<D> :: IsPublisherStep(step, e) && Enabled(states[n], step)
  {
    RunsKeep(states, steps, n);
    var s := states[n];
    var f := s.flights[e];
    var step: Step<D> := End(e);
    if f.todo != {} {
      var id :| id in f.todo;
      step := Offer(e, id);
    } else if f.full != {} {
      var id :| id in f.full;
      step := Disconnect(e, id);
    }
    assert IsPublisherStep(step, e) && Enabled(s, step);
  }

  /** ... and each step brings it closer to its end, which no other step puts off. */
  lemma PublisherProgress<D>(s: Sys<D>, step: Step<D>, e: Env)
    requires Enabled(s, step) && e in s.flights
    ensures IsPublisherStep(step, e) ==> Remaining(Apply(s, step), e) < Remaining(s, e)
    ensures !IsPublisherStep(step, e) ==> Remaining(Apply(s, step), e) == Remaining(s, e)
  {
    if step.Offer? && step.envKey == e {
      var full := s.flights[e].full;
      assert |full + {step.id}| <= |full| + 1;
    }
  }

  // ----- A publish from beginning to end -----

  /** How far a publish of `msg` that began in `h` has come: whom it is still to be offered to,
      who of the others was full, and who of those is gone. */
  ghost predicate FlightUnderWay<D>(h: State<D>, f: Flight<D>, e: Env, msg: Message<D>, gone: set<nat>) {
    && f.msg == msg
    && f.todo <= Registered(h, e) && (gone != {} ==> f.todo == {})
    && gone !! f.full && gone + f.full == Overflowing(h, e) - f.todo
  }

  ghost function HubUnderWay<D>(h: State<D>, e: Env, msg: Message<D>, todo: set<nat>, gone: set<nat>): State<D> {
    Dropped(FannedOut(PublishBegun(h, e, msg), Registered(h, e) - todo, msg), e, gone)
  }

  ghost predicate UnderWay<D>(h: State<D>, s: Sys<D>, e: Env, msg: Message<D>, gone: set<nat>) {
    && e in s.flights
    && FlightUnderWay(h, s.flights[e], e, msg, gone)
    && s.hub == HubUnderWay(h, e, msg, s.flights[e].todo, gone)
  }

  lemma BegunUnderWay<D>(s: Sys<D>, e: Env, msg: Message<D>)
    ensures UnderWay(s.hub, AfterBegin(s, e, msg), e, msg, {})
  {
    var listed, begun := Registered(s.hub, e), PublishBegun(s.hub, e, msg);
    assert listed - listed == {};
    assert FannedOut(begun, {}, msg).subs == begun.subs;
    DroppedNobody(FannedOut(begun, {}, msg), e);
    hide Dropped;
  }

  /** One more subscriber offered, before anyone is gone. */
  lemma OfferedHub<D>(h: State<D>, e: Env, msg: Message<D>, todo: set<nat>, id: nat)
    requires WellFormed(h) && todo <= Registered(h, e) && id in todo
    ensures
      var hub := HubUnderWay(h, e, msg, todo, {});
      && id in hub.subs && hub.subs[id] == h.subs[id]
      && Offered(hub, id, msg) == HubUnderWay(h, e, msg, todo - {id}, {})
  {
    var listed, begun := Registered(h, e), PublishBegun(h, e, msg);
    DroppedNobody(FannedOut(begun, listed - todo, msg), e);
    FannedOutOneMore(begun, listed - todo, msg, id);
    assert listed - (todo - {id}) == listed - todo + {id};
    DroppedNobody(FannedOut(begun, listed - (todo - {id}), msg), e);
    hide Dropped;
  }

  lemma OfferedFlight<D>(h: State<D>, s: Sys<D>, e: Env, msg: Message<D>, id: nat)
    requires CanOffer(s, e, id) && FlightUnderWay(h, s.flights[e], e, msg, {})
    requires id in h.subs && s.hub.subs[id] == h.subs[id]
    ensures FlightUnderWay(h, AfterOffer(s, e, id).flights[e], e, msg, {})
  {
    var f := s.flights[e];
    OfferedSets(f.todo, f.full, Overflowing(h, e), id);
    hide Offered;
  }

  lemma OfferUnderWay<D>(h: State<D>, s: Sys<D>, e: Env, msg: Message<D>, gone: set<nat>, id: nat)
    requires WellFormed(h) && UnderWay(h, s, e, msg, gone) && CanOffer(s, e, id)
    ensures UnderWay(h, AfterOffer(s, e, id), e, msg, gone)
  {
    assert gone == {};
    OfferedHub(h, e, msg, s.flights[e].todo, id);
    OfferedFlight(h, s, e, msg, id);
    hide WellFormed, HubUnderWay, Offered, Overflowing;
  }

  lemma OfferedSets(todo: set<nat>, full: set<nat>, over: set<nat>, id: nat)
    requires {} + full == over - todo && id in todo
    ensures {} + (if id in over then full + {id} else full) == over - (todo - {id})
  {
  }

  lemma DisconnectUnderWay<D>(h: State<D>, s: Sys<D>, e: Env, msg: Message<D>, gone: set<nat>, id: nat)
    requires UnderWay(h, s, e, msg, gone) && CanDisconnect(s, e, id)
    ensures UnderWay(h, AfterDisconnect(s, e, id), e, msg, gone + {id})
  {
    var fanned := FannedOut(PublishBegun(h, e, msg), Registered(h, e), msg);
    assert Registered(h, e) - {} == Registered(h, e);
    assert id in gone + s.flights[e].full;
    assert Registered(fanned, e) == Registered(h, e);
    DroppedOneMore(fanned, e, gone, id);
    hide Dropped, FannedOut, Disconnected;
  }

  /** The steps of one publish, one after the other in whatever order they come, and nothing
      in between. */
  ghost predicate PublishRun<D(!new)>(states: seq<Sys<D>>, steps: seq<Step<D>>, e: Env, msg: Message<D>) {
    && |states| == |steps| + 1 && steps != []
    && e !in states[0].flights && steps[0] == Begin(e, msg)
    && (forall i | 0 < i < |steps| :: IsPublisherStep(steps[i], e))
    && forall i | 0 <= i < |steps| :: Enabled(states[i], steps[i]) && states[i + 1] == Apply(states[i], steps[i])
  }

  /** Where a publisher's step leads: further on, or to the end. */
  ghost predicate FurtherOn<D>(h: State<D>, s: Sys<D>, e: Env, msg: Message<D>, gone: set<nat>) {
    if e in s.flights then UnderWay(h, s, e, msg, gone) else s.hub == Published(h, e, msg)
  }

  lemma PublisherStep<D>(h: State<D>, s: Sys<D>, step: Step<D>, e: Env, msg: Message<D>, gone: set<nat>)
    returns (next: set<nat>)
    requires WellFormed(h) && FurtherOn(h, s, e, msg, gone) && IsPublisherStep(step, e) && Enabled(s, step)
    ensures FurtherOn(h, Apply(s, step), e, msg, next)
    ensures Apply(s, step).flights - {e} == s.flights - {e}
  {
    next := gone;
    hide Published, WellFormed, UnderWay, Offered, Disconnected;
    match step
    case Offer(_, id) => OfferUnderWay(h, s, e, msg, gone, id);
    case Disconnect(_, id) =>
      DisconnectUnderWay(h, s, e, msg, gone, id);
      next := gone + {id};
    case End(_) => EndedAsPublished(h, s, e, msg, gone);
  }

  lemma {:induction false} PublishSoFar<D(!new)>(
    states: seq<Sys<D>>, steps: seq<Step<D>>, e: Env, msg: Message<D>, n: nat) returns (gone: set<nat>)
    requires PublishRun(states, steps, e, msg) && WellFormed(states[0].hub) && 0 < n <= |steps|
    ensures FurtherOn(states[0].hub, states[n], e, msg, gone)
    ensures states[n].flights - {e} == states[0].flights
  {
    hide UnderWay, Published, WellFormed;
    if n == 1 {
      gone := {};
      BegunUnderWay(states[0], e, msg);
      assert states[1].flights - {e} == states[0].flights;
    } else {
      var before := PublishSoFar(states, steps, e, msg, n - 1);
      assert Enabled(states[n - 1], steps[n - 1]) && IsPublisherStep(steps[n - 1], e);
      hide FurtherOn, Apply;
      gone := PublisherStep(states[0].hub, states[n - 1], steps[n - 1], e, msg, before);
    }
  }

  lemma EndedAsPublished<D>(h: State<D>, s: Sys<D>, e: Env, msg: Message<D>, gone: set<nat>)
    requires UnderWay(h, s, e, msg, gone) && CanEnd(s, e)
    ensures s.hub == Published(h, e, msg)
  {
    assert gone + {} == gone && Overflowing(h, e) - {} == Overflowing(h, e);
    assert Registered(h, e) - {} == Registered(h, e);
    hide Dropped, FannedOut, Overflowing;
  }

  /** `Publish` step by step is `Publish` as a whole: if its steps are not interrupted, the hub
      is as `Published` says when it has ended, whatever the order of sends and of
      disconnections. */
  lemma StepsMakeAPublish<D(!new)>(states: seq<Sys<D>>, steps: seq<Step<D>>, e: Env, msg: Message<D>)
    requires PublishRun(states, steps, e, msg) && WellFormed(states[0].hub)
    requires e !in states[|steps|].flights
    ensures states[|steps|].hub == Published(states[0].hub, e, msg)
    ensures states[|steps|].flights == states[0].flights
  {
    var gone := PublishSoFar(states, steps, e, msg, |steps|);
    hide Published, WellFormed, UnderWay, Apply;
    assert states[|steps|].flights - {e} == states[|steps|].flights;
  }
}
