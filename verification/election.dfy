/**
 Master election over ZooKeeper. Every node tries to create the ephemeral node /master; the one whose
 session owns it is the master, and the others watch it.
 */
module Election {
  import opened Wrappers

  /** The result codes that a create or a check can complete with here. */
  datatype Code = ZOk | ZNodeExists | ZNoNode | ZConnectionLoss | ZTimeout

  datatype SessionState = Connected | Disconnected | Expired

  datatype Request = Create | Check

  /** What the client library delivers to a node, in order. */
  datatype Event =
    | CreateDone(rc: Code)
    | CheckDone(rc: Code)
    | MasterDeleted
    | Session(state: SessionState)

  /**
   The globals of one process and its handle: the session (none while a new handle connects), the requests
   sent and not completed, and the events not yet delivered, both in order.
   */
  datatype Client = Client(connected: bool, expired: bool, isMaster: bool, session: Option<nat>,
                           requests: seq<Request>, events: seq<Event>)

  /** After `InitZookeeper`: the handle is connecting and the first create has been sent. */
  function NewClient(): Client {
    Client(false, false, false, None, [Create], [])
  }

  // ---------------------------------------------------------------- the callbacks

  function TryBecomeMaster(c: Client): Client {
    c.(requests := c.requests + [Create])
  }

  function CheckMaster(c: Client): Client {
    c.(requests := c.requests + [Check])
  }

  function OnCreate(c: Client, rc: Code): Client {
    match rc
    case ZConnectionLoss => CheckMaster(c)
    case ZTimeout => CheckMaster(c)
    case ZOk => c.(isMaster := true)
    case ZNodeExists => CheckMaster(c)
    case ZNoNode => c
  }

  function OnCheck(c: Client, rc: Code): Client {
    match rc
    case ZConnectionLoss => CheckMaster(c)
    case ZTimeout => CheckMaster(c)
    case ZOk => c
    case ZNoNode => TryBecomeMaster(c)
    case ZNodeExists => c
  }

  function OnSession(c: Client, state: SessionState): Client {
    match state
    case Connected =>
      var back := c.(connected := true, expired := false);
      if c.expired then TryBecomeMaster(back) else back
    case Disconnected => c.(connected := false)
    // the old handle is closed, its requests and events with it, and a new one starts to connect
    case Expired => Client(false, true, false, None, [], [])
  }

  /** The callback for the next event. */
  function Deliver(c: Client): Client
    requires c.events != []
  {
    var rest := c.(events := c.events[1..]);
    match c.events[0]
    case CreateDone(rc) => OnCreate(rest, rc)
    case CheckDone(rc) => OnCheck(rest, rc)
    case MasterDeleted => TryBecomeMaster(rest)
    case Session(state) => OnSession(rest, state)
  }

  /** The globals of the process, changed in place by the callbacks. */
  class Process {
    var connected: bool
    var expired: bool
    var isMaster: bool
    var session: Option<nat>
    var requests: seq<Request>

    /** The process together with the events that its library still holds. */
    function View(events: seq<Event>): Client
      reads this
    {
      Client(connected, expired, isMaster, session, requests, events)
    }

    constructor ()
      ensures View([]) == NewClient()
      ensures !connected && !expired && !isMaster && session.None? && requests == [Create]
    {
      connected, expired, isMaster, session, requests := false, false, false, None, [Create];
    }

    method Send(r: Request)
      modifies this`requests
      ensures requests == old(requests) + [r]
    {
      requests := requests + [r];
    }

    method TryBecomeMasterCompletion(rc: Code)
      modifies this
      ensures forall events :: View(events) == OnCreate(old(View(events)), rc)
      ensures requests == old(requests) + if rc.ZConnectionLoss? || rc.ZTimeout? || rc.ZNodeExists? then [Check] else []
      ensures isMaster == (rc.ZOk? || old(isMaster)) && connected == old(connected) && expired == old(expired)
      ensures session == old(session)
    {
      match rc {
        case ZConnectionLoss => Send(Check);
        case ZTimeout => Send(Check);
        case ZOk => isMaster := true;
        case ZNodeExists => Send(Check);
        case ZNoNode =>
      }
    }

    method CheckMasterCompletion(rc: Code)
      modifies this
      ensures forall events :: View(events) == OnCheck(old(View(events)), rc)
      ensures requests == old(requests) + if rc.ZConnectionLoss? || rc.ZTimeout? then [Check]
                                          else if rc.ZNoNode? then [Create] else []
      ensures isMaster == old(isMaster) && connected == old(connected) && expired == old(expired)
      ensures session == old(session)
    {
      match rc {
        case ZConnectionLoss => Send(Check);
        case ZTimeout => Send(Check);
        case ZOk =>
        case ZNoNode => Send(Create);
        case ZNodeExists =>
      }
    }

    method CheckMasterWatch()
      modifies this
      ensures forall events :: View(events) == TryBecomeMaster(old(View(events)))
      ensures requests == old(requests) + [Create] && isMaster == old(isMaster)
      ensures connected == old(connected) && expired == old(expired) && session == old(session)
    {
      Send(Create);
    }

    /** Closing the handle of an expired session throws away what its library held. */
    method SessionWatcher(state: SessionState)
      modifies this
      ensures forall events :: View(if state == Expired then [] else events) == OnSession(old(View(events)), state)
      ensures connected == state.Connected? && expired == (state.Expired? || (state.Disconnected? && old(expired)))
      ensures isMaster == (old(isMaster) && !state.Expired?)
      ensures session == if state.Expired? then None else old(session)
      ensures requests == if state.Expired? then []
                          else old(requests) + if state.Connected? && old(expired) then [Create] else []
    {
      match state {
        case Connected =>
          var wasExpired := expired;
          connected, expired := true, false;
          if wasExpired {
            Send(Create);
          }
        case Disconnected =>
          connected := false;
        case Expired =>
          connected, isMaster, expired := false, false, true;
          session, requests := None, [];
      }
    }

    /** The client library hands over one event. */
    method Handle(e: Event)
      modifies this
      ensures forall events ::
                View(if e == Session(Expired) then [] else events) == Deliver(old(View([e] + events)))
    {
      assert forall events: seq<Event> :: ([e] + events)[1..] == events;
      match e {
        case CreateDone(rc) => TryBecomeMasterCompletion(rc);
        case CheckDone(rc) => CheckMasterCompletion(rc);
        case MasterDeleted => CheckMasterWatch();
        case Session(state) => SessionWatcher(state);
      }
    }
  }

  // ---------------------------------------------------------------- the cluster

  /** The server: the owner of /master, the sessions that are alive, and those with a watch on /master. */
  datatype Cluster = Cluster(nodes: map<nat, Client>, owner: Option<nat>, alive: set<nat>, watches: set<nat>, next: nat)

  datatype Step =
    | Start(n: nat)
    | Connect(n: nat)
    | Serve(n: nat)
    | LoseServed(n: nat)
    | Lose(n: nat, timeout: bool)
    | Disconnect(n: nat)
    | Reconnect(n: nat)
    | Expire(session: nat)
    | NotifyExpired(n: nat)
    | DeliverNext(n: nat)

  function Init(): Cluster {
    Cluster(map[], None, {}, {}, 0)
  }

  predicate Live(z: Cluster, n: nat) {
    n in z.nodes && z.nodes[n].session.Some? && z.nodes[n].session.value in z.alive
  }

  predicate Enabled(z: Cluster, step: Step) {
    match step
    case Start(n) => n !in z.nodes
    case Connect(n) => n in z.nodes && z.nodes[n].session.None?
    case Serve(n) => Live(z, n) && z.nodes[n].requests != []
    case LoseServed(n) => Live(z, n) && z.nodes[n].requests != []
    case Lose(n, _) => n in z.nodes && z.nodes[n].requests != []
    case Disconnect(n) => n in z.nodes && z.nodes[n].session.Some?
    case Reconnect(n) => Live(z, n)
    case Expire(session) => session in z.alive
    case NotifyExpired(n) => n in z.nodes && z.nodes[n].session.Some? && z.nodes[n].session.value !in z.alive
    case DeliverNext(n) => n in z.nodes && z.nodes[n].events != []
  }

  function Post(c: Client, e: Event): Client {
    c.(events := c.events + [e])
  }

  function Popped(c: Client): Client
    requires c.requests != []
  {
    c.(requests := c.requests[1..])
  }

  /**
   The server carries out the first request of a node. When the answer is lost, the node is told of a
   connection loss, and its library registers no watch.
   */
  function ServeWith(z: Cluster, n: nat, lost: bool): Cluster
    requires Live(z, n) && z.nodes[n].requests != []
  {
    var c := z.nodes[n];
    var s := c.session.value;
    match c.requests[0]
    case Create =>
      var rc := if z.owner.None? then ZOk else ZNodeExists;
      z.(owner := if z.owner.None? then Some(s) else z.owner,
         nodes := z.nodes[n := Post(Popped(c), CreateDone(if lost then ZConnectionLoss else rc))])
    case Check =>
      var rc := if z.owner.None? then ZNoNode else ZOk;
      z.(watches := if z.owner.None? || lost then z.watches else z.watches + {s},
         nodes := z.nodes[n := Post(Popped(c), CheckDone(if lost then ZConnectionLoss else rc))])
  }

  function FailedRequest(r: Request, timeout: bool): Event {
    var rc := if timeout then ZTimeout else ZConnectionLoss;
    if r.Create? then CreateDone(rc) else CheckDone(rc)
  }

  /** The deletion of /master is reported to every session that watches it. */
  function NotifyWatchers(nodes: map<nat, Client>, watches: set<nat>): map<nat, Client> {
    map n | n in nodes ::
      if nodes[n].session.Some? && nodes[n].session.value in watches then Post(nodes[n], MasterDeleted) else nodes[n]
  }

  function Do(z: Cluster, step: Step): Cluster
    requires Enabled(z, step)
  {
    match step
    case Start(n) => z.(nodes := z.nodes[n := NewClient()])
    case Connect(n) =>
      z.(alive := z.alive + {z.next}, next := z.next + 1,
         nodes := z.nodes[n := Post(z.nodes[n].(session := Some(z.next)), Session(Connected))])
    case Serve(n) => ServeWith(z, n, false)
    case LoseServed(n) => ServeWith(z, n, true)
    case Lose(n, timeout) =>
      z.(nodes := z.nodes[n := Post(Popped(z.nodes[n]), FailedRequest(z.nodes[n].requests[0], timeout))])
    case Disconnect(n) => z.(nodes := z.nodes[n := Post(z.nodes[n], Session(Disconnected))])
    case Reconnect(n) => z.(nodes := z.nodes[n := Post(z.nodes[n], Session(Connected))])
    // the session's ephemeral node goes with it
    case Expire(session) =>
      var rest := z.(alive := z.alive - {session}, watches := z.watches - {session});
      if z.owner == Some(session) then
        rest.(owner := None, watches := {}, nodes := NotifyWatchers(z.nodes, rest.watches))
      else
        rest
    case NotifyExpired(n) => z.(nodes := z.nodes[n := Post(z.nodes[n], Session(Expired))])
    case DeliverNext(n) => z.(nodes := z.nodes[n := Deliver(z.nodes[n])])
  }

  // ---------------------------------------------------------------- the invariants

  ghost predicate Sessions(z: Cluster) {
    && (forall s :: s in z.alive ==> s < z.next)
    && (forall n :: n in z.nodes && z.nodes[n].session.Some? ==> z.nodes[n].session.value < z.next)
    && (forall n, m :: n in z.nodes && m in z.nodes && n != m && z.nodes[n].session.Some? ==>
          z.nodes[n].session != z.nodes[m].session)
    && (z.owner.Some? ==> z.owner.value in z.alive)
    && z.watches <= z.alive
    && (z.owner.None? ==> z.watches == {})
  }

  /** The session owns /master, or is dead. */
  predicate OwnsOrDead(z: Cluster, session: Option<nat>) {
    session.Some? && (session.value in z.alive ==> z.owner == session)
  }

  /** A node that is master, or is about to learn that it is, owns /master while its session lives. */
  ghost predicate MasterOwns(z: Cluster, c: Client) {
    && (c.isMaster ==> OwnsOrDead(z, c.session))
    && (CreateDone(ZOk) in c.events ==> OwnsOrDead(z, c.session))
  }

  /** Between losing its session and being connected again, a node neither asks nor expects anything. */
  ghost predicate QuietWhileExpired(z: Cluster, c: Client) {
    c.expired ==>
      && !c.isMaster && c.requests == []
      && (forall i :: 0 <= i < |c.events| ==> c.events[i].Session?)
      && (c.session.Some? ==> c.session.value !in z.watches)
      && (c.session.Some? && c.session.value in z.alive ==> Session(Connected) in c.events)
      && (c.session.None? ==> c.events == [])
  }

  /** An event whose callback makes the node master or sends another request. */
  predicate Stirs(e: Event) {
    match e
    case CreateDone(rc) => rc != ZNoNode
    case CheckDone(rc) => rc == ZConnectionLoss || rc == ZTimeout || rc == ZNoNode
    case MasterDeleted => true
    case Session(_) => false
  }

  /** Something will still make the node stand for election, or it is the master. */
  ghost predicate Attentive(z: Cluster, c: Client) {
    || c.isMaster
    || c.requests != []
    || (exists i :: 0 <= i < |c.events| && Stirs(c.events[i]))
    || (c.expired && Session(Connected) in c.events)
    || (c.session.Some? && c.session.value in z.watches)
  }

  /** An expiry is reported only to a session that is dead. */
  ghost predicate ExpiredIsDead(z: Cluster, c: Client) {
    Session(Expired) in c.events ==> c.session.Some? && c.session.value !in z.alive
  }

  ghost predicate GoodClient(z: Cluster, c: Client) {
    && MasterOwns(z, c)
    && QuietWhileExpired(z, c)
    && ExpiredIsDead(z, c)
    && ((c.session.Some? && c.session.value in z.alive) || (c.session.None? && !c.expired) ==> Attentive(z, c))
    && (forall i :: 0 <= i < |c.events| ==> c.events[i] != CreateDone(ZNoNode) && c.events[i] != CheckDone(ZNodeExists))
  }

  ghost predicate Inv(z: Cluster) {
    Sessions(z) && forall n :: n in z.nodes ==> GoodClient(z, z.nodes[n])
  }

  lemma InitSatisfiesInv()
    ensures Inv(Init())
  {
  }

  // ---------------------------------------------------------------- appending and taking events

  lemma PostedEvents(c: Client, e: Event)
    ensures forall x :: x in Post(c, e).events <==> x in c.events || x == e
    ensures (exists i :: 0 <= i < |Post(c, e).events| && Stirs(Post(c, e).events[i])) <==>
            Stirs(e) || exists i :: 0 <= i < |c.events| && Stirs(c.events[i])
  {
    var after := Post(c, e).events;
    if i :| 0 <= i < |c.events| && Stirs(c.events[i]) {
      assert after[i] == c.events[i];
    }
    assert after[|c.events|] == e;
  }

  lemma TakenEvents(events: seq<Event>)
    requires events != []
    ensures forall x :: x in events[1..] ==> x in events
    ensures forall x :: x in events && x != events[0] ==> x in events[1..]
    ensures (exists i :: 0 <= i < |events| && Stirs(events[i])) && !Stirs(events[0]) ==>
              exists i :: 0 <= i < |events[1..]| && Stirs(events[1..][i])
  {
    assert events == [events[0]] + events[1..];
    if i :| 0 <= i < |events| && Stirs(events[i]) {
      if i > 0 {
        assert events[1..][i - 1] == events[i];
      }
    }
  }

  // ---------------------------------------------------------------- one step

  /** A node that is not touched stays good when the server changes no more than this. */
  lemma Untouched(z: Cluster, y: Cluster, c: Client)
    requires GoodClient(z, c) && y.alive <= z.alive
    requires c.session.Some? ==> (c.session.value in z.watches <==> c.session.value in y.watches)
    requires OwnsOrDead(z, c.session) ==> OwnsOrDead(y, c.session)
    ensures GoodClient(y, c)
  {
  }

  lemma StartKeepsInv(z: Cluster, n: nat)
    requires Inv(z) && Enabled(z, Start(n))
    ensures Inv(Do(z, Start(n)))
  {
    var y := Do(z, Start(n));
    forall m | m in z.nodes
      ensures GoodClient(y, z.nodes[m])
    {
      Untouched(z, y, z.nodes[m]);
    }
    hide Stirs;
  }

  lemma ConnectedIsGood(z: Cluster, c: Client)
    requires Sessions(z) && GoodClient(z, c) && c.session.None?
    ensures var y := z.(alive := z.alive + {z.next}, next := z.next + 1);
            GoodClient(y, Post(c.(session := Some(z.next)), Session(Connected)))
  {
    PostedEvents(c.(session := Some(z.next)), Session(Connected));
  }

  lemma ConnectKeepsInv(z: Cluster, n: nat)
    requires Inv(z) && Enabled(z, Connect(n))
    ensures Inv(Do(z, Connect(n)))
  {
    var y := Do(z, Connect(n));
    ConnectedIsGood(z, z.nodes[n]);
    hide Stirs, Attentive;
    forall m | m in z.nodes && m != n
      ensures GoodClient(y, z.nodes[m])
    {
    }
  }

  /** One node changes, and the server no more than `Untouched` allows for the others. */
  lemma OneNodeChanges(z: Cluster, y: Cluster, n: nat, c: Client)
    requires Inv(z) && n in z.nodes && y.nodes == z.nodes[n := c]
    requires c.session == z.nodes[n].session && y.next == z.next && y.alive == z.alive
    requires Sessions(y) && GoodClient(y, c)
    requires forall m :: m in z.nodes && m != n ==>
               && (z.nodes[m].session.Some? ==>
                     (z.nodes[m].session.value in z.watches <==> z.nodes[m].session.value in y.watches))
               && (OwnsOrDead(z, z.nodes[m].session) ==> OwnsOrDead(y, z.nodes[m].session))
    ensures Inv(y)
  {
    hide GoodClient, Sessions, OwnsOrDead;
    forall m | m in y.nodes
      ensures GoodClient(y, y.nodes[m])
    {
      if m != n {
        Untouched(z, y, z.nodes[m]);
      }
    }
  }

  /** A request is answered or lost: the answer stirs the node, or a watch has been set. */
  lemma AnsweredIsGood(z: Cluster, y: Cluster, c: Client, e: Event)
    requires GoodClient(z, c) && c.requests != []
    requires y.alive == z.alive && z.watches <= y.watches
    requires OwnsOrDead(z, c.session) ==> OwnsOrDead(y, c.session)
    requires e != Session(Expired) && e != CreateDone(ZNoNode) && e != CheckDone(ZNodeExists)
    requires e == CreateDone(ZOk) ==> OwnsOrDead(y, c.session)
    requires Stirs(e) || (c.session.Some? && c.session.value in y.watches)
    ensures GoodClient(y, Post(Popped(c), e))
  {
    PostedEvents(Popped(c), e);
  }

  lemma ServeKeepsInv(z: Cluster, n: nat, lost: bool)
    requires Inv(z) && Live(z, n) && z.nodes[n].requests != []
    ensures Inv(ServeWith(z, n, lost))
  {
    var y, c := ServeWith(z, n, lost), z.nodes[n];
    var e := y.nodes[n].events[|c.events|];
    assert y.nodes[n] == Post(Popped(c), e);
    AnsweredIsGood(z, y, c, e);
    hide GoodClient, Stirs;
    OneNodeChanges(z, y, n, y.nodes[n]);
  }

  lemma LoseKeepsInv(z: Cluster, n: nat, timeout: bool)
    requires Inv(z) && Enabled(z, Lose(n, timeout))
    ensures Inv(Do(z, Lose(n, timeout)))
  {
    var y, c := Do(z, Lose(n, timeout)), z.nodes[n];
    AnsweredIsGood(z, y, c, FailedRequest(c.requests[0], timeout));
    hide GoodClient, Stirs;
    OneNodeChanges(z, y, n, y.nodes[n]);
  }

  lemma PostedSessionIsGood(z: Cluster, c: Client, state: SessionState)
    requires GoodClient(z, c) && c.session.Some?
    requires state == Expired ==> c.session.value !in z.alive
    ensures GoodClient(z, Post(c, Session(state)))
  {
    PostedEvents(c, Session(state));
  }

  lemma SessionEventKeepsInv(z: Cluster, step: Step)
    requires Inv(z) && Enabled(z, step) && (step.Disconnect? || step.Reconnect? || step.NotifyExpired?)
    ensures Inv(Do(z, step))
  {
    var state := if step.Disconnect? then Disconnected else if step.Reconnect? then Connected else Expired;
    var c := z.nodes[step.n];
    PostedSessionIsGood(z, c, state);
    var y := z.(nodes := z.nodes[step.n := Post(c, Session(state))]);
    assert y == Do(z, step);
    SameServer(z, y, c);
    OneNodeChanges(z, y, step.n, Post(c, Session(state)));
  }

  lemma SameServer(z: Cluster, y: Cluster, c: Client)
    requires y.alive == z.alive && y.owner == z.owner && y.watches == z.watches && GoodClient(z, c)
    ensures GoodClient(y, c)
    ensures forall d :: GoodClient(z, d) ==> GoodClient(y, d)
  {
  }

  lemma NotifiedIsGood(z: Cluster, y: Cluster, c: Client, session: nat)
    requires Sessions(z) && GoodClient(z, c) && z.owner == Some(session)
    requires y.alive == z.alive - {session} && y.owner == None && y.watches == {}
    ensures var watching := c.session.Some? && c.session.value in z.watches - {session};
            GoodClient(y, if watching then Post(c, MasterDeleted) else c)
  {
    PostedEvents(c, MasterDeleted);
  }

  lemma ExpireKeepsInv(z: Cluster, session: nat)
    requires Inv(z) && Enabled(z, Expire(session))
    ensures Inv(Do(z, Expire(session)))
  {
    var y := Do(z, Expire(session));
    forall n | n in z.nodes
      ensures n in y.nodes && y.nodes[n].session == z.nodes[n].session && GoodClient(y, y.nodes[n])
    {
      if z.owner == Some(session) {
        NotifiedIsGood(z, y, z.nodes[n], session);
      } else {
        ExpiredOther(z, y, z.nodes[n], session);
      }
    }
    hide GoodClient;
  }

  lemma ExpiredOther(z: Cluster, y: Cluster, c: Client, session: nat)
    requires GoodClient(z, c) && z.owner != Some(session)
    requires y.alive == z.alive - {session} && y.owner == z.owner && y.watches == z.watches - {session}
    ensures GoodClient(y, c)
  {
  }

  lemma AnswerIsGood(z: Cluster, c: Client)
    requires GoodClient(z, c) && c.events != [] && !c.events[0].Session?
    ensures GoodClient(z, Deliver(c))
  {
    TakenEvents(c.events);
    var e := c.events[0];
    assert e in c.events && !c.expired;
  }

  lemma SessionChangeIsGood(z: Cluster, c: Client)
    requires GoodClient(z, c) && c.events != [] && c.events[0].Session?
    ensures GoodClient(z, Deliver(c))
  {
    TakenEvents(c.events);
    var e := c.events[0];
    assert e in c.events;
  }

  lemma DeliveredIsGood(z: Cluster, c: Client)
    requires GoodClient(z, c) && c.events != []
    ensures GoodClient(z, Deliver(c))
  {
    hide GoodClient, Deliver;
    if c.events[0].Session? {
      SessionChangeIsGood(z, c);
    } else {
      AnswerIsGood(z, c);
    }
  }

  lemma DeliveredSession(c: Client)
    requires c.events != []
    ensures Deliver(c).session == c.session || Deliver(c).session == None
  {
  }

  lemma DeliverKeepsInv(z: Cluster, n: nat)
    requires Inv(z) && Enabled(z, DeliverNext(n))
    ensures Inv(Do(z, DeliverNext(n)))
  {
    hide GoodClient, Deliver, Stirs;
    var y, c := Do(z, DeliverNext(n)), z.nodes[n];
    DeliveredIsGood(z, c);
    DeliveredSession(c);
    forall m | m in y.nodes
      ensures GoodClient(y, y.nodes[m])
    {
      SameServer(z, y, if m == n then Deliver(c) else z.nodes[m]);
    }
  }

  lemma StepKeepsInv(z: Cluster, step: Step)
    requires Inv(z) && Enabled(z, step)
    ensures Inv(Do(z, step))
  {
    match step {
      case Start(n) => StartKeepsInv(z, n);
      case Connect(n) => ConnectKeepsInv(z, n);
      case Serve(n) => ServeKeepsInv(z, n, false);
      case LoseServed(n) => ServeKeepsInv(z, n, true);
      case Lose(n, timeout) => LoseKeepsInv(z, n, timeout);
      case Expire(session) => ExpireKeepsInv(z, session);
      case DeliverNext(n) => DeliverKeepsInv(z, n);
      case _ => SessionEventKeepsInv(z, step);
    }
  }

  // ---------------------------------------------------------------- whole runs

  ghost predicate CanRun(z: Cluster, steps: seq<Step>)
    decreases |steps|
  {
    steps == [] || (Enabled(z, steps[0]) && CanRun(Do(z, steps[0]), steps[1..]))
  }

  ghost function Exec(z: Cluster, steps: seq<Step>): Cluster
    requires CanRun(z, steps)
    decreases |steps|
  {
    if steps == [] then z else Exec(Do(z, steps[0]), steps[1..])
  }

  lemma {:induction false} RunKeepsInv(z: Cluster, steps: seq<Step>)
    requires Inv(z) && CanRun(z, steps)
    ensures Inv(Exec(z, steps))
    decreases |steps|
  {
    hide Inv, Do, Enabled;
    if steps != [] {
      StepKeepsInv(z, steps[0]);
      RunKeepsInv(Do(z, steps[0]), steps[1..]);
    }
  }

  /**
   At most one effective master, at every moment of every run: a node that takes itself for the master and
   whose session is alive owns /master, so no two such nodes exist. An expired node never takes itself for
   the master.
   */
  lemma AtMostOneMaster(steps: seq<Step>)
    requires CanRun(Init(), steps)
    ensures var z := Exec(Init(), steps);
            && (forall n :: Live(z, n) && z.nodes[n].isMaster ==> z.owner == z.nodes[n].session)
            && (forall n, m :: Live(z, n) && Live(z, m) && z.nodes[n].isMaster && z.nodes[m].isMaster ==> n == m)
            && (forall n :: n in z.nodes ==> !(z.nodes[n].isMaster && z.nodes[n].expired))
  {
    InitSatisfiesInv();
    RunKeepsInv(Init(), steps);
    hide CanRun, Exec, Attentive;
  }

  /**
   No node with a live session is ever forgotten: it is the master, or one of its requests is pending, or an
   event is under way that makes it ask again, or it watches /master.
   */
  lemma NoForgottenCandidate(steps: seq<Step>, n: nat)
    requires CanRun(Init(), steps) && Live(Exec(Init(), steps), n)
    ensures Attentive(Exec(Init(), steps), Exec(Init(), steps).nodes[n])
  {
    InitSatisfiesInv();
    RunKeepsInv(Init(), steps);
    hide CanRun, Exec, Attentive;
  }

  // ---------------------------------------------------------------- a vacancy can always be filled

  /** How far an event is from a create that is served: the answer that there is no /master is the nearest. */
  function EventWeight(e: Event): nat {
    if e == CheckDone(ZNoNode) then 1 else 3
  }

  function EventsLeft(events: seq<Event>): nat {
    if events == [] then 0 else EventWeight(events[0]) + EventsLeft(events[1..])
  }

  function ChecksLeft(requests: seq<Request>): nat {
    if requests == [] then 0 else (if requests[0].Check? then 2 else 0) + ChecksLeft(requests[1..])
  }

  function StepsToCreate(c: Client): nat {
    EventsLeft(c.events) + ChecksLeft(c.requests)
  }

  lemma {:induction false} OneMoreEvent(events: seq<Event>, e: Event)
    ensures EventsLeft(events + [e]) == EventsLeft(events) + EventWeight(e)
  {
    if events == [] {
      assert [e][1..] == [];
    } else {
      assert (events + [e])[1..] == events[1..] + [e];
      OneMoreEvent(events[1..], e);
    }
  }

  lemma {:induction false} OneMoreRequest(requests: seq<Request>, r: Request)
    ensures ChecksLeft(requests + [r]) == ChecksLeft(requests) + if r.Check? then 2 else 0
  {
    if requests == [] {
      assert [r][1..] == [];
    } else {
      assert (requests + [r])[1..] == requests[1..] + [r];
      OneMoreRequest(requests[1..], r);
    }
  }

  /** While /master has no owner, each callback of a live node brings its create nearer. */
  lemma DeliverComesCloser(z: Cluster, n: nat)
    requires Inv(z) && Live(z, n) && z.owner.None? && z.nodes[n].events != []
    ensures var y := Do(z, DeliverNext(n));
            y.owner.None? && Live(y, n) && StepsToCreate(y.nodes[n]) < StepsToCreate(z.nodes[n])
  {
    var c := z.nodes[n];
    assert c.events[0] in c.events;
    assert c.events[0] != CreateDone(ZOk) && c.events[0] != Session(Expired);
    OneMoreRequest(c.requests, Create);
    OneMoreRequest(c.requests, Check);
    hide Attentive, EventsLeft, ChecksLeft;
    assert EventsLeft(c.events) == EventWeight(c.events[0]) + EventsLeft(c.events[1..]) by { EventsUnfold(c.events); }
  }

  lemma EventsUnfold(events: seq<Event>)
    requires events != []
    ensures EventsLeft(events) == EventWeight(events[0]) + EventsLeft(events[1..])
  {
  }

  /** When it has nothing more to hear, it has something to ask. */
  lemma SomethingToAsk(z: Cluster, n: nat)
    requires Inv(z) && Live(z, n) && z.owner.None? && z.nodes[n].events == []
    ensures z.nodes[n].requests != [] && !z.nodes[n].expired
  {
  }

  /** A check that is served turns into a create; a create that is served makes the node the owner. */
  lemma ServeComesCloser(z: Cluster, n: nat)
    requires Inv(z) && Live(z, n) && z.owner.None? && z.nodes[n].events == [] && z.nodes[n].requests != []
    ensures var y := Do(z, Serve(n));
            Live(y, n) &&
            if z.nodes[n].requests[0].Check? then
              y.owner.None? && StepsToCreate(y.nodes[n]) < StepsToCreate(z.nodes[n])
            else
              y.owner == y.nodes[n].session && y.nodes[n].events == [CreateDone(ZOk)]
  {
    var c := z.nodes[n];
    OneMoreEvent([], CheckDone(ZNoNode));
    assert [] + [CheckDone(ZNoNode)] == [CheckDone(ZNoNode)];
    hide Inv;
  }

  lemma TellsOwner(z: Cluster, n: nat)
    requires n in z.nodes && z.nodes[n].events == [CreateDone(ZOk)]
    ensures var y := Do(z, DeliverNext(n));
            && n in y.nodes && y.nodes[n].isMaster && y.nodes[n].session == z.nodes[n].session
            && y.owner == z.owner && y.alive == z.alive
  {
  }

  /**
   A vacancy can always be filled. Whenever /master has no owner, a node whose session is alive needs only its own
   callbacks and requests, with answers that are not lost, to become the owner and to know it.
   */
  lemma {:induction false} CanTakeOver(z: Cluster, n: nat) returns (steps: seq<Step>)
    requires Inv(z) && Live(z, n) && z.owner.None?
    ensures forall i :: 0 <= i < |steps| ==> steps[i] == DeliverNext(n) || steps[i] == Serve(n)
    ensures CanRun(z, steps)
    ensures var y := Exec(z, steps); Live(y, n) && y.nodes[n].isMaster && y.owner == y.nodes[n].session
    decreases StepsToCreate(z.nodes[n])
  {
    hide Inv, Do, StepsToCreate;
    if z.nodes[n].events != [] {
      DeliverComesCloser(z, n);
      StepKeepsInv(z, DeliverNext(n));
      steps := CanTakeOver(Do(z, DeliverNext(n)), n);
      RunFrom(z, DeliverNext(n), steps);
      steps := [DeliverNext(n)] + steps;
    } else {
      SomethingToAsk(z, n);
      ServeComesCloser(z, n);
      StepKeepsInv(z, Serve(n));
      var y := Do(z, Serve(n));
      if z.nodes[n].requests[0].Check? {
        steps := CanTakeOver(y, n);
      } else {
        TellsOwner(y, n);
        RunNothing(Do(y, DeliverNext(n)));
        RunFrom(y, DeliverNext(n), []);
        steps := [DeliverNext(n)] + [];
      }
      RunFrom(z, Serve(n), steps);
      steps := [Serve(n)] + steps;
    }
  }

  lemma RunNothing(z: Cluster)
    ensures CanRun(z, []) && Exec(z, []) == z
  {
  }

  // ---------------------------------------------------------------- an owner that does not know

  /** /master is owned by `session`, and no node is the master or about to be told that it is. */
  ghost predicate Leaderless(z: Cluster, session: nat) {
    && z.owner == Some(session)
    && forall n :: n in z.nodes ==> !z.nodes[n].isMaster && CreateDone(ZOk) !in z.nodes[n].events
  }

  /** The node takes itself for the master, or the event that will make it do so is on its way. */
  predicate Told(c: Client) {
    c.isMaster || CreateDone(ZOk) in c.events
  }

  /** /master has an owner, and the node with that session neither is the master nor will be told. */
  ghost predicate Unaware(z: Cluster) {
    z.owner.Some? && forall n :: n in z.nodes && z.nodes[n].session == z.owner ==> !Told(z.nodes[n])
  }

  /** The server carries out a create while /master is not there. */
  predicate MakesOwner(z: Cluster, step: Step)
    requires Enabled(z, step)
  {
    (step.Serve? || step.LoseServed?) && z.nodes[step.n].requests[0].Create? && z.owner.None?
  }

  lemma OneNodeTold(z: Cluster, y: Cluster, n: nat, c: Client)
    requires z.owner.Some? && y.owner == z.owner && y.nodes == z.nodes[n := c]
    requires n in z.nodes && z.nodes[n].session == z.owner ==> c.session == z.owner && (Told(c) <==> Told(z.nodes[n]))
    requires n !in z.nodes || z.nodes[n].session != z.owner ==> c.session != z.owner
    ensures Unaware(y) <==> Unaware(z)
  {
    hide Told;
    if Unaware(y) {
      forall m | m in z.nodes && z.nodes[m].session == z.owner
        ensures !Told(z.nodes[m])
      {
        assert m in y.nodes && y.nodes[m].session == y.owner;
      }
    }
  }

  lemma PostedTold(c: Client, e: Event)
    requires e != CreateDone(ZOk)
    ensures Told(Post(c, e)) <==> Told(c)
  {
    PostedEvents(c, e);
  }

  lemma DeliveredTold(z: Cluster, c: Client)
    requires GoodClient(z, c) && c.events != [] && c.session.Some? && c.session.value in z.alive
    ensures Deliver(c).session == c.session && (Told(Deliver(c)) <==> Told(c))
  {
    TakenEvents(c.events);
    assert c.events[0] in c.events;
    hide Attentive, QuietWhileExpired, MasterOwns;
  }

  lemma DeliverKeepsUnaware(z: Cluster, n: nat)
    requires Inv(z) && Enabled(z, DeliverNext(n)) && z.owner.Some?
    ensures Unaware(Do(z, DeliverNext(n))) <==> Unaware(z)
  {
    var c := z.nodes[n];
    if c.session == z.owner {
      DeliveredTold(z, c);
    }
    DeliveredSession(c);
    hide Deliver, GoodClient, Told;
    OneNodeTold(z, Do(z, DeliverNext(n)), n, Deliver(c));
  }

  /** The steps after which a node has one more event and perhaps one request fewer. */
  lemma AnswerKeepsUnaware(z: Cluster, step: Step)
    requires Inv(z) && Enabled(z, step) && z.owner.Some?
    requires step.Serve? || step.LoseServed? || step.Lose?
    ensures Unaware(Do(z, step)) <==> Unaware(z)
  {
    var y, c := Do(z, step), z.nodes[step.n];
    var e := y.nodes[step.n].events[|c.events|];
    assert y.nodes[step.n] == Post(Popped(c), e) && e != CreateDone(ZOk);
    PostedTold(Popped(c), e);
    hide GoodClient;
    OneNodeTold(z, y, step.n, Post(Popped(c), e));
  }

  lemma SessionKeepsUnaware(z: Cluster, step: Step)
    requires Inv(z) && Enabled(z, step) && z.owner.Some?
    requires step.Disconnect? || step.Reconnect? || step.NotifyExpired? || step.Start? || step.Connect?
    ensures Unaware(Do(z, step)) <==> Unaware(z)
  {
    hide GoodClient, Told;
    var c := Do(z, step).nodes[step.n];
    if step.Disconnect? || step.Reconnect? || step.NotifyExpired? {
      PostedTold(z.nodes[step.n],
                 Session(if step.Disconnect? then Disconnected else if step.Reconnect? then Connected else Expired));
    }
    OneNodeTold(z, Do(z, step), step.n, c);
  }

  lemma MakingAnOwner(z: Cluster, step: Step)
    requires Inv(z) && Enabled(z, step) && MakesOwner(z, step)
    ensures Do(z, step).owner == z.nodes[step.n].session && Do(z, step).owner.Some?
    ensures Unaware(Do(z, step)) <==> step.LoseServed?
  {
    var y, c := Do(z, step), z.nodes[step.n];
    var e := CreateDone(if step.LoseServed? then ZConnectionLoss else ZOk);
    assert !Told(c) by { assert GoodClient(z, c); }
    assert y.nodes == z.nodes[step.n := Post(Popped(c), e)];
    PostedEvents(Popped(c), e);
    hide GoodClient;
    forall m | m in y.nodes && y.nodes[m].session == y.owner
      ensures m == step.n
    {
    }
    assert y.nodes[step.n].session == y.owner;
  }

  /**
   Exactly when the owner of /master does not know that it is the master: after a step, this is so if the step
   made it the owner and lost the answer, or if it was so before and its session has not ended.
   */
  lemma UnawareExact(z: Cluster, step: Step)
    requires Inv(z) && Enabled(z, step)
    ensures Unaware(Do(z, step)) <==>
            || (step.LoseServed? && z.nodes[step.n].requests[0].Create? && z.owner.None?)
            || (Unaware(z) && step != Expire(z.owner.value))
  {
    if MakesOwner(z, step) {
      MakingAnOwner(z, step);
    } else if z.owner.Some? {
      match step {
        case DeliverNext(n) => DeliverKeepsUnaware(z, n);
        case Serve(_) => AnswerKeepsUnaware(z, step);
        case LoseServed(_) => AnswerKeepsUnaware(z, step);
        case Lose(_, _) => AnswerKeepsUnaware(z, step);
        case Expire(session) =>
        case _ => SessionKeepsUnaware(z, step);
      }
    }
    hide Inv, Deliver, Told;
  }

  /** The step that last made a session the owner of /master, or `last` when no step of the run did. */
  ghost function LastMaker(z: Cluster, steps: seq<Step>, last: Option<Step>): Option<Step>
    requires CanRun(z, steps)
    decreases |steps|
  {
    if steps == [] then
      last
    else
      LastMaker(Do(z, steps[0]), steps[1..], if MakesOwner(z, steps[0]) then Some(steps[0]) else last)
  }

  lemma OwnerComesFromMaking(z: Cluster, step: Step)
    requires Enabled(z, step) && Do(z, step).owner.Some?
    ensures MakesOwner(z, step) || (z.owner == Do(z, step).owner && step != Expire(z.owner.value))
  {
  }

  lemma {:induction false} UnawareRun(z: Cluster, steps: seq<Step>, last: Option<Step>)
    requires Inv(z) && CanRun(z, steps)
    requires z.owner.Some? ==> last.Some? && (Unaware(z) <==> last.value.LoseServed?)
    ensures var y, maker := Exec(z, steps), LastMaker(z, steps, last);
            y.owner.Some? ==> maker.Some? && (Unaware(y) <==> maker.value.LoseServed?)
    decreases |steps|
  {
    hide Inv, Do, Enabled, MakesOwner, Unaware;
    if steps != [] {
      var y := Do(z, steps[0]);
      StepKeepsInv(z, steps[0]);
      var next := if MakesOwner(z, steps[0]) then Some(steps[0]) else last;
      UnawareAfter(z, steps[0], last);
      UnawareRun(y, steps[1..], next);
    }
  }

  lemma UnawareAfter(z: Cluster, step: Step, last: Option<Step>)
    requires Inv(z) && Enabled(z, step)
    requires z.owner.Some? ==> last.Some? && (Unaware(z) <==> last.value.LoseServed?)
    ensures var y, next := Do(z, step), if MakesOwner(z, step) then Some(step) else last;
            y.owner.Some? ==> next.Some? && (Unaware(y) <==> next.value.LoseServed?)
  {
    hide Inv, Do;
    UnawareExact(z, step);
    if Do(z, step).owner.Some? {
      OwnerComesFromMaking(z, step);
    }
  }

  /**
   Over whole runs: whenever /master has an owner, that owner is unaware exactly when the answer to the create
   that made it the owner was lost.
   */
  lemma OwnerIsUnawareExactly(steps: seq<Step>)
    requires CanRun(Init(), steps) && Exec(Init(), steps).owner.Some?
    ensures var maker := LastMaker(Init(), steps, None);
            maker.Some? && (Unaware(Exec(Init(), steps)) <==> maker.value.LoseServed?)
  {
    InitSatisfiesInv();
    UnawareRun(Init(), steps, None);
  }

  /** A cluster of one node with a live session. */
  function Alone(c: Client, owner: Option<nat>, watches: set<nat>): Cluster {
    Cluster(map[0 := c], owner, {0}, watches, 1)
  }

  function Waiting(connected: bool, requests: seq<Request>, events: seq<Event>): Client {
    Client(connected, false, false, Some(0), requests, events)
  }

  lemma LostAnswerSteps()
    ensures var lost := CreateDone(ZConnectionLoss);
            var z2 := Alone(Waiting(false, [Create], [Session(Connected)]), None, {});
            var z3 := Alone(Waiting(false, [], [Session(Connected), lost]), Some(0), {});
            var z4 := Alone(Waiting(true, [], [lost]), Some(0), {});
            && Enabled(Init(), Start(0)) && Enabled(Do(Init(), Start(0)), Connect(0))
            && Do(Do(Init(), Start(0)), Connect(0)) == z2
            && Enabled(z2, LoseServed(0)) && Do(z2, LoseServed(0)) == z3
            && Enabled(z3, DeliverNext(0)) && Do(z3, DeliverNext(0)) == z4
  {
    var z1 := Do(Init(), Start(0));
    var z2 := Alone(Waiting(false, [Create], [Session(Connected)]), None, {});
    var z3 := Alone(Waiting(false, [], [Session(Connected), CreateDone(ZConnectionLoss)]), Some(0), {});
    var z4 := Alone(Waiting(true, [], [CreateDone(ZConnectionLoss)]), Some(0), {});
    assert Do(z1, Connect(0)).nodes[0] == z2.nodes[0] && Do(z1, Connect(0)).nodes == z2.nodes;
    assert Do(z2, LoseServed(0)).nodes[0] == z3.nodes[0] && Do(z2, LoseServed(0)).nodes == z3.nodes;
    assert z3.nodes[0].events[1..] == z4.nodes[0].events;
    assert Do(z3, DeliverNext(0)).nodes[0] == z4.nodes[0] && Do(z3, DeliverNext(0)).nodes == z4.nodes;
  }

  lemma LostAnswerEnds()
    ensures var z4 := Alone(Waiting(true, [], [CreateDone(ZConnectionLoss)]), Some(0), {});
            var z5 := Alone(Waiting(true, [Check], []), Some(0), {});
            var z6 := Alone(Waiting(true, [], [CheckDone(ZOk)]), Some(0), {0});
            var z7 := Alone(Waiting(true, [], []), Some(0), {0});
            && Enabled(z4, DeliverNext(0)) && Do(z4, DeliverNext(0)) == z5
            && Enabled(z5, Serve(0)) && Do(z5, Serve(0)) == z6
            && Enabled(z6, DeliverNext(0)) && Do(z6, DeliverNext(0)) == z7
  {
    var z4 := Alone(Waiting(true, [], [CreateDone(ZConnectionLoss)]), Some(0), {});
    var z5 := Alone(Waiting(true, [Check], []), Some(0), {});
    var z6 := Alone(Waiting(true, [], [CheckDone(ZOk)]), Some(0), {0});
    var z7 := Alone(Waiting(true, [], []), Some(0), {0});
    assert z4.nodes[0].events[1..] == [] && z6.nodes[0].events[1..] == [];
    assert Do(z4, DeliverNext(0)).nodes[0] == z5.nodes[0] && Do(z4, DeliverNext(0)).nodes == z5.nodes;
    assert Do(z5, Serve(0)).nodes[0] == z6.nodes[0] && Do(z5, Serve(0)).nodes == z6.nodes;
    assert Do(z6, DeliverNext(0)).nodes[0] == z7.nodes[0] && Do(z6, DeliverNext(0)).nodes == z7.nodes;
  }

  /**
   And it happens: when the answer to a successful create is lost, the node finds /master in place, watches
   its own node, and never learns that it is the master.
   */
  lemma LostAnswerLeavesNoMaster() returns (steps: seq<Step>)
    ensures CanRun(Init(), steps)
    ensures var z := Exec(Init(), steps);
            && Inv(z) && Live(z, 0) && Leaderless(z, 0) && Unaware(z)
            && z.nodes[0].requests == [] && z.nodes[0].events == []
  {
    LostAnswerSteps();
    LostAnswerEnds();
    var z7 := Alone(Waiting(true, [], []), Some(0), {0});
    assert Live(z7, 0) && Leaderless(z7, 0) && Unaware(z7);
    var z1 := Do(Init(), Start(0));
    hide *;
    steps := [DeliverNext(0)];
    RunFrom(Alone(Waiting(true, [], [CheckDone(ZOk)]), Some(0), {0}), DeliverNext(0), []);
    RunFrom(Alone(Waiting(true, [Check], []), Some(0), {}), Serve(0), steps);
    steps := [Serve(0)] + steps;
    RunFrom(Alone(Waiting(true, [], [CreateDone(ZConnectionLoss)]), Some(0), {}), DeliverNext(0), steps);
    steps := [DeliverNext(0)] + steps;
    RunFrom(Do(Do(z1, Connect(0)), LoseServed(0)), DeliverNext(0), steps);
    steps := [DeliverNext(0)] + steps;
    RunFrom(Do(z1, Connect(0)), LoseServed(0), steps);
    steps := [LoseServed(0)] + steps;
    RunFrom(z1, Connect(0), steps);
    steps := [Connect(0)] + steps;
    RunFrom(Init(), Start(0), steps);
    steps := [Start(0)] + steps;
    InitSatisfiesInv();
    RunKeepsInv(Init(), steps);
  }

  lemma RunFrom(z: Cluster, step: Step, rest: seq<Step>)
    requires Enabled(z, step) && CanRun(Do(z, step), rest)
    ensures CanRun(z, [step] + rest) && Exec(z, [step] + rest) == Exec(Do(z, step), rest)
  {
    hide Do, Enabled;
    assert ([step] + rest)[1..] == rest;
  }
}
