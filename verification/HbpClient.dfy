/**
 The HBP client: activation, deactivation and the reconnect loop, and how in TRACKING mode it
 follows the registration of the IPSC side.
 */
module HbpClient {
  import opened Prelude
  import S = HbpSession
  import Translator = CallTranslator
  import PeerModel
  import PeerTable
  import MasterStack

  /** Where the connect loop is: not created, not yet run, awaiting the endpoint, the connection's end, or a pause. */
  datatype Task = NoTask | Starting | Creating | Waiting | Pausing | Done

  predicate LiveTask(t: Task) {
    !t.NoTask? && !t.Done?
  }

  datatype Client = Client(active: bool, task: Task, session: Option<S.Session>)

  const INITIAL := Client(false, NoTask, None)

  function Activate(k: Client): Client {
    if k.active then k else k.(active := true, task := if LiveTask(k.task) then k.task else Starting)
  }

  /** Say goodbye on the session the client knows of, if any. */
  function Hangup(k: Client): Client {
    if k.session.None? then k else k.(session := Some(S.Disconnect(k.session.value, true)))
  }

  function Deactivate(k: Client): Client {
    if !k.active then k else Hangup(k.(active := false))
  }

  /** Back at the loop's test: another round, after a pause or at once, or the end. */
  function NextRound(k: Client, pause: bool): Client {
    k.(task := if !k.active then Done else if pause then Pausing else Creating)
  }

  datatype Event =
    | Begin
    | EndpointReady
    | EndpointFailed
    | ConnectionLost
    | WaitOver
    | PauseOver
    | OnSession(e: S.Event)

  function Step(options: bool, k: Client, e: Event): Client {
    match e
    case Begin => if k.task.Starting? then NextRound(k, false) else k
    case EndpointReady =>
      if k.task.Creating? then k.(task := Waiting, session := Some(S.Step(options, S.INITIAL, S.Made))) else k
    case EndpointFailed => if k.task.Creating? then NextRound(k, true) else k
    case ConnectionLost => k.(session := None)
    case WaitOver => if k.task.Waiting? then NextRound(k, true) else k
    case PauseOver => if k.task.Pausing? then NextRound(k, false) else k
    case OnSession(e) => if k.session.None? then k else k.(session := Some(S.Step(options, k.session.value, e)))
  }

  // ------------------------------------------------------------------
  // The object
  // ------------------------------------------------------------------

  class ClientObject {
    const options: bool
    var active: bool
    var task: Task
    var protocol: S.Protocol?

    ghost predicate Valid()
      reads this, protocol
    {
      protocol != null ==> protocol.options == options
    }

    ghost function View(): Client
      reads this, protocol
    {
      Client(active, task, if protocol == null then None else Some(protocol.View()))
    }

    constructor (options: bool)
      ensures this.options == options && Valid() && View() == INITIAL && protocol == null
    {
      this.options, active, task, protocol := options, false, NoTask, null;
    }

    method ActivateNow()
      requires Valid()
      modifies this`active, this`task
      ensures Valid() && View() == Activate(old(View()))
    {
      if active {
        return;
      }
      active := true;
      if task.NoTask? || task.Done? {
        task := Starting;
      }
    }

    method DeactivateNow()
      requires Valid()
      modifies this`active, protocol
      ensures Valid() && View() == Deactivate(old(View()))
    {
      if !active {
        return;
      }
      active := false;
      if protocol != null {
        protocol.DisconnectNow(true);
      }
    }

    /** The loop runs on to its next wait: from its start, a failed endpoint, a closed connection or a pause. */
    method LoopTest(pause: bool)
      requires Valid() && LiveTask(task) && pause == (task.Creating? || task.Waiting?)
      modifies this`task
      ensures Valid()
      ensures var e := match old(task) case Starting => Begin case Creating => EndpointFailed case Waiting => WaitOver
                       case _ => PauseOver;
        View() == Step(options, old(View()), e)
    {
      if !active {
        task := Done;
      } else if pause {
        task := Pausing;
      } else {
        task := Creating;
      }
    }

    method EndpointCreated()
      requires Valid() && task.Creating?
      modifies this`task, this`protocol
      ensures Valid() && (protocol != null ==> fresh(protocol)) && View() == Step(options, old(View()), EndpointReady)
    {
      protocol := new S.Protocol(options);
      protocol.ConnectionMade();
      task := Waiting;
    }

    method OnProtocolDone()
      modifies this`protocol
      ensures Valid() && View() == Step(options, old(View()), ConnectionLost)
    {
      protocol := null;
    }
  }

  // ------------------------------------------------------------------
  // The client follows its commands
  // ------------------------------------------------------------------

  /** An active client always has a live connect task. */
  predicate Inv(k: Client) {
    k.active ==> LiveTask(k.task)
  }

  function Obey(k: Client, cmd: Translator.HbpCommand): Client {
    match cmd
    case Activate => Activate(k)
    case Deactivate => Deactivate(k)
  }

  /** What the translator commands on a call of the IPSC side in TRACKING mode. */
  function CommandsFor(calls: seq<PeerModel.Call>): seq<Translator.HbpCommand> {
    if calls == [] then []
    else
      CommandsFor(calls[..|calls| - 1]) +
      match calls[|calls| - 1]
      case PeerRegistered => [Translator.Activate]
      case PeerLost => [Translator.Deactivate]
      case _ => []
  }

  function ObeyAll(k: Client, cmds: seq<Translator.HbpCommand>): Client {
    if cmds == [] then k else Obey(ObeyAll(k, cmds[..|cmds| - 1]), cmds[|cmds| - 1])
  }

  /** What may happen: a call of the IPSC side, or a turn of the client's own loop or session. */
  datatype Item = FromIpsc(call: PeerModel.Call) | Own(e: Event)

  function After(options: bool, items: seq<Item>): Client {
    if items == [] then INITIAL
    else
      var k := After(options, items[..|items| - 1]);
      match items[|items| - 1]
      case FromIpsc(call) => ObeyAll(k, CommandsFor([call]))
      case Own(e) => Step(options, k, e)
  }

  function CallsOf(items: seq<Item>): seq<PeerModel.Call> {
    if items == [] then []
    else CallsOf(items[..|items| - 1]) + if items[|items| - 1].FromIpsc? then [items[|items| - 1].call] else []
  }

  lemma CommandForOne(k: Client, call: PeerModel.Call)
    ensures ObeyAll(k, CommandsFor([call]))
         == match call case PeerRegistered => Activate(k) case PeerLost => Deactivate(k) case _ => k
  {
    assert [call][..0] == [];
    assert [Translator.Activate][..0] == [] && [Translator.Deactivate][..0] == [];
    assert CommandsFor([]) == [];
    var cmds := CommandsFor([call]);
    assert cmds == match call case PeerRegistered => [Translator.Activate] case PeerLost => [Translator.Deactivate]
                   case _ => [];
    assert cmds != [] ==> ObeyAll(k, cmds) == Obey(ObeyAll(k, []), cmds[0]);
  }

  /** The client is active exactly after an odd number of registration calls, and then has a live task. */
  ghost predicate Follows(k: Client, t: seq<bool>) {
    Inv(k) && k.active == (|t| % 2 == 1)
  }

  lemma CallsGrow(items: seq<Item>, x: Item)
    ensures CallsOf(items + [x]) == CallsOf(items) + if x.FromIpsc? then [x.call] else []
    ensures PeerTable.RegTrace(CallsOf(items + [x])) == PeerTable.RegTrace(CallsOf(items)) +
      if x.FromIpsc? && x.call.PeerRegistered? then [true]
      else if x.FromIpsc? && x.call.PeerLost? then [false] else []
  {
    hide PeerTable.RegTrace;
    assert (items + [x])[..|items|] == items;
    if x.FromIpsc? {
      PeerTable.TraceAppend(CallsOf(items), x.call);
    } else {
      assert CallsOf(items + [x]) == CallsOf(items);
    }
  }

  lemma OwnTurnFollows(options: bool, k: Client, e: Event, t: seq<bool>)
    requires Follows(k, t)
    ensures Follows(Step(options, k, e), t)
  {
    hide S.Step;
  }

  lemma CallFollows(k: Client, call: PeerModel.Call, t: seq<bool>)
    requires Follows(k, t)
    requires call.PeerRegistered? ==> |t| % 2 == 0
    requires call.PeerLost? ==> |t| % 2 == 1
    ensures Follows(ObeyAll(k, CommandsFor([call])), t + if call.PeerRegistered? then [true]
                                                         else if call.PeerLost? then [false] else [])
  {
    hide ObeyAll, CommandsFor, S.Disconnect;
    CommandForOne(k, call);
  }

  /**
   However the client's own turns fall between the calls of the IPSC side: if registered and
   lost have alternated, the client is active exactly after a registered, with a live task.
   */
  lemma {:induction false} FollowsAlternation(options: bool, items: seq<Item>)
    requires PeerTable.Alternates(PeerTable.RegTrace(CallsOf(items)))
    ensures Follows(After(options, items), PeerTable.RegTrace(CallsOf(items)))
  {
    hide Step, ObeyAll, CommandsFor, CallsOf, PeerTable.RegTrace, Follows;
    if items == [] {
      NothingFollows();
    } else {
      var pre, x := items[..|items| - 1], items[|items| - 1];
      assert items == pre + [x];
      CallsGrow(pre, x);
      var t, t' := PeerTable.RegTrace(CallsOf(pre)), PeerTable.RegTrace(CallsOf(items));
      assert t == t'[..|t|];
      FollowsAlternation(options, pre);
      match x
      case Own(e) =>
        assert t' == t;
        OwnTurnFollows(options, After(options, pre), e, t);
      case FromIpsc(call) =>
        assert |t'| > |t| ==> t'[|t|] == (|t| % 2 == 0);
        CallFollows(After(options, pre), call, t);
    }
  }

  lemma NothingFollows()
    ensures CallsOf([]) == [] && PeerTable.RegTrace([]) == [] && Follows(INITIAL, [])
  {
  }

  /** Main result, peer mode: in every reachable state the client is active exactly when IPSC is registered. */
  lemma TracksPeerStack(options: bool, c: PeerModel.Config, evs: seq<PeerModel.Event>, items: seq<Item>)
    requires CallsOf(items) == PeerModel.Run(c, evs).calls
    ensures var k := After(options, items);
      k.active == PeerModel.Run(c, evs).registered && Inv(k)
  {
    PeerTable.AlwaysSound(c, evs);
    FollowsAlternation(options, items);
  }

  /** Main result, master mode. */
  lemma TracksMasterStack(options: bool, c: MasterStack.Config, evs: seq<MasterStack.Event>, items: seq<Item>)
    requires CallsOf(items) == MasterStack.Run(c, evs).calls
    ensures var k := After(options, items);
      k.active == MasterStack.Run(c, evs).repeater.Some? && Inv(k)
  {
    MasterStack.AlwaysCoupled(c, evs);
    FollowsAlternation(options, items);
  }

  /** A deactivation ends the session, with a goodbye if it is connected; the translator is not told. */
  lemma DeactivationHangsUp(k: Client)
    ensures !k.active ==> Deactivate(k) == k
    ensures k.active && k.session.Some? ==>
      var s, s' := k.session.value, Deactivate(k).session;
      && s'.Some? && s'.value.phase.Disconnected? && s'.value.calls == s.calls
      && s'.value.sent == s.sent + if s.phase.Connected? && s.open then [S.RPTCL] else []
  {
  }

  /**
   Main result: an active client goes from a failed endpoint or a closed connection through a
   pause to the next endpoint, and an inactive one ends its loop there.
   */
  lemma LoopGoesOn(options: bool, k: Client)
    ensures k.task.Starting? ==> Step(options, k, Begin).task == if k.active then Creating else Done
    ensures k.task.Creating? ==> Step(options, k, EndpointReady).task == Waiting
    ensures k.task.Creating? ==> Step(options, k, EndpointFailed).task == if k.active then Pausing else Done
    ensures k.task.Waiting? ==> Step(options, k, WaitOver).task == if k.active then Pausing else Done
    ensures k.task.Pausing? ==> Step(options, k, PauseOver).task == if k.active then Creating else Done
  {
  }

  // ------------------------------------------------------------------
  // An inactive client may still be connected
  // ------------------------------------------------------------------

  /** Inactive, and no session is open. */
  predicate Quiet(k: Client) {
    !k.active ==> k.session.None? || k.session.value.phase.Disconnected?
  }

  /**
   Quiet clients stay quiet on every turn but one: an endpoint that becomes ready after a
   deactivation found no session to close.
   */
  lemma QuietExactlyUnless(options: bool, k: Client, e: Event)
    requires Quiet(k)
    ensures Quiet(Step(options, k, e)) <==> !(e.EndpointReady? && k.task.Creating? && !k.active)
    ensures Quiet(Activate(k)) && Quiet(Deactivate(k))
  {
  }

  /** Such a turn is reachable: registered, endpoint requested, lost, endpoint ready. */
  lemma QuietCanBeLost(options: bool)
    ensures var items := [FromIpsc(PeerModel.PeerRegistered), Own(Begin), FromIpsc(PeerModel.PeerLost),
      Own(EndpointReady)];
      !Quiet(After(options, items))
  {
    var items := [FromIpsc(PeerModel.PeerRegistered), Own(Begin), FromIpsc(PeerModel.PeerLost), Own(EndpointReady)];
    assert items[..3][..2] == items[..2] && items[..2][..1] == items[..1] && items[..1][..0] == [];
    var k0 := INITIAL;
    CommandForOne(k0, PeerModel.PeerRegistered);
    assert After(options, items[..1]) == Activate(k0);
    var k2 := Step(options, Activate(k0), Begin);
    assert After(options, items[..2]) == k2;
    CommandForOne(k2, PeerModel.PeerLost);
    assert After(options, items[..3]) == Deactivate(k2);
    assert After(options, items) == Step(options, Deactivate(k2), EndpointReady);
  }
}
