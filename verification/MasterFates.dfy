/** The master stack read off its datagrams and ticks: who is registered, what is answered, what is told. */
module MasterFates {
  import opened Prelude
  import opened Wire
  import opened MasterStack
  import PeerModel
  import Packets

  /** A registration request the configuration allows, and the registered address, if any, too. */
  predicate Admits(c: Config, held: Option<Repeater>, e: Event) {
    && e.Received? && |e.data| >= 10 && e.data[0] == 0x90
    && (c.allowedIp.Some? ==> e.ip == c.allowedIp.value)
    && (c.expectedId.Some? ==> FromU32(e.data[1..5]) == c.expectedId.value)
    && (held.Some? ==> e.ip == held.value.ip)
  }

  /** The datagram claims the registered id; one too short to claim any claims id 0. */
  predicate Claims(held: Option<Repeater>, e: Event, opcode: byte) {
    && e.Received? && held.Some? && e.data != [] && e.data[0] == opcode
    && held.value.id == if |e.data| >= 5 then e.data[1..5] else [0, 0, 0, 0]
  }

  /** Voice from the registered address. */
  predicate Speaks(held: Option<Repeater>, e: Event) {
    && e.Received? && held.Some? && |e.data| >= 31 && e.data[0] == 0x80
    && e.ip == held.value.ip && e.port == held.value.port
  }

  /** The registered repeater, and when it last registered, kept alive or spoke. */
  datatype Held = Held(repeater: Option<Repeater>, sign: Time)

  function HeldStep(c: Config, h: Held, e: Event): Held {
    if Admits(c, h.repeater, e) then Held(Some(Repeater(e.data[1..5], e.ip, e.port)), e.now)
    else if Claims(h.repeater, e, 0x96) || Speaks(h.repeater, e) then h.(sign := e.now)
    else if Claims(h.repeater, e, 0x9A) || (e.WatchdogTick? && e.now - h.sign > c.watchdog * 1_000_000)
      then Held(None, 0)
    else h
  }

  function HeldAfter(c: Config, evs: seq<Event>): Held {
    if evs == [] then Held(None, 0) else HeldStep(c, HeldAfter(c, evs[..|evs| - 1]), evs[|evs| - 1])
  }

  predicate Agrees(m: Master, h: Held) {
    m.repeater == h.repeater && (m.repeater.Some? ==> m.lastKa == h.sign)
  }

  lemma StepAgrees(c: Config, m: Master, e: Event, h: Held)
    requires Agrees(m, h)
    ensures Agrees(Step(c, m, e), HeldStep(c, h, e))
  {
    hide ListPacket;
  }

  /** Main result: on every run the registered repeater is the one the datagrams and ticks say. */
  lemma {:induction false} HeldExactly(c: Config, evs: seq<Event>)
    ensures Agrees(Run(c, evs), HeldAfter(c, evs))
  {
    hide Step, HeldStep;
    if evs != [] {
      HeldExactly(c, evs[..|evs| - 1]);
      StepAgrees(c, Run(c, evs[..|evs| - 1]), evs[|evs| - 1], HeldAfter(c, evs[..|evs| - 1]));
    }
  }

  /** Main result: whoever is registered has the allowed address and the expected id, if any are configured. */
  lemma {:induction false} OnlyTheAllowed(c: Config, evs: seq<Event>)
    ensures var r := Run(c, evs).repeater;
      r.Some? ==>
        && (c.allowedIp.Some? ==> r.value.ip == c.allowedIp.value)
        && (c.expectedId.Some? ==> |r.value.id| == 4 && FromU32(r.value.id) == c.expectedId.value)
  {
    hide Step;
    if evs != [] {
      OnlyTheAllowed(c, evs[..|evs| - 1]);
      HeldExactly(c, evs);
      HeldExactly(c, evs[..|evs| - 1]);
    }
  }

  /**
   What the stack answers: a repeater admitted is told so and sent the list, and each request of the
   registered one is answered.
   */
  function Answers(c: Config, h: Held, e: Event): seq<Out>
    requires e.Received?
  {
    var after := HeldStep(c, h, e).repeater;
    var list := if after.Some? && c.masterId < 0x1_0000_0000 && |after.value.id| == 4 && 0 < after.value.port < 0x1_0000
                then [Out(e.ip, e.port, List(ListPacket(c, after.value)))] else [];
    if Admits(c, h.repeater, e) then [Out(e.ip, e.port, RegAnswer)] + list
    else if Claims(h.repeater, e, 0x96) then [Out(e.ip, e.port, AliveAnswer)]
    else if Claims(h.repeater, e, 0x92) then list
    else if Claims(h.repeater, e, 0x9A) then [Out(e.ip, e.port, DeRegAnswer)]
    else []
  }

  /** Main result: on every run each datagram is answered so, and nothing else is sent. */
  lemma AnsweredExactly(c: Config, evs: seq<Event>, e: Event)
    ensures var m, h := Run(c, evs), HeldAfter(c, evs);
      Step(c, m, e).sent == m.sent + if e.Received? then Answers(c, h, e) else []
  {
    hide ListPacket, Run, HeldAfter;
    HeldExactly(c, evs);
    var sent := Run(c, evs).sent;
    if e.Received? && Admits(c, HeldAfter(c, evs).repeater, e) {
      assert forall x, y :: sent + [x] + [y] == sent + [x, y];
    }
  }

  /**
   A tick asks for a timeout check, voice is handed on with its slot and burst, and every change of
   the registration is told.
   */
  function CallsOf(h: Held, e: Event, h': Held): seq<PeerModel.Call> {
    (if e.WatchdogTick? then [PeerModel.CheckTimeouts] else [])
    + (if Speaks(h.repeater, e)
       then [PeerModel.Voice(e.data, if BitsOfByte(e.data[17])[2] then TS2 else TS1, e.data[30])] else [])
    + if h.repeater.None? && h'.repeater.Some? then [PeerModel.PeerRegistered]
      else if h.repeater.Some? && h'.repeater.None? then [PeerModel.PeerLost]
      else []
  }

  function Told(c: Config, evs: seq<Event>): seq<PeerModel.Call> {
    if evs == [] then []
    else Told(c, evs[..|evs| - 1]) + CallsOf(HeldAfter(c, evs[..|evs| - 1]), evs[|evs| - 1], HeldAfter(c, evs))
  }

  lemma StepTells(c: Config, m: Master, e: Event, h: Held)
    requires Agrees(m, h)
    ensures Step(c, m, e).calls == m.calls + CallsOf(h, e, HeldStep(c, h, e))
  {
    hide ListPacket, BitsOfByte;
    if e.Received? {
      Packets.MetaBits(e.data);
    }
  }

  /**
   Main result: on every run the translator is told exactly of each change of the registration, of
   each voice packet of the registered address, with its slot and burst type, and once per watchdog
   tick to check its timeouts, in order.
   */
  lemma {:induction false} ToldExactly(c: Config, evs: seq<Event>)
    ensures Run(c, evs).calls == Told(c, evs)
  {
    hide Step, CallsOf, HeldStep;
    if evs != [] {
      ToldExactly(c, evs[..|evs| - 1]);
      HeldExactly(c, evs[..|evs| - 1]);
      StepTells(c, Run(c, evs[..|evs| - 1]), evs[|evs| - 1], HeldAfter(c, evs[..|evs| - 1]));
    }
  }
}
