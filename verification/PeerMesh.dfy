/** The peer stacks of a mesh towards each other: what is polled, what is answered, and that two peers meet. */
module PeerMesh {
  import opened Prelude
  import opened Wire
  import opened PeerModel
  import opened PeerStack
  import opened PeerList

  /** A packet of this kind from the peer of this id. */
  predicate Carries(data: Bytes, opcode: byte, id: nat) {
    |data| >= 5 && data[0] == opcode && FromU32(data[1..5]) == id
  }

  /** The stack will hear this peer. */
  predicate Hears(c: Config, p: Peer, id: nat) {
    id != 0 && id != c.localId && (id in p.peers || c.allowUnknown)
  }

  /** The peer is connected, and is where it was heard. */
  predicate Met(p: Peer, id: nat, ip: Ip, port: nat) {
    && id in p.peers && p.peers[id].connected && p.peers[id].outstanding == 0
    && p.peers[id].ip == ip && p.peers[id].port == port
  }

  /**
   Main result: a registration or keepalive request connects its sender and is answered where it
   came from; an answer connects and is not answered.
   */
  lemma RequestIsAnswered(c: Config, p: Peer, data: Bytes, opcode: byte, id: nat, ip: Ip, port: nat, now: Time)
    requires opcode in {0x94, 0x95, 0x98, 0x99} && Carries(data, opcode, id) && Hears(c, p, id)
    ensures Met(Step(c, p, Received(data, ip, port, now)), id, ip, port)
    ensures Replies(c, p, data, ip, port) ==
      if opcode == 0x94 then [Out(ip, port, PeerRegAnswer)]
      else if opcode == 0x98 then [Out(ip, port, PeerAliveAnswer)]
      else []
  {
  }

  /** Main result: a peer's de-registration disconnects it, and is answered if it asks. */
  lemma GoodbyeDisconnects(c: Config, p: Peer, data: Bytes, opcode: byte, id: nat, ip: Ip, port: nat, now: Time)
    requires opcode in {0x9A, 0x9B} && Carries(data, opcode, id) && Hears(c, p, id) && ip != c.masterIp
    ensures var q := Step(c, p, Received(data, ip, port, now)); id in q.peers && !q.peers[id].connected
    ensures Replies(c, p, data, ip, port) == if opcode == 0x9A then [Out(ip, port, DeRegAnswer)] else []
  {
  }

  /**
   Main result: to the master's registration reply the stack asks for the list, and to its keepalive
   reply, unless registered, to register.
   */
  lemma MasterIsAsked(c: Config, p: Peer, data: Bytes, opcode: byte, id: nat, port: nat)
    requires Carries(data, opcode, id) && id != c.localId && (p.masterId == 0 || id == 0 || id == p.masterId)
    requires opcode in {0x91, 0x97, 0x93}
    ensures Replies(c, p, data, c.masterIp, port) ==
      if opcode == 0x91 && |data| >= 16 then [Out(c.masterIp, port, ListReq)]
      else if opcode == 0x97 && !p.registered then [Out(c.masterIp, port, RegReq)]
      else []
  {
  }

  /**
   Main result: when a registration request of peer a reaches peer b, and the answer it gives
   reaches a, each has the other connected at the address it was heard from.
   */
  lemma TwoPeersMeet(ca: Config, a: Peer, cb: Config, b: Peer, hello: Bytes, answer: Bytes, ipA: Ip, portA: nat,
                     ipB: Ip, portB: nat, now: Time, later: Time)
    requires Carries(hello, 0x94, ca.localId) && Hears(cb, b, ca.localId)
    requires Carries(answer, 0x95, cb.localId) && Hears(ca, a, cb.localId)
    ensures Replies(cb, b, hello, ipA, portA) == [Out(ipA, portA, PeerRegAnswer)]
    ensures Met(Step(cb, b, Received(hello, ipA, portA, now)), ca.localId, ipA, portA)
    ensures Met(Step(ca, a, Received(answer, ipB, portB, later)), cb.localId, ipB, portB)
    ensures Replies(ca, a, answer, ipB, portB) == []
  {
    hide Replies, Step, Met;
    RequestIsAnswered(cb, b, hello, 0x94, ca.localId, ipA, portA, now);
    RequestIsAnswered(ca, a, answer, 0x95, cb.localId, ipB, portB, later);
  }

  /**
   Main result: a maintenance tick polls each peer of its walk once: a connected one for a sign of
   life, any other to register.
   */
  lemma {:induction false} PollsReachAll(c: Config, t: Table, order: seq<nat>)
    requires forall k <- order :: k in t && t[k].id != c.localId
    ensures |Polls(c, t, order)| == |order|
    ensures forall i :: 0 <= i < |order| ==>
      Polls(c, t, order)[i] == Out(t[order[i]].ip, t[order[i]].port, if t[order[i]].connected then PeerAlive
        else PeerReg)
  {
    if order != [] {
      PollsReachAll(c, t, order[..|order| - 1]);
    }
  }
}
