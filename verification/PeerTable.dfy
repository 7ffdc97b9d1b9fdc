/** What the peer stack promises on every run: its table, its liveness and its registration calls. */
module PeerTable {
  import opened Prelude
  import opened Wire
  import opened PeerList
  import opened PeerModel

  // ------------------------------------------------------------------
  // One peer list
  // ------------------------------------------------------------------

  /** The entry that decides about id: the last one listed. */
  ghost predicate LastListed(ls: seq<Listed>, i: nat, id: nat) {
    i < |ls| && ls[i].id == id && forall j :: i < j < |ls| ==> ls[j].id != id
  }

  /** What a list says of one entry of the table before it. */
  ghost predicate Updated(c: Config, masterId: nat, t: Table, ls: seq<Listed>, t': Table, id: nat) {
    if id in Contributed(c, masterId, ls) then
      && id in t'
      && t'[id].id == (if id in t then t[id].id else id) && t'[id].fromList
      && (exists i: nat :: LastListed(ls, i, id)
                           && t'[id].ip == ls[i].ip && t'[id].port == ls[i].port && t'[id].mode == ls[i].mode)
      && t'[id].connected == (id in t && t[id].connected)
      && t'[id].outstanding == (if id in t then t[id].outstanding else 0)
      && t'[id].lastRx == (if id in t then t[id].lastRx else 0)
      && t'[id].lastTx == (if id in t then t[id].lastTx else 0)
    else (id in t' <==> id in t) && (id in t ==> t'[id] == t[id])
  }

  lemma LastMoves(ls: seq<Listed>, id: nat)
    requires ls != []
    ensures var n := |ls| - 1;
      if ls[n].id == id then LastListed(ls, n, id)
      else forall i :: LastListed(ls[..n], i, id) ==> LastListed(ls, i, id)
  {
  }

  lemma ContributedGrows(c: Config, masterId: nat, ls: seq<Listed>, id: nat)
    requires ls != []
    ensures var n := |ls| - 1;
      (id in Contributed(c, masterId, ls))
      == (id in Contributed(c, masterId, ls[..n]) || (ls[n].id == id && !Excluded(c, masterId, id)))
  {
    var n := |ls| - 1;
    if id in Contributed(c, masterId, ls) {
      var i :| 0 <= i < |ls| && !Excluded(c, masterId, ls[i].id) && ls[i].id == id;
      if i < n {
        assert ls[..n][i].id == id;
      }
    }
    if id in Contributed(c, masterId, ls[..n]) {
      var i :| 0 <= i < n && !Excluded(c, masterId, ls[..n][i].id) && ls[..n][i].id == id;
      assert ls[i].id == id;
    }
  }

  lemma {:induction false} MergeUpdates(c: Config, masterId: nat, t: Table, ls: seq<Listed>, id: nat)
    ensures Updated(c, masterId, t, ls, Merge(c, masterId, t, ls), id)
  {
    if ls != [] {
      var n := |ls| - 1;
      MergeUpdates(c, masterId, t, ls[..n], id);
      LastMoves(ls, id);
      ContributedGrows(c, masterId, ls, id);
    }
  }

  /**
   Main result: a peer list with pruning leaves exactly the listed peers (but for 0, the local
   and the master id) as list peers, each at its last listed address and mode with its
   liveness kept, and leaves every other peer as it was if it is a wildcard peer.
   */
  lemma ListReplaces(c: Config, masterId: nat, t: Table, ls: seq<Listed>, id: nat)
    requires c.prune
    ensures var t', seen := ApplyList(c, masterId, t, ls), Contributed(c, masterId, ls);
      && (id in seen ==> Updated(c, masterId, t, ls, t', id))
      && (id in t' && t'[id].fromList <==> id in seen)
      && (id !in seen ==> (id in t' <==> id in t && !t[id].fromList) && (id in t' ==> t'[id] == t[id]))
  {
    MergeUpdates(c, masterId, t, ls, id);
  }

  /** Without pruning nothing is ever removed. */
  lemma ListKeeps(c: Config, masterId: nat, t: Table, ls: seq<Listed>, id: nat)
    requires !c.prune
    ensures Updated(c, masterId, t, ls, ApplyList(c, masterId, t, ls), id)
  {
    MergeUpdates(c, masterId, t, ls, id);
  }

  /** The same through the wire: the packet of a list, received from the master, applies that list. */
  lemma ListPacketApplies(c: Config, p: Peer, master: nat, ls: seq<Listed>, ip: Ip, port: nat, now: Time)
    requires master < 0x1_0000_0000 && ENTRY_LEN * |ls| < 0x1_0000 && forall l <- ls :: l.Encodable()
    requires ip == c.masterIp && master != c.localId && (p.masterId == 0 || master == 0 || master == p.masterId)
    ensures var p' := Datagram(c, p, EncodeReply(master, ls), ip, port, now);
      && p'.masterId == (if p.masterId == 0 then master else p.masterId)
      && p'.peers == ApplyList(c, p'.masterId, p.peers, ls) && p'.listSeen
      && p'.registered == p.registered && p'.calls == p.calls
  {
    hide EncodeReply, ApplyList, Payload;
    ReplyRoundTrip(master, ls);
    var data := EncodeReply(master, ls);
    ReplySize(master, ls);
    assert SourceId(data) == master;
  }

  /** A reply of the master too short for its header, or for the entry bytes it advertises, changes no peer. */
  lemma ShortListChangesNothing(c: Config, p: Peer, data: Bytes, ip: Ip, port: nat, now: Time)
    requires data != [] && data[0] == PEER_LIST_REPLY
      && (|data| < 7 || |data| - 7 < 256 * data[5] as int + data[6] as int)
    requires FromMaster(c, p, SourceId(data), ip, data[0])
    ensures var p' := Datagram(c, p, data, ip, port, now); p'.peers == p.peers && p'.listSeen == p.listSeen
  {
    hide ApplyList;
  }

  /** Bytes after the whole entries, fewer than an entry, are left over. */
  lemma RestIsLeftOver(ls: seq<Listed>, rest: Bytes)
    requires (forall l <- ls :: l.Encodable()) && |rest| < ENTRY_LEN
    ensures ParseEntries(EncodeEntries(ls) + rest) == ls
  {
    hide EncodeEntry, ParseEntry;
    EntriesRoundTrip(ls);
    var whole := EncodeEntries(ls);
    forall i | 0 <= i < |ls| ensures ParseEntries(whole + rest)[i] == ParseEntries(whole)[i] {
      var lo := ENTRY_LEN * i;
      assert (whole + rest)[lo..lo + ENTRY_LEN] == whole[lo..lo + ENTRY_LEN];
    }
  }

  lemma ReplySize(master: nat, ls: seq<Listed>)
    requires master < 0x1_0000_0000 && ENTRY_LEN * |ls| < 0x1_0000 && forall l <- ls :: l.Encodable()
    ensures |EncodeReply(master, ls)| == 7 + ENTRY_LEN * |ls|
  {
  }

  // ------------------------------------------------------------------
  // Invariants of every run
  // ------------------------------------------------------------------

  /** Keys are their entries' ids, never 0 or local, and a connected peer has not missed too much. */
  ghost predicate Sound(c: Config, t: Table) {
    forall k :: k in t ==>
      k != 0 && k != c.localId && t[k].id == k && (t[k].connected ==> t[k].outstanding <= c.MaxMissed())
  }

  /** The registration calls among all calls: true for registered, false for lost. */
  function RegTrace(calls: seq<Call>): seq<bool> {
    if calls == [] then []
    else
      var t := RegTrace(calls[..|calls| - 1]);
      match calls[|calls| - 1]
      case PeerRegistered => t + [true]
      case PeerLost => t + [false]
      case _ => t
  }

  predicate Alternates(t: seq<bool>) {
    forall i :: 0 <= i < |t| ==> t[i] == (i % 2 == 0)
  }

  /** Registered and lost alternate, starting with registered, and the last one is the state. */
  ghost predicate Coupled(p: Peer) {
    var t := RegTrace(p.calls);
    Alternates(t) && p.registered == (|t| % 2 == 1) && p.reported == p.registered
  }

  lemma TraceAppend(calls: seq<Call>, x: Call)
    ensures RegTrace(calls + [x]) == RegTrace(calls) + (match x case PeerRegistered => [true] case PeerLost => [false]
                                                        case _ => [])
  {
    assert (calls + [x])[..|calls|] == calls;
  }

  lemma ApplyListSound(c: Config, masterId: nat, t: Table, ls: seq<Listed>)
    requires Sound(c, t)
    ensures Sound(c, ApplyList(c, masterId, t, ls))
  {
    hide ApplyList, Updated;
    var t' := ApplyList(c, masterId, t, ls);
    forall k | k in t'
      ensures k != 0 && k != c.localId && t'[k].id == k && (t'[k].connected ==> t'[k].outstanding <= c.MaxMissed())
    {
      if c.prune {
        ListReplaces(c, masterId, t, ls, k);
      } else {
        ListKeeps(c, masterId, t, ls, k);
      }
      UpdatedSound(c, masterId, t, ls, t', k);
    }
  }

  lemma UpdatedSound(c: Config, masterId: nat, t: Table, ls: seq<Listed>, t': Table, k: nat)
    requires Sound(c, t) && k in t'
    requires Updated(c, masterId, t, ls, t', k) || (k !in Contributed(c, masterId, ls) && k in t && t'[k] == t[k])
    ensures k != 0 && k != c.localId && t'[k].id == k && (t'[k].connected ==> t'[k].outstanding <= c.MaxMissed())
  {
    assert c.MaxMissed() >= 1;
  }

  lemma StepKeeps(c: Config, p: Peer, e: Event)
    requires Sound(c, p.peers) && Coupled(p)
    ensures Sound(c, Step(c, p, e).peers) && Coupled(Step(c, p, e))
  {
    hide ApplyList, RegTrace, Payload;
    TraceAppend(p.calls, PeerRegistered);
    TraceAppend(p.calls, PeerLost);
    TraceAppend(p.calls, CheckTimeouts);
    TraceAppend(p.calls + [CheckTimeouts], PeerLost);
    match e
    case Received(data, ip, port, now) =>
      DatagramKeeps(c, p, data, ip, port, now);
    case _ =>
  }

  lemma MasterPacketKeeps(c: Config, p: Peer, data: Bytes, opcode: byte)
    requires Sound(c, p.peers) && Coupled(p)
    ensures var p' := MasterPacket(c, p, data, opcode); Sound(c, p'.peers) && Coupled(p')
  {
    hide ApplyList, RegTrace, Payload, ParseEntries;
    TraceAppend(p.calls, PeerRegistered);
    TraceAppend(p.calls, PeerLost);
    if opcode == PEER_LIST_REPLY {
      match Payload(data)
      case Some(payload) => ApplyListSound(c, p.masterId, p.peers, ParseEntries(payload));
      case None =>
    } else if opcode == GROUP_VOICE {
      VoiceKeeps(p, data);
    }
  }

  lemma VoiceKeeps(p: Peer, data: Bytes)
    ensures var p' := VoiceCall(p, data);
      p' == p.(calls := p'.calls) && RegTrace(p'.calls) == RegTrace(p.calls)
  {
    hide RegTrace;
    match PeerModel.Packets.GvMeta(data)
    case Some(meta) => TraceAppend(p.calls, Voice(data, meta.0, meta.1));
    case None =>
  }

  lemma PeerPacketKeeps(c: Config, p: Peer, id: nat, data: Bytes, opcode: byte)
    requires Sound(c, p.peers) && Coupled(p) && id in p.peers
    ensures var p' := PeerPacket(p, id, data, opcode); Sound(c, p'.peers) && Coupled(p')
  {
    hide RegTrace, VoiceCall;
    VoiceKeeps(p, data);
    assert c.MaxMissed() >= 1;
  }

  lemma AcceptedSound(c: Config, p: Peer, id: nat, ip: Ip, port: nat, now: Time)
    requires Sound(c, p.peers) && id != 0 && id != c.localId
    ensures Sound(c, p.peers[id := AcceptedEntry(p, id, ip, port, now)])
  {
  }

  lemma DatagramKeeps(c: Config, p: Peer, data: Bytes, ip: Ip, port: nat, now: Time)
    requires Sound(c, p.peers) && Coupled(p)
    ensures var p' := Datagram(c, p, data, ip, port, now); Sound(c, p'.peers) && Coupled(p')
  {
    hide MasterPacket, PeerPacket, AcceptedEntry, Sound, RegTrace;
    if data != [] && SourceId(data) != c.localId {
      var id := SourceId(data);
      MasterPacketKeeps(c, TouchMaster(p, id, ip, port, now), data, data[0]);
      if id != 0 {
        var q := p.(peers := p.peers[id := AcceptedEntry(p, id, ip, port, now)]);
        AcceptedSound(c, p, id, ip, port, now);
        PeerPacketKeeps(c, q, id, data, data[0]);
      }
    }
  }

  /** Main result: on every run the table is sound and registration calls strictly alternate. */
  lemma {:induction false} AlwaysSound(c: Config, evs: seq<Event>)
    ensures Sound(c, Run(c, evs).peers) && Coupled(Run(c, evs))
  {
    hide Step;
    if evs != [] {
      AlwaysSound(c, evs[..|evs| - 1]);
      StepKeeps(c, Run(c, evs[..|evs| - 1]), evs[|evs| - 1]);
    }
  }

  // ------------------------------------------------------------------
  // Liveness of a silent peer
  // ------------------------------------------------------------------

  /** The event is a registration or keepalive packet of peer id. */
  predicate SignOfLife(e: Event, id: nat) {
    && e.Received? && SourceId(e.data) == id && e.data != []
    && e.data[0] in {PEER_REG_REQ, PEER_REG_REPLY, PEER_ALIVE_REQ, PEER_ALIVE_REPLY}
  }

  function RunFrom(c: Config, p: Peer, evs: seq<Event>): Peer {
    if evs == [] then p else Step(c, RunFrom(c, p, evs[..|evs| - 1]), evs[|evs| - 1])
  }

  /** The maintenance ticks that happen while registered. */
  function Ticks(c: Config, p: Peer, evs: seq<Event>): nat {
    if evs == [] then 0
    else
      var pre := evs[..|evs| - 1];
      Ticks(c, p, pre) + if evs[|evs| - 1].MaintenanceTick? && RunFrom(c, p, pre).registered then 1 else 0
  }

  /** Without a sign of life a peer is connected only if it was, and each tick counts against it. */
  lemma StepCounts(c: Config, p: Peer, e: Event, id: nat)
    requires Sound(c, p.peers) && !SignOfLife(e, id)
    ensures var q := Step(c, p, e);
      id in q.peers && q.peers[id].connected ==>
        && id in p.peers && p.peers[id].connected
        && q.peers[id].outstanding == p.peers[id].outstanding + if e.MaintenanceTick? && p.registered then 1 else 0
  {
    match e
    case Received(data, ip, port, now) => DatagramCounts(c, p, data, ip, port, now, id);
    case _ =>
  }

  /** q's entry is connected only if p's was, with nothing more missed. */
  predicate NoBetter(p: Peer, q: Peer, id: nat) {
    id in q.peers && q.peers[id].connected ==>
      id in p.peers && p.peers[id].connected && q.peers[id].outstanding == p.peers[id].outstanding
  }

  lemma ListReplyCounts(c: Config, p: Peer, data: Bytes, id: nat)
    ensures NoBetter(p, ListReply(c, p, data), id)
  {
    hide ApplyList, Payload, ParseEntries, Contributed;
    match Payload(data)
    case Some(payload) =>
      ListCounts(c, p.masterId, p.peers, ParseEntries(payload), id);
    case None =>
  }

  lemma ListCounts(c: Config, masterId: nat, t: Table, ls: seq<Listed>, id: nat)
    ensures var t' := ApplyList(c, masterId, t, ls);
      id in t' && t'[id].connected ==> id in t && t[id].connected && t'[id].outstanding == t[id].outstanding
  {
    hide ApplyList, Contributed;
    if c.prune {
      ListReplaces(c, masterId, t, ls, id);
    } else {
      ListKeeps(c, masterId, t, ls, id);
    }
  }

  lemma MasterPacketCounts(c: Config, p: Peer, data: Bytes, opcode: byte, id: nat)
    ensures NoBetter(p, MasterPacket(c, p, data, opcode), id)
  {
    hide ListReply, VoiceCall;
    VoiceKeeps(p, data);
    ListReplyCounts(c, p, data, id);
  }

  lemma DatagramCounts(c: Config, p: Peer, data: Bytes, ip: Ip, port: nat, now: Time, id: nat)
    requires !SignOfLife(Received(data, ip, port, now), id)
    ensures NoBetter(p, Datagram(c, p, data, ip, port, now), id)
  {
    hide MasterPacket, VoiceCall;
    if data != [] {
      var q := TouchMaster(p, SourceId(data), ip, port, now);
      MasterPacketCounts(c, q, data, data[0], id);
      var r := p.(peers := p.peers[SourceId(data) := AcceptedEntry(p, SourceId(data), ip, port, now)]);
      VoiceKeeps(r, data);
    }
  }

  lemma {:induction false} SilenceCounts(c: Config, p: Peer, evs: seq<Event>, id: nat)
    requires Sound(c, p.peers) && Coupled(p) && forall e <- evs :: !SignOfLife(e, id)
    ensures var q := RunFrom(c, p, evs);
      && Sound(c, q.peers) && Coupled(q)
      && (id in q.peers && q.peers[id].connected ==>
            && id in p.peers && p.peers[id].connected
            && q.peers[id].outstanding == p.peers[id].outstanding + Ticks(c, p, evs))
  {
    hide Step, Sound, Coupled, SignOfLife;
    if evs != [] {
      var pre, e := evs[..|evs| - 1], evs[|evs| - 1];
      SilenceCounts(c, p, pre, id);
      assert e in evs;
      StepCounts(c, RunFrom(c, p, pre), e, id);
      StepKeeps(c, RunFrom(c, p, pre), e);
    }
  }

  /** Main result: a silent peer is not connected after maxMissed + 1 ticks while registered. */
  lemma SilentPeerDisconnected(c: Config, before: seq<Event>, evs: seq<Event>, id: nat)
    requires forall e <- evs :: !SignOfLife(e, id)
    requires Ticks(c, Run(c, before), evs) > c.MaxMissed()
    ensures var q := RunFrom(c, Run(c, before), evs); id in q.peers ==> !q.peers[id].connected
  {
    hide Step;
    AlwaysSound(c, before);
    SilenceCounts(c, Run(c, before), evs, id);
  }
}
