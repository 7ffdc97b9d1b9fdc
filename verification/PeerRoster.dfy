/**
 Who is in the peer table, how each came there and where it is: read off the datagrams.
 */
module PeerRoster {
  import opened Prelude
  import opened Wire
  import opened PeerList
  import opened PeerModel
  import opened PeerTable
  import opened PeerFates

  /** Listed by the master or let in unasked, and where. */
  datatype Place = Place(listed: bool, ip: Ip, port: nat, mode: byte)

  /** The last entry that names this peer. */
  function LastNaming(ls: seq<Listed>, id: nat): Option<Listed> {
    if ls == [] then None
    else if ls[|ls| - 1].id == id then Some(ls[|ls| - 1])
    else LastNaming(ls[..|ls| - 1], id)
  }

  /** A peer list of the master, as long as it says. */
  predicate IsList(c: Config, p: Peer, e: Event) {
    && OfMaster(c, p, e) && e.data[0] == 0x93
    && |e.data| >= 7 && |e.data| - 7 >= 0x100 * (e.data[5] as int) + e.data[6] as int
  }

  /** The entries of such a list. */
  function EntriesOf(data: Bytes): seq<Listed>
    requires |data| >= 7 && |data| - 7 >= 0x100 * (data[5] as int) + data[6] as int
  {
    ParseEntries(data[7..7 + 0x100 * (data[5] as int) + data[6] as int])
  }

  /** What one event does to a peer's place. */
  function PlaceStep(c: Config, p: Peer, e: Event, id: nat, was: Option<Place>): Option<Place> {
    if IsList(c, p, e) then
      var master := if p.masterId != 0 then p.masterId else SourceId(e.data);
      var l := if id == 0 || id == c.localId || id == master then None else LastNaming(EntriesOf(e.data), id);
      if l.Some? then Some(Place(true, l.value.ip, l.value.port, l.value.mode))
      else if c.prune && was.Some? && was.value.listed then None
      else was
    else if OfPeer(c, p, e, id) then
      Some(if was.Some? then was.value.(ip := e.ip, port := e.port) else Place(false, e.ip, e.port, 0x6A))
    else was
  }

  /** The peer's place after the events. */
  function PlaceOf(c: Config, evs: seq<Event>, id: nat): Option<Place> {
    if evs == [] then None
    else PlaceStep(c, Run(c, evs[..|evs| - 1]), evs[|evs| - 1], id, PlaceOf(c, evs[..|evs| - 1], id))
  }

  /** The table has the peer at its place. */
  predicate Sits(t: Table, id: nat, m: Option<Place>) {
    && (m.Some? <==> id in t)
    && (m.Some? ==> m.value == Place(t[id].fromList, t[id].ip, t[id].port, t[id].mode))
  }

  lemma {:induction false} NamingIsLast(ls: seq<Listed>, id: nat, i: nat)
    requires LastListed(ls, i, id)
    ensures LastNaming(ls, id) == Some(ls[i])
  {
    var n := |ls| - 1;
    if i < n {
      assert LastListed(ls[..n], i, id);
      NamingIsLast(ls[..n], id, i);
    }
  }

  lemma {:induction false} NamedContributes(c: Config, masterId: nat, ls: seq<Listed>, id: nat)
    ensures id in Contributed(c, masterId, ls) <==> !Excluded(c, masterId, id) && LastNaming(ls, id).Some?
  {
    if ls != [] {
      hide Contributed;
      NamedContributes(c, masterId, ls[..|ls| - 1], id);
      ContributedGrows(c, masterId, ls, id);
    }
  }

  /** A list with these entries puts each peer in its place. */
  lemma ApplySits(c: Config, masterId: nat, t: Table, ls: seq<Listed>, id: nat, was: Option<Place>)
    requires Sits(t, id, was)
    ensures var l := if Excluded(c, masterId, id) then None else LastNaming(ls, id);
      Sits(ApplyList(c, masterId, t, ls), id,
           if l.Some? then Some(Place(true, l.value.ip, l.value.port, l.value.mode))
           else if c.prune && was.Some? && was.value.listed then None
           else was)
  {
    hide ApplyList, Contributed, LastNaming;
    NamedContributes(c, masterId, ls, id);
    if c.prune {
      ListReplaces(c, masterId, t, ls, id);
    } else {
      ListKeeps(c, masterId, t, ls, id);
    }
    if id in Contributed(c, masterId, ls) {
      var t' := ApplyList(c, masterId, t, ls);
      var i: nat :| LastListed(ls, i, id)
                    && t'[id].ip == ls[i].ip && t'[id].port == ls[i].port && t'[id].mode == ls[i].mode;
      NamingIsLast(ls, id, i);
    }
  }

  lemma PayloadIs(data: Bytes)
    ensures var complete := |data| >= 7 && |data| - 7 >= 0x100 * (data[5] as int) + data[6] as int;
      if complete then Payload(data).Some? && ParseEntries(Payload(data).value) == EntriesOf(data) else Payload(data).None?
  {
    if |data| >= 7 {
      assert data[5..7][0] == data[5] && data[5..7][1] == data[6];
    }
  }

  lemma MasterSits(c: Config, p: Peer, e: Event, id: nat, was: Option<Place>)
    requires OfMaster(c, p, e) && Sits(p.peers, id, was)
    ensures Sits(Step(c, p, e).peers, id, PlaceStep(c, p, e, id, was))
  {
    hide ApplyList, ParseEntries, Payload, LastNaming, EntriesOf, VoiceCall;
    var q := TouchMaster(p, SourceId(e.data), e.ip, e.port, e.now);
    VoiceKeepsAll(q, e.data);
    PayloadIs(e.data);
    if IsList(c, p, e) {
      ApplySits(c, q.masterId, p.peers, EntriesOf(e.data), id, was);
    }
  }

  lemma PacketSits(p: Peer, from: nat, data: Bytes, id: nat, m: Option<Place>)
    requires from in p.peers && Sits(p.peers, id, m) && data != []
    ensures Sits(PeerPacket(p, from, data, data[0]).peers, id, m)
  {
    VoiceKeepsAll(p, data);
  }

  lemma AcceptedSits(p: Peer, from: nat, ip: Ip, port: nat, now: Time, id: nat, was: Option<Place>)
    requires Sits(p.peers, id, was)
    ensures Sits(p.peers[from := AcceptedEntry(p, from, ip, port, now)], id,
                 if from != id then was
                 else Some(if was.Some? then was.value.(ip := ip, port := port) else Place(false, ip, port, 0x6A)))
  {
  }

  lemma TicksSit(c: Config, p: Peer, e: Event, id: nat, was: Option<Place>)
    requires !e.Received? && Sits(p.peers, id, was)
    ensures Sits(Step(c, p, e).peers, id, was)
  {
  }

  lemma OthersSit(c: Config, p: Peer, e: Event, id: nat, was: Option<Place>)
    requires !OfMaster(c, p, e) && Sits(p.peers, id, was)
    ensures Sits(Step(c, p, e).peers, id, PlaceStep(c, p, e, id, was))
  {
    hide MasterPacket, PeerPacket, AcceptedEntry, Sits;
    if !e.Received? {
      hide Step, OfMaster;
      TicksSit(c, p, e, id, was);
    } else if e.data != [] && SourceId(e.data) != c.localId && OfPeer(c, p, e, SourceId(e.data)) {
      var from := SourceId(e.data);
      AcceptedSits(p, from, e.ip, e.port, e.now, id, was);
      PacketSits(p.(peers := p.peers[from := AcceptedEntry(p, from, e.ip, e.port, e.now)]), from, e.data, id,
                 if OfPeer(c, p, e, id) then PlaceStep(c, p, e, id, was) else was);
    }
  }

  /**
   Main result: on every run a peer is in the table exactly if a list named it last or it was let in
   unasked, and not dropped by a list since, and it is at the address it was last listed or heard at.
   */
  lemma {:induction false} RosterExactly(c: Config, evs: seq<Event>, id: nat)
    ensures Sits(Run(c, evs).peers, id, PlaceOf(c, evs, id))
  {
    hide Step, PlaceStep, OfMaster;
    if evs == [] {
      EmptyRoster(c, id);
    } else {
      var pre, e := evs[..|evs| - 1], evs[|evs| - 1];
      RosterExactly(c, pre, id);
      if OfMaster(c, Run(c, pre), e) {
        MasterSits(c, Run(c, pre), e, id, PlaceOf(c, pre, id));
      } else {
        OthersSit(c, Run(c, pre), e, id, PlaceOf(c, pre, id));
      }
    }
  }

  lemma EmptyRoster(c: Config, id: nat)
    ensures Sits(Initial(c).peers, id, None)
  {
  }
}
