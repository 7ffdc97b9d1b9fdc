/** The PEER_LIST_REPLY packet: 11-byte entries of id, IPv4 address, port and mode. */
module PeerList {
  import opened Prelude
  import opened Wire

  const PEER_LIST_REPLY: byte := 0x93
  const ENTRY_LEN := 11

  type Ip = b: Bytes | |b| == 4 witness [0, 0, 0, 0]

  datatype Listed = Listed(id: nat, ip: Ip, port: nat, mode: byte)
  {
    predicate Encodable() {
      id < 0x1_0000_0000 && port < 0x1_0000
    }
  }

  function EncodeEntry(l: Listed): (r: Bytes)
    requires l.Encodable()
    ensures |r| == ENTRY_LEN
  {
    U32(l.id) + l.ip + U16(l.port) + [l.mode]
  }

  function EncodeEntries(ls: seq<Listed>): (r: Bytes)
    requires forall l <- ls :: l.Encodable()
    ensures |r| == ENTRY_LEN * |ls|
  {
    if ls == [] then [] else EncodeEntries(ls[..|ls| - 1]) + EncodeEntry(ls[|ls| - 1])
  }

  function EncodeReply(master: nat, ls: seq<Listed>): Bytes
    requires master < 0x1_0000_0000 && ENTRY_LEN * |ls| < 0x1_0000 && forall l <- ls :: l.Encodable()
  {
    [PEER_LIST_REPLY] + U32(master) + U16(ENTRY_LEN * |ls|) + EncodeEntries(ls)
  }

  function ParseEntry(b: Bytes): Listed
    requires |b| == ENTRY_LEN
  {
    Listed(FromU32(b[..4]), b[4..8], FromU16(b[8..10]), b[10])
  }

  /** The whole entries of a payload; a rest shorter than an entry is left over. */
  function ParseEntries(payload: Bytes): (r: seq<Listed>)
    ensures |r| == |payload| / ENTRY_LEN
  {
    seq(|payload| / ENTRY_LEN, i requires 0 <= i < |payload| / ENTRY_LEN =>
      ParseEntry(payload[ENTRY_LEN * i..ENTRY_LEN * i + ENTRY_LEN]))
  }

  /** The entry bytes a reply advertises, or None when it is short or truncated. */
  function Payload(data: Bytes): Option<Bytes> {
    if |data| < 7 then None
    else
      var length := FromU16(data[5..7]);
      if |data| - 7 < length then None else Some(data[7..7 + length])
  }

  lemma EntryRoundTrip(l: Listed)
    requires l.Encodable()
    ensures ParseEntry(EncodeEntry(l)) == l
  {
    var b := EncodeEntry(l);
    U32RoundTrip(l.id);
    U16RoundTrip(l.port);
    PartAt(b, U32(l.id) + l.ip + U16(l.port), [l.mode]);
    PartAt(b, U32(l.id) + l.ip, U16(l.port));
    PartAt(b, U32(l.id), l.ip);
    assert b[..4] == U32(l.id);
    assert b[10..11] == [l.mode];
    assert b[10] == l.mode;
  }

  lemma {:induction false} EntriesRoundTrip(ls: seq<Listed>)
    requires forall l <- ls :: l.Encodable()
    ensures ParseEntries(EncodeEntries(ls)) == ls
  {
    hide EncodeEntry, ParseEntry;
    if ls != [] {
      var n := |ls| - 1;
      var pre, b := EncodeEntries(ls[..n]), EncodeEntries(ls);
      EntriesRoundTrip(ls[..n]);
      EntryRoundTrip(ls[n]);
      assert b == pre + EncodeEntry(ls[n]);
      var p := ParseEntries(b);
      forall i | 0 <= i < |ls| ensures p[i] == ls[i] {
        var lo := ENTRY_LEN * i;
        if i < n {
          assert b[lo..lo + ENTRY_LEN] == pre[lo..lo + ENTRY_LEN];
          assert ParseEntries(pre)[i] == ls[..n][i];
        } else {
          assert b[lo..lo + ENTRY_LEN] == EncodeEntry(ls[n]);
        }
      }
    }
  }

  /** A reply parses back to exactly the entries it was built from. */
  lemma ReplyRoundTrip(master: nat, ls: seq<Listed>)
    requires master < 0x1_0000_0000 && ENTRY_LEN * |ls| < 0x1_0000 && forall l <- ls :: l.Encodable()
    ensures var p := Payload(EncodeReply(master, ls)); p.Some? && ParseEntries(p.value) == ls
    ensures EncodeReply(master, ls)[0] == PEER_LIST_REPLY && FromU32(EncodeReply(master, ls)[1..5]) == master
  {
    var data, n := EncodeReply(master, ls), ENTRY_LEN * |ls|;
    PartAt(data, [PEER_LIST_REPLY] + U32(master) + U16(n), EncodeEntries(ls));
    PartAt(data, [PEER_LIST_REPLY] + U32(master), U16(n));
    PartAt(data, [PEER_LIST_REPLY], U32(master));
    U16RoundTrip(n);
    U32RoundTrip(master);
    EntriesRoundTrip(ls);
  }
}
