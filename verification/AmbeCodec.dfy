/**
 The DMR vocoder and FEC library as a record of functions with the laws the
 bridge relies on, and the conversion between a 19-byte IPSC AMBE block and a
 33-byte DMR voice burst.
 */
module AmbeCodec {
  import opened Wire

  /** Embedded LC fragments by superframe position. */
  type EmbLc = map<int, Bits32>

  /** The 16-bit EMB words of bursts B to F. */
  type EmbTable = t: seq<Bits16> | |t| == 5 witness seq(5, _ => Zeros(16))

  /** The foreign functions and constants the translator imports. */
  datatype Dmr = Dmr(
    to72: Bits49 -> Bits72,
    to49: Bits72 -> Bits49,
    encodeEmbLc: Bytes -> EmbLc,
    encodeHeaderLc: Bytes -> Bits,
    encodeTermLc: Bytes -> Bits,
    decodeFullLc: Bits196 -> Bits72,
    headFec: Bytes -> Bytes,
    termFec: Bytes -> Bytes,
    voiceSync: Bits48,
    dataSync: Bits48,
    slotTypeHead: Bits20,
    slotTypeTerm: Bits20,
    emb: EmbTable,
    lcOpt: Bytes)
  {
    /** Lengths and left inverses promised by the library. */
    ghost predicate Valid() {
      && |lcOpt| == 3
      && (forall x: Bits49 :: to49(to72(x)) == x)
      && (forall lc: Bytes :: |lc| == 9 ==> LcLaws(lc))
    }

    ghost predicate LcLaws(lc: Bytes) {
      && |encodeHeaderLc(lc)| == 196
      && |encodeTermLc(lc)| == 196
      && decodeFullLc(encodeHeaderLc(lc)) == ToBits(lc)
      && encodeEmbLc(lc).Keys == {1, 2, 3, 4}
      && |headFec(lc)| == 3
      && |termFec(lc)| == 3
    }
  }

  /** Packs three vocoder frames, each followed by a cleared marker bit, and two pad bits. */
  function Pack(a: Bits49, b: Bits49, c: Bits49): (r: Bits)
    ensures |r| == 152
  {
    a + [false] + b + [false] + c + [false, false, false]
  }

  /** The 264 bits of a DMR voice burst: frame b straddles the embed field. */
  function AssembleBits(d: Dmr, block: Bytes, embed: Bits48): (r: Bits)
    requires |block| == 19
    ensures |r| == 264
  {
    var raw := ToBits(block);
    var b := d.to72(raw[50..99]);
    d.to72(raw[..49]) + b[..36] + embed + b[36..] + d.to72(raw[100..149])
  }

  function Assemble(d: Dmr, block: Bytes, embed: Bits48): (r: Bytes)
    requires |block| == 19
    ensures |r| == 33
  {
    ToBytes(AssembleBits(d, block, embed))
  }

  function Extract(d: Dmr, payload: Bytes): (r: Bytes)
    requires |payload| == 33
    ensures |r| == 19
  {
    var burst := ToBits(payload);
    ToBytes(Pack(d.to49(burst[..72]), d.to49(burst[72..108] + burst[156..192]), d.to49(burst[192..264])))
  }

  /** The bits of a block that carry no vocoder data. */
  predicate Marker(i: int) {
    i == 49 || i == 99 || 149 <= i < 152
  }

  function ClearMarkers(raw: Bits): (r: Bits)
    ensures |r| == |raw|
    ensures forall i :: 0 <= i < |raw| ==> r[i] == (raw[i] && !Marker(i))
  {
    seq(|raw|, i requires 0 <= i < |raw| => raw[i] && !Marker(i))
  }

  /** The block with its marker and pad bits cleared. */
  function Canonical(block: Bytes): (r: Bytes)
    requires |block| == 19
    ensures |r| == 19
  {
    ToBytes(ClearMarkers(ToBits(block)))
  }

  /** Whatever the embed field, a block survives the trip through a DMR burst, markers cleared. */
  lemma AmbeRoundTrip(d: Dmr, block: Bytes, embed: Bits48)
    requires d.Valid() && |block| == 19
    ensures Extract(d, Assemble(d, block, embed)) == Canonical(block)
  {
    var raw := ToBits(block);
    var bits := AssembleBits(d, block, embed);
    BitsRoundTrip(bits);
    var a: Bits49, b: Bits49, c: Bits49 := raw[..49], raw[50..99], raw[100..149];
    assert bits[..72] == d.to72(a);
    assert bits[72..108] + bits[156..192] == d.to72(b);
    assert bits[192..264] == d.to72(c);
    assert Pack(a, b, c) == ClearMarkers(raw);
  }

  /** The trip is the identity exactly on blocks whose marker and pad bits are zero. */
  lemma AmbeRoundTripIdentity(d: Dmr, block: Bytes, embed: Bits48)
    requires d.Valid() && |block| == 19
    ensures Extract(d, Assemble(d, block, embed)) == block
       <==> forall i :: 0 <= i < 152 && Marker(i) ==> !ToBits(block)[i]
  {
    AmbeRoundTrip(d, block, embed);
    var raw := ToBits(block);
    BitsRoundTrip(ClearMarkers(raw));
    if Canonical(block) == block {
      assert ClearMarkers(raw) == raw;
    } else if forall i :: 0 <= i < 152 && Marker(i) ==> !raw[i] {
      assert ClearMarkers(raw) == raw;
      BytesRoundTrip(block);
    }
  }

  /** The laws asked of the library are consistent: a padding codec meets them. */
  lemma LawsAreConsistent() returns (d: Dmr)
    ensures d.Valid()
  {
    var to72: Bits49 -> Bits72 := (x: Bits49) => x + Zeros(23);
    var to49: Bits72 -> Bits49 := (y: Bits72) => y[..49];
    var enc: Bytes -> Bits := (lc: Bytes) => Slice(ToBits(lc) + Zeros(196), 0, 196);
    var dec: Bits196 -> Bits72 := (w: Bits196) => w[..72];
    var emb: Bytes -> EmbLc := (lc: Bytes) => map[1 := Zeros(32), 2 := Zeros(32), 3 := Zeros(32), 4 := Zeros(32)];
    var fec: Bytes -> Bytes := (lc: Bytes) => [0, 0, 0];
    d := Dmr(to72, to49, emb, enc, enc, dec, fec, fec, Zeros(48), Zeros(48), Zeros(20), Zeros(20),
             seq(5, _ => Zeros(16)), [0, 0, 0]);
    forall x: Bits49 ensures d.to49(d.to72(x)) == x {
      assert (x + Zeros(23))[..49] == x;
    }
    forall lc: Bytes | |lc| == 9 ensures d.LcLaws(lc) {
      assert enc(lc)[..72] == ToBits(lc);
    }
  }
}
