// One authenticated-encryption transaction on stream packets.
module AxisAead {
  import opened Bytes
  import opened Results
  import opened Aead
  import opened AxisBeats
  import GoldenModel
  import CReference

  datatype AxisEncryption = AxisEncryption(beats: seq<AxisBeat>, cipher: seq<Byte>, tag: seq<Byte>)

  datatype AxisDecryption = AxisDecryption(beats: seq<AxisBeat>, plain: seq<Byte>, valid: bool, computedTag: seq<Byte>)

  predicate Framed(adBeats: seq<AxisBeat>, textBeats: seq<AxisBeat>, adLen: int, textLen: int, bus: int)
  {
    Accepted(adBeats, Some(Ad), Some(adLen), bus) && Accepted(textBeats, Some(Text), Some(textLen), bus)
  }

  method AxisEncrypt(key: seq<Byte>, nonce: seq<Byte>, adBeats: seq<AxisBeat>, textBeats: seq<AxisBeat>, adLen: int,
                     textLen: int, bus: int) returns (r: Result<AxisEncryption>)
    ensures r.Ok? <==> Framed(adBeats, textBeats, adLen, textLen, bus) && |key| == 16 && |nonce| == 16
    ensures r.Ok? ==>
              && Sealed(BytesBits(r.value.cipher), BytesBits(r.value.tag))
                 == Encrypt(NIST_AEAD128, BytesBits(key), BytesBits(nonce), BytesBits(Payloads(adBeats)),
                            BytesBits(Payloads(textBeats)))
              && r.value.beats == Packet(r.value.cipher, Text, bus)
              && |r.value.cipher| == |Payloads(textBeats)| && |r.value.tag| == 16
  {
    hide Packet, Payloads, BytesBits, Encrypt, Accepted;
    var ad := Unpack(adBeats, Some(Ad), Some(adLen), bus);
    if ad.Err? {
      return Err;
    }
    var plain := Unpack(textBeats, Some(Text), Some(textLen), bus);
    if plain.Err? {
      return Err;
    }
    CReference.NistSpec();
    var scalar := GoldenModel.AeadEncrypt(CReference.NIST, key, nonce, ad.value, plain.value);
    if scalar.Err? {
      return Err;
    }
    AcceptedBus(adBeats, Some(Ad), Some(adLen), bus);
    var beats := Pack(scalar.value.cipher, Text, bus);
    r := Ok(AxisEncryption(beats.value, scalar.value.cipher, scalar.value.tag));
  }

  lemma AcceptedBus(beats: seq<AxisBeat>, kind: Option<Kind>, len: Option<int>, bus: int)
    requires Accepted(beats, kind, len, bus)
    ensures 0 < bus <= 64
  {
  }

  // A rejected tag releases no plaintext.
  method AxisDecrypt(key: seq<Byte>, nonce: seq<Byte>, adBeats: seq<AxisBeat>, textBeats: seq<AxisBeat>, adLen: int,
                     textLen: int, tag: seq<Byte>, bus: int) returns (r: Result<AxisDecryption>)
    ensures r.Ok? <==> Framed(adBeats, textBeats, adLen, textLen, bus) && |key| == 16 && |nonce| == 16 && |tag| == 16
    ensures r.Ok? ==>
              var d := Decrypt(NIST_AEAD128, BytesBits(key), BytesBits(nonce), BytesBits(Payloads(adBeats)),
                               BytesBits(Payloads(textBeats)), BytesBits(tag));
              && r.value.valid == d.valid && BytesBits(r.value.computedTag) == d.computedTag
              && (if d.valid then BytesBits(r.value.plain) == d.plain else r.value.plain == [])
              && r.value.beats == Packet(r.value.plain, Text, bus)
  {
    hide Packet, Payloads, BytesBits, Decrypt, Accepted;
    var ad := Unpack(adBeats, Some(Ad), Some(adLen), bus);
    if ad.Err? {
      return Err;
    }
    var cipher := Unpack(textBeats, Some(Text), Some(textLen), bus);
    if cipher.Err? {
      return Err;
    }
    CReference.NistSpec();
    var scalar := GoldenModel.AeadDecrypt(CReference.NIST, key, nonce, ad.value, cipher.value, tag);
    if scalar.Err? {
      return Err;
    }
    AcceptedBus(adBeats, Some(Ad), Some(adLen), bus);
    var plain := if scalar.value.valid then scalar.value.plain else [];
    var beats := Pack(plain, Text, bus);
    r := Ok(AxisDecryption(beats.value, plain, scalar.value.valid, scalar.value.computedTag));
  }

  // Feeding the packets of an encryption to the decryption gives the plaintext
  // packet back.
  method RoundTripPackets(key: seq<Byte>, nonce: seq<Byte>, adBeats: seq<AxisBeat>, plain: seq<Byte>, adLen: int,
                          bus: int)
    returns (d: Result<AxisDecryption>)
    requires |key| == 16 && |nonce| == 16 && Accepted(adBeats, Some(Ad), Some(adLen), bus)
    ensures d.Ok? && d.value.valid && d.value.plain == plain && d.value.beats == Packet(plain, Text, bus)
  {
    hide Packet, Payloads, BytesBits, Decrypt, Encrypt, Accepted;
    AcceptedBus(adBeats, Some(Ad), Some(adLen), bus);
    PackThenUnpack(plain, Text, bus);
    var textBeats := Pack(plain, Text, bus);
    var e := AxisEncrypt(key, nonce, adBeats, textBeats.value, adLen, |plain|, bus);
    PackThenUnpack(e.value.cipher, Text, bus);
    ConfigsValid();
    RoundTrip(NIST_AEAD128, BytesBits(key), BytesBits(nonce), BytesBits(Payloads(adBeats)), BytesBits(plain));
    d := AxisDecrypt(key, nonce, adBeats, e.value.beats, adLen, |e.value.cipher|, e.value.tag, bus);
    GoldenModel.SameBytes(d.value.plain, plain);
  }
}
