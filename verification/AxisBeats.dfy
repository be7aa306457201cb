// Stream packets of fixed-width beats: packing bytes, and validating and
// unpacking a packet.
module AxisBeats {
  import opened BitVectors
  import opened Bytes
  import opened Results

  datatype Kind = Ad | Text | Custom

  datatype AxisBeat = AxisBeat(data: seq<Byte>, keep: Bits, last: bool, kind: Kind)

  function KeepMask(n: nat, bus: nat): (r: Bits)
    requires n <= bus
    ensures |r| == bus
  {
    Ones(n) + Zeros(bus - n)
  }

  // The number of leading ones of a mask.
  function Valid(mask: Bits): (n: nat)
    ensures n <= |mask|
    ensures forall i :: 0 <= i < n ==> mask[i]
    ensures n < |mask| ==> !mask[n]
  {
    if |mask| == 0 || !mask[0] then 0 else 1 + Valid(mask[1..])
  }

  lemma {:induction false} ValidUnique(mask: Bits, n: nat)
    requires n <= |mask| && (forall i :: 0 <= i < n ==> mask[i]) && (n < |mask| ==> !mask[n])
    ensures Valid(mask) == n
    decreases n
  {
    if n > 0 {
      ValidUnique(mask[1..], n - 1);
    }
  }

  lemma ValidOfKeep(n: nat, bus: nat)
    requires n <= bus
    ensures Valid(KeepMask(n, bus)) == n
  {
    hide Valid;
    ValidUnique(KeepMask(n, bus), n);
  }

  method CountValid(mask: Bits, bus: nat) returns (r: Result<nat>)
    ensures r.Ok? <==> |mask| == bus && mask == KeepMask(Valid(mask), bus)
    ensures r.Ok? ==> r.value == Valid(mask)
  {
    if |mask| != bus {
      return Err;
    }
    var count := 0;
    while count < bus && mask[count]
      invariant 0 <= count <= bus && forall i :: 0 <= i < count ==> mask[i]
    {
      count := count + 1;
    }
    ValidUnique(mask, count);
    if mask != KeepMask(count, bus) {
      return Err;
    }
    r := Ok(count);
  }

  // -------------------------------------------------------------- packing

  function LastBeat(chunk: seq<Byte>, kind: Kind, bus: nat): AxisBeat
    requires |chunk| <= bus
  {
    AxisBeat(chunk + seq(bus - |chunk|, _ => 0), KeepMask(|chunk|, bus), true, kind)
  }

  // The packet of a byte string: full beats, then one that carries the rest.
  function Packet(data: seq<Byte>, kind: Kind, bus: nat): seq<AxisBeat>
    requires bus > 0
    decreases |data|
  {
    if |data| == 0 then []
    else if |data| <= bus then [LastBeat(data, kind, bus)]
    else [AxisBeat(data[..bus], KeepMask(bus, bus), false, kind)] + Packet(data[bus..], kind, bus)
  }

  // The packet of the bytes from an offset on.
  function PacketFrom(data: seq<Byte>, kind: Kind, bus: nat, offset: nat): seq<AxisBeat>
    requires bus > 0
  {
    if offset < |data| then Packet(data[offset..], kind, bus) else []
  }

  method Pack(data: seq<Byte>, kind: Kind, bus: int) returns (r: Result<seq<AxisBeat>>)
    ensures r.Err? <==> !(0 < bus <= 64)
    ensures r.Ok? ==> r.value == Packet(data, kind, bus)
  {
    hide KeepMask, PacketFrom;
    if bus <= 0 || bus > 64 {
      return Err;
    }
    PacketFromEnds(data, kind, bus);
    if |data| == 0 {
      return Ok([]);
    }
    var beats: seq<AxisBeat> := [];
    var offset := 0;
    while offset < |data|
      invariant 0 <= offset
      invariant beats + PacketFrom(data, kind, bus, offset) == Packet(data, kind, bus)
    {
      var chunk := data[offset..if offset + bus < |data| then offset + bus else |data|];
      var last := offset + bus >= |data|;
      var padded := chunk + seq(bus - |chunk|, _ => 0);
      var beat := AxisBeat(padded, KeepMask(|chunk|, bus), last, kind);
      NextBeat(data, kind, bus, offset, beat);
      assert beats + ([beat] + PacketFrom(data, kind, bus, offset + bus))
          == beats + [beat] + PacketFrom(data, kind, bus, offset + bus);
      beats := beats + [beat];
      offset := offset + bus;
    }
    NoBytesLeft(data, kind, bus, offset);
    r := Ok(beats);
  }

  lemma PacketFromEnds(data: seq<Byte>, kind: Kind, bus: nat)
    requires bus > 0
    ensures PacketFrom(data, kind, bus, 0) == Packet(data, kind, bus)
  {
    assert data[0..] == data;
  }

  lemma NoBytesLeft(data: seq<Byte>, kind: Kind, bus: nat, offset: nat)
    requires bus > 0 && offset >= |data|
    ensures PacketFrom(data, kind, bus, offset) == []
  {
  }

  lemma NextBeat(data: seq<Byte>, kind: Kind, bus: nat, offset: nat, beat: AxisBeat)
    requires bus > 0 && offset < |data|
    requires var chunk := data[offset..if offset + bus < |data| then offset + bus else |data|];
             beat == AxisBeat(chunk + seq(bus - |chunk|, _ => 0), KeepMask(|chunk|, bus), offset + bus >= |data|, kind)
    ensures PacketFrom(data, kind, bus, offset) == [beat] + PacketFrom(data, kind, bus, offset + bus)
  {
    hide KeepMask;
    if offset + bus < |data| {
      assert data[offset..][bus..] == data[offset + bus..];
      assert data[offset..][..bus] == data[offset..offset + bus] + seq(0, _ => 0);
    } else {
      assert data[offset..|data|] == data[offset..];
    }
  }

  // ------------------------------------------------------------ unpacking

  // What a receiver demands of one beat.
  predicate BeatFits(b: AxisBeat, kind: Option<Kind>, bus: nat)
  {
    && |b.data| == bus
    && (kind.Some? ==> b.kind == kind.value)
    && |b.keep| == bus && b.keep == KeepMask(Valid(b.keep), bus)
    && (if b.last then Valid(b.keep) > 0 else Valid(b.keep) == bus)
  }

  predicate BeatsFit(beats: seq<AxisBeat>, kind: Option<Kind>, bus: nat)
  {
    forall i :: 0 <= i < |beats| ==> BeatFits(beats[i], kind, bus)
  }

  // Only the final beat is marked last.
  predicate Terminated(beats: seq<AxisBeat>)
  {
    forall i :: 0 <= i < |beats| ==> (beats[i].last <==> i == |beats| - 1)
  }

  function Payload(b: AxisBeat): seq<Byte>
  {
    if Valid(b.keep) <= |b.data| then b.data[..Valid(b.keep)] else b.data
  }

  function Payloads(beats: seq<AxisBeat>): seq<Byte>
  {
    if |beats| == 0 then [] else Payload(beats[0]) + Payloads(beats[1..])
  }

  predicate Accepted(beats: seq<AxisBeat>, kind: Option<Kind>, len: Option<int>, bus: int)
  {
    && 0 < bus <= 64
    && BeatsFit(beats, kind, bus) && Terminated(beats)
    && (len.Some? ==> len.value == |Payloads(beats)|)
  }

  lemma {:induction false} PayloadsLast(beats: seq<AxisBeat>, b: AxisBeat)
    ensures Payloads(beats + [b]) == Payloads(beats) + Payload(b)
  {
    hide Payload;
    if |beats| == 0 {
      assert beats + [b] == [b];
      assert Payloads([b]) == Payload(b) + Payloads([]);
    } else {
      PayloadsLast(beats[1..], b);
      assert (beats + [b])[1..] == beats[1..] + [b];
      assert Payload(beats[0]) + (Payloads(beats[1..]) + Payload(b))
        == Payload(beats[0]) + Payloads(beats[1..]) + Payload(b);
    }
  }

  // A packet is unpacked exactly when it is well framed.
  method Unpack(beats: seq<AxisBeat>, kind: Option<Kind>, len: Option<int>, bus: int) returns (r: Result<seq<Byte>>)
    ensures r.Ok? <==> Accepted(beats, kind, len, bus)
    ensures r.Ok? ==> r.value == Payloads(beats)
  {
    hide Payloads, KeepMask, Valid;
    if bus <= 0 || bus > 64 {
      return Err;
    }
    PayloadsEmpty();
    if len.Some? && len.value < 0 {
      return Err;
    }
    if |beats| == 0 {
      return if len.None? || len.value == 0 then Ok([]) else Err;
    }
    var output: seq<Byte> := [];
    var seenLast := false;
    var index := 0;
    assert beats[..0] == [];
    while index < |beats|
      invariant 0 <= index <= |beats|
      invariant BeatsFit(beats[..index], kind, bus)
      invariant forall i :: 0 <= i < index ==> (beats[i].last <==> seenLast && i == index - 1)
      invariant index == 0 ==> !seenLast
      invariant output == Payloads(beats[..index])
    {
      var beat := beats[index];
      if |beat.data| != bus || (kind.Some? && beat.kind != kind.value) {
        return Err;
      }
      var valid := CountValid(beat.keep, bus);
      if valid.Err? || seenLast || (!beat.last && valid.value != bus) || (beat.last && valid.value == 0) {
        assert seenLast ==> beats[index - 1].last;
        return Err;
      }
      PayloadsLast(beats[..index], beat);
      assert beats[..index] + [beat] == beats[..index + 1];
      output := output + beat.data[..valid.value];
      seenLast := beat.last;
      index := index + 1;
    }
    assert beats[..index] == beats;
    if !seenLast {
      assert !beats[|beats| - 1].last;
      return Err;
    }
    if len.Some? && |output| != len.value {
      return Err;
    }
    r := Ok(output);
  }

  lemma PayloadsEmpty()
    ensures Payloads([]) == []
  {
  }

  // ------------------------------------------------------------ round trips

  // A full beat before a well framed packet.
  lemma FramedFirst(b: AxisBeat, rest: seq<AxisBeat>, kind: Kind, bus: nat)
    requires BeatFits(b, Some(kind), bus) && !b.last
    requires BeatsFit(rest, Some(kind), bus) && Terminated(rest) && |rest| > 0
    ensures var p := [b] + rest;
            BeatsFit(p, Some(kind), bus) && Terminated(p) && Payloads(p) == b.data + Payloads(rest)
  {
    hide BeatFits, Payloads;
    var p := [b] + rest;
    assert forall i :: 0 < i < |p| ==> p[i] == rest[i - 1];
    PayloadsFirst(b, rest);
    assert BeatFits(b, Some(kind), bus) && Payload(b) == b.data by { FullPayload(b, kind, bus); }
  }

  lemma PayloadsFirst(b: AxisBeat, rest: seq<AxisBeat>)
    ensures Payloads([b] + rest) == Payload(b) + Payloads(rest)
  {
    assert ([b] + rest)[1..] == rest;
  }

  lemma FullPayload(b: AxisBeat, kind: Kind, bus: nat)
    requires BeatFits(b, Some(kind), bus) && !b.last
    ensures Payload(b) == b.data
  {
    hide KeepMask;
  }

  lemma LastAlone(data: seq<Byte>, kind: Kind, bus: nat)
    requires 0 < |data| <= bus
    ensures var b := LastBeat(data, kind, bus);
            BeatFits(b, Some(kind), bus) && b.last && Payloads([b]) == data
  {
    hide KeepMask, Valid, Payloads;
    var b := LastBeat(data, kind, bus);
    ValidOfKeep(|data|, bus);
    PayloadsFirst(b, []);
    PayloadsEmpty();
    assert [b] + [] == [b];
    assert Payload(b) + [] == data;
  }

  // What is packed is accepted and unpacks to the same bytes.
  lemma {:induction false} PackThenUnpack(data: seq<Byte>, kind: Kind, bus: nat)
    requires 0 < bus <= 64
    ensures var p := Packet(data, kind, bus);
            Accepted(p, Some(kind), Some(|data|), bus) && Payloads(p) == data
    decreases |data|
  {
    hide KeepMask, Valid;
    var p := Packet(data, kind, bus);
    ValidOfKeep(bus, bus);
    if |data| > bus {
      PackThenUnpack(data[bus..], kind, bus);
      FramedFirst(p[0], Packet(data[bus..], kind, bus), kind, bus);
      assert data == data[..bus] + data[bus..];
    } else if |data| > 0 {
      LastAlone(data, kind, bus);
    }
  }

  // The same beat as far as the receiver can tell.
  predicate Alike(a: AxisBeat, b: AxisBeat)
  {
    a.keep == b.keep && a.last == b.last && a.kind == b.kind && Payload(a) == Payload(b)
  }

  // What is accepted differs from the packet of its own bytes at most in the
  // bytes that the keep masks exclude.
  lemma {:induction false} UnpackThenPack(beats: seq<AxisBeat>, kind: Kind, bus: nat)
    requires Accepted(beats, Some(kind), None, bus)
    ensures var p := Packet(Payloads(beats), kind, bus);
            |p| == |beats| && forall i :: 0 <= i < |p| ==> Alike(p[i], beats[i])
    decreases |beats|
  {
    hide KeepMask, Valid;
    if |beats| > 0 {
      var b, rest := beats[0], beats[1..];
      ValidOfKeep(Valid(b.keep), bus);
      assert BeatFits(b, Some(kind), bus);
      if b.last {
        assert rest == [];
      } else {
        assert Accepted(rest, Some(kind), None, bus);
        UnpackThenPack(rest, kind, bus);
        SomePayload(rest, kind, bus);
        FullPayload(b, kind, bus);
        PacketFirst(b.data, Payloads(rest), kind, bus);
      }
    }
  }

  lemma PacketFirst(data: seq<Byte>, tail: seq<Byte>, kind: Kind, bus: nat)
    requires |data| == bus > 0 && |tail| > 0
    ensures Packet(data + tail, kind, bus)
            == [AxisBeat(data, KeepMask(bus, bus), false, kind)] + Packet(tail, kind, bus)
  {
    hide KeepMask;
    assert (data + tail)[..bus] == data && (data + tail)[bus..] == tail;
  }

  lemma SomePayload(beats: seq<AxisBeat>, kind: Kind, bus: nat)
    requires Accepted(beats, Some(kind), None, bus) && |beats| > 0
    ensures |Payloads(beats)| > 0
  {
    hide KeepMask;
    assert BeatFits(beats[0], Some(kind), bus);
  }
}
