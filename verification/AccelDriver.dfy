// The firmware driver of the word-by-word peripheral: register writes in a
// fixed order, payload words, polling, and reading the result back.
module AccelDriver {
  import opened BitVectors
  import opened Bytes
  import opened Wires
  import opened Aead
  import opened AxisEngine
  import opened AxisMmio
  import opened MmioPlane
  import opened XbusAdapter
  import SlinkMmio
  import SlinkPlane
  import CReference

  // ------------------------------------------------------ single accesses

  // An access while no job is under way completes at once.
  lemma SettledAccess(R: nat, s: Peripheral, i: Access)
    requires Settled(R, s) && i.sel && !WritesBeat(i)
    ensures AnswersAlways(R, s, i, 1)
    ensures forall n: nat :: n > 0 ==> Served(R, Rest(R, s, n), i, 1) == s
    ensures Clock(R, s, i) == s.(ctl := BusAccess(s.ctl, i))
  {
    hide Clock, Settled, BusAccess, Answers, Served, Rest;
    SettledStep(R, s, i);
    forall n: nat | n > 0 ensures Answers(R, Rest(R, s, n), i, 1) && Served(R, Rest(R, s, n), i, 1) == s {
      SettledRest(R, s, n);
      ServedNow(R, s, i, 1);
    }
  }

  // A register write other than START leaves the peripheral without a job.
  lemma StaysSettled(R: nat, s: Peripheral, addr: nat, w: Word32)
    requires Settled(R, s) && (addr == 0x00 ==> !w[0])
    ensures Settled(R, s.(ctl := BusWrite(s.ctl, addr, w)))
  {
    hide EngineRests, SlinkMmio.WriteSetup, SlinkMmio.LowByte;
  }

  lemma StartLaunches(R: nat, s: Peripheral, w: Word32)
    requires Settled(R, s) && w[0]
    requires SlinkPlane.JobSmall(SlinkMmio.JobOf(s.ctl.base).(decrypt := w[1]))
    ensures var s' := s.(ctl := BusWrite(s.ctl, 0x00, w));
            Launched(R, s') && SlinkMmio.JobOf(s'.ctl.base) == SlinkMmio.JobOf(s.ctl.base).(decrypt := w[1])
  {
    hide EngineRests, SlinkMmio.WriteSetup;
  }

  lemma FillingAccess(R: nat, s: Peripheral, i: Access, j: Job, ad: Bits, text: Bits)
    requires Open(R, s, j, ad, text) && i.sel
    ensures 0 < R <= 12 && Fits(s) && AnswersAlways(R, s, i, 1)
    ensures forall n: nat :: n > 0 ==>
              var d := Rest(R, s, n);
              Served(R, d, i, 1) == d && Filling(R, d, j, ad, text) && d.ctl.dataIn == s.ctl.dataIn
  {
    hide Clock, Answers, Served, Rest, Filling, Launched, Fits;
    forall n: nat | n > 0
      ensures var d := Rest(R, s, n);
              && Answers(R, d, i, 1) && Served(R, d, i, 1) == d
              && Filling(R, d, j, ad, text) && d.ctl.dataIn == s.ctl.dataIn
    {
      OpenRest(R, s, j, ad, text, n);
      FillingReady(R, Rest(R, s, n), i, j, ad, text);
      ServedNow(R, Rest(R, s, n), i, 1);
    }
  }

  lemma FillingReady(R: nat, s: Peripheral, i: Access, j: Job, ad: Bits, text: Bits)
    requires Filling(R, s, j, ad, text)
    ensures Ready(s, i)
  {
  }

  // The job with its words, as the polling loop knows it.
  lemma {:induction false} ProgressRest(R: nat, s: Peripheral, m: SlinkPlane.Seen, n: nat, j: Job, words: seq<Word32>)
    returns (m': SlinkPlane.Seen)
    requires 0 < R <= 12 && Fits(s) && SlinkPlane.Taken(j, words) && AxisEngine.JobFits(j)
    requires Progressing(R, s, m, j, words)
    ensures Progressing(R, Rest(R, s, n), m', j, words)
    ensures !Finished(R, Rest(R, s, n), j, SlinkPlane.Expected(j, words)) ==> EdgesLeft(R, m') == EdgesLeft(R, m) - n
    decreases n
  {
    hide Clock, Progressing, Finished, SlinkPlane.JobEdges, SlinkPlane.Expected, Fits;
    m' := m;
    if n > 0 {
      var k := ProgressRest(R, s, m, n - 1, j, words);
      m' := ProgressStep(R, Rest(R, s, n - 1), k, UNSELECTED, j, words);
    }
  }

  // After n idle cycles or more the peripheral is without a job.
  ghost predicate RestsWithin(R: nat, s: Peripheral, n: nat)
  {
    0 < R <= 12 && Fits(s) && forall k: nat :: k >= n ==> Settled(R, Rest(R, s, k))
  }

  // A job that the driver has given up still ends.
  lemma OverdueRests(R: nat, s: Peripheral, m: SlinkPlane.Seen, n: nat, j: Job, words: seq<Word32>)
    requires 0 < R <= 12 && Fits(s) && SlinkPlane.Taken(j, words) && AxisEngine.JobFits(j)
    requires Progressing(R, s, m, j, words)
    requires Finished(R, s, j, SlinkPlane.Expected(j, words)) || EdgesLeft(R, m) <= n
    ensures RestsWithin(R, s, n)
  {
    hide Running, Finished, Rest, Settled, Fits, SlinkPlane.Taken, SlinkPlane.Expected, SlinkPlane.JobEdges;
    var r := SlinkPlane.Expected(j, words);
    forall k: nat | k >= n ensures Settled(R, Rest(R, s, k)) {
      if Finished(R, s, j, r) {
        FinishedRest(R, s, j, r, k);
        FinishedFacts(R, s, j, r);
      } else {
        var m' := ProgressRest(R, s, m, k, j, words);
        if Finished(R, Rest(R, s, k), j, r) {
          FinishedFacts(R, Rest(R, s, k), j, r);
        } else {
          RunningBound(R, Rest(R, s, k), m');
        }
      }
    }
  }

  // ------------------------------------------------------------ bank writes

  lemma BankWord(c: Ctl, bank: nat, k: nat, w: Word32)
    requires CtlSized(c) && (bank == 0x20 || bank == 0x30 || bank == 0x60) && k < 4
    ensures BusWrite(c, bank + 4 * k, w)
         == c.(base := c.base.(setup := SlinkMmio.WithWord(c.base.setup, bank, k, w)))
  {
    hide SlinkMmio.SetWord, SlinkMmio.LowByte, SlinkMmio.Command;
  }

  lemma FourWords(v: Bits, w0: Word32, w1: Word32, w2: Word32, w3: Word32)
    requires |v| == 128
    ensures SlinkMmio.SetWord(SlinkMmio.SetWord(SlinkMmio.SetWord(SlinkMmio.SetWord(v, 0, w0), 1, w1), 2, w2), 3, w3)
         == w0 + w1 + w2 + w3
  {
  }

  lemma SixteenBytes(b: seq<Byte>)
    requires |b| == 16
    ensures BytesBits(b[0..4]) + BytesBits(b[4..8]) + BytesBits(b[8..12]) + BytesBits(b[12..16]) == BytesBits(b)
  {
    hide BytesBits;
    BytesBitsSlice(b, 0, 4);
    BytesBitsSlice(b, 4, 8);
    BytesBitsSlice(b, 8, 12);
    BytesBitsSlice(b, 12, 16);
  }

  // ------------------------------------------------------------ the device

  datatype Status = Ok | BadArgument | Timeout | TagInvalid | UnsupportedMode | HardwareError | Transport

  class Driver {
    const bus: Adapter
    const timeout: nat

    constructor (bus: Adapter, timeout: nat)
      ensures this.bus == bus && this.timeout == timeout
    {
      this.bus, this.timeout := bus, timeout;
    }

    function R(): nat { bus.mmio.R }

    function Dev(): Peripheral
      reads bus.mmio, bus.mmio.eng, bus.mmio.eng.core, bus.mmio.eng.core.perm
    {
      bus.mmio.State()
    }

    // Between requests.
    ghost predicate AtRest()
      reads bus, bus.mmio, bus.mmio.eng, bus.mmio.eng.core, bus.mmio.eng.core.perm
      ensures AtRest() ==> 0 < R() <= 12 && SlinkMmio.SetupSized(Dev().ctl.base.setup)
    {
      bus.Free() && Settled(R(), Dev())
    }

    // A register write while no job is under way.
    method WriteReg(addr: nat, w: Word32)
      requires AtRest() && addr != 0x44 && (addr == 0x00 ==> !w[0])
      modifies bus, bus.mmio, bus.mmio.eng, bus.mmio.eng.core, bus.mmio.eng.core.perm
      ensures AtRest() && Dev() == old(Dev()).(ctl := BusWrite(old(Dev()).ctl, addr, w))
    {
      hide Clock, Settled, BusWrite, Registers.State, Registers.Wired, Served, Rest, Adapter.Free, AnswersAlways;
      SettledAccess(R(), Dev(), Access(true, true, addr, w));
      StaysSettled(R(), Dev(), addr, w);
      var rdata, gap := bus.Transact(true, addr, w, 1);
    }

    // A register read that moves nothing.
    method ReadReg(addr: nat) returns (w: Word32)
      requires AtRest() && addr != 0x48
      modifies bus, bus.mmio, bus.mmio.eng, bus.mmio.eng.core, bus.mmio.eng.core.perm
      ensures AtRest() && Dev() == old(Dev()) && w == Read(Dev(), addr)
    {
      hide Clock, Settled, BusWrite, Read, Registers.State, Registers.Wired, Served, Rest, Adapter.Free, AnswersAlways;
      SettledAccess(R(), Dev(), Access(true, false, addr, Zeros(32)));
      ghost var gap: nat;
      w, gap := bus.Transact(false, addr, Zeros(32), 1);
    }

    // ----------------------------------------------------------- setting up

    method Load32(src: array<Byte>, at: nat) returns (w: Word32)
      requires at + 4 <= src.Length
      ensures w == BytesBits(src[at..at + 4])
    {
      hide ByteBits, BytesBits, Or, Shl;
      w := Or(Or(Or(Extend(src[at]), Shl(Extend(src[at + 1]), 8)), Shl(Extend(src[at + 2]), 16)),
              Shl(Extend(src[at + 3]), 24));
      FourBytes(src[at..at + 4]);
    }

    // Word k of a bank from four bytes.
    method WriteWord(bank: nat, k: nat, src: array<Byte>)
      requires AtRest() && src.Length >= 16 && (bank == 0x20 || bank == 0x30 || bank == 0x60) && k < 4
      modifies bus, bus.mmio, bus.mmio.eng, bus.mmio.eng.core, bus.mmio.eng.core.perm
      ensures AtRest() && Dev().eng == old(Dev()).eng
      ensures var c := old(Dev()).ctl;
              var w := BytesBits(src[4 * k..4 * k + 4]);
              Dev().ctl == c.(base := c.base.(setup := SlinkMmio.WithWord(c.base.setup, bank, k, w)))
    {
      hide Settled, BusWrite, Registers.State, Adapter.Free, BytesBits, SlinkMmio.WithWord;
      var w := Load32(src, 4 * k);
      BankWord(Dev().ctl, bank, k, w);
      WriteReg(bank + 4 * k, w);
    }

    // Sixteen bytes into the four words of a bank.
    method WriteWords(bank: nat, src: array<Byte>)
      requires AtRest() && src.Length >= 16 && (bank == 0x20 || bank == 0x30 || bank == 0x60)
      modifies bus, bus.mmio, bus.mmio.eng, bus.mmio.eng.core, bus.mmio.eng.core.perm
      ensures AtRest() && Dev().eng == old(Dev()).eng
      ensures var c := old(Dev()).ctl;
              Dev().ctl == c.(base := c.base.(setup := SlinkMmio.WithBank(c.base.setup, bank, BytesBits(src[..16]))))
    {
      hide Settled, Registers.State, Adapter.Free, BytesBits, SlinkMmio.SetWord;
      ghost var c0, b := Dev().ctl, src[..16];
      WriteWord(bank, 0, src);
      WriteWord(bank, 1, src);
      WriteWord(bank, 2, src);
      WriteWord(bank, 3, src);
      assert b[0..4] == src[0..4] && b[4..8] == src[4..8] && b[8..12] == src[8..12] && b[12..16] == src[12..16];
      FourWords(SlinkMmio.BankOf(c0.base.setup, bank), BytesBits(b[0..4]), BytesBits(b[4..8]), BytesBits(b[8..12]),
                BytesBits(b[12..16]));
      SixteenBytes(b);
    }

    // Everything that comes before START.
    method Prepare(mode: nat, key: array<Byte>, nonce: array<Byte>, adLen: nat, inputLen: nat)
      requires AtRest() && key.Length >= 16 && nonce.Length >= 16 && adLen < 256 && inputLen < 256
      modifies bus, bus.mmio, bus.mmio.eng, bus.mmio.eng.core, bus.mmio.eng.core.perm
      ensures AtRest()
      ensures var u := Dev().ctl.base.setup;
              && u.key == BytesBits(key[..16]) && u.nonce == BytesBits(nonce[..16]) && u.adlen == adLen
              && u.txtlen == inputLen
              && u.mode == FromInt(mode, 32)[0..3]
      ensures Cleared(Dev().ctl.base)
    {
      hide Settled, BusWrite, Registers.State, Adapter.Free, BytesBits, SlinkMmio.SetWord, FromInt;
      ClearWrites(Dev().ctl);
      WriteReg(0x00, CLEAR);
      ModeWrites(Dev().ctl, FromInt(mode, 32));
      WriteReg(0x08, FromInt(mode, 32));
      WriteWords(0x20, key);
      WriteWords(0x30, nonce);
      LengthWrites(Dev().ctl, adLen);
      WriteReg(0x10, FromInt(adLen, 32));
      LengthWrites(Dev().ctl, inputLen);
      WriteReg(0x14, FromInt(inputLen, 32));
    }

    method Start(decrypt: bool)
      requires AtRest() && SlinkPlane.JobSmall(SlinkMmio.JobOf(Dev().ctl.base).(decrypt := decrypt))
      modifies bus, bus.mmio, bus.mmio.eng, bus.mmio.eng.core, bus.mmio.eng.core.perm
      ensures bus.Free() && Launched(R(), Dev())
              && SlinkMmio.JobOf(Dev().ctl.base) == SlinkMmio.JobOf(old(Dev()).ctl.base).(decrypt := decrypt)
    {
      hide Clock, Settled, BusWrite, Registers.State, Registers.Wired, Served, Rest, Adapter.Free, AnswersAlways,
           Launched;
      var w := StartWord(decrypt);
      SettledAccess(R(), Dev(), Access(true, true, 0x00, w));
      StartLaunches(R(), Dev(), w);
      var rdata, gap := bus.Transact(true, 0x00, w, 1);
    }

    // ------------------------------------------------------------- payload

    method WriteData(w: Word32, ghost j: Job, ghost ad: Bits, ghost text: Bits)
      requires bus.Free() && Open(R(), Dev(), j, ad, text)
      modifies bus, bus.mmio, bus.mmio.eng, bus.mmio.eng.core, bus.mmio.eng.core.perm
      ensures bus.Free() && Filling(R(), Dev(), j, ad, text) && Dev().ctl.dataIn == w
    {
      hide Clock, Registers.State, Registers.Wired, Served, Rest, Adapter.Free, AnswersAlways, Filling, Open;
      ghost var d := Dev();
      FillingAccess(R(), d, Access(true, true, 0x40, w), j, ad, text);
      var rdata, gap := bus.Transact(true, 0x40, w, 1);
      FillingData(R(), Rest(R(), d, gap), w, j, ad, text);
    }

    // A stream beat while the engine receives.
    method WriteBeat(w: Word32, ghost j: Job, ghost ad: Bits, ghost text: Bits) returns (ghost before: Peripheral)
      requires bus.Free() && Filling(R(), Dev(), j, ad, text)
      modifies bus, bus.mmio, bus.mmio.eng, bus.mmio.eng.core, bus.mmio.eng.core.perm
      ensures bus.Free() && Filling(R(), before, j, ad, text) && before.ctl.dataIn == old(Dev()).ctl.dataIn
      ensures Dev() == Clock(R(), before, Access(true, true, 0x44, w))
    {
      hide Clock, Registers.State, Registers.Wired, Served, Rest, Adapter.Free, AnswersAlways, Filling;
      ghost var d := Dev();
      FillingAccess(R(), d, Access(true, true, 0x44, w), j, ad, text);
      var rdata, gap := bus.Transact(true, 0x44, w, 1);
      before := Rest(R(), d, gap);
    }

    // Up to four bytes of data as one beat.
    method SendChunk(data: array<Byte>, offset: nat, len: nat, kind: bool, ghost j: Job, ghost ad: Bits,
                     ghost text: Bits) returns (next: nat)
      requires offset < len <= data.Length && bus.Free() && Open(R(), Dev(), j, ad, text)
      requires if kind then |ad| == 8 * j.adLen && |text| == 8 * offset && len == j.msgLen
               else text == [] && |ad| == 8 * offset && len == j.adLen
      modifies bus, bus.mmio, bus.mmio.eng, bus.mmio.eng.core, bus.mmio.eng.core.perm
      ensures bus.Free() && next == (if offset + 4 <= len then offset + 4 else len)
      ensures var b := BytesBits(data[offset..next]);
              if !kind then Filling(R(), Dev(), j, ad + b, text)
              else if next < len then Filling(R(), Dev(), j, ad, text + b)
              else Running(R(), Dev(), Begin(j, ad, text + b))
    {
      hide Clock, Registers.State, Registers.Wired, Adapter.Free, Filling, Running, Open, BytesBits, Begin;
      var word, keep: Word32, n;
      word, keep, n, next := PackWord(data, offset, len);
      WriteData(word, j, ad, text);
      var ctrl := ControlWord(kind, keep, next == len);
      ControlWordIs(kind, keep, next == len, n);
      ghost var before := WriteBeat(ctrl, j, ad, text);
      if !kind {
        FillingAd(R(), before, next == len, n, j, ad, text);
      } else if next < len {
        FillingText(R(), before, n, j, ad, text);
      } else {
        RunningStarts(R(), before, n, j, ad, text);
      }
    }

    // All of one kind of payload; an empty one still takes a beat.
    method StreamBytes(data: array?<Byte>, len: nat, kind: bool, ghost j: Job, ghost ad: Bits)
      requires len > 0 ==> data != null && len <= data.Length
      requires bus.Free() && Open(R(), Dev(), j, ad, [])
      requires if kind then |ad| == 8 * j.adLen && len == j.msgLen else ad == [] && len == j.adLen
      modifies bus, bus.mmio, bus.mmio.eng, bus.mmio.eng.core, bus.mmio.eng.core.perm
      ensures bus.Free()
      ensures var b := BytesBits(CReference.Argument(data, len));
              if kind then Running(R(), Dev(), Begin(j, ad, b)) else Filling(R(), Dev(), j, b, [])
    {
      hide Clock, Registers.State, Registers.Wired, Adapter.Free, Filling, Running, Launched, BytesBits, Begin;
      var offset := 0;
      BytesBitsUnfold([]);
      while offset < len
        invariant 0 <= offset <= len && bus.Free()
        invariant var b := if offset == 0 then [] else BytesBits(data[..offset]);
                  |b| == 8 * offset
                  && if !kind then Open(R(), Dev(), j, b, [])
                     else if offset < len || len == 0 then Open(R(), Dev(), j, ad, b)
                     else Running(R(), Dev(), Begin(j, ad, b))
        invariant !kind && offset > 0 ==> Filling(R(), Dev(), j, BytesBits(data[..offset]), [])
      {
        ghost var b := if offset == 0 then [] else BytesBits(data[..offset]);
        ghost var start := offset;
        offset := SendChunk(data, offset, len, kind, j, if kind then ad else b, if kind then b else []);
        ChunkAppended(data[..], start, offset);
      }
      if len == 0 {
        SendEmpty(kind, j, ad);
      }
    }

    method SendEmpty(kind: bool, ghost j: Job, ghost ad: Bits)
      requires bus.Free() && Open(R(), Dev(), j, ad, [])
      requires if kind then |ad| == 8 * j.adLen && j.msgLen == 0 else ad == []
      modifies bus, bus.mmio, bus.mmio.eng, bus.mmio.eng.core, bus.mmio.eng.core.perm
      ensures bus.Free()
      ensures if kind then Running(R(), Dev(), Begin(j, ad, [])) else Filling(R(), Dev(), j, [], [])
    {
      hide Clock, Registers.State, Registers.Wired, Adapter.Free, Filling, Running, Open, Begin;
      WriteData(Zeros(32), j, ad, []);
      ControlWordIs(kind, Zeros(32), true, 0);
      ghost var before := WriteBeat(ControlWord(kind, Zeros(32), true), j, ad, []);
      assert [] + before.ctl.dataIn[..0] == [];
      if kind {
        RunningStarts(R(), before, 0, j, ad, []);
      } else {
        FillingAd(R(), before, true, 0, j, ad, []);
      }
    }

    // ------------------------------------------------------------- polling

    // One read of STATUS while the job runs.
    method Poll(ghost m: SlinkPlane.Seen, ghost j: Job, ghost words: seq<Word32>)
      returns (w: Word32, ghost m': SlinkPlane.Seen)
      requires bus.Free() && SlinkPlane.Taken(j, words) && AxisEngine.JobFits(j) && Progressing(R(), Dev(), m, j, words)
      modifies bus, bus.mmio, bus.mmio.eng, bus.mmio.eng.core, bus.mmio.eng.core.perm
      ensures bus.Free() && Progressing(R(), Dev(), m', j, words)
      ensures w[1] ==> Finished(R(), Dev(), j, SlinkPlane.Expected(j, words))
      ensures Finished(R(), old(Dev()), j, SlinkPlane.Expected(j, words)) ==> w[1]
      ensures !w[1] ==>
                && !w[3] && EdgesLeft(R(), m) >= 2
                && (Finished(R(), Dev(), j, SlinkPlane.Expected(j, words))
                    || EdgesLeft(R(), m') <= EdgesLeft(R(), m) - 2)
    {
      hide Clock, Registers.State, Registers.Wired, Served, Rest, Adapter.Free, AnswersAlways, Progressing, Finished,
           SlinkPlane.Expected, SlinkPlane.JobEdges, SlinkPlane.Taken, Read;
      ghost var d, i := Dev(), Access(true, false, 0x04, Zeros(32));
      ReadAnswers(R(), d, 0x04);
      ghost var gap: nat;
      w, gap := bus.Transact(false, 0x04, Zeros(32), 1);
      ghost var m1 := ProgressRest(R(), d, m, gap, j, words);
      if Finished(R(), d, j, SlinkPlane.Expected(j, words)) {
        FinishedRest(R(), d, j, SlinkPlane.Expected(j, words), gap);
      }
      StatusMeans(R(), Rest(R(), d, gap), m1, j, words);
      m' := ProgressStep(R(), Rest(R(), d, gap), m1, i, j, words);
    }

    // Polls until DONE or until the budget is spent; the error flag is never
    // up without DONE.
    method WaitDone(ghost m: SlinkPlane.Seen, ghost j: Job, ghost words: seq<Word32>)
      returns (st: Status, ghost m': SlinkPlane.Seen)
      requires bus.Free() && SlinkPlane.Taken(j, words) && AxisEngine.JobFits(j) && Progressing(R(), Dev(), m, j, words)
      modifies bus, bus.mmio, bus.mmio.eng, bus.mmio.eng.core, bus.mmio.eng.core.perm
      ensures bus.Free() && Progressing(R(), Dev(), m', j, words)
      ensures st == Ok || st == Timeout
      ensures st == Ok ==> Finished(R(), Dev(), j, SlinkPlane.Expected(j, words))
      ensures 2 * timeout > EdgesLeft(R(), m) && timeout > 0 ==> st == Ok
      ensures Finished(R(), Dev(), j, SlinkPlane.Expected(j, words)) || EdgesLeft(R(), m') <= EdgesLeft(R(), m)
    {
      hide Clock, Registers.State, Registers.Wired, Adapter.Free, Progressing, Finished, SlinkPlane.Expected,
           SlinkPlane.JobEdges, SlinkPlane.Taken;
      m' := m;
      ghost var budget := EdgesLeft(R(), m);
      var left := timeout;
      while left != 0
        invariant 0 <= left <= timeout && bus.Free() && Progressing(R(), Dev(), m', j, words)
        invariant left < timeout ==> budget >= 2 * (timeout - left)
        invariant Finished(R(), Dev(), j, SlinkPlane.Expected(j, words))
                  || EdgesLeft(R(), m') <= budget - 2 * (timeout - left)
        decreases left
      {
        left := left - 1;
        var w: Word32;
        w, m' := Poll(m', j, words);
        if w[1] {
          return Ok, m';
        }
        if w[3] {
          assert false;
        }
      }
      st := Timeout;
    }

    // ------------------------------------------------------------- results

    method ReadOut(ghost j: Job, ghost r: Sealed, ghost pos: nat) returns (w: Word32)
      requires bus.Free() && Holding(R(), Dev(), j, r, pos) && pos < j.msgLen
      modifies bus, bus.mmio, bus.mmio.eng, bus.mmio.eng.core, bus.mmio.eng.core.perm
      ensures bus.Free() && Holding(R(), Dev(), j, r, pos + 4)
      ensures w == Select(old(Dev()).ctl.outbuf, 8 * pos, 32) && Dev().ctl.base == old(Dev()).ctl.base
    {
      hide Clock, Settled, Registers.State, Registers.Wired, Served, Rest, Adapter.Free, AnswersAlways, Holding;
      ghost var d, i := Dev(), Access(true, false, 0x48, Zeros(32));
      HoldingMoves(R(), d, j, r, pos);
      SettledAccess(R(), d, i);
      ghost var gap: nat;
      w, gap := bus.Transact(false, 0x48, Zeros(32), 1);
    }

    // The result bytes, four to a word.
    method ReadBytes(data: array<Byte>, len: nat, ghost j: Job, ghost r: Sealed)
      requires bus.Free() && Holding(R(), Dev(), j, r, 0) && len == j.msgLen <= data.Length
      modifies bus, bus.mmio, bus.mmio.eng, bus.mmio.eng.core, bus.mmio.eng.core.perm, data
      ensures AtRest() && Dev().ctl.base == old(Dev()).ctl.base
      ensures |r.text| == 8 * len && data[..len] == BitsBytes(r.text, len) && data[len..] == old(data[len..])
    {
      hide Clock, Settled, Registers.State, Registers.Wired, Adapter.Free, ByteOf, Select, Read;
      ghost var base, rest := Dev().ctl.base, data[len..];
      var offset := 0;
      ghost var pos := 0;
      while offset < len
        invariant 0 <= offset <= len && bus.Free() && Holding(R(), Dev(), j, r, pos) && Dev().ctl.base == base
        invariant offset < len ==> pos == offset
        invariant forall k :: 0 <= k < offset ==> data[k] == BitsBytes(r.text, len)[k]
        invariant data[len..] == rest
      {
        ghost var buf := Dev().ctl.outbuf;
        var word := ReadOut(j, r, pos);
        offset := UnpackWord(data, offset, len, word, buf, r.text);
        pos := pos + 4;
        var framing := ReadReg(0x4C);
      }
      assert data[..len] == BitsBytes(r.text, len);
    }

    method ReadTag(tag: array<Byte>)
      requires AtRest() && tag.Length >= 16 && |Dev().ctl.base.tag| == 128
      modifies bus, bus.mmio, bus.mmio.eng, bus.mmio.eng.core, bus.mmio.eng.core.perm, tag
      ensures AtRest() && Dev() == old(Dev())
      ensures BytesBits(tag[..16]) == Dev().ctl.base.tag && tag[16..] == old(tag[16..])
    {
      hide Clock, Settled, Registers.State, Registers.Wired, Adapter.Free, ByteOf, Read, BytesBits;
      ghost var v := Dev().ctl.base.tag;
      ReadTagWord(tag, 0);
      ReadTagWord(tag, 1);
      ReadTagWord(tag, 2);
      ReadTagWord(tag, 3);
      assert tag[..16] == BitsBytes(v, 16);
      BitStringsRoundTrip(v, 16);
    }

    method ReadTagWord(tag: array<Byte>, k: nat)
      requires AtRest() && tag.Length >= 16 && |Dev().ctl.base.tag| == 128 && k < 4
      modifies bus, bus.mmio, bus.mmio.eng, bus.mmio.eng.core, bus.mmio.eng.core.perm, tag
      ensures AtRest() && Dev() == old(Dev())
      ensures forall i :: 0 <= i < tag.Length ==>
                tag[i] == if 4 * k <= i < 4 * k + 4 then BitsBytes(Dev().ctl.base.tag, 16)[i] else old(tag[i])
    {
      hide Clock, Settled, Registers.State, Registers.Wired, Adapter.Free, ByteOf, Read, Shr;
      var w := ReadReg(0x60 + 4 * k);
      TagWordBytes(Dev(), k);
      tag[4 * k] := ByteOf(w[..8]);
      tag[4 * k + 1] := ByteOf(Shr(w, 8)[..8]);
      tag[4 * k + 2] := ByteOf(Shr(w, 16)[..8]);
      tag[4 * k + 3] := ByteOf(Shr(w, 24)[..8]);
    }

    // -------------------------------------------------------- the requests

    method Supports(mode: nat) returns (yes: bool)
      requires AtRest() && mode < 8
      modifies bus, bus.mmio, bus.mmio.eng, bus.mmio.eng.core, bus.mmio.eng.core.perm
      ensures AtRest() && Dev() == old(Dev()) && yes == (mode == 0)
    {
      hide Clock, Settled, Registers.State, Registers.Wired, Adapter.Free;
      var w := ReadReg(0x0C);
      yes := w[mode];
    }

    method CompletionStatus() returns (st: Status)
      requires AtRest() && Dev().ctl.base.errCode < 256
      modifies bus, bus.mmio, bus.mmio.eng, bus.mmio.eng.core, bus.mmio.eng.core.perm
      ensures AtRest() && Dev() == old(Dev()) && st == StatusOf(Dev().ctl.base.errCode)
    {
      hide Clock, Settled, Registers.State, Registers.Wired, Adapter.Free, Value;
      var w := ReadReg(0x78);
      SlinkMmio.ErrorReadsBack(Dev().ctl.base);
      st := StatusOf(Value(w));
    }

    // At rest with the registers of the job j.
    ghost predicate Holds(j: Job)
      reads bus, bus.mmio, bus.mmio.eng, bus.mmio.eng.core, bus.mmio.eng.core.perm
    {
      AtRest() && j == SlinkMmio.JobOf(Dev().ctl.base)
    }

    // START, the payload and the wait; START comes first so that the engine is
    // already receiving when the first beat is written.
    method RunJob(decrypt: bool, ad: array?<Byte>, adLen: nat, input: array?<Byte>, inputLen: nat,
                  ghost j: Job) returns (st: Status)
      requires (adLen > 0 ==> ad != null && adLen <= ad.Length)
               && (inputLen > 0 ==> input != null && inputLen <= input.Length)
      requires AxisEngine.JobFits(j) && j.adLen == adLen <= 32 && j.msgLen == inputLen <= 32 && 0 < R() <= 12
      requires Holds(j.(decrypt := Dev().ctl.base.decrypt)) && j.decrypt == decrypt
      modifies bus, bus.mmio, bus.mmio.eng, bus.mmio.eng.core, bus.mmio.eng.core.perm
      ensures bus.Free() && (st == Ok || st == Timeout)
      ensures st == Ok ==> Finished(R(), Dev(), j,
                                    Result(j, BytesBits(CReference.Argument(ad, adLen)),
                                           BytesBits(CReference.Argument(input, inputLen))))
      ensures 2 * timeout > RunEdges(R(), j) ==> st == Ok
      ensures st == Timeout ==> RestsWithin(R(), Dev(), RunEdges(R(), j))
    {
      hide Clock, Registers.State, Registers.Wired, Adapter.Free, Progressing, Finished, Filling, Running, Launched,
           Settled, SlinkPlane.Expected, SlinkPlane.JobEdges, SlinkPlane.Taken, BytesBits, Begin, Result, RunEdges,
           SlinkPlane.RxEdges;
      Start(decrypt);
      ghost var a, t := BytesBits(CReference.Argument(ad, adLen)), BytesBits(CReference.Argument(input, inputLen));
      StreamBytes(ad, adLen, false, j, []);
      StreamBytes(input, inputLen, true, j, a);
      JobIs(R(), Dev(), j, a, t);
      ghost var m: SlinkPlane.Seen;
      st, m := WaitDone(Begin(j, a, t), j, Begin(j, a, t).words);
      OverdueRests(R(), Dev(), m, RunEdges(R(), j), j, Begin(j, a, t).words);
    }

    // Encryption through the registers, for lengths that the engine's buffers
    // hold: with a large enough polling budget the ciphertext and the tag of the
    // functional model. After a timeout the device needs at most RequestEdges idle
    // cycles until it can take the next request.
    method EncryptRequest(mode: nat, key: array?<Byte>, nonce: array?<Byte>, ad: array?<Byte>, adLen: nat,
                          input: array?<Byte>, inputLen: nat, output: array?<Byte>,
                          tag: array<Byte>) returns (st: Status)
      requires AtRest() && CReference.ArraysFit(key, nonce, ad, adLen, input, inputLen, output) && tag.Length >= 16
      requires adLen <= 32 && inputLen <= 32 && output != tag
      modifies bus, bus.mmio, bus.mmio.eng, bus.mmio.eng.core, bus.mmio.eng.core.perm, output, tag
      ensures st != BadArgument <==>
              && key != null && nonce != null && output != null
              && (adLen == 0 || ad != null) && (inputLen == 0 || input != null)
      ensures st != BadArgument && mode != 0 <==> st == UnsupportedMode
      ensures st == BadArgument || st == UnsupportedMode || st == Timeout || st == Ok
      ensures st != Timeout ==> AtRest()
      ensures st == Timeout ==> 2 * timeout <= RequestEdges(R(), adLen, inputLen)
      ensures st == Timeout ==> bus.Free() && RestsWithin(R(), Dev(), RequestEdges(R(), adLen, inputLen))
      ensures st == Ok ==>
                && Sealed(BytesBits(output[..inputLen]), BytesBits(tag[..16]))
                   == Encrypt(NIST_AEAD128, BytesBits(old(key[..16])), BytesBits(old(nonce[..16])),
                              BytesBits(old(CReference.Argument(ad, adLen))),
                              BytesBits(old(CReference.Argument(input, inputLen))))
                && output[inputLen..] == old(output[inputLen..]) && tag[16..] == old(tag[16..])
      ensures st != Ok ==> tag[..] == old(tag[..]) && (output != null ==> output[..] == old(output[..]))
    {
      hide Clock, Registers.State, Registers.Wired, Adapter.Free, Settled, Crypto, BytesBits, RequestEdges, RunEdges;
      if CReference.BadArguments(key, nonce, ad, adLen, input, inputLen, output) {
        return BadArgument;
      }
      if mode >= 8 {
        return UnsupportedMode;
      }
      var supported := Supports(mode);
      if !supported {
        return UnsupportedMode;
      }
      Prepare(mode, key, nonce, adLen, inputLen);
      ghost var j := SlinkMmio.JobOf(Dev().ctl.base).(decrypt := false);
      ghost var a, t := BytesBits(CReference.Argument(ad, adLen)), BytesBits(CReference.Argument(input, inputLen));
      SameRequest(R(), j, adLen, inputLen);
      st := RunJob(false, ad, adLen, input, inputLen, j);
      if st != Ok {
        return;
      }
      ghost var r := Result(j, a, t);
      ResultBytes(j, a, t, inputLen);
      FinishedFacts(R(), Dev(), j, r);
      st := CompletionStatus();
      ReadBytes(output, inputLen, j, r);
      ReadTag(tag);
    }

    // Decryption: the plaintext, or an invalid tag with the output untouched.
    method DecryptRequest(mode: nat, key: array?<Byte>, nonce: array?<Byte>, ad: array?<Byte>, adLen: nat,
                          input: array?<Byte>, inputLen: nat, output: array?<Byte>,
                          tag: array<Byte>) returns (st: Status)
      requires AtRest() && CReference.ArraysFit(key, nonce, ad, adLen, input, inputLen, output) && tag.Length >= 16
      requires adLen <= 32 && inputLen <= 32
      modifies bus, bus.mmio, bus.mmio.eng, bus.mmio.eng.core, bus.mmio.eng.core.perm, output
      ensures st != BadArgument <==>
              && key != null && nonce != null && output != null
              && (adLen == 0 || ad != null) && (inputLen == 0 || input != null)
      ensures st != BadArgument && mode != 0 <==> st == UnsupportedMode
      ensures st == BadArgument || st == UnsupportedMode || st == Timeout || st == Ok || st == TagInvalid
      ensures st != Timeout ==> AtRest()
      ensures st == Timeout ==> 2 * timeout <= RequestEdges(R(), adLen, inputLen)
      ensures st == Timeout ==> bus.Free() && RestsWithin(R(), Dev(), RequestEdges(R(), adLen, inputLen))
      ensures st == Ok || st == TagInvalid ==>
                var d := Decrypt(NIST_AEAD128, BytesBits(old(key[..16])), BytesBits(old(nonce[..16])),
                                 BytesBits(old(CReference.Argument(ad, adLen))),
                                 BytesBits(old(CReference.Argument(input, inputLen))), BytesBits(old(tag[..16])));
                && (st == Ok <==> d.valid)
                && (st == Ok ==> BytesBits(output[..inputLen]) == d.plain)
                && (st == Ok ==> output[inputLen..] == old(output[inputLen..]))
      ensures st != Ok ==> output != null ==> output[..] == old(output[..])
    {
      hide Clock, Registers.State, Registers.Wired, Adapter.Free, Settled, Crypto, BytesBits, RequestEdges, RunEdges,
           Read;
      if CReference.BadArguments(key, nonce, ad, adLen, input, inputLen, output) {
        return BadArgument;
      }
      if mode >= 8 {
        return UnsupportedMode;
      }
      var supported := Supports(mode);
      if !supported {
        return UnsupportedMode;
      }
      Prepare(mode, key, nonce, adLen, inputLen);
      WriteWords(0x60, tag);
      ghost var j := SlinkMmio.JobOf(Dev().ctl.base).(decrypt := true);
      ghost var a, t := BytesBits(CReference.Argument(ad, adLen)), BytesBits(CReference.Argument(input, inputLen));
      SameRequest(R(), j, adLen, inputLen);
      st := RunJob(true, ad, adLen, input, inputLen, j);
      if st == Ok {
        ResultBytes(j, a, t, inputLen);
        st := TakePlaintext(output, inputLen, j, Result(j, a, t));
      }
    }

    // Error code and tag flag decide whether the plaintext is fetched.
    method TakePlaintext(output: array<Byte>, len: nat, ghost j: Job, ghost r: Sealed) returns (st: Status)
      requires bus.Free() && Finished(R(), Dev(), j, r) && len == j.msgLen <= output.Length && j.decrypt
      modifies bus, bus.mmio, bus.mmio.eng, bus.mmio.eng.core, bus.mmio.eng.core.perm, output
      ensures AtRest() && st == (if r.tag == j.tag then Ok else TagInvalid)
      ensures st == Ok ==>
                |r.text| == 8 * len && output[..len] == BitsBytes(r.text, len) && output[len..] == old(output[len..])
      ensures st != Ok ==> output[..] == old(output[..])
    {
      hide Clock, Registers.State, Registers.Wired, Adapter.Free, Settled, Read, ByteOf;
      FinishedFacts(R(), Dev(), j, r);
      st := CompletionStatus();
      if st == Ok {
        var w := ReadReg(0x04);
        StatusBits(Dev());
        st := if w[2] then Ok else TagInvalid;
      }
      if st == Ok {
        ReadBytes(output, len, j, r);
      }
    }
  }

  // The model's answer to a job.
  function Result(j: Job, ad: Bits, text: Bits): Sealed
    requires AxisEngine.JobFits(j)
  {
    ConfigsValid();
    Crypto(NIST_AEAD128, j.decrypt, j.key, j.nonce, ad, text)
  }

  // Clock edges from the last beat to DONE.
  function RunEdges(R: nat, j: Job): nat
    requires 0 < R <= 12
  {
    SlinkPlane.CoreEdges(R, j) + 4 + SlinkPlane.WordsFor(j.msgLen)
  }

  function RequestEdges(R: nat, adLen: nat, msgLen: nat): nat
    requires 0 < R <= 12
  {
    RunEdges(R, Job(false, [], [], adLen, msgLen, []))
  }

  lemma SameRequest(R: nat, j: Job, adLen: nat, msgLen: nat)
    requires 0 < R <= 12 && j.adLen == adLen && j.msgLen == msgLen
    ensures RunEdges(R, j) == RequestEdges(R, adLen, msgLen)
  {
  }

  lemma JobIs(R: nat, s: Peripheral, j: Job, ad: Bits, text: Bits)
    requires Running(R, s, Begin(j, ad, text)) && AxisEngine.JobFits(j) && |ad| == 8 * j.adLen && |text| == 8 * j.msgLen
    ensures var m := Begin(j, ad, text);
            && m.job == j && SlinkPlane.Taken(j, m.words) && Progressing(R, s, m, j, m.words)
            && SlinkPlane.Expected(j, m.words) == Result(j, ad, text)
            && EdgesLeft(R, m) == RunEdges(R, j)
  {
    hide Running, SlinkPlane.AdText, SlinkPlane.MsgText, SlinkPlane.Taken, SlinkPlane.CoreEdges, SlinkPlane.WordsFor,
         Crypto;
    BeginHolds(j, ad, text);
  }

  lemma ResultBytes(j: Job, ad: Bits, text: Bits, n: nat)
    requires AxisEngine.JobFits(j) && |text| == 8 * n
    ensures |Result(j, ad, text).text| == 8 * n && |Result(j, ad, text).tag| == 128
    ensures BytesBits(BitsBytes(Result(j, ad, text).text, n)) == Result(j, ad, text).text
  {
    hide Crypto, BytesBits, ByteOf;
    BitStringsRoundTrip(Result(j, ad, text).text, n);
  }

  lemma FinishedFacts(R: nat, s: Peripheral, j: Job, r: Sealed)
    requires Finished(R, s, j, r)
    ensures Settled(R, s) && s.ctl.base.tag == r.tag && |r.tag| == 128
    ensures s.ctl.base.tagValid == (j.decrypt ==> r.tag == j.tag)
    ensures s.ctl.base.errCode == if s.ctl.base.tagValid then 0 else 4
  {
  }

  lemma TagWordBytes(s: Peripheral, k: nat)
    requires Fits(s) && k < 4 && |s.ctl.base.tag| == 128
    ensures var w, t := Read(s, 0x60 + 4 * k), s.ctl.base.tag;
            && w[..8] == t[8 * (4 * k)..8 * (4 * k) + 8] && Shr(w, 8)[..8] == t[8 * (4 * k + 1)..8 * (4 * k + 1) + 8]
            && Shr(w, 16)[..8] == t[8 * (4 * k + 2)..8 * (4 * k + 2) + 8]
                && Shr(w, 24)[..8] == t[8 * (4 * k + 3)..8 * (4 * k + 3) + 8]
  {
    hide Select, Shr;
    var w, t := Read(s, 0x60 + 4 * k), s.ctl.base.tag;
    assert w == Select(t, 32 * k, 32);
    SelectedByte(t, k, 0);
    SelectedByte(t, k, 1);
    SelectedByte(t, k, 2);
    SelectedByte(t, k, 3);
    assert Shr(w, 0) == w;
  }

  lemma SelectedByte(t: Bits, k: nat, i: nat)
    requires |t| == 128 && k < 4 && i < 4
    ensures Shr(Select(t, 32 * k, 32), 8 * i)[..8] == t[8 * (4 * k + i)..8 * (4 * k + i) + 8]
  {
  }

  // The status that an error code stands for.
  function StatusOf(code: nat): (st: Status)
    ensures st == Ok <==> code == 0
    ensures st == TagInvalid <==> code == 4
    ensures st == UnsupportedMode <==> code == 1
    ensures st == Transport <==> code == 2 || code == 3
    ensures st == Ok || st == TagInvalid || st == UnsupportedMode || st == Transport || st == HardwareError
  {
    if code == 0 then Ok else if code == 4 then TagInvalid else if code == 1 then UnsupportedMode
    else if code == 2 || code == 3 then Transport else HardwareError
  }

  // The bytes of a word that belong to the result.
  method UnpackWord(data: array<Byte>, offset: nat, len: nat, word: Word32, ghost buf: Bits,
                    ghost text: Bits) returns (next: nat)
    requires offset < len <= data.Length && len <= 32 && |buf| == 256 && |text| == 8 * len && buf[..8 * len] == text
    requires word == Select(buf, 8 * offset, 32)
    modifies data
    ensures next == if offset + 4 <= len then offset + 4 else len
    ensures forall k :: 0 <= k < data.Length ==>
              data[k] == if offset <= k < next then BitsBytes(text, len)[k] else old(data[k])
  {
    hide ByteOf, Select, Shr;
    next := offset;
    var i := 0;
    while i < 4 && next < len
      invariant 0 <= i <= 4 && next == offset + i <= len
      invariant forall k :: 0 <= k < data.Length ==>
                  data[k] == if offset <= k < next then BitsBytes(text, len)[k] else old(data[k])
    {
      UnpackedByte(buf, text, offset, i, len);
      data[next] := ByteOf(Shr(word, 8 * i)[..8]);
      next := next + 1;
      i := i + 1;
    }
  }

  lemma UnpackedByte(buf: Bits, text: Bits, offset: nat, i: nat, len: nat)
    requires i < 4 && offset + i < len <= 32 && |buf| == 256 && |text| == 8 * len && buf[..8 * len] == text
    ensures Shr(Select(buf, 8 * offset, 32), 8 * i)[..8] == text[8 * (offset + i)..8 * (offset + i) + 8]
  {
    assert forall k :: 0 <= k < 8 * len ==> buf[k] == text[k];
  }

  // Reading DATA_OUT changes nothing but the position.
  lemma HoldingMoves(R: nat, s: Peripheral, j: Job, r: Sealed, pos: nat)
    requires Holding(R, s, j, r, pos) && pos < j.msgLen
    ensures var i := Access(true, false, 0x48, Zeros(32));
            Holding(R, s.(ctl := BusAccess(s.ctl, i)), j, r, pos + 4) && BusAccess(s.ctl, i).base == s.ctl.base
    ensures Read(s, 0x48) == Select(s.ctl.outbuf, 8 * pos, 32)
  {
    hide EngineRests, Select;
  }

  // The payload word and its byte mask, little-endian.
  method PackWord(data: array<Byte>, offset: nat, len: nat) returns (word: Word32, keep: Word32, n: nat, next: nat)
    requires offset < len <= data.Length
    ensures next == (if offset + 4 <= len then offset + 4 else len) && n == next - offset <= 4
    ensures word[..8 * n] == BytesBits(data[offset..next])
    ensures keep == Ones(n) + Zeros(32 - n)
  {
    hide BytesBits, ByteBits, Or, Shl, One;
    word, keep, next, n := Zeros(32), Zeros(32), offset, 0;
    var i := 0;
    BytesBitsUnfold([]);
    assert data[offset..offset] == [];
    while i < 4
      invariant 0 <= i <= 4 && n == (if offset + i <= len then i else len - offset) && next == offset + n
      invariant word == BytesBits(data[offset..next]) + Zeros(32 - 8 * n)
      invariant keep == Ones(n) + Zeros(32 - n)
    {
      if next < len {
        PackedByte(data[offset..next], data[next], i);
        PackedKeep(i);
        assert data[offset..next + 1] == data[offset..next] + [data[next]];
        word := Or(word, Shl(Extend(data[next]), 8 * i));
        keep := Or(keep, Shl(One(32), i));
        next := next + 1;
        n := n + 1;
      }
      i := i + 1;
    }
  }

  lemma PackedKeep(i: nat)
    requires i < 4
    ensures Or(Ones(i) + Zeros(32 - i), Shl(One(32), i)) == Ones(i + 1) + Zeros(31 - i)
  {
    OneHot(32, i);
  }

  // VALID | kind | keep << 8, and LAST for the final beat.
  function ControlWord(kind: bool, keep: Word32, last: bool): Word32
  {
    var flags := [false, true, !kind, kind] + Zeros(28);
    var c := Or(flags, Shl(keep, 8));
    if last then Or(c, One(32)) else c
  }

  lemma ControlWordIs(kind: bool, keep: Word32, last: bool, n: nat)
    requires n <= 4 && keep == Ones(n) + Zeros(32 - n)
    ensures ControlWord(kind, keep, last) == BeatWord(last, kind, n)
  {
  }

  const CLEAR: Word32 := Zeros(8) + [true] + Zeros(23)

  function StartWord(decrypt: bool): Word32
  {
    [true, decrypt] + Zeros(30)
  }

  // No status flag is left from an earlier request.
  predicate Cleared(c: SlinkMmio.Ctl)
  {
    !c.busy && !c.done && !c.tagValid && !c.error && c.errCode == 0
  }

  lemma ClearWrites(c: Ctl)
    requires CtlSized(c)
    ensures Cleared(BusWrite(c, 0x00, CLEAR).base)
  {
  }

  lemma ModeWrites(c: Ctl, w: Word32)
    requires CtlSized(c)
    ensures BusWrite(c, 0x08, w) == c.(base := c.base.(setup := c.base.setup.(mode := w[0..3])))
  {
  }

  lemma LengthWrites(c: Ctl, n: nat)
    requires CtlSized(c) && n < 256
    ensures BusWrite(c, 0x10, FromInt(n, 32)) == c.(base := c.base.(setup := c.base.setup.(adlen := n)))
    ensures BusWrite(c, 0x14, FromInt(n, 32)) == c.(base := c.base.(setup := c.base.setup.(txtlen := n)))
  {
    hide FromInt, SlinkMmio.LowByte;
    SlinkMmio.LengthWritten(n);
  }

  lemma ChunkAppended(data: seq<Byte>, offset: nat, next: nat)
    requires offset <= next <= |data|
    ensures (if offset == 0 then [] else BytesBits(data[..offset])) + BytesBits(data[offset..next])
            == BytesBits(data[..next])
  {
    hide BytesBits;
    BytesBitsUnfold([]);
    assert data[..0] == [] && data[..next] == data[..offset] + data[offset..next];
    BytesBitsConcat(data[..offset], data[offset..next]);
  }

  lemma ReadAnswers(R: nat, s: Peripheral, addr: nat)
    requires 0 < R <= 12 && Fits(s)
    ensures var i := Access(true, false, addr, Zeros(32));
            AnswersAlways(R, s, i, 1) && forall n: nat :: n > 0 ==> Served(R, Rest(R, s, n), i, 1) == Rest(R, s, n)
  {
    hide Clock, Rest, Answers, Served, Fits;
    var i := Access(true, false, addr, Zeros(32));
    forall n: nat | n > 0 ensures Answers(R, Rest(R, s, n), i, 1) && Served(R, Rest(R, s, n), i, 1) == Rest(R, s, n) {
      ServedNow(R, Rest(R, s, n), i, 1);
    }
  }

  lemma StatusMeans(R: nat, s: Peripheral, m: SlinkPlane.Seen, j: Job, words: seq<Word32>)
    requires 0 < R <= 12 && Fits(s) && SlinkPlane.Taken(j, words) && AxisEngine.JobFits(j)
             && Progressing(R, s, m, j, words)
    ensures Read(s, 0x04)[1] <==> Finished(R, s, j, SlinkPlane.Expected(j, words))
    ensures !Read(s, 0x04)[1] ==> !Read(s, 0x04)[3] && EdgesLeft(R, m) >= 1
  {
    hide SlinkPlane.Expected, SlinkPlane.Inv, Captured, EngineRests, SlinkPlane.JobEdges;
    if Running(R, s, m) {
      RunningBound(R, s, m);
    }
  }

  lemma FinishedRest(R: nat, s: Peripheral, j: Job, r: Sealed, n: nat)
    requires Finished(R, s, j, r)
    ensures Rest(R, s, n) == s
  {
    hide Settled, Rest;
    SettledRest(R, s, n);
  }
}
