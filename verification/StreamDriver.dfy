// The driver of the stream-native peripheral: control over the bus, payload as a
// plain stream of words that the processor never touches.
module StreamDriver {
  import opened BitVectors
  import opened Bytes
  import opened Aead
  import opened StreamBeat
  import opened AxisEngine
  import opened SlinkPlane
  import SlinkMmio
  import CReference

  // ------------------------------------------------------ bytes and words

  function PaddedWord(b: seq<Byte>): Word32
    requires |b| <= 4
  {
    BytesBits(b) + Zeros(32 - 8 * |b|)
  }

  // Bytes in whole words, the last one padded with zeros.
  function PaddedWords(b: seq<Byte>): seq<Word32>
  {
    if |b| == 0 then [] else if |b| <= 4 then [PaddedWord(b)] else [PaddedWord(b[..4])] + PaddedWords(b[4..])
  }

  lemma {:induction false} FlatCons(w: Word32, words: seq<Word32>)
    ensures Flat([w] + words) == w + Flat(words)
    decreases |words|
  {
    if |words| == 0 {
      assert [w] + words == [w] && [w][..0] == [];
      assert Flat([w]) == Flat([]) + w;
    } else {
      var n := |words| - 1;
      assert ([w] + words)[..n + 1] == [w] + words[..n];
      FlatCons(w, words[..n]);
      assert w + (Flat(words[..n]) + words[n]) == w + Flat(words[..n]) + words[n];
    }
  }

  lemma {:induction false} WordsOfBytes(b: seq<Byte>)
    ensures |PaddedWords(b)| == WordsFor(|b|) && Flat(PaddedWords(b))[..8 * |b|] == BytesBits(b)
    decreases |b|
  {
    hide BytesBits, Flat;
    if |b| == 0 {
      BytesBitsUnfold([]);
    } else if |b| <= 4 {
      FlatCons(PaddedWord(b), []);
      assert [PaddedWord(b)] + [] == [PaddedWord(b)];
    } else {
      FlatCons(PaddedWord(b[..4]), PaddedWords(b[4..]));
      WordsOfBytes(b[4..]);
      BytesBitsConcat(b[..4], b[4..]);
      assert b == b[..4] + b[4..] && PaddedWord(b[..4]) == BytesBits(b[..4]);
      assert (PaddedWord(b[..4]) + Flat(PaddedWords(b[4..])))[..8 * |b|]
          == PaddedWord(b[..4]) + Flat(PaddedWords(b[4..]))[..8 * |b[4..]|];
    }
  }

  // Both texts of a job in one run of words are taken apart as they were put
  // together.
  lemma PayloadTexts(j: Job, ad: seq<Byte>, text: seq<Byte>)
    requires AxisEngine.JobFits(j) && j.adLen == |ad| && j.msgLen == |text|
    ensures var words := PaddedWords(ad) + PaddedWords(text);
            && Taken(j, words)
            && Expected(j, words) == Crypto(NIST_AEAD128, j.decrypt, j.key, j.nonce, BytesBits(ad), BytesBits(text))
  {
    hide BytesBits, Flat, Crypto, PaddedWords, WordsFor;
    ConfigsValid();
    WordsOfBytes(ad);
    WordsOfBytes(text);
    var words, n := PaddedWords(ad) + PaddedWords(text), WordsFor(|ad|);
    assert words[..n] == PaddedWords(ad) && words[n..] == PaddedWords(text);
  }

  // The word of up to four bytes.
  method LoadWord(p: array<Byte>, at: nat, avail: nat) returns (w: Word32)
    requires at + avail <= p.Length
    ensures w == PaddedWord(p[at..at + if avail < 4 then avail else 4])
  {
    hide BytesBits, Or, Shl;
    w := Zeros(32);
    BytesBitsUnfold([]);
    assert p[at..at] == [];
    var i := 0;
    while i < 4 && i < avail
      invariant 0 <= i <= 4 && i <= avail
      invariant w == PaddedWord(p[at..at + i])
    {
      PackedByte(p[at..at + i], p[at + i], i);
      assert p[at..at + i + 1] == p[at..at + i] + [p[at + i]];
      w := Or(w, Shl(Extend(p[at + i]), 8 * i));
      i := i + 1;
    }
  }

  lemma NextWord(data: seq<Byte>, off: nat)
    requires off < |data|
    ensures var n := if |data| - off < 4 then |data| - off else 4;
            PaddedWords(data[off..]) == [PaddedWord(data[off..off + n])] + PaddedWords(data[off + n..])
  {
    hide BytesBits;
    var n := if |data| - off < 4 then |data| - off else 4;
    assert data[off..][..n] == data[off..off + n] && data[off..][n..] == data[off + n..];
    if |data| - off <= 4 {
      assert data[off..] == data[off..off + n] && PaddedWords(data[off + n..]) == [];
    }
  }

  lemma WordPacked(data: seq<Byte>, off: nat, before: seq<Word32>, w: Word32)
    requires off < |data| && w == PaddedWord(data[off..off + if |data| - off < 4 then |data| - off else 4])
    ensures before + PaddedWords(data[off..])
         == before + [w] + PaddedWords(if off + 4 < |data| then data[off + 4..] else [])
  {
    hide PaddedWords, PaddedWord;
    NextWord(data, off);
    var n := if |data| - off < 4 then |data| - off else 4;
    var rest := PaddedWords(data[off + n..]);
    assert off + 4 >= |data| ==> data[off + n..] == [];
    assert before + ([w] + rest) == before + [w] + rest;
  }

  // Appends the words of len bytes to the first n words of tx.
  method Pack(tx: array<Word32>, n: nat, p: array?<Byte>, len: nat) returns (n': nat)
    requires n + WordsFor(len) <= tx.Length && (len > 0 ==> p != null && len <= p.Length)
    modifies tx
    ensures n' == n + WordsFor(len) && tx[..n'] == old(tx[..n]) + PaddedWords(CReference.Argument(p, len))
  {
    hide PaddedWords, PaddedWord, BytesBits;
    ghost var data := CReference.Argument(p, len);
    n' := n;
    var off := 0;
    assert data[0..] == data;
    NoWords();
    while off < len
      invariant n' >= n && off == 4 * (n' - n) < len + 4
      invariant len > 0 ==> p[..len] == data
      invariant tx[..n'] + PaddedWords(if off < len then data[off..] else []) == old(tx[..n]) + PaddedWords(data)
    {
      ghost var before, k := tx[..n'], if len - off < 4 then len - off else 4;
      assert p[off..off + k] == p[..len][off..off + k];
      var w := LoadWord(p, off, len - off);
      WordPacked(data, off, before, w);
      tx[n'] := w;
      assert tx[..n' + 1] == before + [w];
      n' := n' + 1;
      off := off + 4;
    }
  }

  lemma NoWords()
    ensures PaddedWords([]) == []
  {
  }

  // Byte i of the word that starts at byte 4k of a longer string.
  lemma {:induction false} FlatWord(words: seq<Word32>, k: nat)
    requires k < |words|
    ensures Flat(words)[32 * k..32 * k + 32] == words[k]
    decreases |words|
  {
    if k < |words| - 1 {
      FlatWord(words[..|words| - 1], k);
    }
  }

  lemma ByteOfSlice(f: Bits, k: nat, i: nat)
    requires 32 * k + 32 <= |f| && i < 4
    ensures f[32 * k..32 * k + 32][8 * i..8 * i + 8] == f[8 * (4 * k + i)..8 * (4 * k + i) + 8]
  {
    SliceInside(f, 32 * k, 32, 8 * i, 8);
  }

  lemma SliceInside(f: Bits, at: nat, n: nat, from: nat, m: nat)
    requires at + n <= |f| && from + m <= n
    ensures f[at..at + n][from..from + m] == f[at + from..at + from + m]
  {
    var a, b := f[at..at + n][from..from + m], f[at + from..at + from + m];
    assert |a| == |b| && forall k :: 0 <= k < m ==> a[k] == b[k];
  }

  lemma ByteAt(f: Bits, n: nat, k: nat)
    requires k < n && 8 * n <= |f|
    ensures BitsBytes(f, n)[k] == ByteOf(f[8 * k..8 * k + 8])
  {
  }

  lemma FlatByte(words: seq<Word32>, k: nat, i: nat)
    requires k < |words| && i < 4
    ensures BitsBytes(Flat(words), 4 * |words|)[4 * k + i] == BitsBytes(words[k], 4)[i]
  {
    hide ByteOf, Flat, BitsBytes;
    FlatWord(words, k);
    ByteOfSlice(Flat(words), k, i);
    ByteAt(Flat(words), 4 * |words|, 4 * k + i);
    ByteAt(words[k], 4, i);
  }

  lemma ShiftedByte(w: Word32, i: nat)
    requires i < 4
    ensures Shr(w, 8 * i)[..8] == w[8 * i..8 * i + 8]
  {
  }

  // The bytes of a word, as far as they are wanted.
  method StoreWord(p: array<Byte>, at: nat, avail: nat, w: Word32)
    requires at + avail <= p.Length
    modifies p
    ensures forall k :: 0 <= k < p.Length ==>
              p[k] == if at <= k < at + avail && k < at + 4 then BitsBytes(w, 4)[k - at] else old(p[k])
  {
    hide ByteOf, Shr;
    var i := 0;
    while i < 4 && i < avail
      invariant 0 <= i <= 4 && i <= avail
      invariant forall k :: 0 <= k < p.Length ==>
                  p[k] == if at <= k < at + i then BitsBytes(w, 4)[k - at] else old(p[k])
    {
      ShiftedByte(w, i);
      p[at + i] := ByteOf(Shr(w, 8 * i)[..8]);
      i := i + 1;
    }
  }

  method Unpack(rx: seq<Word32>, p: array<Byte>, len: nat)
    requires |rx| == WordsFor(len) && len <= p.Length
    modifies p
    ensures BytesBits(p[..len]) == Flat(rx)[..8 * len] && p[len..] == old(p[len..])
  {
    hide Flat, BytesBits, BitsBytes;
    ghost var bytes := BitsBytes(Flat(rx), 4 * |rx|);
    var i := 0;
    while i < |rx|
      invariant 0 <= i <= |rx|
      invariant forall k :: 0 <= k < p.Length ==> p[k] == if k < 4 * i && k < len then bytes[k] else old(p[k])
    {
      FlatByte(rx, i, 0);
      FlatByte(rx, i, 1);
      FlatByte(rx, i, 2);
      FlatByte(rx, i, 3);
      StoreWord(p, 4 * i, len - 4 * i, rx[i]);
      i := i + 1;
    }
    BytesOfPrefix(Flat(rx), 4 * |rx|, len);
    assert p[..len] == bytes[..len];
    BitStringsRoundTrip(Flat(rx)[..8 * len], len);
  }

  lemma BytesOfPrefix(f: Bits, n: nat, len: nat)
    requires len <= n && |f| == 8 * n
    ensures BitsBytes(f, n)[..len] == BitsBytes(f[..8 * len], len)
  {
    hide ByteOf;
    forall k | 0 <= k < len ensures f[..8 * len][8 * k..8 * k + 8] == f[8 * k..8 * k + 8] {
    }
  }

  // --------------------------------------------------------- received words

  function Data(b: Beat): Word32
  {
    if |b.data| == 32 then b.data else Zeros(32)
  }

  function Datas(beats: seq<Beat>): (words: seq<Word32>)
    ensures |words| == |beats|
  {
    seq(|beats|, k requires 0 <= k < |beats| => Data(beats[k]))
  }

  lemma DatasSnoc(beats: seq<Beat>, b: Beat)
    ensures Datas(beats + [b]) == Datas(beats) + [Data(b)]
  {
  }

  // The received words carry the bytes that the beats mark, and nothing before
  // them is missing.
  lemma {:induction false} ReceivedPayload(beats: seq<Beat>, len: nat)
    requires WellFormed(beats) && Masked(beats, len)
    ensures var n := if 4 * |beats| <= len then 4 * |beats| else len;
            Payload(beats) == Flat(Datas(beats))[..8 * n]
    decreases |beats|
  {
    hide Flat, Payload, Datas, Kept, KeepMask;
    if |beats| == 0 {
      Empty();
    } else {
      var k := |beats| - 1;
      var b := beats[k];
      assert b in beats;
      ReceivedPayload(beats[..k], len);
      assert beats[..k] + [b] == beats;
      var f := Flat(Datas(beats[..k]));
      assert f[..8 * (4 * k)] == f;
      PayloadSnoc(beats[..k], b);
      DatasSnoc(beats[..k], b);
      FlatSnoc(Datas(beats[..k]), Data(b));
      KeptOfMask(len - 4 * k);
      PrefixExtended(f, b.data, 8 * Kept(b.keep));
    }
  }

  lemma Empty()
    ensures Flat([]) == [] && Payload([]) == [] && Datas([]) == []
  {
  }

  lemma KeptOfMask(n: nat)
    ensures Kept(KeepMask(n)) == if n <= 4 then n else 4
  {
  }

  // ------------------------------------------------------------- the link

  // The queues are where the job j has taken them.
  ghost predicate Follows(c: SlinkMmio.Ctl, m: Seen, j: Job, tx: seq<Word32>, next: nat, rx: seq<Word32>)
  {
    && (c.busy || c.done)
    && if c.startPulse then SlinkMmio.JobOf(c) == j && next == 0 && rx == []
       else m.job == j && next <= |tx| && m.words == tx[..next] && rx == Datas(m.beats)
  }

  // The peripheral between two word queues: words wait in tx, the next one at
  // `next`, and results are collected in rx. Whether a word is offered or a beat
  // taken in a cycle is arbitrary.
  class Link {
    const regs: SlinkMmio.Registers
    var tx: seq<Word32>
    var next: nat
    var rx: seq<Word32>
    ghost var m: Seen
    ghost var ran: bool

    function Dev(): SlinkMmio.Peripheral
      reads regs, regs.shim, regs.eng, regs.eng.core, regs.eng.core.perm
    {
      regs.State()
    }

    ghost predicate Sound()
      reads this, regs, regs.shim, regs.eng, regs.eng.core, regs.eng.core.perm
      ensures Sound() ==> 0 < regs.R <= 12 && SlinkMmio.Sized(Dev())
    {
      regs.Wired() && SlinkMmio.Inv(regs.R, Dev(), m, ran)
    }

    // No job is under way.
    ghost predicate Free()
      reads this, regs, regs.shim, regs.eng, regs.eng.core, regs.eng.core.perm
      ensures Free() ==> 0 < regs.R <= 12 && SlinkMmio.SetupSized(Dev().ctl.setup)
    {
      Sound() && !Dev().ctl.busy
    }

    // The job j is under way or finished, fed from tx in order.
    ghost predicate Carries(j: Job)
      reads this, regs, regs.shim, regs.eng, regs.eng.core, regs.eng.core.perm
      ensures Carries(j) ==> 0 < regs.R <= 12 && SlinkMmio.SetupSized(Dev().ctl.setup)
    {
      Sound() && Follows(Dev().ctl, m, j, tx, next, rx)
    }

    constructor (R: nat)
      requires 0 < R <= 12
      ensures Free() && fresh(regs) && fresh(regs.shim) && fresh(regs.eng) && fresh(regs.eng.core)
      ensures fresh(regs.eng.core.perm)
    {
      hide SlinkMmio.Inv, SlinkMmio.Rested, SlinkMmio.Registers.State, SlinkMmio.Registers.Wired;
      regs := new SlinkMmio.Registers(R);
      tx, next, rx := [], 0, [];
      m, ran := Seen(Job(false, Zeros(128), Zeros(128), 0, 0, Zeros(128)), [], [], 0, 0), false;
      new;
      SlinkMmio.RestedIsSound(R, Dev(), m);
    }

    // What one edge moves between the queues and the peripheral.
    method Move(p: Plane, val: bool, ready: bool)
      requires AxisEngine.Sized(p.eng)
      modifies this`next, this`rx
      ensures next == old(next) + if (p.shim.st.Ad? || p.shim.st.Msg?) && val then 1 else 0
      ensures rx == if p.eng.st.Tx? && ready then old(rx) + [Sent(p.eng).data] else old(rx)
    {
      if val && (p.shim.st.Ad? || p.shim.st.Msg?) {
        next := next + 1;
      }
      if p.eng.st.Tx? && ready {
        rx := rx + [Sent(p.eng).data];
      }
    }

    // One clock cycle with a bus access or none.
    method Tick(sel: bool, we: bool, addr: nat, w: Word32) returns (ghost i: SlinkMmio.Cycle)
      requires Sound() && SlinkMmio.Polite(Dev().ctl, SlinkMmio.Cycle(sel, we, addr, w, w, false, false))
      modifies this, regs, regs.shim, regs.eng, regs.eng.core, regs.eng.core.perm
      ensures Sound() && i.sel == sel && i.we == we && i.addr == addr && i.wdata == w
      ensures Dev() == SlinkMmio.Clock(regs.R, old(Dev()), i)
      ensures m == Watch(old(Dev()).plane, old(m), SlinkMmio.EdgeOf(old(Dev()).ctl, i))
      ensures tx == old(tx) && (i.val ==> old(next) < |tx| && i.dat == tx[old(next)])
      ensures var p := old(Dev()).plane;
              && next == old(next) + (if (p.shim.st.Ad? || p.shim.st.Msg?) && i.val then 1 else 0)
              && rx == if p.eng.st.Tx? && i.rxReady then old(rx) + [Sent(p.eng).data] else old(rx)
    {
      hide SlinkMmio.Clock, SlinkMmio.Inv, SlinkMmio.Registers.State, SlinkMmio.Registers.Wired, Watch, Sent,
           SlinkMmio.EdgeOf;
      var d, val: bool, ready: bool := Dev(), *, *;
      val := val && next < |tx|;
      var dat := if val then tx[next] else Zeros(32);
      i := SlinkMmio.Cycle(sel, we, addr, w, dat, val, ready);
      SlinkMmio.Step(regs.R, d, m, i, ran);
      m, ran := Watch(d.plane, m, SlinkMmio.EdgeOf(d.ctl, i)), ran || d.ctl.startPulse;
      Move(d.plane, val, ready);
      regs.Step(SlinkMmio.Cycle(sel, we, addr, w, dat, val, ready));
    }

    // A register write while no job is under way.
    method WriteReg(addr: nat, w: Word32)
      requires Free() && (addr == 0x00 ==> !w[0])
      modifies this, regs, regs.shim, regs.eng, regs.eng.core, regs.eng.core.perm
      ensures Free() && Dev().ctl == SlinkMmio.BusWrite(old(Dev()).ctl, addr, w)
    {
      hide SlinkMmio.Clock, SlinkMmio.Inv, SlinkMmio.Registers.State, SlinkMmio.Registers.Wired, Watch,
           SlinkMmio.BusWrite;
      ghost var d, m0, ran0 := Dev(), m, ran;
      ghost var i := Tick(true, true, addr, w);
      SlinkMmio.IdleCycle(regs.R, d, m0, i, ran0);
    }

    // START for the job that the registers describe, with its words queued.
    method Start(decrypt: bool, words: seq<Word32>)
      requires Free() && Dev().ctl.setup.adlen <= 32 && Dev().ctl.setup.txtlen <= 32
      modifies this, regs, regs.shim, regs.eng, regs.eng.core, regs.eng.core.perm
      ensures Carries(SlinkMmio.JobOf(old(Dev()).ctl).(decrypt := decrypt)) && tx == words
    {
      hide SlinkMmio.Clock, SlinkMmio.Inv, SlinkMmio.Registers.State, SlinkMmio.Registers.Wired, Watch;
      tx, next, rx := words, 0, [];
      ghost var d, m0, ran0 := Dev(), m, ran;
      ghost var i := Tick(true, true, 0x00, [true, decrypt] + Zeros(30));
      SlinkMmio.StreamsMove(regs.R, d, m0, i, ran0);
      SlinkMmio.IdleStart(regs.R, d, m0, i, ran0);
    }

    // A cycle of a job, or after it, with or without a register read.
    method Pass(reading: bool, addr: nat, ghost j: Job) returns (w: Word32)
      requires Carries(j)
      modifies this, regs, regs.shim, regs.eng, regs.eng.core, regs.eng.core.perm
      ensures Carries(j) && tx == old(tx) && w == SlinkMmio.Read(old(Dev()).ctl, addr) && !Dev().ctl.startPulse
      ensures var c := old(Dev()).ctl;
              && (c.busy && Dev().ctl.busy ==> m.edges == if c.startPulse then 1 else old(m.edges) + 1)
              && (c.busy && !c.startPulse && !Dev().ctl.busy ==> m.edges == old(m.edges))
      ensures !old(Dev()).ctl.busy ==> Dev().ctl == old(Dev()).ctl && m == old(m) && rx == old(rx)
    {
      hide SlinkMmio.Clock, SlinkMmio.Inv, SlinkMmio.Registers.State, SlinkMmio.Registers.Wired, Watch, SlinkMmio.Read;
      w := SlinkMmio.Read(Dev().ctl, addr);
      ghost var d, m0, ran0 := Dev(), m, ran;
      ghost var i := Tick(reading, false, addr, Zeros(32));
      SlinkMmio.StreamsMove(regs.R, d, m0, i, ran0);
      SlinkMmio.PulseFollowsStart(regs.R, d, i);
      if d.ctl.busy {
        SlinkMmio.BusyCycle(regs.R, d, m0, i, ran0);
      } else {
        SlinkMmio.IdleCycle(regs.R, d, m0, i, ran0);
      }
    }

    // Any number of cycles in which something else is waited for.
    method Elapse(ghost j: Job)
      requires Carries(j)
      modifies this, regs, regs.shim, regs.eng, regs.eng.core, regs.eng.core.perm
      ensures Carries(j) && tx == old(tx)
      ensures !old(Dev()).ctl.busy ==> Dev().ctl == old(Dev()).ctl && m == old(m) && rx == old(rx)
    {
      hide SlinkMmio.Registers.State, Carries;
      var n: nat := *;
      while n > 0
        invariant Carries(j) && tx == old(tx)
        invariant !old(Dev()).ctl.busy ==> Dev().ctl == old(Dev()).ctl && m == old(m) && rx == old(rx)
      {
        var w := Pass(false, 0, j);
        n := n - 1;
      }
    }
  }

  function TagRegisters(c: SlinkMmio.Ctl): (tag: Bits)
    requires SlinkMmio.SetupSized(c.setup)
    ensures |tag| == 128
  {
    hide SlinkMmio.Read;
    SlinkMmio.Read(c, 0x60) + SlinkMmio.Read(c, 0x64) + SlinkMmio.Read(c, 0x68) + SlinkMmio.Read(c, 0x6C)
  }

  // What the registers and the receive queue hold after a job.
  ghost predicate Answered(c: SlinkMmio.Ctl, rx: seq<Word32>, j: Job, r: Sealed)
  {
    && SlinkMmio.SetupSized(c.setup) && TagRegisters(c) == r.tag
    && |rx| == WordsFor(j.msgLen) && Flat(rx)[..8 * j.msgLen] == r.text
    && var status := SlinkMmio.Read(c, 0x04);
       (status[2] <==> (j.decrypt ==> r.tag == j.tag)) && (status[3] <==> !status[2])
  }

  lemma NoText(c: SlinkMmio.Ctl, rx: seq<Word32>, j: Job, r: Sealed)
    requires Answered(c, rx, j, r) && j.msgLen == 0
    ensures r.text == [] == BytesBits([])
  {
  }

  // What a finished job has taken and sent.
  lemma DoneMeans(R: nat, r: SlinkMmio.Peripheral, m: Seen, ran: bool, j: Job, tx: seq<Word32>, next: nat,
                  rx: seq<Word32>)
    requires SlinkMmio.Inv(R, r, m, ran) && r.ctl.done && Follows(r.ctl, m, j, tx, next, rx)
    requires AxisEngine.JobFits(j) && Taken(j, tx)
    ensures !r.ctl.busy && Answered(r.ctl, rx, j, Expected(j, tx))
  {
    hide SlinkPlane.Inv, SlinkMmio.Read, Flat, Datas, Payload, Expected, Value, Pow2, JobEdges;
    SlinkMmio.ReportedDelivers(R, r.ctl, m);
    ReceivedPayload(m.beats, m.job.msgLen);
    assert |tx[..next]| == |tx| && tx[..|tx|] == tx;
  }

  // ------------------------------------------------------------ the driver

  datatype Status = Ok | BadArgument | Timeout | TagInvalid | Unsupported | Hardware

  function WordAt(b: seq<Byte>, k: nat): Word32
    requires 4 * k + 4 <= |b|
  {
    BytesBits(b[4 * k..4 * k + 4])
  }

  lemma BankGrows(reg: Bits, k: nat, b: seq<Byte>)
    requires |reg| == 128 && k < 4 && |b| >= 16 && reg[..32 * k] == BytesBits(b[..4 * k])
    ensures SlinkMmio.SetWord(reg, k, WordAt(b, k))[..32 * k + 32] == BytesBits(b[..4 * k + 4])
  {
    hide BytesBits;
    assert b[..4 * k + 4] == b[..4 * k] + b[4 * k..4 * k + 4];
    BytesBitsConcat(b[..4 * k], b[4 * k..4 * k + 4]);
  }

  class Driver {
    const link: Link
    const timeout: nat

    constructor (link: Link, timeout: nat)
      ensures this.link == link && this.timeout == timeout
    {
      this.link := link;
      this.timeout := timeout;
    }

    function Setup(): SlinkMmio.Setup
      reads link.regs, link.regs.shim, link.regs.eng, link.regs.eng.core, link.regs.eng.core.perm
    {
      link.Dev().ctl.setup
    }

    // Word k of a bank.
    method WriteWord(bank: nat, k: nat, src: array<Byte>)
      requires link.Free() && src.Length >= 16 && (bank == 0x20 || bank == 0x30 || bank == 0x60) && k < 4
      modifies link, link.regs, link.regs.shim, link.regs.eng, link.regs.eng.core, link.regs.eng.core.perm
      ensures link.Free()
      ensures Setup() == SlinkMmio.WithWord(old(Setup()), bank, k, WordAt(src[..], k))
    {
      hide SlinkMmio.Registers.State, SlinkMmio.Registers.Wired, SlinkMmio.Inv, SlinkMmio.BusWrite, BytesBits,
           SlinkMmio.WithWord;
      var w := LoadWord(src, 4 * k, 4);
      SlinkMmio.BankWritten(link.Dev().ctl, bank, k, w);
      assert src[4 * k..4 * k + 4] == src[..][4 * k..4 * k + 4];
      assert w == WordAt(src[..], k);
      link.WriteReg(bank + 4 * k, w);
    }

    // Key and nonce go word by word in turn, then the expected tag if there is one.
    method Configure(key: array<Byte>, nonce: array<Byte>, tag: array<Byte>, adLen: nat, msgLen: nat, decrypt: bool)
      requires link.Free() && key.Length >= 16 && nonce.Length >= 16 && tag.Length >= 16
      requires adLen < 256 && msgLen < 256
      modifies link, link.regs, link.regs.shim, link.regs.eng, link.regs.eng.core, link.regs.eng.core.perm
      ensures link.Free()
      ensures Setup() == SlinkMmio.Setup(Zeros(3), BytesBits(key[..16]), BytesBits(nonce[..16]),
                                         if decrypt then BytesBits(tag[..16]) else old(Setup()).tagIn, adLen, msgLen)
    {
      hide SlinkMmio.Registers.State, SlinkMmio.Registers.Wired, SlinkMmio.Inv, SlinkMmio.BusWrite, BytesBits,
           SlinkMmio.SetWord, FromInt;
      ghost var tag0 := Setup().tagIn;
      ClearKeepsSetup(link.Dev().ctl);
      link.WriteReg(0x00, Zeros(8) + [true] + Zeros(23));
      SlinkMmio.SetupWritten(link.Dev().ctl, 0);
      link.WriteReg(0x08, Zeros(32));
      WriteKeys(key, nonce);
      if decrypt {
        WriteTag(tag);
      }
      SlinkMmio.SetupWritten(link.Dev().ctl, adLen);
      link.WriteReg(0x10, FromInt(adLen, 32));
      SlinkMmio.SetupWritten(link.Dev().ctl, msgLen);
      link.WriteReg(0x14, FromInt(msgLen, 32));
    }

    method WriteKeys(key: array<Byte>, nonce: array<Byte>)
      requires link.Free() && key.Length >= 16 && nonce.Length >= 16
      modifies link, link.regs, link.regs.shim, link.regs.eng, link.regs.eng.core, link.regs.eng.core.perm
      ensures link.Free()
      ensures Setup() == old(Setup()).(key := BytesBits(key[..16]), nonce := BytesBits(nonce[..16]))
    {
      hide SlinkMmio.Registers.State, SlinkMmio.Registers.Wired, BytesBits, SlinkMmio.SetWord, Link.Free;
      BytesBitsUnfold([]);
      var k := 0;
      while k < 4
        invariant 0 <= k <= 4 && link.Free() && |Setup().key| == 128 && |Setup().nonce| == 128
        invariant Setup() == old(Setup()).(key := Setup().key, nonce := Setup().nonce)
        invariant Setup().key[..32 * k] == BytesBits(key[..][..4 * k])
        invariant Setup().nonce[..32 * k] == BytesBits(nonce[..][..4 * k])
      {
        BankGrows(Setup().key, k, key[..]);
        BankGrows(Setup().nonce, k, nonce[..]);
        WriteWord(0x20, k, key);
        WriteWord(0x30, k, nonce);
        k := k + 1;
      }
      assert key[..][..16] == key[..16] && nonce[..][..16] == nonce[..16];
    }

    method WriteTag(tag: array<Byte>)
      requires link.Free() && tag.Length >= 16
      modifies link, link.regs, link.regs.shim, link.regs.eng, link.regs.eng.core, link.regs.eng.core.perm
      ensures link.Free() && Setup() == old(Setup()).(tagIn := BytesBits(tag[..16]))
    {
      hide SlinkMmio.Registers.State, SlinkMmio.Registers.Wired, BytesBits, SlinkMmio.SetWord, Link.Free;
      BytesBitsUnfold([]);
      var k := 0;
      while k < 4
        invariant 0 <= k <= 4 && link.Free() && |Setup().tagIn| == 128
        invariant Setup() == old(Setup()).(tagIn := Setup().tagIn)
        invariant Setup().tagIn[..32 * k] == BytesBits(tag[..][..4 * k])
      {
        BankGrows(Setup().tagIn, k, tag[..]);
        WriteWord(0x60, k, tag);
        k := k + 1;
      }
      assert tag[..][..16] == tag[..16];
    }

    // Polls STATUS until DONE or until the budget is spent, which takes no more
    // cycles than the peripheral needs.
    method WaitDone(ghost j: Job) returns (done: bool, status: Word32)
      requires link.Carries(j)
      modifies link, link.regs, link.regs.shim, link.regs.eng, link.regs.eng.core, link.regs.eng.core.perm
      ensures link.Carries(j) && link.tx == old(link.tx)
      ensures done ==> link.Dev().ctl.done && status == SlinkMmio.Read(link.Dev().ctl, 0x04)
      ensures !done ==> timeout <= link.m.stalls + JobEdges(link.regs.R, j)
    {
      hide SlinkMmio.Registers.State, SlinkMmio.Registers.Wired, SlinkMmio.Inv, SlinkMmio.Read, JobEdges;
      var guard := 0;
      StatusAt(link.regs.R, link.Dev(), link.m, link.ran);
      status := link.Pass(true, 0x04, j);
      while !status[1]
        invariant 0 <= guard <= timeout && link.Carries(j) && link.tx == old(link.tx)
        invariant status[1] ==> link.Dev().ctl.done && status == SlinkMmio.Read(link.Dev().ctl, 0x04)
        invariant !link.Dev().ctl.startPulse
        invariant !status[1] ==> link.m.edges >= guard + if link.Dev().ctl.busy then 1 else 0
        decreases timeout - guard
      {
        guard := guard + 1;
        if guard > timeout {
          SlinkMmio.AgeIsBounded(link.regs.R, link.Dev(), link.m, link.ran);
          return false, status;
        }
        StatusAt(link.regs.R, link.Dev(), link.m, link.ran);
        status := link.Pass(true, 0x04, j);
      }
      done := true;
    }

    // The tag registers into the caller's array.
    method ReadTag(tag: array<Byte>, ghost j: Job, ghost value: Bits)
      requires link.Carries(j) && link.Dev().ctl.done && !link.Dev().ctl.busy && tag.Length >= 16 && |value| == 128
      requires TagRegisters(link.Dev().ctl) == value
      modifies link, link.regs, link.regs.shim, link.regs.eng, link.regs.eng.core, link.regs.eng.core.perm, tag
      ensures link.Carries(j) && link.Dev().ctl == old(link.Dev()).ctl
      ensures BytesBits(tag[..16]) == value && tag[16..] == old(tag[16..])
    {
      hide SlinkMmio.Registers.State, Link.Carries, SlinkMmio.Read, BitsBytes, BytesBits;
      ghost var c := link.Dev().ctl;
      ghost var bytes := BitsBytes(value, 16);
      var i := 0;
      while i < 4
        invariant 0 <= i <= 4 && link.Carries(j) && link.Dev().ctl == c
        invariant forall k :: 0 <= k < tag.Length ==> tag[k] == if k < 4 * i then bytes[k] else old(tag[k])
      {
        TagByte(c, value, i, 0);
        TagByte(c, value, i, 1);
        TagByte(c, value, i, 2);
        TagByte(c, value, i, 3);
        var w := link.Pass(true, 0x60 + 4 * i, j);
        StoreWord(tag, 4 * i, 4, w);
        i := i + 1;
      }
      assert tag[..16] == bytes;
      BitStringsRoundTrip(value, 16);
    }

    // The result bytes off the receive queue.
    method TakeText(moved: bool, output: array<Byte>, len: nat, ghost j: Job, ghost r: Sealed)
      requires link.Carries(j) && !link.Dev().ctl.busy && Answered(link.Dev().ctl, link.rx, j, r)
      requires j.msgLen == len <= output.Length
      modifies link, link.regs, link.regs.shim, link.regs.eng, link.regs.eng.core, link.regs.eng.core.perm, output
      ensures link.Carries(j) && link.Dev().ctl == old(link.Dev()).ctl && link.rx == old(link.rx)
      ensures if moved then BytesBits(output[..len]) == r.text else output[..len] == old(output[..len])
      ensures output[len..] == old(output[len..])
    {
      hide SlinkMmio.Registers.State, Link.Carries, SlinkMmio.Read, Flat, BytesBits;
      link.Elapse(j);
      if moved {
        Unpack(link.rx, output, len);
      }
    }

    // The tag registers after an encryption, the verdict after a decryption.
    method TakeVerdict(decrypt: bool, tag: array<Byte>, status: Word32, ghost j: Job, ghost r: Sealed)
      returns (st: Status)
      requires link.Carries(j) && link.Dev().ctl.done && !link.Dev().ctl.busy && Answered(link.Dev().ctl, link.rx, j, r)
      requires status == SlinkMmio.Read(link.Dev().ctl, 0x04) && j.decrypt == decrypt && tag.Length >= 16
      modifies link, link.regs, link.regs.shim, link.regs.eng, link.regs.eng.core, link.regs.eng.core.perm, tag
      ensures link.Free()
      ensures !decrypt ==> st == Ok && BytesBits(tag[..16]) == r.tag && tag[16..] == old(tag[16..])
      ensures decrypt ==> st == (if r.tag == j.tag then Ok else TagInvalid) && tag[..] == old(tag[..])
    {
      hide SlinkMmio.Registers.State, SlinkMmio.Inv, SlinkMmio.Read, Flat, BytesBits;
      if !decrypt {
        ReadTag(tag, j, r.tag);
      } else if !status[2] {
        return TagInvalid;
      }
      if status[3] {
        return Hardware;
      }
      st := Ok;
    }

    // DONE means that the result of the queued words is there.
    ghost method Finished(j: Job, words: seq<Word32>)
      requires link.Carries(j) && link.Dev().ctl.done && link.tx == words && AxisEngine.JobFits(j) && Taken(j, words)
      ensures !link.Dev().ctl.busy && Answered(link.Dev().ctl, link.rx, j, Expected(j, words))
    {
      hide SlinkMmio.Registers.State, SlinkMmio.Registers.Wired, SlinkMmio.Inv, Answered, Expected, Taken, Follows;
      DoneMeans(link.regs.R, link.Dev(), link.m, link.ran, j, words, link.next, link.rx);
    }

    // From the finished job to the caller's arrays.
    method Collect(moved: bool, decrypt: bool, output: array?<Byte>, len: nat, tag: array<Byte>, status: Word32,
                   ghost j: Job, ghost r: Sealed) returns (st: Status)
      requires link.Carries(j) && link.Dev().ctl.done && !link.Dev().ctl.busy && Answered(link.Dev().ctl, link.rx, j, r)
      requires status == SlinkMmio.Read(link.Dev().ctl, 0x04) && j.decrypt == decrypt && j.msgLen == len
      requires tag.Length >= 16 && (output != null ==> len <= output.Length && (!decrypt ==> output != tag))
      modifies link, link.regs, link.regs.shim, link.regs.eng, link.regs.eng.core, link.regs.eng.core.perm, output, tag
      ensures st == Ok || st == Timeout || (decrypt && st == TagInvalid)
      ensures st == Timeout <==> !moved && len > 0 && output != null
      ensures st == Ok && !decrypt ==> BytesBits(tag[..16]) == r.tag && tag[16..] == old(tag[16..])
      ensures decrypt && st != Timeout ==> (st == Ok <==> r.tag == j.tag)
      ensures st != Timeout ==> link.Free() && (output != null ==> BytesBits(output[..len]) == r.text)
      ensures output != null && output != tag ==> output[len..] == old(output[len..])
      ensures decrypt && output != tag ==> tag[..] == old(tag[..])
      ensures st == Timeout ==> (output != null ==> output[..] == old(output[..])) && tag[..] == old(tag[..])
    {
      hide SlinkMmio.Registers.State, Link.Carries, Link.Free, SlinkMmio.Read, Answered, BytesBits;
      if len == 0 {
        NoText(link.Dev().ctl, link.rx, j, r);
        assert output != null ==> output[..0] == [];
      }
      if len > 0 && output != null {
        TakeText(moved, output, len, j, r);
        if !moved {
          assert output[..] == output[..len] + output[len..];
          assert old(output[..]) == old(output[..len]) + old(output[len..]);
          return Timeout;
        }
      }
      st := TakeVerdict(decrypt, tag, status, j, r);
    }

    // Packs the payload, fills the registers and starts the job.
    method Begin(decrypt: bool, key: array<Byte>, nonce: array<Byte>, tag: array<Byte>, ad: array?<Byte>, adLen: nat,
                 input: array?<Byte>, inputLen: nat) returns (queued: bool, ghost j: Job)
      requires link.Free() && key.Length >= 16 && nonce.Length >= 16 && tag.Length >= 16
      requires adLen > 0 ==> ad != null && adLen <= ad.Length
      requires inputLen > 0 ==> input != null && inputLen <= input.Length
      requires adLen <= 32 && inputLen <= 32
      modifies link, link.regs, link.regs.shim, link.regs.eng, link.regs.eng.core, link.regs.eng.core.perm
      ensures link.Carries(j) && AxisEngine.JobFits(j)
      ensures link.tx == PaddedWords(CReference.Argument(ad, adLen)) + PaddedWords(CReference.Argument(input, inputLen))
      ensures j.decrypt == decrypt && j.key == BytesBits(key[..16]) && j.nonce == BytesBits(nonce[..16])
      ensures j.adLen == adLen && j.msgLen == inputLen && (decrypt ==> j.tag == BytesBits(tag[..16]))
    {
      hide SlinkMmio.Registers.State, SlinkMmio.Registers.Wired, SlinkMmio.Inv, BytesBits, PaddedWords, Link.Carries,
           Link.Free;
      var tx := new Word32[16];
      var n := Pack(tx, 0, ad, adLen);
      n := Pack(tx, n, input, inputLen);
      Configure(key, nonce, tag, adLen, inputLen, decrypt);
      j := SlinkMmio.JobOf(link.Dev().ctl).(decrypt := decrypt);
      link.Start(decrypt, tx[..n]);
      queued := n > 0;
    }

    // Waits for the DMA engine and then for the peripheral.
    method Await(queued: bool, moved: bool, ghost j: Job) returns (done: bool, status: Word32)
      requires link.Carries(j)
      modifies link, link.regs, link.regs.shim, link.regs.eng, link.regs.eng.core, link.regs.eng.core.perm
      ensures link.Carries(j) && link.tx == old(link.tx)
      ensures done ==> link.Dev().ctl.done && status == SlinkMmio.Read(link.Dev().ctl, 0x04)
      ensures !done && (moved || !queued) ==> timeout <= link.m.stalls + JobEdges(link.regs.R, j)
    {
      hide SlinkMmio.Registers.State, Link.Carries, SlinkMmio.Read, JobEdges;
      if queued {
        link.Elapse(j);
        if !moved {
          return false, Zeros(32);
        }
      }
      done, status := WaitDone(j);
    }

    // One request: the result is collected before the verdict is looked at. The
    // DMA engine is taken to move its words in time or not, in either direction.
    method Run(available: bool, sent: bool, received: bool, decrypt: bool, key: array<Byte>, nonce: array<Byte>,
               ad: array?<Byte>, adLen: nat, input: array?<Byte>, inputLen: nat, output: array?<Byte>,
               tag: array<Byte>) returns (st: Status)
      requires link.Free() && key.Length >= 16 && nonce.Length >= 16 && tag.Length >= 16
      requires adLen > 0 ==> ad != null && adLen <= ad.Length
      requires inputLen > 0 ==> input != null && inputLen <= input.Length
      requires output != null ==> inputLen <= output.Length && (!decrypt ==> output != tag)
      modifies link, link.regs, link.regs.shim, link.regs.eng, link.regs.eng.core, link.regs.eng.core.perm, output, tag
      ensures st == BadArgument <==> adLen > 32 || inputLen > 32
      ensures st == Unsupported <==> st != BadArgument && !available
      ensures st != Hardware && (st == TagInvalid ==> decrypt) && (st != Timeout ==> link.Free())
      ensures st == Timeout && sent && received ==>
                timeout <= link.m.stalls + JobEdges(link.regs.R, Job(decrypt, [], [], adLen, inputLen, []))
      ensures st == Ok && !decrypt ==>
                var e := Encrypt(NIST_AEAD128, BytesBits(old(key[..16])), BytesBits(old(nonce[..16])),
                                 BytesBits(old(CReference.Argument(ad, adLen))),
                                 BytesBits(old(CReference.Argument(input, inputLen))));
                && BytesBits(tag[..16]) == e.tag && tag[16..] == old(tag[16..])
                && (output != null ==> BytesBits(output[..inputLen]) == e.text)
      ensures decrypt && (st == Ok || st == TagInvalid) ==>
                var d := Decrypt(NIST_AEAD128, BytesBits(old(key[..16])), BytesBits(old(nonce[..16])),
                                 BytesBits(old(CReference.Argument(ad, adLen))),
                                 BytesBits(old(CReference.Argument(input, inputLen))), BytesBits(old(tag[..16])));
                && (st == Ok <==> d.valid)
                && (output != null ==> BytesBits(output[..inputLen]) == d.plain)
      ensures output != null && output != tag ==> output[inputLen..] == old(output[inputLen..])
      ensures decrypt && output != tag ==> tag[..] == old(tag[..])
      ensures st != Ok && st != TagInvalid ==>
                (output != null ==> output[..] == old(output[..])) && tag[..] == old(tag[..])
    {
      hide SlinkMmio.Registers.State, SlinkMmio.Read, Expected, BytesBits, PaddedWords, Crypto, Link.Carries, Link.Free,
           Answered, Taken, JobEdges;
      if adLen > 32 || inputLen > 32 {
        return BadArgument;
      }
      if !available {
        return Unsupported;
      }
      ghost var a, t := CReference.Argument(ad, adLen), CReference.Argument(input, inputLen);
      var queued;
      ghost var j: Job;
      queued, j := Begin(decrypt, key, nonce, tag, ad, adLen, input, inputLen);
      ghost var words := link.tx;
      var done, status := Await(queued, sent, j);
      SameEdges(link.regs.R, j, Job(decrypt, [], [], adLen, inputLen, []));
      if !done {
        return Timeout;
      }
      PayloadTexts(j, a, t);
      Finished(j, words);
      st := Collect(received, decrypt, output, inputLen, tag, status, j, Expected(j, words));
    }
  }

  lemma SameEdges(R: nat, j: Job, k: Job)
    requires 0 < R <= 12 && j.adLen == k.adLen && j.msgLen == k.msgLen
    ensures JobEdges(R, j) == JobEdges(R, k)
  {
  }

  lemma StatusAt(R: nat, r: SlinkMmio.Peripheral, m: Seen, ran: bool)
    requires SlinkMmio.Inv(R, r, m, ran)
    ensures SlinkMmio.Read(r.ctl, 0x04)[1] == r.ctl.done && (r.ctl.done ==> !r.ctl.busy)
  {
    hide SlinkPlane.Inv;
  }

  lemma TagByte(c: SlinkMmio.Ctl, value: Bits, i: nat, k: nat)
    requires SlinkMmio.SetupSized(c.setup) && i < 4 && k < 4 && |value| == 128
    requires TagRegisters(c) == value
    ensures BitsBytes(value, 16)[4 * i + k] == BitsBytes(SlinkMmio.Read(c, 0x60 + 4 * i), 4)[k]
  {
    hide SlinkMmio.Read, BitsBytes;
    var w: seq<Word32> := [SlinkMmio.Read(c, 0x60), SlinkMmio.Read(c, 0x64), SlinkMmio.Read(c, 0x68),
                           SlinkMmio.Read(c, 0x6C)];
    FlatOfFour(w);
    FlatByte(w, i, k);
  }

  lemma FlatOfFour(w: seq<Word32>)
    requires |w| == 4
    ensures var v: seq<Bits> := w; Flat(w) == v[0] + v[1] + v[2] + v[3]
  {
    hide Flat;
    Empty();
    assert w[..0] == [];
    for k := 0 to 4
      invariant forall i :: 0 <= i < k ==> Flat(w[..i + 1]) == Flat(w[..i]) + w[i]
    {
      assert w[..k + 1] == w[..k] + [w[k]];
      FlatSnoc(w[..k], w[k]);
    }
    assert w[..4] == w;
  }

  lemma ClearKeepsSetup(c: SlinkMmio.Ctl)
    requires SlinkMmio.SetupSized(c.setup)
    ensures SlinkMmio.BusWrite(c, 0x00, Zeros(8) + [true] + Zeros(23)).setup == c.setup
  {
  }
}
