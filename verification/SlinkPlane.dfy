// Shim and engine wired together, watched by a monitor that records the words
// taken, the beats sent and the edges on which the environment made them wait.
module SlinkPlane {
  import opened BitVectors
  import opened Counters
  import opened Wires
  import opened Aead
  import opened StreamBeat
  import opened AxisEngine
  import AeadCore
  import SlinkShim

  datatype Plane = Plane(shim: SlinkShim.Regs, eng: AxisEngine.Regs)

  // One edge: a start pulse with its job, a word offered or not, a sink that
  // takes a beat or not.
  datatype Edge = Edge(start: bool, job: Job, dat: Word32, val: bool, mReady: bool)

  function ShimInputs(p: Plane, i: Edge): SlinkShim.Inputs
  {
    SlinkShim.Inputs(i.start, i.job.adLen, i.job.msgLen, i.dat, i.val, ReadyOut(p.eng))
  }

  function EngineInputs(p: Plane, i: Edge): AxisEngine.Inputs
  {
    AxisEngine.Inputs(i.start, i.job, SlinkShim.Drive(p.shim, ShimInputs(p, i)), i.mReady)
  }

  function Next(R: nat, p: Plane, i: Edge): (p': Plane)
    requires 0 < R <= 12 && Sized(p.eng) && AxisEngine.JobFits(i.job)
    ensures Sized(p'.eng)
  {
    Plane(SlinkShim.Next(p.shim, ShimInputs(p, i)), AxisEngine.Next(R, p.eng, EngineInputs(p, i)))
  }

  // ---------------------------------------------------------------- monitor

  datatype Seen = Seen(job: Job, words: seq<Word32>, beats: seq<Beat>, edges: nat, stalls: nat)

  function TakesWord(p: Plane, i: Edge): bool
  {
    i.val && SlinkShim.WordReady(p.shim, ShimInputs(p, i))
  }

  function SendsBeat(p: Plane, i: Edge): bool
  {
    p.eng.st.Tx? && i.mReady
  }

  // The environment withholds a word or refuses a beat.
  function Stalled(p: Plane, i: Edge): bool
  {
    ((p.shim.st.Ad? || p.shim.st.Msg?) && !i.val) || (p.eng.st.Tx? && !i.mReady)
  }

  function Watch(p: Plane, m: Seen, i: Edge): Seen
    requires Sized(p.eng)
  {
    if p.eng.st.Idle? then if i.start then Seen(i.job, [], [], 1, 0) else m
    else Seen(m.job,
              if TakesWord(p, i) then m.words + [i.dat] else m.words,
              if SendsBeat(p, i) then m.beats + [Sent(p.eng)] else m.beats,
              m.edges + 1,
              if Stalled(p, i) then m.stalls + 1 else m.stalls)
  }

  // ------------------------------------------------------------ what it means

  // Words that carry n bytes.
  function WordsFor(n: nat): nat
  {
    (n + 3) / 4
  }

  function Flat(words: seq<Word32>): (r: Bits)
    ensures |r| == 32 * |words|
  {
    if |words| == 0 then [] else Flat(words[..|words| - 1]) + words[|words| - 1]
  }

  // The bytes that the beats carry, surplus bytes dropped.
  function Payload(beats: seq<Beat>): Bits
    requires forall b :: b in beats ==> |b.data| == 32 && |b.keep| == 4
  {
    if |beats| == 0 then []
    else
      var b := beats[|beats| - 1];
      Payload(beats[..|beats| - 1]) + b.data[..8 * Kept(b.keep)]
  }

  predicate WellFormed(beats: seq<Beat>)
  {
    forall b :: b in beats ==> |b.data| == 32 && |b.keep| == 4
  }

  // All associated data, then all message bytes, each padded to whole words.
  predicate Taken(j: Job, words: seq<Word32>)
  {
    |words| == WordsFor(j.adLen) + WordsFor(j.msgLen)
  }

  function AdText(j: Job, words: seq<Word32>): (r: Bits)
    requires |words| >= WordsFor(j.adLen)
    ensures |r| == 8 * j.adLen
  {
    Flat(words[..WordsFor(j.adLen)])[..8 * j.adLen]
  }

  function MsgText(j: Job, words: seq<Word32>): (r: Bits)
    requires Taken(j, words)
    ensures |r| == 8 * j.msgLen
  {
    Flat(words[WordsFor(j.adLen)..])[..8 * j.msgLen]
  }

  // The functional model on the bytes taken.
  function Expected(j: Job, words: seq<Word32>): (r: Sealed)
    requires Taken(j, words) && AxisEngine.JobFits(j)
    ensures |r.text| == 8 * j.msgLen && |r.tag| == 128
  {
    hide Crypto;
    ConfigsValid();
    Crypto(NIST_AEAD128, j.decrypt, j.key, j.nonce, AdText(j, words), MsgText(j, words))
  }

  // ------------------------------------------------------------ edge counts

  // Edges of the receiving phase when nothing stalls: an empty message costs
  // the synthesised beat.
  function RxEdges(j: Job): nat
  {
    WordsFor(j.adLen) + WordsFor(j.msgLen) + if j.msgLen == 0 then 1 else 0
  }

  function CoreEdges(R: nat, j: Job): nat
    requires 0 < R <= 12
  {
    AeadCore.CoreCycles(CoreParams(R), j.adLen, j.msgLen)
  }

  // Start to done when nothing stalls.
  function JobEdges(R: nat, j: Job): nat
    requires 0 < R <= 12
  {
    RxEdges(j) + CoreEdges(R, j) + 4 + WordsFor(j.msgLen)
  }

  // ------------------------------------------------------------ invariant

  // A 256-bit buffer that starts with b and is zero after it.
  function Fill(b: Bits): (r: Bits)
    ensures |r| == 256
  {
    seq(256, k requires 0 <= k < 256 => k < |b| && b[k])
  }

  ghost predicate JobSmall(j: Job)
  {
    AxisEngine.JobFits(j) && j.adLen <= 32 && j.msgLen <= 32
  }

  // Receiving: the shim's phase and counter mirror the words taken, and the
  // buffers hold their bytes.
  ghost predicate Receiving(p: Plane, m: Seen)
  {
    var s, e, na := p.shim, p.eng, WordsFor(m.job.adLen);
    && s.adLen == m.job.adLen && s.msgLen == m.job.msgLen
    && m.beats == [] && m.edges == 1 + |m.words| + m.stalls
    && (s.st.Ad? ==>
          && s.cnt == 4 * |m.words| < m.job.adLen && e.adPos == s.cnt && e.msgPos == 0
          && e.adbuf == Fill(Flat(m.words)) && e.msgbuf == Zeros(256))
    && (s.st.Msg? ==>
          && |m.words| >= na && s.cnt == 4 * (|m.words| - na) < m.job.msgLen && e.msgPos == s.cnt
          && e.adbuf == Fill(AdText(m.job, m.words)) && e.msgbuf == Fill(Flat(m.words[na..])))
    && (s.st.Null? ==>
          && |m.words| == na && m.job.msgLen == 0
          && e.adbuf == Fill(AdText(m.job, m.words)) && e.msgbuf == Zeros(256))
  }

  ghost predicate Loaded(p: Plane, m: Seen)
  {
    Taken(m.job, m.words) && p.eng.adbuf == Fill(AdText(m.job, m.words))
      && p.eng.msgbuf == Fill(MsgText(m.job, m.words))
  }

  function HeldOf(e: AxisEngine.Regs): AeadCore.Held
  {
    CoreInputs(e).held
  }

  // The core is at work on the loaded job.
  ghost predicate CoreBusy(R: nat, c: AeadCore.Regs, h: AeadCore.Held, m: Seen)
    requires 0 < R <= 12 && AeadCore.HeldFits(CoreParams(R), h) && Taken(m.job, m.words) && AxisEngine.JobFits(m.job)
  {
    var q := CoreParams(R);
    && AeadCore.Busy(q, c) && !c.doneO && c.msglen == m.job.msgLen && c.dec == m.job.decrypt
    && AeadCore.Outcome(q, c, h) == Expected(m.job, m.words)
    && m.edges + AeadCore.Left(q, c, h) == m.stalls + 2 + RxEdges(m.job) + CoreEdges(R, m.job)
  }

  ghost predicate CoreDone(R: nat, c: AeadCore.Regs, m: Seen)
    requires 0 < R <= 12 && Taken(m.job, m.words) && JobSmall(m.job)
  {
    && AeadCore.Delivered(CoreParams(R), c, m.job.msgLen, m.job.decrypt, m.job.tag, Expected(m.job, m.words))
    && m.edges == m.stalls + 2 + RxEdges(m.job) + CoreEdges(R, m.job)
  }

  // Tag and flag as the engine shows them.
  ghost predicate Result(e: AxisEngine.Regs, m: Seen)
    requires Taken(m.job, m.words) && AxisEngine.JobFits(m.job)
  {
    && e.tagO == Expected(m.job, m.words).tag
    && e.validO == if m.job.decrypt then Expected(m.job, m.words).tag == m.job.tag else true
  }

  // Beat k of a result of len bytes marks the bytes that are left, at most four.
  ghost predicate Masked(beats: seq<Beat>, len: nat)
  {
    forall k :: 0 <= k < |beats| ==> 4 * k < len && beats[k].keep == KeepMask(len - 4 * k)
  }

  // Every byte has been sent, in order, in exactly the words it needs, and only
  // the last beat is marked last.
  ghost predicate AllSent(m: Seen)
    requires Taken(m.job, m.words) && AxisEngine.JobFits(m.job)
  {
    && WellFormed(m.beats) && Payload(m.beats) == Expected(m.job, m.words).text
    && |m.beats| == WordsFor(m.job.msgLen) && Masked(m.beats, m.job.msgLen)
    && forall k :: 0 <= k < |m.beats| ==> m.beats[k].last == (k == |m.beats| - 1)
  }

  ghost predicate SendingSofar(R: nat, e: AxisEngine.Regs, m: Seen)
    requires 0 < R <= 12 && Taken(m.job, m.words) && AxisEngine.JobFits(m.job)
  {
    && e.txPos == 4 * |m.beats| < m.job.msgLen
    && |e.outbuf| == 256 && m.job.msgLen <= 32 && e.outbuf[..8 * m.job.msgLen] == Expected(m.job, m.words).text
    && WellFormed(m.beats) && Payload(m.beats) == Expected(m.job, m.words).text[..8 * e.txPos]
    && (forall k :: 0 <= k < |m.beats| ==> !m.beats[k].last) && Masked(m.beats, m.job.msgLen)
    && m.edges == m.stalls + 3 + RxEdges(m.job) + CoreEdges(R, m.job) + |m.beats|
  }

  // A finished job as the monitor has it.
  ghost predicate Complete(R: nat, e: AxisEngine.Regs, m: Seen)
    requires 0 < R <= 12
  {
    && JobSmall(m.job) && Taken(m.job, m.words) && Result(e, m) && AllSent(m)
    && m.edges == m.stalls + JobEdges(R, m.job)
  }

  // What every reachable state satisfies; `ran` says that a job has been started.
  ghost predicate Inv(R: nat, p: Plane, m: Seen, ran: bool)
    ensures Inv(R, p, m, ran) ==> 0 < R <= 12 && Sized(p.eng)
  {
    && 0 < R <= 12 && Sized(p.eng)
    && (p.eng.st.Rx? <==> !p.shim.st.Idle?)
    && (!p.eng.st.Idle? ==> ran && JobSmall(m.job) && p.eng.job == m.job)
    && (p.eng.coreStart ==> p.eng.st.Busy?)
    && (p.eng.st.Busy? || p.eng.st.Wait? || AeadCore.Resting(CoreParams(R), p.eng.core))
    && (p.eng.doneO ==> p.eng.st.Idle? && ran)
    && match p.eng.st
       case Idle => ran ==> Complete(R, p.eng, m)
       case Rx => Receiving(p, m)
       case Start => Loaded(p, m) && m.beats == [] && m.edges == m.stalls + 1 + RxEdges(m.job)
       case Busy =>
         && Loaded(p, m) && m.beats == []
         && if p.eng.coreStart
            then AeadCore.Resting(CoreParams(R), p.eng.core) && m.edges == m.stalls + 2 + RxEdges(m.job)
            else CoreBusy(R, p.eng.core, HeldOf(p.eng), m)
       case Wait =>
         && Loaded(p, m) && m.beats == []
         && (CoreBusy(R, p.eng.core, HeldOf(p.eng), m) || CoreDone(R, p.eng.core, m))
       case Tx => Taken(m.job, m.words) && Result(p.eng, m) && SendingSofar(R, p.eng, m)
       case Done =>
         && Taken(m.job, m.words) && Result(p.eng, m) && AllSent(m)
         && m.edges + 1 == m.stalls + JobEdges(R, m.job)
  }

  // ------------------------------------------------------------ receiving

  lemma StoreOne(b: Bits, v: Bits)
    requires |v| == 8 && |b| + 8 <= 256
    ensures Write(Fill(b), |b|, v) == Fill(b + v)
  {
  }

  lemma StoreKept(b: Bits, pos: nat, beat: Beat, n: nat)
    requires |b| == 8 * pos && n <= 4 && pos + n <= 32
    requires |beat.data| == 32 && beat.keep == KeepMask(n)
    ensures Store(Fill(b), pos, beat) == Fill(b + beat.data[..8 * n])
    ensures Kept(beat.keep) == n
  {
    hide Write, Fill;
    var d := beat.data;
    assert b + d[..0] == b;
    if n > 0 {
      StoreOne(b, d[0..8]);
      assert b + d[0..8] == b + d[..8];
    }
    if n > 1 {
      StoreOne(b + d[..8], d[8..16]);
      assert b + d[..8] + d[8..16] == b + d[..16];
    }
    if n > 2 {
      StoreOne(b + d[..16], d[16..24]);
      assert b + d[..16] + d[16..24] == b + d[..24];
    }
    if n > 3 {
      StoreOne(b + d[..24], d[24..32]);
      assert b + d[..24] + d[24..32] == b + d[..32];
    }
  }

  lemma FlatSnoc(words: seq<Word32>, w: Word32)
    ensures Flat(words + [w]) == Flat(words) + w
  {
    assert (words + [w])[..|words|] == words;
  }

  lemma PrefixExtended(f: Bits, w: Bits, n: nat)
    requires n <= |w|
    ensures f + w[..n] == (f + w)[..|f| + n]
  {
  }

  lemma WordsForStep(k: nat, len: nat)
    requires 4 * k < len
    ensures len - 4 * k <= 4 ==> k + 1 == WordsFor(len)
    ensures len - 4 * k > 4 ==> k + 1 < WordsFor(len)
  {
  }

  // A word of a run of len bytes, taken when 4 * |words| of them are there.
  lemma WordTaken(words: seq<Word32>, w: Word32, len: nat)
    requires 4 * |words| < len <= 32
    ensures var rem := len - 4 * |words|;
            && (rem <= 4 ==> |words| + 1 == WordsFor(len) && Flat(words) + w[..8 * rem] == Flat(words + [w])[..8 * len])
            && (rem > 4 ==> |words| + 1 < WordsFor(len) && Flat(words) + w[..32] == Flat(words + [w]))
  {
    hide WordsFor, Flat;
    FlatSnoc(words, w);
    WordsForStep(|words|, len);
    if len - 4 * |words| <= 4 {
      PrefixExtended(Flat(words), w, 8 * (len - 4 * |words|));
    } else {
      assert w[..32] == w;
    }
  }

  lemma NothingYet()
    ensures Fill([]) == Zeros(256) && Flat([]) == []
  {
  }

  ghost predicate Environment(p: Plane, i: Edge)
    ensures Environment(p, i) ==> AxisEngine.JobFits(i.job)
  {
    AxisEngine.JobFits(i.job) && (i.start ==> p.eng.st.Idle? && JobSmall(i.job))
  }

  ghost predicate Kept'(R: nat, p: Plane, m: Seen, i: Edge)
    requires 0 < R <= 12 && Sized(p.eng) && AxisEngine.JobFits(i.job)
  {
    Inv(R, Next(R, p, i), Watch(p, m, i), true)
  }

  lemma CoreInputsFit(R: nat, e: AxisEngine.Regs)
    requires 0 < R <= 12 && Sized(e)
    ensures AeadCore.InputsFit(CoreParams(R), CoreInputs(e))
  {
  }

  lemma CoreRests(R: nat, e: AxisEngine.Regs, i: AxisEngine.Inputs)
    requires 0 < R <= 12 && Sized(e) && AxisEngine.InputsFit(i) && AeadCore.Resting(CoreParams(R), e.core)
             && !e.coreStart
    ensures AxisEngine.Next(R, e, i) == AxisEngine.Control(e, i)
  {
    hide AeadCore.Next, AeadCore.Resting, AxisEngine.Control, CoreParams, Sized;
    CoreInputsFit(R, e);
    AeadCore.RestStep(CoreParams(R), e.core, CoreInputs(e));
  }

  lemma RxAdShim(R: nat, p: Plane, m: Seen, i: Edge)
    requires Inv(R, p, m, true) && Environment(p, i) && p.shim.st.Ad? && i.val
    ensures var rem := m.job.adLen - p.shim.cnt;
            var n := if rem <= 4 then rem else 4;
            && rem > 0
            && SlinkShim.Drive(p.shim, ShimInputs(p, i)) == Beat(i.dat, KeepMask(n), false, false, true)
            && SlinkShim.Next(p.shim, ShimInputs(p, i))
               == (if rem <= 4 then p.shim.(cnt := 0, st := if m.job.msgLen != 0 then SlinkShim.Msg else SlinkShim.Null)
                   else p.shim.(cnt := p.shim.cnt + 4))
            && Watch(p, m, i) == m.(words := m.words + [i.dat], edges := m.edges + 1)
  {
    hide AeadCore.Next, AeadCore.Resting, Fill, Flat, Zeros, CoreParams;
    RemIsRest(m.job.adLen, p.shim.cnt);
  }

  lemma RxMsgShim(R: nat, p: Plane, m: Seen, i: Edge)
    requires Inv(R, p, m, true) && Environment(p, i) && p.shim.st.Msg? && i.val
    ensures var rem := m.job.msgLen - p.shim.cnt;
            var n := if rem <= 4 then rem else 4;
            && rem > 0
            && SlinkShim.Drive(p.shim, ShimInputs(p, i)) == Beat(i.dat, KeepMask(n), true, rem <= 4, true)
            && SlinkShim.Next(p.shim, ShimInputs(p, i))
               == (if rem <= 4 then p.shim.(st := SlinkShim.Idle) else p.shim.(cnt := p.shim.cnt + 4))
            && Watch(p, m, i) == m.(words := m.words + [i.dat], edges := m.edges + 1)
  {
    hide AeadCore.Next, AeadCore.Resting, Fill, Flat, Zeros, CoreParams;
    RemIsRest(m.job.msgLen, p.shim.cnt);
  }

  lemma RxAdStep(R: nat, p: Plane, m: Seen, i: Edge)
    requires Inv(R, p, m, true) && Environment(p, i) && p.shim.st.Ad? && i.val
    ensures Kept'(R, p, m, i)
  {
    hide AeadCore.Resting, AxisEngine.Next, Store, Fill, Flat, Zeros, Crypto, CoreParams, SlinkShim.Next,
         SlinkShim.Drive, Watch, WordsFor;
    RxAdShim(R, p, m, i);
    CoreRests(R, p.eng, EngineInputs(p, i));
    var rem := m.job.adLen - p.shim.cnt;
    StoreKept(Flat(m.words), p.shim.cnt, SlinkShim.Drive(p.shim, ShimInputs(p, i)), if rem <= 4 then rem else 4);
    WordTaken(m.words, i.dat, m.job.adLen);
    NothingYet();
    var words := m.words + [i.dat];
    assert words[..|words|] == words && words[|words|..] == [];
  }

  lemma RxMsgStep(R: nat, p: Plane, m: Seen, i: Edge)
    requires Inv(R, p, m, true) && Environment(p, i) && p.shim.st.Msg? && i.val
    ensures Kept'(R, p, m, i)
  {
    hide AeadCore.Resting, AxisEngine.Next, Store, Fill, Flat, Zeros, Crypto, CoreParams, SlinkShim.Next,
         SlinkShim.Drive, Watch, WordsFor;
    RxMsgShim(R, p, m, i);
    CoreRests(R, p.eng, EngineInputs(p, i));
    var rem := m.job.msgLen - p.shim.cnt;
    var na := WordsFor(m.job.adLen);
    StoreKept(Flat(m.words[na..]), p.shim.cnt, SlinkShim.Drive(p.shim, ShimInputs(p, i)), if rem <= 4 then rem else 4);
    WordTaken(m.words[na..], i.dat, m.job.msgLen);
    var words := m.words + [i.dat];
    assert words[..na] == m.words[..na] && words[na..] == m.words[na..] + [i.dat];
  }

  // No word offered, or the synthesised beat of an empty message.
  lemma RxOtherStep(R: nat, p: Plane, m: Seen, i: Edge)
    requires Inv(R, p, m, true) && Environment(p, i) && p.eng.st.Rx? && (p.shim.st.Null? || !i.val)
    ensures Kept'(R, p, m, i)
  {
    hide AeadCore.Resting, AxisEngine.Next, Fill, Flat, Crypto, CoreParams;
    CoreRests(R, p.eng, EngineInputs(p, i));
    NothingYet();
    assert m.words[|m.words|..] == [];
  }

  // ------------------------------------------------------------ the core runs

  lemma IdleStep(R: nat, p: Plane, m: Seen, i: Edge, ran: bool)
    requires Inv(R, p, m, ran) && Environment(p, i) && p.eng.st.Idle?
    ensures Inv(R, Next(R, p, i), Watch(p, m, i), ran || i.start)
  {
    hide AeadCore.Resting, AxisEngine.Next, Fill, Flat, Crypto, CoreParams;
    CoreRests(R, p.eng, EngineInputs(p, i));
    NothingYet();
  }

  lemma StartStep(R: nat, p: Plane, m: Seen, i: Edge)
    requires Inv(R, p, m, true) && Environment(p, i) && p.eng.st.Start?
    ensures Kept'(R, p, m, i)
  {
    hide AeadCore.Resting, AxisEngine.Next, Fill, Flat, Crypto, CoreParams;
    CoreRests(R, p.eng, EngineInputs(p, i));
  }

  // The buffers say what the monitor says.
  lemma LoadedExpects(R: nat, p: Plane, m: Seen)
    requires 0 < R <= 12 && Sized(p.eng) && JobSmall(m.job) && p.eng.job == m.job && Loaded(p, m)
    ensures AeadCore.JobFits(CoreParams(R), CoreInputs(p.eng))
    ensures AeadCore.Expected(CoreParams(R), CoreInputs(p.eng)) == Expected(m.job, m.words)
  {
    hide Crypto, AdText, MsgText, Fill, WordsFor;
    FillPrefix(AdText(m.job, m.words));
    FillPrefix(MsgText(m.job, m.words));
  }

  lemma FillPrefix(b: Bits)
    requires |b| <= 256
    ensures Fill(b)[..|b|] == b
  {
  }

  // The core accepts the start pulse.
  lemma AcceptStep(R: nat, p: Plane, m: Seen, i: Edge)
    requires Inv(R, p, m, true) && Environment(p, i) && p.eng.st.Busy? && p.eng.coreStart
    ensures Kept'(R, p, m, i)
  {
    hide AeadCore.Next, AeadCore.Busy, AeadCore.Outcome, AeadCore.Left, AeadCore.CoreCycles, AeadCore.Expected, Fill,
         Flat, Crypto, CoreParams, Expected, AdText, MsgText;
    LoadedExpects(R, p, m);
    AeadCore.Begin(CoreParams(R), p.eng.core, CoreInputs(p.eng));
  }

  // What one edge does to a core at work.
  lemma CoreWorks(R: nat, c: AeadCore.Regs, i: AeadCore.Inputs, m: Seen)
    requires 0 < R <= 12 && AeadCore.InputsFit(CoreParams(R), i) && Taken(m.job, m.words) && JobSmall(m.job)
    requires CoreBusy(R, c, i.held, m) && i.held.tag == m.job.tag
    ensures !c.st.Idle? && !c.doneO
    ensures var c', m' := AeadCore.Next(CoreParams(R), c, i), m.(edges := m.edges + 1);
            CoreBusy(R, c', i.held, m') || CoreDone(R, c', m')
  {
    hide AeadCore.Next, AeadCore.Outcome, AeadCore.Left, AeadCore.CoreCycles, AeadCore.Delivered, Crypto, CoreParams,
         Expected;
    AeadCore.BusyStep(CoreParams(R), c, i);
  }

  lemma WorkingStep(R: nat, p: Plane, m: Seen, i: Edge)
    requires Inv(R, p, m, true) && Environment(p, i) && (p.eng.st.Busy? || p.eng.st.Wait?) && !p.eng.coreStart
    requires CoreBusy(R, p.eng.core, HeldOf(p.eng), m)
    ensures Kept'(R, p, m, i)
  {
    hide AeadCore.Next, AeadCore.Busy, AeadCore.Outcome, AeadCore.Left, AeadCore.CoreCycles, AeadCore.Delivered,
         AeadCore.Resting, Fill, Flat, Crypto, CoreParams, Expected, AdText, MsgText;
    CoreWorks(R, p.eng.core, CoreInputs(p.eng), m);
  }

  lemma FinishStep(R: nat, p: Plane, m: Seen, i: Edge)
    requires Inv(R, p, m, true) && Environment(p, i) && p.eng.st.Wait? && CoreDone(R, p.eng.core, m)
    ensures Kept'(R, p, m, i)
  {
    hide AxisEngine.Next, AeadCore.CoreCycles, Fill, Flat, Crypto, CoreParams, Expected, AdText, MsgText;
    CoreRests(R, p.eng, EngineInputs(p, i));
    assert p.eng.core.outR[..256][..8 * m.job.msgLen] == p.eng.core.outR[..8 * m.job.msgLen];
  }

  lemma {:induction false} PayloadSnoc(beats: seq<Beat>, b: Beat)
    requires WellFormed(beats) && |b.data| == 32 && |b.keep| == 4
    ensures WellFormed(beats + [b]) && Payload(beats + [b]) == Payload(beats) + b.data[..8 * Kept(b.keep)]
  {
    assert (beats + [b])[..|beats|] == beats;
  }

  lemma SentBytes(e: AxisEngine.Regs, len: nat)
    requires Sized(e) && e.st.Tx? && len == e.job.msgLen <= 32 && e.txPos < len && e.txPos % 4 == 0
    ensures var rem := len - e.txPos;
            var n := if rem <= 4 then rem else 4;
            var b := Sent(e);
            && Kept(b.keep) == n && b.keep == KeepMask(rem) && b.last == (rem <= 4)
            && b.data[..8 * n] == e.outbuf[8 * e.txPos..8 * (e.txPos + n)]
  {
    RemIsRest(len, e.txPos);
  }

  lemma BeatAppended(e: AxisEngine.Regs, beats: seq<Beat>, text: Bits)
    requires Sized(e) && e.st.Tx? && e.txPos == 4 * |beats| < e.job.msgLen <= 32
    requires |text| == 8 * e.job.msgLen && e.outbuf[..8 * e.job.msgLen] == text
    requires WellFormed(beats) && Masked(beats, e.job.msgLen) && Payload(beats) == text[..8 * e.txPos]
    requires forall k :: 0 <= k < |beats| ==> !beats[k].last
    ensures var rem := e.job.msgLen - e.txPos;
            var n := if rem <= 4 then rem else 4;
            var bs := beats + [Sent(e)];
            && WellFormed(bs) && Masked(bs, e.job.msgLen) && Payload(bs) == text[..8 * (e.txPos + n)]
            && forall k :: 0 <= k < |bs| ==> bs[k].last == (k == |bs| - 1 && rem <= 4)
  {
    hide Sent, Payload;
    var at := e.txPos;
    var n := if e.job.msgLen - at <= 4 then e.job.msgLen - at else 4;
    SentBytes(e, e.job.msgLen);
    PayloadSnoc(beats, Sent(e));
    assert text[..8 * at] + e.outbuf[8 * at..8 * (at + n)] == text[..8 * (at + n)];
  }

  // The sink refuses the beat.
  lemma TxWaits(R: nat, p: Plane, m: Seen, i: Edge)
    requires Inv(R, p, m, true) && Environment(p, i) && p.eng.st.Tx? && !i.mReady
    ensures Kept'(R, p, m, i)
  {
    hide AxisEngine.Next, AeadCore.CoreCycles, AeadCore.Resting, Flat, Crypto, CoreParams, Expected, Sent, Taken,
         Payload, WellFormed, WordsFor, Rem;
    CoreRests(R, p.eng, EngineInputs(p, i));
  }

  lemma TxSends(R: nat, p: Plane, m: Seen, i: Edge)
    requires Inv(R, p, m, true) && Environment(p, i) && p.eng.st.Tx? && i.mReady
    ensures Kept'(R, p, m, i)
  {
    hide AxisEngine.Next, AeadCore.CoreCycles, AeadCore.Resting, Flat, Crypto, CoreParams, Expected, Sent, Taken,
         Payload, WellFormed, WordsFor, Rem, Masked;
    CoreRests(R, p.eng, EngineInputs(p, i));
    RemIsRest(m.job.msgLen, p.eng.txPos);
    WordsForStep(|m.beats|, m.job.msgLen);
    BeatAppended(p.eng, m.beats, Expected(m.job, m.words).text);
    assert Expected(m.job, m.words).text[..8 * m.job.msgLen] == Expected(m.job, m.words).text;
  }

  lemma DoneStep(R: nat, p: Plane, m: Seen, i: Edge)
    requires Inv(R, p, m, true) && Environment(p, i) && p.eng.st.Done?
    ensures Kept'(R, p, m, i)
  {
    hide AxisEngine.Next, AeadCore.CoreCycles, AeadCore.Resting, Flat, Crypto, CoreParams, Expected, Payload, Taken;
    CoreRests(R, p.eng, EngineInputs(p, i));
  }

  // Every edge, whatever the word source and the sink do, keeps the invariant.
  lemma PlaneStep(R: nat, p: Plane, m: Seen, i: Edge, ran: bool)
    requires Inv(R, p, m, ran) && Environment(p, i)
    ensures Inv(R, Next(R, p, i), Watch(p, m, i), ran || i.start)
  {
    hide Next, Watch, Receiving, Result, SendingSofar, AllSent, Complete, AeadCore.Resting, CoreDone;
    match p.eng.st {
      case Idle => IdleStep(R, p, m, i, ran);
      case Rx =>
        if p.shim.st.Ad? && i.val {
          RxAdStep(R, p, m, i);
        } else if p.shim.st.Msg? && i.val {
          RxMsgStep(R, p, m, i);
        } else {
          RxOtherStep(R, p, m, i);
        }
      case Start => StartStep(R, p, m, i);
      case Busy =>
        if p.eng.coreStart {
          AcceptStep(R, p, m, i);
        } else {
          WorkingStep(R, p, m, i);
        }
      case Wait =>
        if CoreBusy(R, p.eng.core, HeldOf(p.eng), m) {
          WorkingStep(R, p, m, i);
        } else {
          FinishStep(R, p, m, i);
        }
      case Tx =>
        if i.mReady {
          TxSends(R, p, m, i);
        } else {
          TxWaits(R, p, m, i);
        }
      case Done => DoneStep(R, p, m, i);
    }
  }

  // ------------------------------------------------------------ whole runs

  // Every edge of the schedule is well formed.
  ghost predicate Runnable(R: nat, p: Plane, es: seq<Edge>)
  {
    0 < R <= 12 && Sized(p.eng) && forall k :: 0 <= k < |es| ==> AxisEngine.JobFits(es[k].job)
  }

  ghost function Run(R: nat, p: Plane, m: Seen, es: seq<Edge>): (r: (Plane, Seen))
    requires Runnable(R, p, es)
    ensures Sized(r.0.eng)
    decreases |es|
  {
    hide Next, Watch;
    if |es| == 0 then (p, m) else Run(R, Next(R, p, es[0]), Watch(p, m, es[0]), es[1..])
  }

  // The environment starts a job only when the engine is not busy.
  ghost predicate Schedule(R: nat, p: Plane, es: seq<Edge>)
    requires Runnable(R, p, es)
    decreases |es|
  {
    hide Next, Environment;
    |es| > 0 ==> Environment(p, es[0]) && Schedule(R, Next(R, p, es[0]), es[1..])
  }

  ghost predicate Started(es: seq<Edge>)
  {
    exists k :: 0 <= k < |es| && es[k].start
  }

  lemma {:induction false} RunKeepsInv(R: nat, p: Plane, m: Seen, es: seq<Edge>, ran: bool)
    requires Inv(R, p, m, ran) && forall k :: 0 <= k < |es| ==> AxisEngine.JobFits(es[k].job)
    requires Schedule(R, p, es)
    ensures Inv(R, Run(R, p, m, es).0, Run(R, p, m, es).1, ran || Started(es))
    decreases |es|
  {
    hide Inv, Next, Watch, Environment;
    if |es| > 0 {
      PlaneStep(R, p, m, es[0], ran);
      RunKeepsInv(R, Next(R, p, es[0]), Watch(p, m, es[0]), es[1..], ran || es[0].start);
      assert Started(es) == (es[0].start || Started(es[1..])) by {
        if Started(es[1..]) {
          var k :| 0 <= k < |es[1..]| && es[1..][k].start;
          assert es[k + 1].start;
        }
        if Started(es) && !es[0].start {
          var k :| 0 <= k < |es| && es[k].start;
          assert es[1..][k - 1].start;
        }
      }
    }
  }

  // Shim and engine at rest, whatever else their registers hold.
  ghost predicate AtRest(R: nat, p: Plane)
  {
    && 0 < R <= 12 && Sized(p.eng) && p.shim.st.Idle? && p.eng.st.Idle? && !p.eng.coreStart && !p.eng.doneO
    && AeadCore.Resting(CoreParams(R), p.eng.core)
  }

  // Under every schedule of words, stalls and starts: whenever done is raised,
  // the words taken are exactly the job's, and the tag, the flag and the bytes
  // sent are those of the functional model on them.
  lemma StreamComputesAead(R: nat, p: Plane, m: Seen, es: seq<Edge>)
    requires AtRest(R, p) && (forall k :: 0 <= k < |es| ==> AxisEngine.JobFits(es[k].job)) && Schedule(R, p, es)
    ensures var (p', m') := Run(R, p, m, es);
            && (p'.eng.st.Rx? <==> !p'.shim.st.Idle?)
            && (p'.eng.doneO || (p'.eng.st.Idle? && Started(es)) ==> Complete(R, p'.eng, m'))
  {
    hide AeadCore.Resting, CoreParams, Complete, Schedule, Run, Receiving, Sized;
    RunKeepsInv(R, p, m, es, false);
  }

  // ------------------------------------------------------------ progress

  // A job is never older than its stalls plus a fixed number of edges.
  lemma BusyIsBounded(R: nat, p: Plane, m: Seen)
    requires Inv(R, p, m, true) && !p.eng.st.Idle?
    ensures m.edges < m.stalls + JobEdges(R, m.job)
  {
    hide AeadCore.Resting, CoreParams, AeadCore.Busy, AeadCore.Left, AeadCore.Outcome, AeadCore.CoreCycles,
         AeadCore.Delivered, Expected, Fill, Flat, AdText, MsgText, Payload;
    if p.eng.st.Rx? {
      ReceivingBound(p, m);
    }
  }

  lemma ReceivingBound(p: Plane, m: Seen)
    requires Receiving(p, m) && !p.shim.st.Idle?
    ensures |m.words| <= WordsFor(m.job.adLen) + WordsFor(m.job.msgLen)
  {
    hide Fill, Flat, AdText;
  }

  lemma {:induction false} StillTheSameJob(R: nat, p: Plane, m: Seen, es: seq<Edge>)
    requires Inv(R, p, m, true) && !p.eng.st.Idle? && |es| >= 0
    requires forall k :: 0 <= k < |es| ==> AxisEngine.JobFits(es[k].job) && !es[k].start
    ensures Schedule(R, p, es)
    ensures var (p', m') := Run(R, p, m, es);
            m'.job == m.job && (p'.eng.st.Idle? || m'.edges == m.edges + |es|)
    decreases |es|
  {
    hide Inv, Next;
    if |es| > 0 {
      PlaneStep(R, p, m, es[0], true);
      var p1, m1 := Next(R, p, es[0]), Watch(p, m, es[0]);
      assert m1.job == m.job && m1.edges == m.edges + 1;
      if p1.eng.st.Idle? {
        IdleStays(R, p1, m1, es[1..]);
      } else {
        StillTheSameJob(R, p1, m1, es[1..]);
      }
    }
  }

  lemma {:induction false} IdleStays(R: nat, p: Plane, m: Seen, es: seq<Edge>)
    requires Inv(R, p, m, true) && p.eng.st.Idle?
    requires forall k :: 0 <= k < |es| ==> AxisEngine.JobFits(es[k].job) && !es[k].start
    ensures Schedule(R, p, es)
    ensures var (p', m') := Run(R, p, m, es); m' == m && p'.eng.st.Idle?
    decreases |es|
  {
    hide Inv, Next;
    if |es| > 0 {
      PlaneStep(R, p, m, es[0], true);
      IdleNext(R, p, es[0]);
      IdleStays(R, Next(R, p, es[0]), Watch(p, m, es[0]), es[1..]);
    }
  }

  lemma IdleNext(R: nat, p: Plane, i: Edge)
    requires 0 < R <= 12 && Sized(p.eng) && AxisEngine.JobFits(i.job) && p.eng.st.Idle? && !i.start
    ensures Next(R, p, i).eng.st.Idle?
  {
    hide AeadCore.Next, CoreParams;
  }

  // Progress: once the edges since the start exceed the stalls by JobEdges, the
  // job is over, whatever the environment did; it never needs more.
  lemma JobFinishes(R: nat, p: Plane, m: Seen, es: seq<Edge>)
    requires AtRest(R, p) && |es| > 0 && es[0].start && JobSmall(es[0].job)
    requires forall k :: 0 <= k < |es| ==> AxisEngine.JobFits(es[k].job) && (k > 0 ==> !es[k].start)
    ensures var (p', m') := Run(R, p, m, es);
            && m'.job == es[0].job
            && (|es| >= m'.stalls + JobEdges(R, m'.job) ==> p'.eng.st.Idle? && Complete(R, p'.eng, m'))
  {
    hide AeadCore.Resting, CoreParams, Complete, Receiving, AxisEngine.Next;
    IdleStep(R, p, m, es[0], false);
    StartAccepted(R, p, m, es[0]);
    var p1, m1 := Next(R, p, es[0]), Watch(p, m, es[0]);
    StillTheSameJob(R, p1, m1, es[1..]);
    RunKeepsInv(R, p1, m1, es[1..], true);
    var (p', m') := Run(R, p, m, es);
    if !p'.eng.st.Idle? {
      BusyIsBounded(R, p', m');
    }
  }

  lemma StartAccepted(R: nat, p: Plane, m: Seen, i: Edge)
    requires 0 < R <= 12 && Sized(p.eng) && AxisEngine.JobFits(i.job) && p.eng.st.Idle? && i.start
    ensures Next(R, p, i).eng.st.Rx? && Watch(p, m, i) == Seen(i.job, [], [], 1, 0)
  {
    hide AeadCore.Next, CoreParams;
  }

  // The busy time of the one-round core when nothing stalls.
  lemma OneRoundJobEdges(j: Job)
    ensures JobEdges(1, j)
            == 40 + WordsFor(j.adLen) + 2 * WordsFor(j.msgLen) + (if j.msgLen == 0 then 1 else 0)
               + (if j.adLen > 0 then 12 * (j.adLen / 16) + 11 else 0) + 12 * (j.msgLen / 16)
  {
    hide AeadCore.CoreCycles;
    AeadCore.OneRoundCycles(CoreParams(1), j.adLen, j.msgLen);
  }

  // ------------------------------------------------ a result FIFO of depth D

  // Nothing is drained before done: the FIFO takes a beat while it has room.
  ghost predicate Undrained(m: Seen, i: Edge, depth: nat)
  {
    i.mReady == (|m.beats| < depth) && !i.start
  }

  ghost predicate UndrainedRun(R: nat, p: Plane, m: Seen, es: seq<Edge>, depth: nat)
    requires Runnable(R, p, es)
    decreases |es|
  {
    hide Next, Watch, Undrained;
    |es| > 0 ==> Undrained(m, es[0], depth) && UndrainedRun(R, Next(R, p, es[0]), Watch(p, m, es[0]), es[1..], depth)
  }

  lemma DeepStep(R: nat, p: Plane, m: Seen, i: Edge, depth: nat)
    requires Inv(R, p, m, true) && AxisEngine.JobFits(i.job) && Undrained(m, i, depth) && i.val
    requires depth >= WordsFor(m.job.msgLen)
    ensures !Stalled(p, i) && Watch(p, m, i).stalls == m.stalls && Watch(p, m, i).job == m.job
  {
    hide AeadCore.Resting, CoreParams, Expected, Sent;
  }

  // A FIFO as deep as the result never refuses a beat.
  lemma {:induction false} DeepFifoNeverStalls(R: nat, p: Plane, m: Seen, es: seq<Edge>, depth: nat)
    requires Inv(R, p, m, true) && depth >= WordsFor(m.job.msgLen)
    requires forall k :: 0 <= k < |es| ==> AxisEngine.JobFits(es[k].job) && es[k].val
    requires UndrainedRun(R, p, m, es, depth)
    ensures Run(R, p, m, es).1.stalls == m.stalls
    decreases |es|
  {
    hide Inv, Next, Watch, Stalled;
    if |es| > 0 {
      DeepStep(R, p, m, es[0], depth);
      PlaneStep(R, p, m, es[0], true);
      DeepFifoNeverStalls(R, Next(R, p, es[0]), Watch(p, m, es[0]), es[1..], depth);
    }
  }

  lemma ShallowStep(R: nat, p: Plane, m: Seen, i: Edge, depth: nat)
    requires Inv(R, p, m, true) && !p.eng.st.Idle? && !p.eng.st.Done? && AxisEngine.JobFits(i.job)
    requires |m.beats| <= depth < WordsFor(m.job.msgLen) && Undrained(m, i, depth)
    ensures var p', m' := Next(R, p, i), Watch(p, m, i);
            !p'.eng.st.Idle? && !p'.eng.st.Done? && |m'.beats| <= depth && m'.job == m.job
  {
    hide AeadCore.Next, AeadCore.Resting, CoreParams, Expected, Store, AeadCore.Busy, AeadCore.Outcome, AeadCore.Left,
         AeadCore.CoreCycles, Fill, Flat, Payload;
    if p.eng.st.Tx? {
      RemIsRest(m.job.msgLen, p.eng.txPos);
    }
  }

  // A shallower one stops the engine for good before it is done.
  lemma {:induction false} ShallowFifoDeadlocks(R: nat, p: Plane, m: Seen, es: seq<Edge>, depth: nat)
    requires Inv(R, p, m, true) && !p.eng.st.Idle? && !p.eng.st.Done? && |m.beats| <= depth < WordsFor(m.job.msgLen)
    requires forall k :: 0 <= k < |es| ==> AxisEngine.JobFits(es[k].job)
    requires UndrainedRun(R, p, m, es, depth)
    ensures !Run(R, p, m, es).0.eng.st.Idle?
    decreases |es|
  {
    hide Inv, Next, Watch;
    if |es| > 0 {
      ShallowStep(R, p, m, es[0], depth);
      PlaneStep(R, p, m, es[0], true);
      ShallowFifoDeadlocks(R, Next(R, p, es[0]), Watch(p, m, es[0]), es[1..], depth);
    }
  }

  // With words always on offer and results drained only after done, a job gets
  // done exactly when the FIFO holds all of its result words.
  lemma FifoDepthDecides(R: nat, p: Plane, m: Seen, es: seq<Edge>, depth: nat)
    requires AtRest(R, p) && |es| > 0 && es[0].start && JobSmall(es[0].job)
    requires forall k :: 0 <= k < |es| ==> AxisEngine.JobFits(es[k].job) && es[k].val && (k > 0 ==> !es[k].start)
    requires UndrainedRun(R, Next(R, p, es[0]), Watch(p, m, es[0]), es[1..], depth)
    requires |es| >= JobEdges(R, es[0].job)
    ensures Run(R, p, m, es).0.eng.st.Idle? <==> depth >= WordsFor(es[0].job.msgLen)
  {
    hide AeadCore.Resting, CoreParams, Complete, Receiving, AxisEngine.Next, JobEdges;
    IdleStep(R, p, m, es[0], false);
    StartAccepted(R, p, m, es[0]);
    JobFinishes(R, p, m, es);
    var p1, m1 := Next(R, p, es[0]), Watch(p, m, es[0]);
    if depth >= WordsFor(es[0].job.msgLen) {
      DeepFifoNeverStalls(R, p1, m1, es[1..], depth);
    } else {
      ShallowFifoDeadlocks(R, p1, m1, es[1..], depth);
    }
  }
}
