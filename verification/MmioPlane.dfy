// A job on the word-by-word peripheral, from the start write to DONE: what
// each bus cycle keeps.
module MmioPlane {
  import opened BitVectors
  import opened Counters
  import opened Wires
  import opened Aead
  import opened StreamBeat
  import opened AxisEngine
  import opened AxisMmio
  import SlinkMmio
  import SlinkShim
  import SlinkPlane
  import AeadCore

  // No write, and no read that moves the output pointer.
  predicate Harmless(i: Access)
  {
    i.sel ==> !i.we && i.addr != 0x48
  }

  // ------------------------------------------------------------ no job

  lemma EngineStays(R: nat, e: AxisEngine.Regs, i: AxisEngine.Inputs)
    requires EngineRests(R, e) && AxisEngine.InputsFit(i) && !i.start
    ensures AxisEngine.Next(R, e, i) == e
  {
    hide AxisEngine.Next, AeadCore.Resting, CoreParams, Store;
    SlinkPlane.CoreRests(R, e, i);
  }

  // With no job under way a cycle does exactly what the bus asks for.
  lemma SettledStep(R: nat, s: Peripheral, i: Access)
    requires Settled(R, s) && !WritesBeat(i)
    ensures Clock(R, s, i) == s.(ctl := if i.sel then BusAccess(s.ctl, i) else s.ctl)
  {
    hide AxisEngine.Next, AeadCore.Resting, CoreParams, BusAccess, Store, Sent;
    EngineStays(R, s.eng, EngineInputs(s.ctl, i));
  }

  // ------------------------------------------------------------ receiving

  // The flags while the job j is under way.
  ghost predicate Underway(c: Ctl, j: Job)
  {
    && CtlSized(c) && SlinkPlane.JobSmall(j) && |c.base.tag| == 128
    && c.base.busy && c.base.counting && !c.base.done && !c.base.error && c.base.errCode == 0 && !c.base.tagValid
    && c.base.decrypt == j.decrypt && c.base.setup.txtlen == j.msgLen && c.outRpos == 0
  }

  // The start has been written and the pulse is on its way.
  ghost predicate Launched(R: nat, s: Peripheral)
    ensures Launched(R, s) ==> 0 < R <= 12 && Fits(s)
  {
    && Fits(s) && EngineRests(R, s.eng) && s.ctl.base.startPulse
    && Underway(s.ctl, SlinkMmio.JobOf(s.ctl.base)) && s.ctl.outWpos == 0
  }

  // The engine receives: `ad` and `text` are in its buffers.
  ghost predicate Filling(R: nat, s: Peripheral, j: Job, ad: Bits, text: Bits)
    ensures Filling(R, s, j, ad, text) ==> 0 < R <= 12 && Fits(s)
  {
    && Fits(s) && 0 < R <= 12
    && s.eng.st.Rx? && !s.eng.coreStart && !s.eng.doneO && AeadCore.Resting(CoreParams(R), s.eng.core)
    && s.eng.job == j && Underway(s.ctl, j) && !s.ctl.base.startPulse && s.ctl.outWpos == 0
    && |ad| == 8 * s.eng.adPos <= 8 * j.adLen && |text| == 8 * s.eng.msgPos <= 8 * j.msgLen
    && s.eng.adbuf == SlinkPlane.Fill(ad) && s.eng.msgbuf == SlinkPlane.Fill(text)
  }

  // The registers on an edge while the engine is not sending and not done.
  lemma QuietControl(s: Peripheral, i: Access)
    requires Fits(s) && !s.eng.st.Tx? && !s.eng.doneO
    ensures var c := s.ctl.(base := SlinkMmio.Bookkeep(s.ctl.base, s.eng));
            AxisMmio.Control(s, i) == if i.sel && Ready(s, i) then BusAccess(c, i) else c
    ensures SlinkMmio.Bookkeep(s.ctl.base, s.eng)
         == s.ctl.base.(startPulse := false, cycRun := SlinkMmio.Bookkeep(s.ctl.base, s.eng).cycRun)
  {
    hide BusAccess, Store, Sent;
  }

  lemma LaunchStep(R: nat, s: Peripheral, i: Access)
    requires Launched(R, s) && Harmless(i)
    ensures Filling(R, Clock(R, s, i), SlinkMmio.JobOf(s.ctl.base), [], [])
    ensures Clock(R, s, i).ctl.dataIn == s.ctl.dataIn
  {
    hide AxisEngine.Next, AeadCore.Resting, CoreParams, AxisMmio.Control, Store, SlinkMmio.Bookkeep, SlinkPlane.Fill;
    QuietControl(s, i);
    SlinkPlane.CoreRests(R, s.eng, EngineInputs(s.ctl, i));
    SlinkPlane.NothingYet();
  }

  lemma FillingRest(R: nat, s: Peripheral, i: Access, j: Job, ad: Bits, text: Bits)
    requires Filling(R, s, j, ad, text) && Harmless(i)
    ensures Filling(R, Clock(R, s, i), j, ad, text)
    ensures Clock(R, s, i).ctl.dataIn == s.ctl.dataIn
  {
    hide AxisEngine.Next, AeadCore.Resting, CoreParams, AxisMmio.Control, Store, SlinkMmio.Bookkeep, SlinkPlane.Fill;
    QuietControl(s, i);
    SlinkPlane.CoreRests(R, s.eng, EngineInputs(s.ctl, i));
  }

  // DATA_IN is written.
  lemma FillingData(R: nat, s: Peripheral, w: Word32, j: Job, ad: Bits, text: Bits)
    requires Filling(R, s, j, ad, text)
    ensures var s' := Clock(R, s, Access(true, true, 0x40, w));
            Filling(R, s', j, ad, text) && s'.ctl.dataIn == w
  {
    hide AxisEngine.Next, AeadCore.Resting, CoreParams, AxisMmio.Control, Store, SlinkMmio.Bookkeep, SlinkPlane.Fill;
    var i := Access(true, true, 0x40, w);
    QuietControl(s, i);
    SlinkPlane.CoreRests(R, s.eng, EngineInputs(s.ctl, i));
  }

  // The DATA_IN_CTRL word: last, valid, associated data or text, byte mask.
  function BeatWord(last: bool, text: bool, n: nat): Word32
  {
    [last, true, !text, text] + Zeros(4) + KeepMask(n) + Zeros(20)
  }

  lemma BeatWordMeans(c: Ctl, last: bool, text: bool, n: nat)
    ensures BeatOf(c, Access(true, true, 0x44, BeatWord(last, text, n)))
            == Beat(c.dataIn, KeepMask(n), text, last, true)
  {
  }

  lemma BeatControl(s: Peripheral, w: Word32)
    requires Fits(s) && s.eng.st.Rx? && !s.eng.doneO
    ensures AxisMmio.Control(s, Access(true, true, 0x44, w)) == s.ctl.(base := SlinkMmio.Bookkeep(s.ctl.base, s.eng))
  {
    hide SlinkMmio.Bookkeep, Store, Sent;
    QuietControl(s, Access(true, true, 0x44, w));
  }

  lemma AdBeat(R: nat, s: Peripheral, last: bool, n: nat, j: Job, ad: Bits, text: Bits)
    requires Filling(R, s, j, ad, text) && n <= 4 && |ad| + 8 * n <= 8 * j.adLen
    ensures var i := Access(true, true, 0x44, BeatWord(last, false, n));
            && Ready(s, i)
            && Clock(R, s, i).ctl == s.ctl.(base := SlinkMmio.Bookkeep(s.ctl.base, s.eng))
            && Clock(R, s, i).eng
               == s.eng.(adbuf := SlinkPlane.Fill(ad + s.ctl.dataIn[..8 * n]), adPos := s.eng.adPos + n)
  {
    hide AxisEngine.Next, AeadCore.Resting, CoreParams, AxisMmio.Control, Store, SlinkMmio.Bookkeep, SlinkPlane.Fill,
         BeatWord, KeepMask, Kept;
    var i := Access(true, true, 0x44, BeatWord(last, false, n));
    BeatControl(s, i.wdata);
    BeatWordMeans(s.ctl, last, false, n);
    SlinkPlane.CoreRests(R, s.eng, EngineInputs(s.ctl, i));
    SlinkPlane.StoreKept(ad, s.eng.adPos, BeatOf(s.ctl, i), n);
  }

  lemma FillingAd(R: nat, s: Peripheral, last: bool, n: nat, j: Job, ad: Bits, text: Bits)
    requires Filling(R, s, j, ad, text) && n <= 4 && |ad| + 8 * n <= 8 * j.adLen
    ensures var i := Access(true, true, 0x44, BeatWord(last, false, n));
            Ready(s, i) && Filling(R, Clock(R, s, i), j, ad + s.ctl.dataIn[..8 * n], text)
  {
    hide Clock, AeadCore.Resting, CoreParams, Store, SlinkMmio.Bookkeep, SlinkPlane.Fill, BeatWord;
    AdBeat(R, s, last, n, j, ad, text);
    QuietControl(s, Access(true, true, 0x44, BeatWord(last, false, n)));
  }

  lemma TextBeat(R: nat, s: Peripheral, last: bool, n: nat, j: Job, ad: Bits, text: Bits)
    requires Filling(R, s, j, ad, text) && n <= 4 && |text| + 8 * n <= 8 * j.msgLen
    ensures var i := Access(true, true, 0x44, BeatWord(last, true, n));
            && Ready(s, i)
            && Clock(R, s, i).ctl == s.ctl.(base := SlinkMmio.Bookkeep(s.ctl.base, s.eng))
            && Clock(R, s, i).eng
               == s.eng.(msgbuf := SlinkPlane.Fill(text + s.ctl.dataIn[..8 * n]), msgPos := s.eng.msgPos + n,
                         st := if last then Start else Rx)
  {
    hide AxisEngine.Next, AeadCore.Resting, CoreParams, AxisMmio.Control, Store, SlinkMmio.Bookkeep, SlinkPlane.Fill,
         BeatWord, KeepMask, Kept;
    var i := Access(true, true, 0x44, BeatWord(last, true, n));
    BeatControl(s, i.wdata);
    BeatWordMeans(s.ctl, last, true, n);
    SlinkPlane.CoreRests(R, s.eng, EngineInputs(s.ctl, i));
    SlinkPlane.StoreKept(text, s.eng.msgPos, BeatOf(s.ctl, i), n);
  }

  lemma FillingText(R: nat, s: Peripheral, n: nat, j: Job, ad: Bits, text: Bits)
    requires Filling(R, s, j, ad, text) && n <= 4 && |text| + 8 * n <= 8 * j.msgLen
    ensures var i := Access(true, true, 0x44, BeatWord(false, true, n));
            Ready(s, i) && Filling(R, Clock(R, s, i), j, ad, text + s.ctl.dataIn[..8 * n])
  {
    hide Clock, AeadCore.Resting, CoreParams, Store, SlinkMmio.Bookkeep, SlinkPlane.Fill, BeatWord;
    TextBeat(R, s, false, n, j, ad, text);
    QuietControl(s, Access(true, true, 0x44, BeatWord(false, true, n)));
  }

  // ------------------------------------------------------------ running

  // The words that carry b, padded with zeros.
  function Word(b: Bits, i: nat): Word32
  {
    seq(32, k requires 0 <= k < 32 => 32 * i + k < |b| && b[32 * i + k])
  }

  function ToWords(b: Bits, n: nat): (r: seq<Word32>)
    ensures |r| == n
  {
    seq(n, i requires 0 <= i < n => Word(b, i))
  }

  lemma {:induction false} FlatToWords(b: Bits, n: nat)
    ensures var f := SlinkPlane.Flat(ToWords(b, n));
            |f| == 32 * n && forall k :: 0 <= k < 32 * n ==> f[k] == (k < |b| && b[k])
    decreases n
  {
    hide Word;
    if n > 0 {
      FlatToWords(b, n - 1);
      assert ToWords(b, n) == ToWords(b, n - 1) + [Word(b, n - 1)];
      SlinkPlane.FlatSnoc(ToWords(b, n - 1), Word(b, n - 1));
      WordBits(b, n - 1);
    }
  }

  lemma WordBits(b: Bits, i: nat)
    ensures forall k :: 32 * i <= k < 32 * i + 32 ==> Word(b, i)[k - 32 * i] == (k < |b| && b[k])
  {
  }

  // What a monitor of the stream would have recorded when the buffers are full.
  function Begin(j: Job, ad: Bits, text: Bits): SlinkPlane.Seen
  {
    SlinkPlane.Seen(j, ToWords(ad, SlinkPlane.WordsFor(j.adLen)) + ToWords(text, SlinkPlane.WordsFor(j.msgLen)), [],
                    1 + SlinkPlane.RxEdges(j), 0)
  }

  lemma BeginHolds(j: Job, ad: Bits, text: Bits)
    requires |ad| == 8 * j.adLen && |text| == 8 * j.msgLen
    ensures var words := Begin(j, ad, text).words;
            SlinkPlane.Taken(j, words) && SlinkPlane.AdText(j, words) == ad && SlinkPlane.MsgText(j, words) == text
  {
    hide SlinkPlane.Flat, ToWords;
    var na, nm := SlinkPlane.WordsFor(j.adLen), SlinkPlane.WordsFor(j.msgLen);
    FlatToWords(ad, na);
    FlatToWords(text, nm);
    var words := ToWords(ad, na) + ToWords(text, nm);
    assert words[..na] == ToWords(ad, na) && words[na..] == ToWords(text, nm);
    assert SlinkPlane.Flat(ToWords(ad, na))[..8 * j.adLen] == ad;
    assert SlinkPlane.Flat(ToWords(text, nm))[..8 * j.msgLen] == text;
  }

  function IdleShim(j: Job): SlinkShim.Regs
  {
    SlinkShim.Regs(SlinkShim.Idle, j.adLen, j.msgLen, 0)
  }

  // The plane that runs the same engine behind an idle shim.
  function PlaneOf(s: Peripheral, m: SlinkPlane.Seen): SlinkPlane.Plane
  {
    SlinkPlane.Plane(IdleShim(m.job), s.eng)
  }

  // The captured bytes are those sent so far.
  ghost predicate Captured(c: Ctl, beats: seq<Beat>)
  {
    && SlinkPlane.WellFormed(beats) && |c.outbuf| == 256 && 8 * c.outWpos == |SlinkPlane.Payload(beats)| <= 256
    && c.outbuf[..8 * c.outWpos] == SlinkPlane.Payload(beats)
  }

  // From the last beat taken to the done pulse.
  ghost predicate Running(R: nat, s: Peripheral, m: SlinkPlane.Seen)
    ensures Running(R, s, m) ==> 0 < R <= 12 && Fits(s)
  {
    && Fits(s) && 0 < R <= 12 && SlinkPlane.Inv(R, PlaneOf(s, m), m, true)
    && !s.eng.st.Rx? && (s.eng.st.Idle? ==> s.eng.doneO) && m.stalls == 0
    && Underway(s.ctl, m.job) && !s.ctl.base.startPulse && Captured(s.ctl, m.beats)
  }

  // DONE, with the result in the registers and the output read up to `pos`.
  ghost predicate Holding(R: nat, s: Peripheral, j: Job, r: Sealed, pos: nat)
    ensures Holding(R, s, j, r, pos) ==> Settled(R, s)
  {
    && Settled(R, s) && CtlSized(s.ctl) && s.ctl.base.done && s.ctl.outRpos == pos
    && s.ctl.base.tag == r.tag && s.ctl.base.setup.txtlen == j.msgLen <= 32
    && s.ctl.base.tagValid == (j.decrypt ==> r.tag == j.tag)
    && s.ctl.base.errCode == (if s.ctl.base.tagValid then 0 else 4)
    && |r.text| == 8 * j.msgLen && s.ctl.outbuf[..8 * j.msgLen] == r.text
  }

  ghost predicate Finished(R: nat, s: Peripheral, j: Job, r: Sealed)
  {
    Holding(R, s, j, r, 0)
  }

  lemma RunningStarts(R: nat, s: Peripheral, n: nat, j: Job, ad: Bits, text: Bits)
    requires Filling(R, s, j, ad, text) && n <= 4 && |ad| == 8 * j.adLen && |text| + 8 * n == 8 * j.msgLen
    ensures var i := Access(true, true, 0x44, BeatWord(true, true, n));
            Ready(s, i) && Running(R, Clock(R, s, i), Begin(j, ad, text + s.ctl.dataIn[..8 * n]))
  {
    hide Clock, AeadCore.Resting, CoreParams, Store, SlinkMmio.Bookkeep, SlinkPlane.Fill, BeatWord, SlinkPlane.AdText,
         SlinkPlane.MsgText, ToWords, SlinkPlane.RxEdges, SlinkPlane.Taken;
    TextBeat(R, s, true, n, j, ad, text);
    QuietControl(s, Access(true, true, 0x44, BeatWord(true, true, n)));
    BeginHolds(j, ad, text + s.ctl.dataIn[..8 * n]);
    assert s.ctl.outbuf[..0] == [];
  }

  // The stream input is ignored outside the receiving phase.
  lemma BeatIgnored(R: nat, e: AxisEngine.Regs, i: AxisEngine.Inputs, k: AxisEngine.Inputs)
    requires 0 < R <= 12 && AxisEngine.Sized(e) && AxisEngine.InputsFit(i) && AxisEngine.InputsFit(k) && !e.st.Rx?
    requires !i.start && !k.start && i.mReady == k.mReady
    ensures AxisEngine.Next(R, e, i) == AxisEngine.Next(R, e, k)
  {
    hide AeadCore.Next, CoreParams;
  }

  function QuietEdge(j: Job): SlinkPlane.Edge
  {
    SlinkPlane.Edge(false, j, Zeros(32), false, true)
  }

  lemma SamePlane(R: nat, s: Peripheral, m: SlinkPlane.Seen, i: Access)
    requires Running(R, s, m)
    ensures PlaneOf(Clock(R, s, i), m) == SlinkPlane.Next(R, PlaneOf(s, m), QuietEdge(m.job))
  {
    hide AxisEngine.Next, AxisMmio.Control, SlinkPlane.Inv, CoreParams, Captured;
    BeatIgnored(R, s.eng, EngineInputs(s.ctl, i), SlinkPlane.EngineInputs(PlaneOf(s, m), QuietEdge(m.job)));
  }

  lemma StoreOver(buf: Bits, pos: nat, beat: Beat, n: nat)
    requires |beat.data| == 32 && n <= 4 && beat.keep == KeepMask(n) && 8 * (pos + n) <= |buf|
    ensures Kept(beat.keep) == n
    ensures Store(buf, pos, beat)[..8 * (pos + n)] == buf[..8 * pos] + beat.data[..8 * n]
  {
    hide Write;
    var d, at := beat.data, 8 * pos;
    var b1 := StoreByte(buf, pos, beat, 0);
    var b2 := StoreByte(b1, pos, beat, 1);
    var b3 := StoreByte(b2, pos, beat, 2);
    assert buf[..at] + d[..0] == buf[..at];
    if n > 0 {
      WrittenPrefix(buf, at, d[0..8], 8);
      assert buf[..at] + d[0..8][..8] == buf[..at] + d[..8];
    }
    if n > 1 {
      WrittenPrefix(b1, at + 8, d[8..16], 8);
      assert buf[..at] + d[..8] + d[8..16][..8] == buf[..at] + d[..16];
    }
    if n > 2 {
      WrittenPrefix(b2, at + 16, d[16..24], 8);
      assert buf[..at] + d[..16] + d[16..24][..8] == buf[..at] + d[..24];
    }
    if n > 3 {
      WrittenPrefix(b3, at + 24, d[24..32], 8);
      assert buf[..at] + d[..24] + d[24..32][..8] == buf[..at] + d[..32];
    }
  }

  lemma CapturedBeat(s: Peripheral, beats: seq<Beat>)
    requires Fits(s) && s.eng.st.Tx? && Captured(s.ctl, beats)
    requires s.eng.job.msgLen <= 32 && s.eng.txPos == s.ctl.outWpos < s.eng.job.msgLen
    ensures Captured(Capture(s.ctl, s.eng), beats + [Sent(s.eng)])
  {
    hide Store, Sent, Kept, SlinkPlane.Payload;
    var beat := Sent(s.eng);
    var rem := s.eng.job.msgLen - s.eng.txPos;
    var n := if rem <= 4 then rem else 4;
    SentKeep(s.eng, n);
    StoreOver(s.ctl.outbuf, s.ctl.outWpos, beat, n);
    SlinkPlane.PayloadSnoc(beats, beat);
    NoWrap(s.ctl.outWpos, n);
  }

  lemma NoWrap(pos: nat, n: nat)
    requires pos < 32 && n <= 4
    ensures (pos + n) % 256 == pos + n
  {
  }

  lemma SentKeep(e: AxisEngine.Regs, n: nat)
    requires AxisEngine.Sized(e) && e.txPos < e.job.msgLen <= 32
    requires n == if e.job.msgLen - e.txPos <= 4 then e.job.msgLen - e.txPos else 4
    ensures Sent(e).keep == KeepMask(n)
  {
    RemIsRest(e.job.msgLen, e.txPos);
  }

  // A cycle without a write while the job runs: the monitor advances by one
  // edge, and a beat that is sent is captured.
  lemma RunningStep(R: nat, s: Peripheral, m: SlinkPlane.Seen, i: Access) returns (m': SlinkPlane.Seen)
    requires Running(R, s, m) && Harmless(i) && !s.eng.doneO
    ensures m'.job == m.job && m'.words == m.words && m'.edges == m.edges + 1
    ensures Running(R, Clock(R, s, i), m')
  {
    hide AxisEngine.Next, SlinkPlane.Inv, CoreParams, Captured, AxisMmio.Control, SlinkMmio.Bookkeep, Underway;
    m' := SlinkPlane.Watch(PlaneOf(s, m), m, QuietEdge(m.job));
    JobIsSmall(s, m);
    SlinkPlane.PlaneStep(R, PlaneOf(s, m), m, QuietEdge(m.job), true);
    SamePlane(R, s, m, i);
    WatchedQuietly(R, s, m);
    StillRunning(R, s, i);
    ControlRuns(R, s, m, i);
  }

  lemma JobIsSmall(s: Peripheral, m: SlinkPlane.Seen)
    requires Underway(s.ctl, m.job)
    ensures SlinkPlane.Environment(PlaneOf(s, m), QuietEdge(m.job))
  {
  }

  lemma WatchedQuietly(R: nat, s: Peripheral, m: SlinkPlane.Seen)
    requires Running(R, s, m) && !s.eng.doneO
    ensures SlinkPlane.Watch(PlaneOf(s, m), m, QuietEdge(m.job))
         == m.(beats := if s.eng.st.Tx? then m.beats + [Sent(s.eng)] else m.beats, edges := m.edges + 1)
  {
    hide SlinkPlane.Inv, Captured, Underway, Sent;
  }

  lemma StillRunning(R: nat, s: Peripheral, i: Access)
    requires 0 < R <= 12 && Fits(s) && !s.eng.st.Rx? && !s.eng.st.Idle?
    ensures var e' := Clock(R, s, i).eng; !e'.st.Rx? && (e'.st.Idle? <==> e'.doneO)
  {
    hide AeadCore.Next, CoreParams, AxisMmio.Control, Store;
  }

  // Where the engine is while it sends.
  lemma SendingFacts(R: nat, s: Peripheral, m: SlinkPlane.Seen)
    requires Running(R, s, m) && s.eng.st.Tx?
    ensures s.eng.job == m.job && m.job.msgLen <= 32 && s.eng.txPos == s.ctl.outWpos < m.job.msgLen
    ensures !s.eng.doneO
  {
    hide AeadCore.Resting, CoreParams, SlinkPlane.Expected, SlinkPlane.Payload, SlinkPlane.WellFormed;
  }

  lemma ControlRuns(R: nat, s: Peripheral, m: SlinkPlane.Seen, i: Access)
    requires Running(R, s, m) && Harmless(i) && !s.eng.doneO
    ensures var c' := Clock(R, s, i).ctl;
            && Underway(c', m.job) && !c'.base.startPulse
            && Captured(c', if s.eng.st.Tx? then m.beats + [Sent(s.eng)] else m.beats)
  {
    hide AxisEngine.Next, SlinkPlane.Inv, CoreParams, Captured, Store, Sent;
    if s.eng.st.Tx? {
      SendingFacts(R, s, m);
      CapturedBeat(s, m.beats);
      SameCapture(s, m.beats + [Sent(s.eng)], i);
    } else {
      SameCapture(s, m.beats, i);
    }
  }

  lemma SameCapture(s: Peripheral, beats: seq<Beat>, i: Access)
    requires Fits(s) && Harmless(i) && Captured(Capture(s.ctl, s.eng), beats)
    ensures Captured(AxisMmio.Control(s, i), beats)
  {
    hide Store, Sent, SlinkMmio.Bookkeep, SlinkPlane.Payload;
  }

  lemma EndFacts(R: nat, s: Peripheral, m: SlinkPlane.Seen)
    requires Running(R, s, m) && s.eng.doneO
    ensures s.eng.st.Idle? && !s.eng.coreStart && AeadCore.Resting(CoreParams(R), s.eng.core)
    ensures SlinkPlane.Complete(R, s.eng, m)
    ensures 8 * s.ctl.outWpos == 8 * m.job.msgLen <= 256
    ensures s.ctl.outbuf[..8 * m.job.msgLen] == SlinkPlane.Expected(m.job, m.words).text
  {
    hide CoreParams, AeadCore.Resting, SlinkPlane.Expected, SlinkPlane.Payload, SlinkPlane.WellFormed;
  }

  // The done pulse: the registers take the result.
  lemma RunningEnds(R: nat, s: Peripheral, m: SlinkPlane.Seen, i: Access)
    requires Running(R, s, m) && Harmless(i) && s.eng.doneO
    ensures SlinkPlane.Taken(m.job, m.words) && AxisEngine.JobFits(m.job)
    ensures Finished(R, Clock(R, s, i), m.job, SlinkPlane.Expected(m.job, m.words))
  {
    hide AxisEngine.Next, CoreParams, Store, Sent, AeadCore.Resting, SlinkPlane.Expected, SlinkPlane.AllSent,
         SlinkPlane.Inv, Captured;
    EndFacts(R, s, m);
    SlinkPlane.CoreRests(R, s.eng, EngineInputs(s.ctl, i));
  }

  // ------------------------------------------------------- many cycles

  const UNSELECTED := Access(false, false, 0, Zeros(32))

  // n cycles without an access.
  function Rest(R: nat, s: Peripheral, n: nat): (s': Peripheral)
    requires 0 < R <= 12 && Fits(s)
    ensures Fits(s')
  {
    hide Clock;
    if n == 0 then s else Clock(R, Rest(R, s, n - 1), UNSELECTED)
  }

  // The other bus signals do not matter while nothing is selected.
  lemma UnselectedSame(R: nat, s: Peripheral, i: Access)
    requires 0 < R <= 12 && Fits(s) && !i.sel
    ensures Clock(R, s, i) == Clock(R, s, UNSELECTED)
  {
    hide AeadCore.Next, CoreParams, Store, Sent, SlinkMmio.Bookkeep;
  }

  lemma {:induction false} SettledRest(R: nat, s: Peripheral, n: nat)
    requires Settled(R, s)
    ensures Rest(R, s, n) == s
    decreases n
  {
    hide Clock, Settled;
    if n > 0 {
      SettledRest(R, s, n - 1);
      SettledStep(R, s, UNSELECTED);
    }
  }

  // Ready for stream beats after at least one cycle.
  ghost predicate Open(R: nat, s: Peripheral, j: Job, ad: Bits, text: Bits)
  {
    Filling(R, s, j, ad, text) || (Launched(R, s) && j == SlinkMmio.JobOf(s.ctl.base) && ad == [] && text == [])
  }

  lemma {:induction false} OpenRest(R: nat, s: Peripheral, j: Job, ad: Bits, text: Bits, n: nat)
    requires Open(R, s, j, ad, text) && n > 0
    ensures Filling(R, Rest(R, s, n), j, ad, text) && Rest(R, s, n).ctl.dataIn == s.ctl.dataIn
    decreases n
  {
    hide Clock, Filling, Launched, CtlSized, Fits;
    if n > 1 {
      OpenRest(R, s, j, ad, text, n - 1);
      FillingRest(R, Rest(R, s, n - 1), UNSELECTED, j, ad, text);
    } else if Filling(R, s, j, ad, text) {
      FillingRest(R, s, UNSELECTED, j, ad, text);
    } else {
      LaunchStep(R, s, UNSELECTED);
    }
  }

  // Cycles from here to DONE.
  function EdgesLeft(R: nat, m: SlinkPlane.Seen): int
    requires 0 < R <= 12
  {
    SlinkPlane.JobEdges(R, m.job) + 1 - m.edges
  }

  lemma RunningBound(R: nat, s: Peripheral, m: SlinkPlane.Seen)
    requires Running(R, s, m)
    ensures if s.eng.doneO then EdgesLeft(R, m) == 1 else EdgesLeft(R, m) > 1
    ensures SlinkPlane.Taken(m.job, m.words) && AxisEngine.JobFits(m.job)
  {
    hide SlinkPlane.JobEdges, CoreParams, AeadCore.Resting, SlinkPlane.Expected, SlinkPlane.AllSent, Captured,
         AeadCore.Busy, AeadCore.Outcome, AeadCore.Left, AeadCore.Delivered, SlinkPlane.Fill, SlinkPlane.AdText,
         SlinkPlane.MsgText;
    if !s.eng.st.Idle? {
      SlinkPlane.BusyIsBounded(R, PlaneOf(s, m), m);
    }
  }

  // Still running with fewer edges left, or finished with the result of the job.
  ghost predicate Progressing(R: nat, s: Peripheral, m: SlinkPlane.Seen, j: Job, words: seq<Word32>)
    requires 0 < R <= 12 && SlinkPlane.Taken(j, words) && AxisEngine.JobFits(j)
  {
    (Running(R, s, m) && m.job == j && m.words == words) || Finished(R, s, j, SlinkPlane.Expected(j, words))
  }

  // One cycle that neither writes nor reads DATA_OUT.
  lemma ProgressStep(R: nat, s: Peripheral, m: SlinkPlane.Seen, i: Access, j: Job, words: seq<Word32>)
    returns (m': SlinkPlane.Seen)
    requires 0 < R <= 12 && Fits(s) && SlinkPlane.Taken(j, words) && AxisEngine.JobFits(j)
    requires Progressing(R, s, m, j, words) && Harmless(i)
    ensures Progressing(R, Clock(R, s, i), m', j, words)
    ensures !Finished(R, Clock(R, s, i), j, SlinkPlane.Expected(j, words)) ==> EdgesLeft(R, m') == EdgesLeft(R, m) - 1
    ensures Finished(R, s, j, SlinkPlane.Expected(j, words)) ==> Clock(R, s, i) == s
  {
    hide Clock, Running, Finished, SlinkPlane.JobEdges, SlinkPlane.Expected, SlinkPlane.Taken, Fits;
    m' := m;
    if Finished(R, s, j, SlinkPlane.Expected(j, words)) {
      FinishedStays(R, s, i, j, SlinkPlane.Expected(j, words));
    } else if EngineDone(s) {
      RunningEnds(R, s, m, i);
    } else {
      m' := RunningStep(R, s, m, i);
    }
  }

  lemma FinishedStays(R: nat, s: Peripheral, i: Access, j: Job, r: Sealed)
    requires Finished(R, s, j, r) && Harmless(i)
    ensures Clock(R, s, i) == s
  {
    hide Clock;
    HarmlessStays(R, s, i);
  }

  predicate EngineDone(s: Peripheral) { s.eng.doneO }

  lemma HarmlessStays(R: nat, s: Peripheral, i: Access)
    requires Settled(R, s) && Harmless(i)
    ensures Clock(R, s, i) == s
  {
    hide Settled, Clock;
    SettledStep(R, s, i);
  }
}
