// The Opus packetiser and the placing of sound on its clock. Models put, stamp,
// encode, deliver, frames_at and the loop of encode_task in
// components/kvm_audio/opus.c. The encoder itself may fail on any packet.

// The stream as a value: every 48 kHz frame since the encoder opened.
module OpusTimeline {
  import opened Resampling

  const FRAMES := 960               // one packet, 20 ms
  const SLACK := OUT_RATE / 50      // taken where it falls
  const LAG_US := 400000
  const SILENT := Frame(0, 0)

  // One frame of the stream: whether a block brought it, and where the clock
  // says it belongs, which for made-up silence is where it is.
  datatype Slot = Slot(frame: Frame, sound: bool, due: int)

  datatype Event =
    | Block(atUs: int, frames: seq<Frame>)  // resampled sound and its capture time
    | Quiet(nowUs: int)                     // none came for a while

  // Division rounds toward zero, for times before the start as well.
  function CutDiv(a: int, b: int): (q: int)
    requires b > 0
    ensures a >= 0 ==> q * b <= a < q * b + b
    ensures a <= 0 ==> q * b - b < a <= q * b
  {
    if a >= 0 then a / b else -((-a) / b)
  }

  function FramesAt(originUs: int, us: int): int {
    CutDiv((us - originUs) * OUT_RATE, 1000000)
  }

  // f is the frame that a time falls in, counted from the origin; before it the
  // count rounds toward the origin too.
  predicate FallsIn(originUs: int, us: int, f: int) {
    if us >= originUs then f * 1000000 <= (us - originUs) * 48000 < f * 1000000 + 1000000
    else f * 1000000 - 1000000 < (us - originUs) * 48000 <= f * 1000000
  }

  /** The frame of a time is the one it falls in, and no other is. */
  lemma FramesAtIs(originUs: int, us: int, f: int)
    ensures FramesAt(originUs, us) == f <==> FallsIn(originUs, us, f)
  {
    var n, q := (us - originUs) * 48000, FramesAt(originUs, us);
    assert OUT_RATE == 48000 && q == CutDiv(n, 1000000);
    if us >= originUs {
      assert n >= 0 && q * 1000000 <= n < q * 1000000 + 1000000;
    } else {
      assert n <= 0 && q * 1000000 - 1000000 < n <= q * 1000000;
    }
  }

  function Silence(n: nat): (s: seq<Frame>)
    ensures |s| == n && forall i | 0 <= i < n :: s[i] == SILENT
  {
    seq(n, _ => SILENT)
  }

  function Slots(x: seq<Frame>, sound: bool, due: int): (s: seq<Slot>)
    ensures |s| == |x| && forall i | 0 <= i < |x| :: s[i] == Slot(x[i], sound, due + i)
  {
    seq(|x|, i requires 0 <= i < |x| => Slot(x[i], sound, due + i))
  }

  function Fill(line: seq<Slot>, n: nat): seq<Slot> {
    line + Slots(Silence(n), false, |line|)
  }

  function GapBefore(due: int, pos: nat): nat {
    if due > pos + SLACK then due - pos else 0
  }

  function CutFront(due: int, pos: nat, n: nat): (cut: nat)
    ensures cut <= n
  {
    if due >= pos - SLACK then 0 else if pos - due < n then pos - due else n
  }

  function Place(line: seq<Slot>, due: int, x: seq<Frame>): seq<Slot> {
    var cut := CutFront(due, |line|, |x|);
    Fill(line, GapBefore(due, |line|)) + Slots(x[cut..], true, due + cut)
  }

  function Next(line: seq<Slot>, originUs: int, e: Event): seq<Slot> {
    match e
    case Block(atUs, frames) => Place(line, FramesAt(originUs, atUs), frames)
    case Quiet(nowUs) =>
      var due := FramesAt(originUs, nowUs - LAG_US);
      if due > |line| then Fill(line, due - |line|) else line
  }

  function Run(originUs: int, es: seq<Event>): seq<Slot> {
    if es == [] then [] else Next(Run(originUs, es[..|es| - 1]), originUs, es[|es| - 1])
  }

  /** What a block does, by the frame its time falls in: within 20 ms of the end it
      goes right behind, further on the gap is filled with silence up to there, and
      earlier the part that is already filled is left out. */
  lemma BlockIsPlaced(line: seq<Slot>, originUs: int, atUs: int, x: seq<Frame>, f: int)
    requires FallsIn(originUs, atUs, f)
    ensures var next, pos := Next(line, originUs, Block(atUs, x)), |line|;
            && (pos - 960 <= f <= pos + 960 ==> next == line + Slots(x, true, f))
            && (f > pos + 960 ==> next == line + Slots(Silence(f - pos), false, pos) + Slots(x, true, f))
            && (f < pos - 960 && pos - f < |x| ==> next == line + Slots(x[pos - f..], true, pos))
            && (f < pos - 960 && pos - f >= |x| ==> next == line)
  {
    FramesAtIs(originUs, atUs, f);
    assert Fill(line, 0) == line && x[0..] == x;
    if f < |line| - 960 && |line| - f >= |x| {
      assert x[|x|..] == [];
    }
  }

  /** What a quiet moment does: with 400 ms to spare the stream is filled with
      silence up to the frame of that time, and no further. */
  lemma QuietIsFilled(line: seq<Slot>, originUs: int, nowUs: int, f: int)
    requires FallsIn(originUs, nowUs - 400000, f)
    ensures Next(line, originUs, Quiet(nowUs)) ==
              if f > |line| then line + Slots(Silence(f - |line|), false, |line|) else line
  {
    FramesAtIs(originUs, nowUs - 400000, f);
  }

  // No frame is more than the slack away from where its time says.
  predicate OnTime(line: seq<Slot>) {
    forall p | 0 <= p < |line| :: -SLACK <= p - line[p].due <= SLACK
  }

  /** A kept frame of a block lands within the slack of its due position, and
      exactly on it when a gap was filled or an overlap cut. */
  lemma PlacementIsTight(line: seq<Slot>, due: int, x: seq<Frame>, j: nat)
    requires CutFront(due, |line|, |x|) <= j < |x|
    ensures var gap, cut := GapBefore(due, |line|), CutFront(due, |line|, |x|);
            var p := |line| + gap + j - cut;
            && p < |Place(line, due, x)|
            && Place(line, due, x)[p] == Slot(x[j], true, due + j)
            && -SLACK <= p - (due + j) <= SLACK
            && (gap > 0 || cut > 0 ==> p == due + j)
            && (gap == 0 && cut == 0 ==> p - (due + j) == |line| - due)
  {
    var gap, cut := GapBefore(due, |line|), CutFront(due, |line|, |x|);
    var front, back := Fill(line, gap), Slots(x[cut..], true, due + cut);
    assert (front + back)[|front| + (j - cut)] == back[j - cut];
    assert x[cut..][j - cut] == x[j];
  }

  lemma NextIsOnTime(line: seq<Slot>, originUs: int, e: Event)
    requires OnTime(line)
    ensures OnTime(Next(line, originUs, e))
  {
  }

  /** Over every run of blocks and silences, whatever their times. */
  lemma {:induction false} DriftIsBounded(originUs: int, es: seq<Event>)
    ensures OnTime(Run(originUs, es))
  {
    if es != [] {
      DriftIsBounded(originUs, es[..|es| - 1]);
      NextIsOnTime(Run(originUs, es[..|es| - 1]), originUs, es[|es| - 1]);
    }
  }

  // ---- nothing but silence is made up, nothing but overlap is left out ----

  // The sound among the first n frames.
  function SoundTo(line: seq<Slot>, n: nat): seq<Frame>
    requires n <= |line|
  {
    if n == 0 then []
    else SoundTo(line, n - 1) + (if line[n - 1].sound then [line[n - 1].frame] else [])
  }

  function SoundOf(line: seq<Slot>): seq<Frame> {
    SoundTo(line, |line|)
  }

  predicate GapsAreSilent(line: seq<Slot>) {
    forall p | 0 <= p < |line| && !line[p].sound :: line[p].frame == SILENT
  }

  lemma {:induction false} SoundToAppend(line: seq<Slot>, x: seq<Frame>, sound: bool, due: int, k: nat)
    requires k <= |x|
    ensures SoundTo(line + Slots(x, sound, due), |line| + k) == SoundOf(line) + if sound then x[..k] else []
  {
    if k > 0 {
      SoundToAppend(line, x, sound, due, k - 1);
      assert x[..k] == x[..k - 1] + [x[k - 1]];
    } else {
      SoundToPrefix(line, Slots(x, sound, due), |line|);
    }
  }

  lemma {:induction false} SoundToPrefix(line: seq<Slot>, more: seq<Slot>, n: nat)
    requires n <= |line|
    ensures SoundTo(line + more, n) == SoundTo(line, n)
  {
    if n > 0 {
      SoundToPrefix(line, more, n - 1);
    }
  }

  lemma SoundOfSlots(line: seq<Slot>, x: seq<Frame>, sound: bool, due: int)
    ensures SoundOf(line + Slots(x, sound, due)) == SoundOf(line) + if sound then x else []
  {
    SoundToAppend(line, x, sound, due, |x|);
    assert x[..|x|] == x;
  }

  // What a block adds: all but the part that is already filled.
  function Kept(line: seq<Slot>, originUs: int, e: Event): seq<Frame> {
    if e.Block? then e.frames[CutFront(FramesAt(originUs, e.atUs), |line|, |e.frames|)..] else []
  }

  function KeptOf(originUs: int, es: seq<Event>): seq<Frame> {
    if es == [] then []
    else KeptOf(originUs, es[..|es| - 1]) + Kept(Run(originUs, es[..|es| - 1]), originUs, es[|es| - 1])
  }

  lemma FillKeepsSound(line: seq<Slot>, n: nat)
    ensures SoundOf(Fill(line, n)) == SoundOf(line)
    ensures GapsAreSilent(line) ==> GapsAreSilent(Fill(line, n))
  {
    SoundOfSlots(line, Silence(n), false, |line|);
  }

  lemma PlaceKeepsSound(line: seq<Slot>, due: int, x: seq<Frame>)
    ensures SoundOf(Place(line, due, x)) == SoundOf(line) + x[CutFront(due, |line|, |x|)..]
    ensures GapsAreSilent(line) ==> GapsAreSilent(Place(line, due, x))
  {
    var gap, cut := GapBefore(due, |line|), CutFront(due, |line|, |x|);
    FillKeepsSound(line, gap);
    SoundOfSlots(Fill(line, gap), x[cut..], true, due + cut);
  }

  lemma NextKeepsSound(line: seq<Slot>, originUs: int, e: Event)
    ensures SoundOf(Next(line, originUs, e)) == SoundOf(line) + Kept(line, originUs, e)
    ensures GapsAreSilent(line) ==> GapsAreSilent(Next(line, originUs, e))
  {
    if e.Block? {
      PlaceKeepsSound(line, FramesAt(originUs, e.atUs), e.frames);
    } else {
      var due := FramesAt(originUs, e.nowUs - LAG_US);
      if due > |line| {
        FillKeepsSound(line, due - |line|);
      }
    }
  }

  /** The sound in the stream is the kept sound in order; the rest is silence. */
  lemma {:induction false} StreamIsKeptSound(originUs: int, es: seq<Event>)
    ensures SoundOf(Run(originUs, es)) == KeptOf(originUs, es)
    ensures GapsAreSilent(Run(originUs, es))
  {
    if es != [] {
      StreamIsKeptSound(originUs, es[..|es| - 1]);
      NextKeepsSound(Run(originUs, es[..|es| - 1]), originUs, es[|es| - 1]);
    }
  }
}

// What becomes of the packets.
module OpusPackets {
  import opened Resampling
  import opened OpusTimeline

  // One packet: its sound, whether its last piece was sound, whether the
  // encoder gave anything.
  datatype Made = Made(pcm: seq<Frame>, heard: bool, sent: bool)

  // A packet for the browser: its number, and whether it says "after a gap".
  datatype Live = Live(index: nat, resync: bool)

  predicate Delivered(m: Made) {
    m.heard && m.sent
  }

  function LiveOf(made: seq<Made>): seq<Live> {
    if made == [] then []
    else
      var n := |made| - 1;
      if Delivered(made[n]) then LiveOf(made[..n]) + [Live(n, n == 0 || !Delivered(made[n - 1]))]
      else LiveOf(made[..n])
  }

  predicate Stands(made: seq<Made>, l: Live) {
    l.index < |made| && Delivered(made[l.index])
  }

  lemma {:induction false} LiveIndices(made: seq<Made>)
    ensures forall i | 0 <= i < |LiveOf(made)| :: Stands(made, LiveOf(made)[i])
    ensures made != [] && Delivered(made[|made| - 1]) ==>
              LiveOf(made) != [] && LiveOf(made)[|LiveOf(made)| - 1].index == |made| - 1
  {
    if made != [] {
      var before := made[..|made| - 1];
      LiveIndices(before);
      forall i | 0 <= i < |LiveOf(made)| ensures Stands(made, LiveOf(made)[i]) {
        if i < |LiveOf(before)| {
          assert Stands(before, LiveOf(before)[i]);
        }
      }
    }
  }

  predicate MarkedRight(s: seq<Live>, i: nat)
    requires i < |s|
  {
    s[i].resync <==> i == 0 || s[i].index != s[i - 1].index + 1
  }

  /** A browser packet says "after a gap" exactly when the one it got before is
      not the one just before it in the stream. */
  lemma {:induction false} ResyncMarksGaps(made: seq<Made>)
    ensures forall i | 0 <= i < |LiveOf(made)| :: MarkedRight(LiveOf(made), i)
  {
    if made != [] {
      var n := |made| - 1;
      ResyncMarksGaps(made[..n]);
      LiveIndices(made[..n]);
      var before, s := LiveOf(made[..n]), LiveOf(made);
      forall i | 0 <= i < |s| ensures MarkedRight(s, i) {
        if i < |before| {
          assert MarkedRight(before, i);
        } else if i > 0 {
          assert Stands(made[..n], before[i - 1]);
        }
      }
    }
  }

  // ---- over restarts of the encoder ----

  const WRAP := 0x1_0000_0000

  datatype Session = Session(originUs: int, originTs: nat, made: seq<Made>)

  datatype Packet = Packet(ts: nat, startUs: int, resync: bool)

  // Time of packet k, 20 ms after the one before.
  function StartUs(originUs: int, index: nat): int {
    originUs + index * FRAMES * 1000000 / OUT_RATE
  }

  function Ts(originTs: nat, index: nat): nat {
    (originTs + index * FRAMES) % WRAP
  }

  function PacketOf(originUs: int, originTs: nat, l: Live): Packet {
    Packet(Ts(originTs, l.index), StartUs(originUs, l.index), l.resync)
  }

  function Stamped(originUs: int, originTs: nat, s: seq<Live>): (r: seq<Packet>)
    ensures |r| == |s|
    ensures forall i | 0 <= i < |s| :: r[i] == PacketOf(originUs, originTs, s[i])
  {
    seq(|s|, i requires 0 <= i < |s| => PacketOf(originUs, originTs, s[i]))
  }

  function Browser(sessions: seq<Session>): seq<Packet> {
    if sessions == [] then []
    else
      var last := sessions[|sessions| - 1];
      Browser(sessions[..|sessions| - 1]) + Stamped(last.originUs, last.originTs, LiveOf(last.made))
  }

  predicate GapsMarked(s: seq<Packet>) {
    && (s != [] ==> s[0].resync)
    && forall i | 0 < i < |s| && !s[i].resync :: Follows(s[i - 1], s[i])
  }

  // The next 20 ms.
  predicate Follows(p: Packet, q: Packet) {
    q.ts == (p.ts + 960) % WRAP && q.startUs == p.startUs + 20000
  }

  /** The first packet has the origin's stamps. */
  lemma StampsBegin(originUs: int, originTs: nat)
    requires originTs < WRAP
    ensures StartUs(originUs, 0) == originUs && Ts(originTs, 0) == originTs
  {
  }

  lemma NextTs(originUs: int, originTs: nat, index: nat)
    ensures Ts(originTs, index + 1) == (Ts(originTs, index) + 960) % WRAP
    ensures StartUs(originUs, index + 1) == StartUs(originUs, index) + 20000
  {
    assert (index + 1) * FRAMES * 1000000 == 20000 * (index + 1) * OUT_RATE;
    assert index * FRAMES * 1000000 == 20000 * index * OUT_RATE;
  }

  /** In everything the browser gets, over silences, encoder failures and encoder
      restarts, two packets in a row are 960 frames and 20 ms apart unless the
      second is marked. */
  lemma {:induction false} BrowserGapsAreMarked(sessions: seq<Session>)
    ensures GapsMarked(Browser(sessions))
  {
    if sessions != [] {
      var n := |sessions| - 1;
      BrowserGapsAreMarked(sessions[..n]);
      var before, last := Browser(sessions[..n]), sessions[n];
      var live := LiveOf(last.made);
      ResyncMarksGaps(last.made);
      assert live != [] ==> MarkedRight(live, 0);
      var s := Browser(sessions);
      forall i | 0 < i < |s| && !s[i].resync ensures Follows(s[i - 1], s[i]) {
        if i >= |before| {
          var k := i - |before|;
          assert s[i] == PacketOf(last.originUs, last.originTs, live[k]);
          assert MarkedRight(live, k);
          assert s[i - 1] == PacketOf(last.originUs, last.originTs, live[k - 1]);
          NextTs(last.originUs, last.originTs, live[k - 1].index);
        }
      }
    }
  }

  // ---- packets hold what was put in ----

  function FramesOf(line: seq<Slot>): (x: seq<Frame>)
    ensures |x| == |line| && forall i | 0 <= i < |line| :: x[i] == line[i].frame
  {
    seq(|line|, i requires 0 <= i < |line| => line[i].frame)
  }

  function PcmOf(made: seq<Made>): seq<Frame> {
    if made == [] then [] else PcmOf(made[..|made| - 1]) + made[|made| - 1].pcm
  }

  // Packet k is frames k*960 .. k*960+959; its last frame decides if it is heard.
  predicate Holds(m: Made, k: nat, line: seq<Slot>) {
    && |m.pcm| == FRAMES && k * FRAMES + FRAMES <= |line|
    && (forall i | 0 <= i < FRAMES :: m.pcm[i] == line[k * FRAMES + i].frame)
    && m.heard == line[k * FRAMES + FRAMES - 1].sound
  }

  // The packets made and the frames waiting for the next one are the line.
  predicate Cut(made: seq<Made>, rest: seq<Frame>, line: seq<Slot>) {
    && |line| == |made| * FRAMES + |rest|
    && (forall i | 0 <= i < |rest| :: rest[i] == line[|made| * FRAMES + i].frame)
    && forall k | 0 <= k < |made| :: Holds(made[k], k, line)
  }

  lemma HoldsStill(m: Made, k: nat, line: seq<Slot>, more: seq<Slot>)
    requires Holds(m, k, line)
    ensures Holds(m, k, line + more)
  {
  }

  lemma CutExtend(made: seq<Made>, rest: seq<Frame>, line: seq<Slot>, x: seq<Frame>, heard: bool, due: int)
    requires Cut(made, rest, line)
    ensures Cut(made, rest + x, line + Slots(x, heard, due))
  {
    forall k | 0 <= k < |made| ensures Holds(made[k], k, line + Slots(x, heard, due)) {
      HoldsStill(made[k], k, line, Slots(x, heard, due));
    }
  }

  lemma CutFull(made: seq<Made>, rest: seq<Frame>, line: seq<Slot>, m: Made)
    requires Cut(made, rest, line) && |rest| == FRAMES
    requires m.pcm == rest && m.heard == line[|line| - 1].sound
    ensures Cut(made + [m], [], line)
  {
    assert Holds(m, |made|, line);
  }

  lemma CutPrefix(made: seq<Made>, rest: seq<Frame>, line: seq<Slot>)
    requires Cut(made, rest, line) && made != []
    ensures Cut(made[..|made| - 1], [], line[..(|made| - 1) * FRAMES])
    ensures FramesOf(line[..|made| * FRAMES]) == FramesOf(line[..(|made| - 1) * FRAMES]) + made[|made| - 1].pcm
  {
    var n := |made| - 1;
    forall k | 0 <= k < n ensures Holds(made[k], k, line[..n * FRAMES]) {
      assert Holds(made[k], k, line);
    }
    assert Holds(made[n], n, line);
  }

  lemma {:induction false} PcmOfIs(made: seq<Made>, rest: seq<Frame>, line: seq<Slot>)
    requires Cut(made, rest, line)
    ensures PcmOf(made) == FramesOf(line[..|made| * FRAMES])
    decreases |made|
  {
    if made != [] {
      var part := line[..(|made| - 1) * FRAMES];
      CutPrefix(made, rest, line);
      PcmOfIs(made[..|made| - 1], [], part);
      assert part[..(|made| - 1) * FRAMES] == part;
    }
  }

  /** The packets one after another, and the frames not yet in one, are exactly
      what was put in, and the counts agree. */
  lemma PacketsConserve(made: seq<Made>, rest: seq<Frame>, line: seq<Slot>)
    requires Cut(made, rest, line)
    ensures PcmOf(made) + rest == FramesOf(line)
    ensures |line| == |made| * FRAMES + |rest|
  {
    PcmOfIs(made, rest, line);
  }

  // ---- silence that is not encoded ----

  lemma {:induction false} LiveFromOutcomes(a: seq<Made>, b: seq<Made>)
    requires |a| == |b|
    requires forall k | 0 <= k < |a| :: a[k].heard == b[k].heard && (a[k].heard ==> a[k].sent == b[k].sent)
    ensures LiveOf(a) == LiveOf(b)
  {
    if a != [] {
      LiveFromOutcomes(a[..|a| - 1], b[..|b| - 1]);
    }
  }

  /** The frames put in decide the packets, however the silent ones are made: two
      sessions with one line have the same packets and the same frames left, and
      the browser gets the same of both when the encoder does the same with the
      packets that are heard. */
  lemma SilenceShortcutIsUnseen(a: seq<Made>, restA: seq<Frame>, b: seq<Made>, restB: seq<Frame>, line: seq<Slot>)
    requires Cut(a, restA, line) && |restA| < FRAMES
    requires Cut(b, restB, line) && |restB| < FRAMES
    ensures |a| == |b| && restA == restB
    ensures forall k | 0 <= k < |a| :: a[k].pcm == b[k].pcm && a[k].heard == b[k].heard
    ensures (forall k | 0 <= k < |a| && a[k].heard :: a[k].sent == b[k].sent) ==> LiveOf(a) == LiveOf(b)
  {
    forall k | 0 <= k < |a| ensures a[k].pcm == b[k].pcm && a[k].heard == b[k].heard {
      assert Holds(a[k], k, line) && Holds(b[k], k, line);
    }
    if forall k | 0 <= k < |a| && a[k].heard :: a[k].sent == b[k].sent {
      LiveFromOutcomes(a, b);
    }
  }

  predicate Heard(made: seq<Made>, k: nat) {
    exists i :: 0 <= i < |LiveOf(made)| && LiveOf(made)[i].index == k
  }

  lemma {:induction false} HeardIsDelivered(made: seq<Made>, k: nat)
    requires k < |made|
    ensures Heard(made, k) <==> Delivered(made[k])
  {
    var n := |made| - 1;
    LiveIndices(made);
    if i :| 0 <= i < |LiveOf(made)| && LiveOf(made)[i].index == k {
      assert Stands(made, LiveOf(made)[i]);
    }
    if k < n {
      HeardIsDelivered(made[..n], k);
      if i :| 0 <= i < |LiveOf(made[..n])| && LiveOf(made[..n])[i].index == k {
        assert LiveOf(made)[i].index == k;
      }
    } else if Delivered(made[n]) {
      assert LiveOf(made)[|LiveOf(made)| - 1].index == k;
    }
  }

  /** A packet reaches the browser exactly when its last frame is sound and the
      encoder took it; 959 frames of sound before a made-up one do not count. */
  lemma {:induction false} LastFrameDecides(made: seq<Made>, rest: seq<Frame>, line: seq<Slot>, k: nat)
    requires Cut(made, rest, line) && k < |made|
    ensures k * FRAMES + FRAMES <= |line|
    ensures Heard(made, k) <==> line[k * FRAMES + FRAMES - 1].sound && made[k].sent
  {
    HeardIsDelivered(made, k);
    assert Holds(made[k], k, line);
  }

  // Four blocks in time, one frame short of a packet, and then nothing.
  function AlmostAPacket(a: seq<Frame>, b: seq<Frame>, c: seq<Frame>, d: seq<Frame>): seq<Event> {
    [Block(0, a), Block(5000, b), Block(10000, c), Block(15000, d), Quiet(LAG_US + 20000)]
  }

  lemma PlacedInTime(line: seq<Slot>, x: seq<Frame>)
    ensures Place(line, |line|, x) == line + Slots(x, true, |line|)
  {
    assert Fill(line, 0) == line && x[0..] == x;
  }

  lemma NextInTime(line: seq<Slot>, us: int, x: seq<Frame>)
    requires FramesAt(0, us) == |line|
    ensures Next(line, 0, Block(us, x)) == line + Slots(x, true, |line|)
  {
    PlacedInTime(line, x);
  }

  lemma AlmostAPacketLine(a: seq<Frame>, b: seq<Frame>, c: seq<Frame>, d: seq<Frame>)
    requires |a| == |b| == |c| == 240 && |d| == 239
    ensures var line := Run(0, AlmostAPacket(a, b, c, d));
            |line| == FRAMES && (forall i | 0 <= i < FRAMES - 1 :: line[i].sound) && !line[FRAMES - 1].sound
  {
    var s4 := FourBlocks(a, b, c, d);
    assert s4 + [Quiet(LAG_US + 20000)] == AlmostAPacket(a, b, c, d);
    FourBlocksAreSound(a, b, c, d);
    RunMore(s4, Quiet(LAG_US + 20000));
    assert FramesAt(0, 20000) == FRAMES;
  }

  function FourBlocks(a: seq<Frame>, b: seq<Frame>, c: seq<Frame>, d: seq<Frame>): seq<Event> {
    [Block(0, a), Block(5000, b), Block(10000, c), Block(15000, d)]
  }

  lemma FourBlocksAreSound(a: seq<Frame>, b: seq<Frame>, c: seq<Frame>, d: seq<Frame>)
    requires |a| == |b| == |c| == 240 && |d| == 239
    ensures var l := Run(0, FourBlocks(a, b, c, d)); |l| == FRAMES - 1 && forall i | 0 <= i < |l| :: l[i].sound
  {
    var s1, s2, s3 := [Block(0, a)], [Block(0, a), Block(5000, b)], [Block(0, a), Block(5000, b), Block(10000, c)];
    assert [] + [Block(0, a)] == s1 && s1 + [Block(5000, b)] == s2 && s2 + [Block(10000, c)] == s3;
    assert s3 + [Block(15000, d)] == FourBlocks(a, b, c, d);
    RunMore([], Block(0, a));
    NextInTime([], 0, a);
    RunMore(s1, Block(5000, b));
    NextInTime(Run(0, s1), 5000, b);
    RunMore(s2, Block(10000, c));
    NextInTime(Run(0, s2), 10000, c);
    RunMore(s3, Block(15000, d));
    NextInTime(Run(0, s3), 15000, d);
  }

  lemma RunMore(es: seq<Event>, e: Event)
    ensures Run(0, es + [e]) == Next(Run(0, es), 0, e)
  {
    assert (es + [e])[..|es|] == es;
  }

  /** 959 frames of sound and one of made-up silence, whatever the sound and the
      encoder: one packet, which nobody hears. */
  lemma MostlySoundIsNotHeard(a: seq<Frame>, b: seq<Frame>, c: seq<Frame>, d: seq<Frame>,
                              made: seq<Made>, rest: seq<Frame>)
    requires |a| == |b| == |c| == 240 && |d| == 239
    requires Cut(made, rest, Run(0, AlmostAPacket(a, b, c, d))) && |rest| < FRAMES
    ensures |made| == 1 && !Heard(made, 0)
  {
    AlmostAPacketLine(a, b, c, d);
    LastFrameDecides(made, rest, Run(0, AlmostAPacket(a, b, c, d)), 0);
  }
}

module OpusTask {
  import opened Resampling
  import opened OpusTimeline
  import opened OpusPackets

  // What the browser has got, and whether the next packet follows a gap; what is
  // heard went through the encoder.
  ghost predicate GotIs(o: Origin, made: seq<Made>, got: seq<Packet>, gap: bool, encodes: nat -> bool) {
    && got == Stamped(o.us, o.ts, LiveOf(made)) && gap == (made == [] || !Delivered(made[|made| - 1]))
    && forall k | 0 <= k < |made| && made[k].heard :: made[k].sent == encodes(k)
  }

  datatype Origin = Origin(us: int, ts: nat)

  lemma OneMoreGot(o: Origin, made: seq<Made>, got: seq<Packet>, gap: bool, m: Made, encodes: nat -> bool)
    requires GotIs(o, made, got, gap, encodes) && (m.heard ==> m.sent == encodes(|made|))
    ensures var l := Live(|made|, gap);
            GotIs(o, made + [m], if Delivered(m) then got + [PacketOf(o.us, o.ts, l)] else got, !Delivered(m), encodes)
  {
    assert (made + [m])[..|made|] == made;
    var live, l := LiveOf(made), Live(|made|, gap);
    assert Stamped(o.us, o.ts, live + [l]) == Stamped(o.us, o.ts, live) + [PacketOf(o.us, o.ts, l)];
  }

  class Packetiser {
    var originUs: int
    var originTs: nat
    var written: nat
    var packets: nat
    var have: nat
    var liveGap: bool
    var silenceReady: bool
    var encodes: nat -> bool        // the encoder: whether packet k comes out
    var pkt: Packet                 // the stamps of the packet being made
    const pcm: array<Frame>

    ghost var line: seq<Slot>
    ghost var made: seq<Made>
    ghost var got: seq<Packet>      // what the browser got of this session

    ghost predicate LiveOk()
      reads this
    {
      packets == |made| && GotIs(Origin(originUs, originTs), made, got, liveGap, encodes)
    }

    ghost predicate Valid()
      reads this, pcm
    {
      && pcm.Length == FRAMES && have < FRAMES
      && written == |line|
      && Cut(made, pcm[..have], line)
      && LiveOk()
    }

    constructor ()
      ensures Valid() && fresh(pcm) && line == [] && made == []
    {
      originUs, originTs, written, packets, have := 0, 0, 0, 0, 0;
      liveGap, silenceReady, encodes := true, false, _ => false;
      pcm := new Frame[FRAMES](_ => SILENT);
      pkt := Packet(0, 0, false);
      line, made, got := [], [], [];
    }

    method Open(nowUs: int, ready: bool, encoder: nat -> bool)
      requires nowUs >= 0
      requires pcm.Length == FRAMES
      modifies this
      ensures Valid() && line == [] && made == [] && originUs == nowUs
      ensures originTs == nowUs * 48 / 1000 % WRAP
      ensures silenceReady == ready && encodes == encoder
    {
      silenceReady, encodes := ready, encoder;
      originUs := nowUs;
      originTs := originUs * 48 / 1000 % WRAP;
      written, packets, have := 0, 0, 0;
      liveGap := true;
      line, made, got := [], [], [];
    }

    /** The packet's time and count, and one packet more. */
    method Stamp()
      modifies this`pkt, this`packets
      ensures packets == old(packets) + 1
      ensures pkt.startUs == StartUs(originUs, old(packets)) && pkt.ts == Ts(originTs, old(packets))
    {
      pkt := pkt.(startUs := originUs + packets * FRAMES * 1000000 / OUT_RATE);
      pkt := pkt.(ts := (originTs + packets * FRAMES) % WRAP);
      packets := packets + 1;
    }

    /** Hand the packet just made to the browser's readers, or note the gap. */
    method Deliver(heard: bool, ghost before: seq<Made>, ghost m: Made)
      requires packets == |before| + 1 && m.sent && m.heard == heard && (heard ==> encodes(|before|))
      requires GotIs(Origin(originUs, originTs), before, got, liveGap, encodes)
      requires pkt.startUs == StartUs(originUs, |before|) && pkt.ts == Ts(originTs, |before|)
      modifies this`liveGap, this`got, this`pkt
      ensures GotIs(Origin(originUs, originTs), before + [m], got, liveGap, encodes)
    {
      OneMoreGot(Origin(originUs, originTs), before, got, liveGap, m, encodes);
      if heard {
        pkt := pkt.(resync := liveGap);
        got := got + [pkt];
        liveGap := false;
      } else {
        liveGap := true;
      }
    }

    method Encode(heard: bool) returns (ghost m: Made)
      requires pcm.Length == FRAMES && LiveOk()
      modifies this`packets, this`made, this`got, this`pkt, this`liveGap
      ensures LiveOk()
      ensures made == old(made) + [m] && m.pcm == pcm[..] && m.heard == heard
    {
      var sent := encodes(packets);
      m := Made(pcm[..], heard, sent);
      ghost var before := made;
      Stamp();
      made := before + [m];
      if !sent {
        OneMoreGot(Origin(originUs, originTs), before, got, liveGap, m, encodes);
        liveGap := true;
        return;
      }
      Deliver(heard, before, m);
    }

    // Frames into the packet being filled.
    method Copy(x: seq<Frame>)
      requires pcm.Length == FRAMES && have + |x| <= FRAMES
      modifies pcm
      ensures pcm[..have + |x|] == old(pcm[..have]) + x
    {
      forall i | 0 <= i < |x| {
        pcm[have + i] := x[i];
      }
      assert forall i | 0 <= i < have :: pcm[i] == old(pcm[i]);
    }

    // A whole packet of silence, made once and not encoded again.
    method ReadySilence()
      requires Valid() && have == 0
      modifies this`packets, this`made, this`got, this`pkt, this`liveGap, this`written, this`line
      ensures Valid()
      ensures line == Fill(old(line), FRAMES)
    {
      ghost var m := Made(Silence(FRAMES), false, true);
      assert pcm[..have] == [];
      SilentPacket(made, line, m);
      FilledLength(line, FRAMES);
      line := Fill(line, FRAMES);
      SendReady(m);
      written := written + FRAMES;
    }

    method SendReady(ghost m: Made)
      requires LiveOk() && m.sent && !m.heard
      modifies this`packets, this`made, this`got, this`pkt, this`liveGap
      ensures LiveOk() && made == old(made) + [m]
    {
      ghost var before := made;
      Stamp();
      made := before + [m];
      Deliver(false, before, m);
    }

    // The packet is full: off it goes.
    method Flush(heard: bool)
      requires pcm.Length == FRAMES && written == |line| && LiveOk()
      requires Cut(made, pcm[..], line) && line != [] && heard == line[|line| - 1].sound
      modifies this`packets, this`made, this`got, this`pkt, this`liveGap, this`have
      ensures Valid()
    {
      ghost var before := made;
      ghost var m := Encode(heard);
      CutFull(before, pcm[..], line, m);
      have := 0;
    }

    // One piece of sound or silence, up to the end of the packet.
    method Piece(x: seq<Frame>, heard: bool, ghost due: int)
      requires Valid()
      requires 0 < |x| <= FRAMES - have
      modifies this`written, this`packets, this`have, this`liveGap, this`line, this`made, this`got, this`pkt, pcm
      ensures Valid()
      ensures line == old(line) + Slots(x, heard, due)
    {
      CutExtend(made, pcm[..have], line, x, heard, due);
      Copy(x);
      line := line + Slots(x, heard, due);
      have := have + |x|;
      written := written + |x|;
      if have == FRAMES {
        assert pcm[..have] == pcm[..];
        Flush(heard);
      }
    }

    // As much of x as fits in this packet, or a ready packet of silence. What
    // is left belongs right behind it.
    method PutSome(x: seq<Frame>, heard: bool, ghost due: int) returns (rest: seq<Frame>, ghost next: int)
      requires Valid() && x != []
      requires !heard ==> due == |line| && x == Silence(|x|)
      modifies this`written, this`packets, this`have, this`liveGap, this`line, this`made, this`got, this`pkt, pcm
      ensures Valid()
      ensures |rest| < |x| && (!heard ==> next == |line| && rest == Silence(|rest|))
      ensures line + Slots(rest, heard, next) == old(line) + Slots(x, heard, due)
    {
      var k := FRAMES;
      if !heard && silenceReady && have == 0 && |x| >= FRAMES {
        assert x[..FRAMES] == Silence(FRAMES);
        ReadySilence();
      } else {
        k := FRAMES - have;
        if k > |x| {
          k := |x|;
        }
        Piece(x[..k], heard, due);
      }
      SlotsSplit(old(line), x, k, heard, due);
      rest, next := x[k..], due + k;
    }

    /** Frames onto the stream: sound, or as many of silence. */
    method Put(x: seq<Frame>, heard: bool, ghost due: int)
      requires Valid()
      requires !heard ==> due == |line| && x == Silence(|x|)
      modifies this`written, this`packets, this`have, this`liveGap, this`line, this`made, this`got, this`pkt, pcm
      ensures Valid()
      ensures line == old(line) + Slots(x, heard, due)
    {
      var left := x;
      ghost var at, all := due, line + Slots(x, heard, due);
      while left != []
        invariant Valid()
        invariant !heard ==> at == |line| && left == Silence(|left|)
        invariant all == line + Slots(left, heard, at)
        decreases |left|
      {
        left, at := PutSome(left, heard, at);
      }
    }

    // Where the clock puts a block: after a filled gap, or less an overlap.
    method Align(due: int, n: nat) returns (skip: nat)
      requires Valid()
      modifies this`written, this`packets, this`have, this`liveGap, this`line, this`made, this`got, this`pkt, pcm
      ensures Valid()
      ensures line == Fill(old(line), GapBefore(due, |old(line)|))
      ensures skip == CutFront(due, |old(line)|, n)
    {
      var pos := written;
      skip := 0;
      assert Fill(line, 0) == line;
      if due > pos + SLACK {
        Put(Silence(due - pos), false, |line|);
      } else if due < pos - SLACK {
        skip := if pos - due < n then pos - due else n;
      }
    }

    /** One round of the encoder's loop: a block where its capture time says. */
    method PutBlock(atUs: int, x: seq<Frame>)
      requires Valid()
      modifies this`written, this`packets, this`have, this`liveGap, this`line, this`made, this`got, this`pkt, pcm
      ensures Valid()
      ensures line == Next(old(line), originUs, Block(atUs, x))
    {
      PutAt(FramesAt(originUs, atUs), x);
    }

    method PutAt(due: int, x: seq<Frame>)
      requires Valid()
      modifies this`written, this`packets, this`have, this`liveGap, this`line, this`made, this`got, this`pkt, pcm
      ensures Valid()
      ensures line == Place(old(line), due, x)
    {
      ghost var was := line;
      var skip := Align(due, |x|);
      PutFrom(due, x, skip, was);
    }

    // The frames that Align left of the block.
    method PutFrom(due: int, x: seq<Frame>, skip: nat, ghost was: seq<Slot>)
      requires Valid()
      requires line == Fill(was, GapBefore(due, |was|)) && skip == CutFront(due, |was|, |x|)
      modifies this`written, this`packets, this`have, this`liveGap, this`line, this`made, this`got, this`pkt, pcm
      ensures Valid()
      ensures line == Place(was, due, x)
    {
      PlaceIs(was, due, x, line, skip);
      Put(x[skip..], true, due + skip);
    }

    /** No sound for a while: silence keeps the count up with the time. */
    method KeepUp(nowUs: int)
      requires Valid()
      modifies this`written, this`packets, this`have, this`liveGap, this`line, this`made, this`got, this`pkt, pcm
      ensures Valid()
      ensures line == Next(old(line), originUs, Quiet(nowUs))
    {
      var due := FramesAt(originUs, nowUs - LAG_US);
      if due > written {
        Put(Silence(due - written), false, |line|);
      }
    }

    /** A session of the encoder's task, from its opening over its events. */
    method Session(nowUs: int, ready: bool, encoder: nat -> bool, es: seq<Event>)
      requires nowUs >= 0 && pcm.Length == FRAMES
      modifies this, pcm
      ensures Valid() && originUs == nowUs && line == Run(nowUs, es)
      ensures originTs == nowUs * 48 / 1000 % WRAP
      ensures silenceReady == ready && encodes == encoder
    {
      Open(nowUs, ready, encoder);
      assert es[..0] == [];
      for i := 0 to |es|
        invariant Valid() && originUs == nowUs && line == Run(nowUs, es[..i])
        invariant originTs == nowUs * 48 / 1000 % WRAP && silenceReady == ready && encodes == encoder
      {
        assert es[..i + 1][..i] == es[..i];
        match es[i]
        case Block(atUs, x) => PutBlock(atUs, x);
        case Quiet(us) => KeepUp(us);
      }
      assert es[..|es|] == es;
    }
  }

  /** Two sessions given the same events, one with a ready silent packet and one
      without, or both or neither: the same packets, and the browser gets the
      same, whatever the encoder does with the packets that are heard. */
  lemma SessionsSoundTheSame(p: Packetiser, q: Packetiser, es: seq<Event>)
    requires p.Valid() && q.Valid() && p.originUs == q.originUs && p.originTs == q.originTs
    requires p.line == Run(p.originUs, es) && q.line == Run(q.originUs, es)
    requires forall k | 0 <= k < |p.made| && p.made[k].heard :: p.encodes(k) == q.encodes(k)
    ensures p.packets == q.packets && p.have == q.have && p.pcm[..p.have] == q.pcm[..q.have]
    ensures PcmOf(p.made) == PcmOf(q.made)
    ensures LiveOf(p.made) == LiveOf(q.made) && p.got == q.got
  {
    SilenceShortcutIsUnseen(p.made, p.pcm[..p.have], q.made, q.pcm[..q.have], p.line);
    PcmOfIs(p.made, p.pcm[..p.have], p.line);
    PcmOfIs(q.made, q.pcm[..q.have], q.line);
  }

  lemma FilledLength(line: seq<Slot>, n: nat)
    ensures |Fill(line, n)| == |line| + n
  {
  }

  lemma SilentPacket(made: seq<Made>, line: seq<Slot>, m: Made)
    requires Cut(made, [], line) && m == Made(Silence(FRAMES), false, true)
    ensures Cut(made + [m], [], Fill(line, FRAMES))
  {
    CutExtend(made, [], line, m.pcm, false, |line|);
    assert [] + m.pcm == m.pcm;
    CutFull(made, m.pcm, Fill(line, FRAMES), m);
  }

  lemma SlotsSplit(line: seq<Slot>, x: seq<Frame>, k: nat, heard: bool, due: int)
    requires k <= |x|
    ensures line + Slots(x, heard, due) == line + Slots(x[..k], heard, due) + Slots(x[k..], heard, due + k)
    ensures x == Silence(|x|) ==> x[k..] == Silence(|x[k..]|)
  {
    assert Slots(x, heard, due) == Slots(x[..k], heard, due) + Slots(x[k..], heard, due + k);
  }

  lemma PlaceIs(line: seq<Slot>, due: int, x: seq<Frame>, filled: seq<Slot>, skip: nat)
    requires filled == Fill(line, GapBefore(due, |line|)) && skip == CutFront(due, |line|, |x|)
    ensures filled + Slots(x[skip..], true, due + skip) == Place(line, due, x)
  {
  }
}
