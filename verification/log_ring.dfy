// The log ring that survives a restart, and the task that drains it into the
// numbered tail. Models ring_write, drain_once, kvm_log_start_tail and
// kvm_log_read in components/kvm_log/kvm_log.c.

module LogRing {

  const RING_BYTES := 12288
  const WRAP := 0x1_0000_0000

  type uint32 = x: int | 0 <= x < WRAP

  // An over-long line keeps its end.
  function Tail(text: seq<char>): (t: seq<char>)
    ensures |t| <= RING_BYTES
  {
    if |text| > RING_BYTES then text[|text| - RING_BYTES..] else text
  }

  function Min(a: int, b: int): int {
    if a < b then a else b
  }

  // The last n bytes of a stream, or all of it.
  function Newest(s: seq<char>, n: nat): seq<char> {
    s[|s| - Min(|s|, n)..]
  }

  function Slot(i: nat): (j: nat)
    ensures j < RING_BYTES
  {
    i % RING_BYTES
  }

  // The buffer holds the newest bytes of the stream, each in its slot.
  predicate Mirrored(buf: seq<char>, all: seq<char>) {
    && |buf| == RING_BYTES
    && forall i {:trigger Slot(i)} | |all| - Min(|all|, RING_BYTES) <= i < |all| :: buf[Slot(i)] == all[i]
  }

  // Where the byte i places after p lies.
  lemma SlotAfter(p: nat, i: nat)
    requires i <= RING_BYTES
    ensures Slot(p + i) == if Slot(p) + i < RING_BYTES then Slot(p) + i else Slot(p) + i - RING_BYTES
  {
  }

  lemma SlotAdd(n: nat, k: nat)
    ensures (Slot(n) + k) % RING_BYTES == Slot(n + k)
  {
  }

  lemma SlotBack(n: nat, k: nat)
    requires k <= Min(n, RING_BYTES)
    ensures (Slot(n) + RING_BYTES - k) % RING_BYTES == Slot(n - k)
  {
  }

  lemma CounterAdd(n: nat, k: nat)
    ensures (n % WRAP + k) % WRAP == (n + k) % WRAP
  {
  }

  // What the two copies of a write leave in the buffer.
  predicate Written(was: seq<char>, now: seq<char>, head: nat, t: seq<char>) {
    && |was| == |now| == RING_BYTES && |t| <= RING_BYTES && head < RING_BYTES
    && forall j | 0 <= j < RING_BYTES ::
         now[j] == if head <= j < head + |t| then t[j - head]
                   else if j < head + |t| - RING_BYTES then t[j + RING_BYTES - head]
                   else was[j]
  }

  lemma WriteKeepsMirror(was: seq<char>, now: seq<char>, all: seq<char>, t: seq<char>)
    requires Mirrored(was, all) && |t| <= RING_BYTES
    requires Written(was, now, Slot(|all|), t)
    ensures Mirrored(now, all + t)
  {
    var next := all + t;
    forall i | |next| - Min(|next|, RING_BYTES) <= i < |next| ensures now[Slot(i)] == next[i] {
      if i < |all| {
        SlotAfter(i, |all| - i);
      } else {
        SlotAfter(|all|, i - |all|);
      }
    }
  }

  lemma SlotRound(p: nat, rounds: nat)
    ensures Slot(p + rounds * RING_BYTES) == Slot(p)
  {
  }

  /** Of the bytes a drain is about to copy, the oldest is still in its slot if and
      only if no more than the rest of the ring has been written since; else a
      later byte is there. */
  lemma OldestSurvivesExactly(buf: seq<char>, all: seq<char>, more: seq<char>, undrained: nat) returns (q: nat)
    requires Mirrored(buf, all + more) && 0 < undrained <= Min(|all|, RING_BYTES)
    ensures var p := |all| - undrained;
            && p <= q < |all + more| && buf[Slot(p)] == (all + more)[q]
            && (q == p <==> |more| <= RING_BYTES - undrained)
  {
    var p, end := |all| - undrained, |all + more|;
    var rounds := (end - 1 - p) / RING_BYTES;
    q := p + rounds * RING_BYTES;
    SlotRound(p, rounds);
    assert end - RING_BYTES <= q < end;
    assert buf[Slot(q)] == (all + more)[q];
  }

  class Log {
    const buf: array<char>
    var head: nat
    var filled: nat
    var written: uint32
    // Every byte ever put in since the ring was last cleared.
    ghost var all: seq<char>

    ghost predicate Valid()
      reads this, buf
    {
      && buf.Length == RING_BYTES
      && head == Slot(|all|)
      && filled == Min(|all|, RING_BYTES)
      && written == |all| % WRAP
      && Mirrored(buf[..], all)
    }

    constructor ()
      ensures Valid() && fresh(buf) && all == []
    {
      buf := new char[RING_BYTES](_ => '\0');
      head, filled, written, all := 0, 0, 0, [];
    }

    // memcpy into the ring's buffer.
    method CopyIn(at: nat, data: seq<char>)
      requires at + |data| <= buf.Length
      modifies buf
      ensures forall i | 0 <= i < buf.Length ::
                buf[i] == if at <= i < at + |data| then data[i - at] else old(buf[i])
    {
      forall i | 0 <= i < |data| {
        buf[at + i] := data[i];
      }
    }

    method Store(t: seq<char>)
      requires buf.Length == RING_BYTES && head < RING_BYTES && |t| <= RING_BYTES
      modifies buf
      ensures Written(old(buf[..]), buf[..], head, t)
    {
      var first := if |t| < RING_BYTES - head then |t| else RING_BYTES - head;
      CopyIn(head, t[..first]);
      if |t| > first {
        CopyIn(0, t[first..]);
      }
    }

    method Write(text: seq<char>)
      requires Valid()
      modifies this, buf
      ensures Valid()
      ensures all == old(all) + Tail(text)
      ensures |text| <= RING_BYTES ==> all == old(all) + text
      ensures |text| > RING_BYTES ==> all == old(all) + text[|text| - RING_BYTES..]
    {
      var t := text;
      if |t| > RING_BYTES {
        t := t[|t| - RING_BYTES..];
      }
      Store(t);
      WriteKeepsMirror(old(buf[..]), buf[..], all, t);
      SlotAdd(|all|, |t|);
      CounterAdd(|all|, |t|);
      head := (head + |t|) % RING_BYTES;
      filled := if filled + |t| < RING_BYTES then filled + |t| else RING_BYTES;
      written := (written + |t|) % WRAP;
      all := all + t;
    }

    // memcpy out of the ring's buffer, from one slot on and round its end.
    method CopyOut(start: nat, want: nat, out: array<char>)
      requires buf.Length == RING_BYTES && out != buf && want <= out.Length
      requires start < RING_BYTES && want <= RING_BYTES
      modifies out
      ensures forall i | 0 <= i < want ::
                out[i] == buf[if start + i < RING_BYTES then start + i else start + i - RING_BYTES]
    {
      var first := if want < RING_BYTES - start then want else RING_BYTES - start;
      forall i | 0 <= i < first {
        out[i] := buf[start + i];
      }
      forall i | first <= i < want {
        out[i] := buf[i - first];
      }
    }

    /** The newest bytes, oldest first, as many as fit before the terminator. */
    method Read(out: array<char>, cap: nat) returns (want: nat)
      requires Valid() && out != buf && cap <= out.Length
      modifies out
      ensures Valid()
      ensures cap == 0 ==> want == 0 && out[..] == old(out[..])
      ensures cap > 0 ==> want == Min(Min(|all|, RING_BYTES), cap - 1)
      ensures cap > 0 ==> out[..want] == Newest(all, want) && out[want] == '\0'
      ensures cap > 0 ==> want <= |all| && out[..want] == all[|all| - want..]
      ensures cap > 0 ==> want <= RING_BYTES && want < cap && (want == |all| || want == RING_BYTES || want == cap - 1)
    {
      if cap == 0 {
        return 0;
      }
      var start := if filled < RING_BYTES then 0 else head;
      want := filled;
      if want > cap - 1 {
        start := (start + (want - (cap - 1))) % RING_BYTES;
        want := cap - 1;
      }
      StartSlot(|all|, want);
      CopyOut(start, want, out);
      NewestIs(buf[..], all, want, out[..want], start);
      out[want] := '\0';
    }
  }

  lemma NewestIs(buf: seq<char>, all: seq<char>, want: nat, got: seq<char>, start: nat)
    requires Mirrored(buf, all) && want <= Min(|all|, RING_BYTES) && |got| == want
    requires start == Slot(|all| - want)
    requires forall i | 0 <= i < want ::
               got[i] == buf[if start + i < RING_BYTES then start + i else start + i - RING_BYTES]
    ensures got == Newest(all, want)
  {
    forall i | 0 <= i < want ensures got[i] == all[|all| - want + i] {
      SlotAfter(|all| - want, i);
    }
  }

  lemma StartSlot(total: nat, want: nat)
    requires want <= Min(total, RING_BYTES)
    ensures var filled := Min(total, RING_BYTES);
            var oldest := if filled < RING_BYTES then 0 else Slot(total);
            && oldest == Slot(total - filled)
            && (oldest + (filled - want)) % RING_BYTES == Slot(total - want)
  {
  }
}

// What the tail says about the stream of log bytes.
module LogTail {
  import opened DecimalText
  import opened LogRing

  // The tail is made of stretches of the stream and notes for what is missing.
  datatype Part = Bytes(n: nat) | Lost(n: nat)

  function Note(n: nat): string {
    "\n[... " + Decimal(n) + " bytes of log lost ...]\n"
  }

  function Piece(all: seq<char>, lo: nat, n: nat): seq<char> {
    if lo + n <= |all| then all[lo..lo + n] else []
  }

  // A tail and the stream position it has come to.
  datatype Told = Told(text: seq<char>, at: nat)

  function Tell(parts: seq<Part>, all: seq<char>, from: nat): Told {
    if parts == [] then Told([], from)
    else TellMore(Tell(parts[..|parts| - 1], all, from), parts[|parts| - 1], all)
  }

  function TellMore(t: Told, p: Part, all: seq<char>): Told {
    match p
    case Bytes(n) => Told(t.text + Piece(all, t.at, n), t.at + n)
    case Lost(n) => Told(t.text + Note(n), t.at + n)
  }

  lemma {:induction false} TellGrows(parts: seq<Part>, all: seq<char>, more: seq<char>, from: nat)
    requires Tell(parts, all, from).at <= |all|
    ensures Tell(parts, all + more, from) == Tell(parts, all, from)
  {
    if parts != [] {
      var init := parts[..|parts| - 1];
      assert Tell(init, all, from).at <= |all|;
      TellGrows(init, all, more, from);
    }
  }

  lemma TellSnoc(parts: seq<Part>, p: Part, all: seq<char>, from: nat)
    ensures Tell(parts + [p], all, from) == TellMore(Tell(parts, all, from), p, all)
  {
    assert (parts + [p])[..|parts|] == parts;
  }

  /** A tail without notes is the stream, whole. */
  lemma {:induction false} NoNotesMeansNoGaps(parts: seq<Part>, all: seq<char>, from: nat)
    requires Tell(parts, all, from).at <= |all|
    requires forall i | 0 <= i < |parts| :: parts[i].Bytes?
    ensures from <= Tell(parts, all, from).at
    ensures Tell(parts, all, from).text == all[from..Tell(parts, all, from).at]
  {
    if parts != [] {
      var init, last := parts[..|parts| - 1], parts[|parts| - 1];
      assert parts == init + [last];
      TellSnoc(init, last, all, from);
      NoNotesMeansNoGaps(init, all, from);
      Stretch(all, from, Tell(init, all, from).at, last.n);
    }
  }

  lemma Stretch(all: seq<char>, from: nat, at: nat, n: nat)
    requires from <= at && at + n <= |all|
    ensures all[from..at] + Piece(all, at, n) == all[from..at + n]
  {
  }

  // ---- what a note says ----

  const BEFORE := "\n[... "
  const BEHIND := " bytes of log lost ...]\n"

  // A text with a number between these two.
  predicate IsNote(t: string) {
    && |t| > |BEFORE| + |BEHIND|
    && t[..|BEFORE|] == BEFORE && t[|t| - |BEHIND|..] == BEHIND
    && forall i | |BEFORE| <= i < |t| - |BEHIND| :: '0' <= t[i] <= '9'
  }

  // The number as a reader takes it.
  function CountRead(t: string): nat
    requires IsNote(t)
  {
    Value(t[|BEFORE|..|t| - |BEHIND|])
  }

  /** The number that the note of a loss prints is the loss. */
  lemma NoteReadsBack(n: nat)
    ensures IsNote(Note(n)) && CountRead(Note(n)) == n
  {
    var d, t := Decimal(n), Note(n);
    assert t == BEFORE + d + BEHIND;
    assert t[|BEFORE|..|t| - |BEHIND|] == d;
    forall i | |BEFORE| <= i < |t| - |BEHIND| ensures '0' <= t[i] <= '9' {
      assert t[i] == d[i - |BEFORE|];
    }
    DecimalReadsBack(n);
  }

  // The tail as a reader sees it: log text, and notes of what is missing.
  datatype Seen = Log(text: string) | Missing(note: string)

  function TextOf(seen: seq<Seen>): string {
    if seen == [] then []
    else
      TextOf(seen[..|seen| - 1]) + match seen[|seen| - 1] { case Log(text) => text case Missing(note) => note }
  }

  // One after another they account for every byte of the stream from one position
  // to the other: log text stands there, and a note has the number of the missing.
  predicate Accounts(seen: seq<Seen>, all: seq<char>, from: nat, at: int)
    decreases seen
  {
    if seen == [] then at == from
    else
      match seen[|seen| - 1]
      case Log(text) =>
        && from <= at - |text| <= at <= |all| && all[at - |text|..at] == text
        && Accounts(seen[..|seen| - 1], all, from, at - |text|)
      case Missing(note) =>
        && IsNote(note) && Accounts(seen[..|seen| - 1], all, from, at - CountRead(note))
  }

  function SeenOf(parts: seq<Part>, all: seq<char>, from: nat): seq<Seen> {
    if parts == [] then []
    else
      var init, last := parts[..|parts| - 1], parts[|parts| - 1];
      SeenOf(init, all, from) +
        [match last { case Bytes(n) => Log(Piece(all, Tell(init, all, from).at, n)) case Lost(n) => Missing(Note(n)) }]
  }

  lemma {:induction false} SeenAccounts(parts: seq<Part>, all: seq<char>, from: nat)
    requires Tell(parts, all, from).at <= |all|
    ensures var told := Tell(parts, all, from);
            && from <= told.at
            && TextOf(SeenOf(parts, all, from)) == told.text && Accounts(SeenOf(parts, all, from), all, from, told.at)
  {
    if parts != [] {
      var init, last := parts[..|parts| - 1], parts[|parts| - 1];
      SeenAccounts(init, all, from);
      var seen := SeenOf(parts, all, from);
      assert seen[..|seen| - 1] == SeenOf(init, all, from);
      if last.Lost? {
        NoteReadsBack(last.n);
      }
    }
  }

  // What is missing, by the notes.
  function MissingIn(seen: seq<Seen>): nat
    requires forall i | 0 <= i < |seen| && seen[i].Missing? :: IsNote(seen[i].note)
  {
    if seen == [] then 0
    else MissingIn(seen[..|seen| - 1]) + if seen[|seen| - 1].Missing? then CountRead(seen[|seen| - 1].note) else 0
  }

  function NotesIn(seen: seq<Seen>): nat {
    if seen == [] then 0
    else NotesIn(seen[..|seen| - 1]) + if seen[|seen| - 1].Missing? then |seen[|seen| - 1].note| else 0
  }

  /** So the bytes of the tail that are no notes, and the numbers in its notes, add
      up to the positions passed. */
  lemma {:induction false} NothingGoesUncounted(seen: seq<Seen>, all: seq<char>, from: nat, at: int)
    requires Accounts(seen, all, from, at)
    ensures forall i | 0 <= i < |seen| && seen[i].Missing? :: IsNote(seen[i].note)
    ensures |TextOf(seen)| - NotesIn(seen) + MissingIn(seen) == at - from
  {
    if seen != [] {
      var init, last := seen[..|seen| - 1], seen[|seen| - 1];
      NothingGoesUncounted(init, all, from, if last.Log? then at - |last.text| else at - CountRead(last.note));
      forall i | 0 <= i < |seen| && seen[i].Missing? ensures IsNote(seen[i].note) {
        if i < |init| {
          assert init[i] == seen[i];
        }
      }
    }
  }

  /** Two different losses never print the same note. */
  lemma NoteStatesTheCount(n: nat, m: nat)
    requires Note(n) == Note(m)
    ensures n == m
  {
    var d, e := Decimal(n), Decimal(m);
    assert |d| == |e| by {
      assert |Note(n)| == 6 + |d| + 24 && |Note(m)| == 6 + |e| + 24;
    }
    assert d == Note(n)[6..6 + |d|] && e == Note(m)[6..6 + |e|];
    DecimalReadsBack(n);
    DecimalReadsBack(m);
  }
}

module LogDrain {
  import opened Sequences
  import opened LogRing
  import opened LogTail
  import opened StreamRing

  // What other tasks write during a pass, in order.
  ghost function Others(writes: seq<seq<char>>): seq<char> {
    if writes == [] then [] else Others(writes[..|writes| - 1]) + Tail(writes[|writes| - 1])
  }

  // One pass of the drain: what other tasks write before it begins, and just
  // before each byte that it copies.
  datatype Pass = Pass(before: seq<seq<char>>, during: seq<seq<char>>)

  // The bytes a pass copies, by the wrapping counter.
  ghost function Fresh(all: seq<char>, at: nat): (n: nat)
    requires at <= |all|
    ensures n <= RING_BYTES
  {
    Min((|all| - at) % WRAP, RING_BYTES)
  }

  // What is written while it copies them.
  ghost function Meanwhile(all: seq<char>, at: nat, during: seq<seq<char>>): seq<char>
    requires at <= |all| && |during| == RING_BYTES
  {
    Others(during[..Fresh(all, at)])
  }

  // It fits beside what is copied, and the counter has not wrapped unseen.
  ghost predicate Room(all: seq<char>, at: nat, during: seq<seq<char>>)
    requires at <= |all| && |during| == RING_BYTES
  {
    |all| - at < WRAP && |Meanwhile(all, at, during)| <= RING_BYTES - Fresh(all, at)
  }

  ghost predicate AllHaveRoom(all: seq<char>, at: nat, passes: seq<Pass>)
    requires at <= |all| && forall i | 0 <= i < |passes| :: |passes[i].during| == RING_BYTES
    decreases |passes|
  {
    passes != [] ==>
      var now := all + Others(passes[0].before);
      && Room(now, at, passes[0].during)
      && AllHaveRoom(now + Meanwhile(now, at, passes[0].during), |now|, passes[1..])
  }

  // No pass comes when more than the ring holds has been written.
  ghost predicate NeverBehind(all: seq<char>, at: nat, passes: seq<Pass>)
    requires at <= |all| && forall i | 0 <= i < |passes| :: |passes[i].during| == RING_BYTES
    decreases |passes|
  {
    passes != [] ==>
      var now := all + Others(passes[0].before);
      && |now| - at <= RING_BYTES
      && NeverBehind(now + Meanwhile(now, at, passes[0].during), |now|, passes[1..])
  }

  ghost function Grown(all: seq<char>, at: nat, passes: seq<Pass>): seq<char>
    requires at <= |all| && forall i | 0 <= i < |passes| :: |passes[i].during| == RING_BYTES
    decreases |passes|
  {
    if passes == [] then all
    else
      var now := all + Others(passes[0].before);
      Grown(now + Meanwhile(now, at, passes[0].during), |now|, passes[1..])
  }

  ghost function Reached(all: seq<char>, at: nat, passes: seq<Pass>): nat
    requires at <= |all| && forall i | 0 <= i < |passes| :: |passes[i].during| == RING_BYTES
    decreases |passes|
  {
    if passes == [] then at
    else
      var now := all + Others(passes[0].before);
      Reached(now + Meanwhile(now, at, passes[0].during), |now|, passes[1..])
  }

  ghost predicate NoNotes(parts: seq<Part>) {
    forall i | 0 <= i < |parts| :: parts[i].Bytes?
  }

  lemma {:induction false} GrownFrom(all: seq<char>, at: nat, passes: seq<Pass>)
    requires at <= |all| && forall i | 0 <= i < |passes| :: |passes[i].during| == RING_BYTES
    ensures all <= Grown(all, at, passes)
    ensures passes != [] ==> |all| <= Reached(all, at, passes)
    decreases |passes|
  {
    if passes != [] {
      var now := all + Others(passes[0].before);
      var next := now + Meanwhile(now, at, passes[0].during);
      GrownFrom(next, |now|, passes[1..]);
      assert all <= now <= next;
    }
  }

  lemma FreshIs(n: nat, at: nat)
    requires at <= n
    ensures (n % WRAP - at % WRAP) % WRAP == (n - at) % WRAP
  {
  }

  lemma NothingMeanwhile(all: seq<char>, at: nat, during: seq<seq<char>>)
    requires at <= |all| && |during| == RING_BYTES && Fresh(all, at) == 0
    ensures all + Meanwhile(all, at, during) == all
  {
    assert during[..0] == [];
  }

  // A pass that finds nothing new tells nothing new.
  lemma NothingDrained(parts: seq<Part>, all: seq<char>, at: nat, from: nat, seed: seq<char>)
    requires at <= |all| && (|all| - at) % WRAP == 0
    ensures |all| - at < WRAP ==>
              && Drained(all, at) == []
              && (Tell(parts, all, from).at == at ==>
                    Tell(PartsDrained(parts, all, at), all, from) == Tell(parts, all, from))
  {
    if |all| - at < WRAP {
      assert |all| == at;
      var text := Tell(parts, all, from).text;
      TellSnoc(parts, Bytes(0), all, from);
      assert Piece(all, at, 0) == [] && text + [] == text;
    }
  }

  lemma OneMoreLine(all: seq<char>, lines: seq<seq<char>>, i: nat)
    requires i < |lines|
    ensures all + Others(lines[..i]) + Tail(lines[i]) == all + Others(lines[..i + 1])
  {
    assert lines[..i + 1][..i] == lines[..i];
    Assoc(all, Others(lines[..i]), Tail(lines[i]));
  }

  lemma NoNotesYet(parts: seq<Part>, all: seq<char>, at: nat)
    requires at <= |all|
    ensures |all| - at <= RING_BYTES && NoNotes(parts) ==> NoNotes(PartsDrained(parts, all, at))
  {
  }

  // One pass adds what was written since the last, or if that is more than the ring
  // holds a note with the number of the missing, and all that the ring holds.
  ghost predicate AddsFresh(was: seq<char>, now: seq<char>, all: seq<char>, at: nat) {
    && at <= |all|
    && (|all| - at <= RING_BYTES ==> now == was + all[at..])
    && (|all| - at > RING_BYTES ==>
          exists note ::
            && IsNote(note) && CountRead(note) == |all| - at - RING_BYTES
            && now == was + note + all[|all| - RING_BYTES..])
  }

  lemma DrainedAddsFresh(was: seq<char>, all: seq<char>, at: nat)
    requires at <= |all|
    ensures AddsFresh(was, was + Drained(all, at), all, at)
  {
    if |all| - at > RING_BYTES {
      var note := NoteDrained(all, at);
      NoteAdded(was, Drained(all, at), all, at, note);
    }
  }

  lemma NoteDrained(all: seq<char>, at: nat) returns (note: string)
    requires at + RING_BYTES < |all|
    ensures IsNote(note) && CountRead(note) == |all| - at - RING_BYTES
    ensures Drained(all, at) == note + all[|all| - RING_BYTES..]
  {
    note := Note(|all| - at - RING_BYTES);
    NoteReadsBack(|all| - at - RING_BYTES);
  }

  lemma NoteAdded(was: seq<char>, drained: seq<char>, all: seq<char>, at: nat, note: string)
    requires at + RING_BYTES < |all| && IsNote(note) && CountRead(note) == |all| - at - RING_BYTES
    requires drained == note + all[|all| - RING_BYTES..]
    ensures AddsFresh(was, was + drained, all, at)
  {
    Assoc(was, note, all[|all| - RING_BYTES..]);
  }

  class Drain {
    const log: Log
    const tail: Ring
    var drained: uint32
    ghost var at: nat           // the same, without the wrap
    ghost var seed: seq<char>   // what the tail began with
    ghost var from: nat         // the stream position after the seed
    ghost var parts: seq<Part>

    ghost predicate Valid()
      reads this, log, log.buf, tail, tail.buf
    {
      && log.Valid() && tail.Valid()
      && log.buf != tail.buf
      && at <= |log.all| && drained == at % WRAP
    }

    // The tail is the seed, then the written stream with every loss noted.
    ghost predicate Faithful()
      reads this, log, tail
    {
      && Tell(parts, log.all, from).at == at <= |log.all|
      && tail.stream == seed + Tell(parts, log.all, from).text
    }

    constructor (log: Log, tail: Ring)
      requires log.Valid() && tail.Valid() && tail.stream == [] && log.buf != tail.buf
      ensures this.log == log && this.tail == tail
      ensures Valid() && Faithful() && seed == [] && at == |log.all|
    {
      this.log, this.tail := log, tail;
      drained := log.written;
      at, from := |log.all|, |log.all|;
      seed, parts := [], [];
    }

    /** The tail starts from what the ring holds. A line that other tasks write
        between the two looks at the ring is in the seed and follows it again. */
    method StartTail(between: seq<char>)
      requires Valid() && tail.stream == []
      modifies this, log, log.buf, tail, tail.buf
      ensures log.all == old(log.all) + Tail(between)
      ensures tail.stream == Newest(log.all, RING_BYTES)
      ensures Valid() && Faithful()
      ensures seed == tail.stream && from == at == |old(log.all)| && parts == []
    {
      drained := log.written;
      at := |log.all|;
      log.Write(between);
      Seed();
      seed, from, parts := tail.stream, at, [];
    }

    /** The tail from its start over a run of the drain's task: with room in every
        pass, and none behind, it is the stream from the oldest byte the ring held
        if and only if nothing was written between the two looks. */
    method StartAndFollow(between: seq<char>, passes: seq<Pass>)
      requires Valid() && tail.stream == [] && passes != []
      requires forall i | 0 <= i < |passes| :: |passes[i].during| == RING_BYTES
      modifies this, log, log.buf, tail, tail.buf
      ensures var held := old(log.all) + Tail(between);
              var oldest := |held| - Min(|held|, RING_BYTES);
              AllHaveRoom(held, |old(log.all)|, passes) && NeverBehind(held, |old(log.all)|, passes) ==>
                && |held| <= at <= |log.all| && held <= log.all
                && (tail.stream == log.all[oldest..at] <==> between == [])
    {
      StartTail(between);
      ghost var before := old(log.all);
      ghost var held := log.all;
      Follow(passes);
      if AllHaveRoom(held, |before|, passes) && NeverBehind(held, |before|, passes) {
        GrownFrom(held, |before|, passes);
        StoryFromStart(before, between, log.all, parts, at);
      }
    }

    method Seed()
      requires log.Valid() && tail.Valid() && log.buf != tail.buf && tail.stream == []
      modifies tail, tail.buf
      ensures log.Valid() && tail.Valid()
      ensures tail.stream == Newest(log.all, RING_BYTES)
    {
      var buf := new char[RING_BYTES + 1];
      var n := log.Read(buf, RING_BYTES + 1);
      var text := buf[..n];
      assert text == Newest(log.all, RING_BYTES) && [] + text == text;
      tail.Append(text);
    }

    // One byte, after what other tasks wrote just before.
    method CopyByte(start: nat, first: nat, writes: seq<seq<char>>, i: nat, ghost all0: seq<char>,
                    ghost todo: nat, ghost was: seq<char>)
      requires log.Valid() && tail.Valid() && log.buf != tail.buf
      requires i < todo <= Min(|all0|, RING_BYTES) && i < |writes|
      requires start == Slot(|all0| - todo) && first == Min(todo, RING_BYTES - start)
      requires Progress(log.all, tail.stream, all0, was, writes, todo, i)
      modifies log, log.buf, tail, tail.buf
      ensures log.Valid() && tail.Valid()
      ensures Progress(log.all, tail.stream, all0, was, writes, todo, i + 1)
    {
      log.Write(writes[i]);
      var slot := if i < first then start + i else i - first;
      tail.Append([log.buf[slot]]);
      ProgressStep(old(log.all), old(tail.stream), all0, was, writes, todo, i, log.buf[..], log.buf[slot]);
    }

    // Bytes of the ring to the tail, one at a time, other tasks writing meanwhile.
    method CopyBytes(start: nat, todo: nat, writes: seq<seq<char>>)
      requires log.Valid() && tail.Valid() && log.buf != tail.buf
      requires todo <= Min(|log.all|, RING_BYTES) && |writes| == RING_BYTES
      requires start == Slot(|log.all| - todo)
      modifies log, log.buf, tail, tail.buf
      ensures log.Valid() && tail.Valid()
      ensures Progress(log.all, tail.stream, old(log.all), old(tail.stream), writes, todo, todo)
    {
      var first := if todo < RING_BYTES - start then todo else RING_BYTES - start;
      ghost var all0, was := log.all, tail.stream;
      ProgressStarts(all0, was, writes, todo);
      for i := 0 to todo
        invariant log.Valid() && tail.Valid()
        invariant Progress(log.all, tail.stream, all0, was, writes, todo, i)
      {
        CopyByte(start, first, writes, i, all0, todo, was);
      }
    }

    /** One pass. As long as what other tasks write while it copies fits beside
        what it copies, the tail stays the stream with its losses noted.
        @param writes  what they write just before each byte is copied */
    method DrainOnce(writes: seq<seq<char>>)
      requires Valid() && |writes| == RING_BYTES
      modifies this, log, log.buf, tail, tail.buf
      ensures Valid()
      ensures at == |old(log.all)| && seed == old(seed) && from == old(from)
      ensures log.all == old(log.all) + Meanwhile(old(log.all), old(at), writes)
      ensures Room(old(log.all), old(at), writes) ==>
                && (old(Faithful()) ==> Faithful())
                && parts == PartsDrained(old(parts), old(log.all), old(at))
                && AddsFresh(old(tail.stream), tail.stream, old(log.all), old(at))
    {
      ghost var all0, at0, was := log.all, at, tail.stream;
      CopyNew(writes);
      if Room(all0, at0, writes) {
        DrainedAddsFresh(was, all0, at0);
      }
    }

    method CopyNew(writes: seq<seq<char>>)
      requires Valid() && |writes| == RING_BYTES
      modifies this, log, log.buf, tail, tail.buf
      ensures Valid()
      ensures at == |old(log.all)| && seed == old(seed) && from == old(from)
      ensures log.all == old(log.all) + Meanwhile(old(log.all), old(at), writes)
      ensures Room(old(log.all), old(at), writes) ==>
                && (old(Faithful()) ==> Faithful())
                && tail.stream == old(tail.stream) + Drained(old(log.all), old(at))
                && parts == PartsDrained(old(parts), old(log.all), old(at))
    {
      var written := log.written;
      var head := log.head;
      ghost var all0, at0, parts0 := log.all, at, parts;
      var todo: nat := (written - drained) % WRAP;
      FreshIs(|all0|, at0);
      parts := PartsDrained(parts0, all0, at0);
      drained := written;
      at := |all0|;
      if todo == 0 {
        NothingMeanwhile(all0, at0, writes);
        NothingDrained(parts0, all0, at0, from, seed);
        return;
      }
      ghost var was := tail.stream;
      todo := CopyFresh(head, todo, writes);
      PassTells(parts0, all0, at0, from, seed, writes, was, tail.stream);
    }

    // What other tasks write before a pass begins.
    method WriteAll(lines: seq<seq<char>>)
      requires Valid()
      modifies log, log.buf
      ensures Valid() && log.all == old(log.all) + Others(lines)
    {
      assert log.all + Others(lines[..0]) == log.all;
      for i := 0 to |lines|
        invariant Valid() && log.all == old(log.all) + Others(lines[..i])
      {
        log.Write(lines[i]);
        OneMoreLine(old(log.all), lines, i);
      }
      assert lines[..|lines|] == lines;
    }

    /** A run of the drain's task: however other tasks write between its passes and
        while they copy, the tail is the written stream with every loss noted, as
        long as each pass has room; and without a note as long as no pass comes
        more than the ring behind. */
    method Follow(passes: seq<Pass>)
      requires Valid() && Faithful() && forall i | 0 <= i < |passes| :: |passes[i].during| == RING_BYTES
      modifies this, log, log.buf, tail, tail.buf
      ensures Valid() && seed == old(seed) && from == old(from)
      ensures AllHaveRoom(old(log.all), old(at), passes) ==> Faithful()
      ensures AllHaveRoom(old(log.all), old(at), passes) ==>
                exists seen :: tail.stream == seed + TextOf(seen) && Accounts(seen, log.all, from, at)
      ensures log.all == Grown(old(log.all), old(at), passes) && at == Reached(old(log.all), old(at), passes)
      ensures AllHaveRoom(old(log.all), old(at), passes) && NeverBehind(old(log.all), old(at), passes) ==>
                (NoNotes(old(parts)) ==> NoNotes(parts))
    {
      ghost var all0, at0 := log.all, at;
      assert passes[0..] == passes;
      for i := 0 to |passes|
        invariant Valid() && seed == old(seed) && from == old(from)
        invariant AllHaveRoom(all0, at0, passes) ==> AllHaveRoom(log.all, at, passes[i..]) && Faithful()
        invariant Grown(all0, at0, passes) == Grown(log.all, at, passes[i..])
        invariant Reached(all0, at0, passes) == Reached(log.all, at, passes[i..])
        invariant AllHaveRoom(all0, at0, passes) && NeverBehind(all0, at0, passes) ==>
                    NeverBehind(log.all, at, passes[i..]) && (NoNotes(old(parts)) ==> NoNotes(parts))
      {
        assert passes[i..][1..] == passes[i + 1..];
        OnePass(passes[i]);
      }
      if Faithful() {
        SeenAccounts(parts, log.all, from);
      }
    }

    method OnePass(pass: Pass)
      requires Valid() && |pass.during| == RING_BYTES
      modifies this, log, log.buf, tail, tail.buf
      ensures Valid() && seed == old(seed) && from == old(from)
      ensures var all := old(log.all) + Others(pass.before);
              && at == |all| && log.all == all + Meanwhile(all, old(at), pass.during)
              && (Room(all, old(at), pass.during) ==>
                    && (old(Faithful()) ==> Faithful())
                    && (|all| - old(at) <= RING_BYTES && NoNotes(old(parts)) ==> NoNotes(parts)))
    {
      WriteAll(pass.before);
      ghost var all, at0, parts0 := log.all, at, parts;
      if Tell(parts, old(log.all), from).at <= |old(log.all)| {
        TellGrows(parts, old(log.all), Others(pass.before), from);
      }
      DrainOnce(pass.during);
      NoNotesYet(parts0, all, at0);
    }

    // The note for what is gone, if any, and the rest.
    method CopyFresh(head: nat, fresh0: nat, writes: seq<seq<char>>) returns (todo: nat)
      requires log.Valid() && tail.Valid() && log.buf != tail.buf
      requires head == log.head && fresh0 <= |log.all| && |writes| == RING_BYTES
      modifies log, log.buf, tail, tail.buf
      ensures log.Valid() && tail.Valid()
      ensures todo == Min(fresh0, RING_BYTES)
      ensures Copied(old(log.all), log.all, old(tail.stream), tail.stream, writes, fresh0)
    {
      ghost var all0, was := log.all, tail.stream;
      todo := fresh0;
      if todo > RING_BYTES {
        tail.Append(Note(todo - RING_BYTES));
        todo := RING_BYTES;
      }
      ghost var noted := tail.stream;
      SlotBack(|all0|, todo);
      CopyBytes((head + RING_BYTES - todo) % RING_BYTES, todo, writes);
      FreshDone(log.all, tail.stream, all0, was, noted, writes, fresh0);
    }
  }

  // ---- the start of the tail ----

  /** What is written between the two looks at the ring is in the seed and follows
      it again. So seed and following bytes are the stream from the oldest byte the
      ring held if and only if nothing was. */
  lemma SeedRepeatsExactly(before: seq<char>, between: seq<char>, more: seq<char>, at: nat)
    requires |before + Tail(between)| <= at <= |before + Tail(between) + more|
    ensures var held := before + Tail(between);
            var all, oldest := held + more, |held| - Min(|held|, RING_BYTES);
            var tail := Newest(held, RING_BYTES) + all[|before|..at];
            && tail == all[oldest..|held|] + Tail(between) + all[|held|..at]
            && (tail == all[oldest..at] <==> between == [])
  {
    var held := before + Tail(between);
    var all, oldest := held + more, |held| - Min(|held|, RING_BYTES);
    var seed, again, rest := all[oldest..|held|], Tail(between), all[|held|..at];
    assert Newest(held, RING_BYTES) == seed;
    Through(all, |before|, |held|, at);
    assert all[|before|..|held|] == again;
    Assoc(seed, again, rest);
    Through(all, oldest, |held|, at);
    if between == [] {
      assert seed + again == seed;
    }
  }

  // The tail is the seed and a story without notes from before the second look.
  lemma StoryFromStart(before: seq<char>, between: seq<char>, all: seq<char>, parts: seq<Part>, at: nat)
    requires before + Tail(between) <= all && |before + Tail(between)| <= at <= |all|
    requires Tell(parts, all, |before|).at == at && NoNotes(parts)
    ensures var held := before + Tail(between);
            var tail := Newest(held, RING_BYTES) + Tell(parts, all, |before|).text;
            tail == all[|held| - Min(|held|, RING_BYTES)..at] <==> between == []
  {
    var held := before + Tail(between);
    NoNotesMeansNoGaps(parts, all, |before|);
    assert all == held + all[|held|..];
    SeedRepeatsExactly(before, between, all[|held|..], at);
  }

  lemma Through<T>(s: seq<T>, i: nat, j: nat, k: nat)
    requires i <= j <= k <= |s|
    ensures s[i..k] == s[i..j] + s[j..k]
  {
  }

  /** A line written there stands in the tail twice. */
  lemma StartRepeatsALine()
    ensures var line := "up\n";
            var all := [] + Tail(line);
            Newest(all, RING_BYTES) + all[0..3] == line + line != all
  {
    var line := "up\n";
    assert [] + Tail(line) == line;
    assert Newest(line, RING_BYTES) == line && line[0..3] == line;
  }

  // After i bytes: the log has what was written meanwhile, the tail i bytes
  // more, and they are the right ones while the rest of the ring sufficed.
  ghost predicate Progress(log: seq<char>, tail: seq<char>, all0: seq<char>, was: seq<char>,
                           writes: seq<seq<char>>, todo: nat, i: nat)
  {
    && i <= |writes| && i <= todo <= |all0|
    && log == all0 + Others(writes[..i])
    && |tail| == |was| + i && was <= tail
    && (|Others(writes[..i])| <= RING_BYTES - todo ==>
          forall j | |was| <= j < |was| + i :: tail[j] == all0[|all0| - todo + j - |was|])
  }

  lemma ProgressStarts(log: seq<char>, tail: seq<char>, writes: seq<seq<char>>, todo: nat)
    requires todo <= |log|
    ensures Progress(log, tail, log, tail, writes, todo, 0)
  {
    assert writes[..0] == [] && log + [] == log;
  }

  lemma ProgressStep(log: seq<char>, tail: seq<char>, all0: seq<char>, was: seq<char>,
                     writes: seq<seq<char>>, todo: nat, i: nat, buf: seq<char>, c: char)
    requires Progress(log, tail, all0, was, writes, todo, i)
    requires i < todo <= RING_BYTES && i < |writes|
    requires Mirrored(buf, log + Tail(writes[i]))
    requires var start := Slot(|all0| - todo);
             c == buf[if start + i < RING_BYTES then start + i else start + i - RING_BYTES]
    ensures Progress(log + Tail(writes[i]), tail + [c], all0, was, writes, todo, i + 1)
  {
    assert writes[..i + 1][..i] == writes[..i];
    Assoc(all0, Others(writes[..i]), Tail(writes[i]));
    StillThere(buf, all0, Others(writes[..i + 1]), todo, i, c);
    OthersGrow(writes, i, i + 1);
  }

  lemma ProgressWhole(log: seq<char>, tail: seq<char>, all0: seq<char>, was: seq<char>,
                      writes: seq<seq<char>>, todo: nat)
    requires Progress(log, tail, all0, was, writes, todo, todo)
    requires |Others(writes[..todo])| <= RING_BYTES - todo
    ensures tail == was + all0[|all0| - todo..]
  {
    assert tail[..|was|] == was && tail == tail[..|was|] + tail[|was|..];
    assert tail[|was|..] == all0[|all0| - todo..];
  }

  lemma {:induction false} OthersGrow(writes: seq<seq<char>>, i: nat, n: nat)
    requires i <= n <= |writes|
    ensures |Others(writes[..i])| <= |Others(writes[..n])|
  {
    if i < n {
      assert writes[..n][..n - 1] == writes[..n - 1];
      assert |Others(writes[..n])| >= |Others(writes[..n - 1])|;
      OthersGrow(writes, i, n - 1);
    }
  }

  lemma StillThere(buf: seq<char>, all: seq<char>, more: seq<char>, todo: nat, i: nat, c: char)
    requires Mirrored(buf, all + more) && i < todo <= Min(|all|, RING_BYTES)
    requires var start := Slot(|all| - todo);
             c == buf[if start + i < RING_BYTES then start + i else start + i - RING_BYTES]
    ensures |more| <= RING_BYTES - todo ==> c == all[|all| - todo + i]
  {
    SlotAfter(|all| - todo, i);
    if |more| <= RING_BYTES - todo {
      assert (all + more)[|all| - todo + i] == all[|all| - todo + i];
    }
  }

  lemma DrainedIs(was: seq<char>, noted: seq<char>, all: seq<char>, n: nat, tail: seq<char>)
    requires n <= |all|
    requires noted == if n <= RING_BYTES then was else was + Note(n - RING_BYTES)
    requires tail == noted + all[|all| - Min(n, RING_BYTES)..]
    ensures tail == was + Drained(all, |all| - n)
  {
    if n > RING_BYTES {
      NotedAndRest(was, Note(n - RING_BYTES), all[|all| - RING_BYTES..], tail);
    }
  }

  lemma NotedAndRest(was: seq<char>, note: seq<char>, rest: seq<char>, tail: seq<char>)
    requires tail == was + note + rest
    ensures tail == was + (note + rest)
  {
    Assoc(was, note, rest);
  }

  // Copying the newest n bytes, or a note and the ring, has left this.
  ghost predicate Copied(all: seq<char>, log: seq<char>, was: seq<char>, tail: seq<char>,
                         writes: seq<seq<char>>, n: nat)
  {
    var todo := Min(n, RING_BYTES);
    && n <= |all| && todo <= |writes|
    && log == all + Others(writes[..todo])
    && (|Others(writes[..todo])| <= RING_BYTES - todo ==> tail == was + Drained(all, |all| - n))
  }

  lemma PassTells(parts: seq<Part>, all: seq<char>, at: nat, from: nat, seed: seq<char>, writes: seq<seq<char>>,
                  was: seq<char>, tail: seq<char>)
    requires at <= |all| && |writes| == RING_BYTES
    requires Copied(all, all + Meanwhile(all, at, writes), was, tail, writes, (|all| - at) % WRAP)
    ensures Room(all, at, writes) ==>
              && tail == was + Drained(all, at)
              && (Tell(parts, all, from).at == at && was == seed + Tell(parts, all, from).text ==>
                    var told := Tell(PartsDrained(parts, all, at), all + Meanwhile(all, at, writes), from);
                    told.at == |all| && tail == seed + told.text)
  {
    if Room(all, at, writes) {
      CopiedIsDrained(all, at, writes, was, tail);
      var told := Tell(parts, all, from);
      if told.at == at && was == seed + told.text {
        TellDrained(parts, all, Meanwhile(all, at, writes), from, at, seed);
      }
    }
  }

  lemma CopiedIsDrained(all: seq<char>, at: nat, writes: seq<seq<char>>, was: seq<char>, tail: seq<char>)
    requires at <= |all| && |writes| == RING_BYTES && Room(all, at, writes)
    requires Copied(all, all + Meanwhile(all, at, writes), was, tail, writes, (|all| - at) % WRAP)
    ensures tail == was + Drained(all, at)
  {
    assert (|all| - at) % WRAP == |all| - at;
  }

  lemma FreshDone(log: seq<char>, tail: seq<char>, all: seq<char>, was: seq<char>, noted: seq<char>,
                  writes: seq<seq<char>>, n: nat)
    requires n <= |all| && |writes| == RING_BYTES
    requires noted == if n <= RING_BYTES then was else was + Note(n - RING_BYTES)
    requires Progress(log, tail, all, noted, writes, Min(n, RING_BYTES), Min(n, RING_BYTES))
    ensures Copied(all, log, was, tail, writes, n)
  {
    var todo := Min(n, RING_BYTES);
    if |Others(writes[..todo])| <= RING_BYTES - todo {
      ProgressWhole(log, tail, all, noted, writes, todo);
      DrainedIs(was, noted, all, n, tail);
    }
  }

  // What one pass adds to the tail.
  ghost function Drained(all: seq<char>, at: nat): seq<char>
    requires at <= |all|
  {
    if |all| - at <= RING_BYTES then all[at..]
    else Note(|all| - at - RING_BYTES) + all[|all| - RING_BYTES..]
  }

  ghost function PartsDrained(parts: seq<Part>, all: seq<char>, at: nat): seq<Part>
    requires at <= |all|
  {
    if |all| - at <= RING_BYTES then parts + [Bytes(|all| - at)]
    else parts + [Lost(|all| - at - RING_BYTES)] + [Bytes(RING_BYTES)]
  }

  lemma TellDrained(parts: seq<Part>, all: seq<char>, more: seq<char>, from: nat, at: nat, seed: seq<char>)
    requires at <= |all|
    ensures var was, now := Tell(parts, all, from), Tell(PartsDrained(parts, all, at), all + more, from);
            was.at == at ==>
              now.at == |all| && seed + now.text == seed + was.text + Drained(all, at)
  {
    if Tell(parts, all, from).at == at {
      var text := Tell(parts, all, from).text;
      assert seed + (text + Drained(all, at)) == seed + text + Drained(all, at);
      TellGrows(parts, all, more, from);
      if |all| - at <= RING_BYTES {
        TellBytes(parts, all, more, from, at);
      } else {
        TellLost(parts, all, more, from, at);
      }
    }
  }

  lemma TellBytes(parts: seq<Part>, all: seq<char>, more: seq<char>, from: nat, at: nat)
    requires at <= |all| && Tell(parts, all + more, from).at == at
    ensures Tell(parts + [Bytes(|all| - at)], all + more, from)
         == Told(Tell(parts, all + more, from).text + all[at..], |all|)
  {
    TellSnoc(parts, Bytes(|all| - at), all + more, from);
    assert Piece(all + more, at, |all| - at) == all[at..];
  }

  lemma TellLost(parts: seq<Part>, all: seq<char>, more: seq<char>, from: nat, at: nat)
    requires at + RING_BYTES < |all| && Tell(parts, all + more, from).at == at
    ensures Tell(PartsDrained(parts, all, at), all + more, from)
         == Told(Tell(parts, all + more, from).text + Drained(all, at), |all|)
  {
    var t := Tell(parts, all + more, from);
    var p, q := Lost(|all| - at - RING_BYTES), Bytes(RING_BYTES);
    LostAndRest(t, p, q, all, more, at);
    TellTwo(parts, p, q, all + more, from);
  }

  lemma TellTwo(parts: seq<Part>, p: Part, q: Part, all: seq<char>, from: nat)
    ensures Tell(parts + [p] + [q], all, from) == TellMore(TellMore(Tell(parts, all, from), p, all), q, all)
  {
    TellSnoc(parts, p, all, from);
    TellSnoc(parts + [p], q, all, from);
  }

  lemma LostAndRest(t: Told, p: Part, q: Part, all: seq<char>, more: seq<char>, at: nat)
    requires t.at == at && at + RING_BYTES < |all|
    requires p == Lost(|all| - at - RING_BYTES) && q == Bytes(RING_BYTES)
    ensures TellMore(TellMore(t, p, all + more), q, all + more) == Told(t.text + Drained(all, at), |all|)
  {
    var rest := |all| - RING_BYTES;
    assert Piece(all + more, rest, RING_BYTES) == all[rest..];
    Assoc(t.text, Note(rest - at), all[rest..]);
  }
}
