// A ring whose bytes are numbered from the first one ever put in, read by
// position. Models tail_append and kvm_log_tail in components/kvm_log/kvm_log.c,
// and ring_append and kvm_netlog_read_from in components/kvm_netlog/kvm_netlog.c,
// which are the same code over two buffers of 64 KB.

// What a reader by position sees, as values.
module PositionalReading {

  function Oldest(head: nat, size: nat): nat {
    if head > size then head - size else 0
  }

  // Where a reader that asks for pos is put.
  function Clamp(pos: nat, head: nat, size: nat): (p: nat)
    ensures p <= head
    ensures Oldest(head, size) <= pos <= head ==> p == pos
  {
    if pos > head then head else if pos < Oldest(head, size) then Oldest(head, size) else pos
  }

  function ReadLen(pos: nat, head: nat, size: nat, cap: nat): (n: nat)
    ensures Clamp(pos, head, size) + n <= head
  {
    var n := head - Clamp(pos, head, size);
    if n > cap then cap else n
  }

  datatype Event = Append(data: seq<char>) | Read(cap: nat)

  // A writer and one reader: all that was written, where the reader stands,
  // what it has.
  datatype World = World(stream: seq<char>, pos: nat, got: seq<char>)

  function Next(w: World, size: nat, e: Event): World {
    match e
    case Append(data) => w.(stream := w.stream + data)
    case Read(cap) =>
      var head := |w.stream|;
      var p, n := Clamp(w.pos, head, size), ReadLen(w.pos, head, size, cap);
      World(w.stream, p + n, w.got + w.stream[p..p + n])
  }

  function Run(w: World, size: nat, es: seq<Event>): World {
    if es == [] then w else Next(Run(w, size, es[..|es| - 1]), size, es[|es| - 1])
  }

  // The bytes a read finds already overwritten.
  function Missed(w: World, size: nat): nat {
    if w.pos < Oldest(|w.stream|, size) then Oldest(|w.stream|, size) - w.pos else 0
  }

  // At every read, the reader is no more than the ring behind.
  predicate KeepsUp(w: World, size: nat, es: seq<Event>) {
    es == [] ||
    (KeepsUp(w, size, es[..|es| - 1]) &&
     (es[|es| - 1].Read? ==> Missed(Run(w, size, es[..|es| - 1]), size) == 0))
  }

  function TotalMissed(w: World, size: nat, es: seq<Event>): nat {
    if es == [] then 0
    else
      TotalMissed(w, size, es[..|es| - 1]) +
      if es[|es| - 1].Read? then Missed(Run(w, size, es[..|es| - 1]), size) else 0
  }

  lemma {:induction false} RunGrows(w: World, size: nat, es: seq<Event>)
    requires w.pos <= |w.stream|
    ensures w.stream <= Run(w, size, es).stream
    ensures w.pos <= Run(w, size, es).pos <= |Run(w, size, es).stream|
    ensures Run(w, size, es).pos - w.pos == |Run(w, size, es).got| - |w.got| + TotalMissed(w, size, es)
  {
    if es != [] {
      RunGrows(w, size, es[..|es| - 1]);
    }
  }

  /** A reader that never falls more than the ring behind puts the stream back
      together with nothing lost and nothing twice. */
  lemma {:induction false} ReaderReassembles(w: World, size: nat, es: seq<Event>)
    requires w.pos <= |w.stream|
    requires KeepsUp(w, size, es)
    ensures var r := Run(w, size, es);
            && w.pos <= r.pos <= |r.stream|
            && r.got == w.got + r.stream[w.pos..r.pos]
  {
    RunGrows(w, size, es);
    if es != [] {
      var before := es[..|es| - 1];
      ReaderReassembles(w, size, before);
      RunGrows(w, size, before);
      var b, r := Run(w, size, before), Run(w, size, es);
      assert b.stream[w.pos..b.pos] == r.stream[w.pos..b.pos];
      assert r.stream[w.pos..r.pos] == r.stream[w.pos..b.pos] + r.stream[b.pos..r.pos];
    }
  }

  lemma {:induction false} KeepingUpIsMissingNothing(w: World, size: nat, es: seq<Event>)
    ensures KeepsUp(w, size, es) <==> TotalMissed(w, size, es) == 0
  {
    if es != [] {
      KeepingUpIsMissingNothing(w, size, es[..|es| - 1]);
    }
  }

  /** The count tells: a reader has as many bytes as positions it moved over
      exactly when it never fell more than the ring behind. */
  lemma ReaderKnowsItsLoss(w: World, size: nat, es: seq<Event>)
    requires w.pos <= |w.stream|
    ensures var r := Run(w, size, es);
            KeepsUp(w, size, es) <==> |r.got| - |w.got| == r.pos - w.pos
  {
    RunGrows(w, size, es);
    KeepingUpIsMissingNothing(w, size, es);
  }
}

module StreamRing {
  import opened PositionalReading

  const SIZE := 64 * 1024

  function Place(i: nat): (j: nat)
    ensures j < SIZE
  {
    i % SIZE
  }

  // The buffer holds the last SIZE bytes of the stream, each in its slot.
  predicate Mirrors(buf: seq<char>, stream: seq<char>) {
    && |buf| == SIZE
    && forall i {:trigger Place(i)} | Oldest(|stream|, SIZE) <= i < |stream| :: buf[Place(i)] == stream[i]
  }

  lemma OneMoreMirrored(buf: seq<char>, all: seq<char>, k: nat)
    requires k < |all| && Mirrors(buf, all[..k])
    ensures Mirrors(buf[Place(k) := all[k]], all[..k + 1])
  {
  }

  lemma ReadBack(buf: seq<char>, stream: seq<char>, i: nat)
    requires Mirrors(buf, stream) && Oldest(|stream|, SIZE) <= i < |stream|
    ensures buf[Place(i)] == stream[i]
  {
  }

  // What a read gets: the bytes from the position asked for on, or from the oldest of
  // the last 64 K if that is later, up to the newest or as many as it has room for;
  // nothing from beyond the end.
  predicate IsAnswer(stream: seq<char>, pos: nat, cap: nat, got: seq<char>, next: nat) {
    var oldest := if |stream| > 0x1_0000 then |stream| - 0x1_0000 else 0;
    var from := if pos < oldest then oldest else pos;
    && (pos > |stream| ==> got == [] && next == |stream|)
    && (pos <= |stream| ==> next == from + |got| && next <= |stream| && got == stream[from..next])
    && |got| <= cap && (|got| == cap || next == |stream|)
  }

  lemma GotIs(got: seq<char>, stream: seq<char>, from: nat)
    requires from + |got| <= |stream| && forall k | 0 <= k < |got| :: got[k] == stream[from + k]
    ensures got == stream[from..from + |got|]
  {
  }

  lemma AnswerIs(stream: seq<char>, pos: nat, cap: nat, got: seq<char>, next: nat)
    requires |got| == ReadLen(pos, |stream|, SIZE, cap)
    requires var p := Clamp(pos, |stream|, SIZE); next == p + |got| && got == stream[p..next]
    ensures IsAnswer(stream, pos, cap, got, next)
  {
  }

  class Ring {
    const buf: array<char>
    var head: nat
    ghost var stream: seq<char>

    ghost predicate Valid()
      reads this, buf
    {
      && head == |stream|
      && Mirrors(buf[..], stream)
    }

    constructor ()
      ensures Valid() && fresh(buf) && stream == []
    {
      buf := new char[SIZE](_ => '\0');
      head, stream := 0, [];
    }

    method Append(data: seq<char>)
      requires Valid()
      modifies this, buf
      ensures Valid()
      ensures stream == old(stream) + data
    {
      ghost var all := stream + data;
      for i := 0 to |data|
        invariant head == |stream| && stream == old(stream)
        invariant buf.Length == SIZE
        invariant Mirrors(buf[..], all[..head + i])
      {
        label before:
        OneMoreMirrored(buf[..], all, head + i);
        buf[Place(head + i)] := data[i];
        assert buf[..] == old@before(buf[..])[Place(head + i) := all[head + i]];
      }
      assert all[..|all|] == all;
      head := head + |data|;
      stream := all;
    }

    /** @return how many bytes went to out, and the position after them. */
    method ReadFrom(pos: nat, out: array<char>, cap: nat) returns (n: nat, next: nat)
      requires Valid() && out != buf && cap <= out.Length
      modifies out
      ensures n == ReadLen(pos, head, SIZE, cap)
      ensures cap > 0 ==> next == Clamp(pos, head, SIZE) + n
      ensures cap == 0 ==> next == pos
      ensures var p := Clamp(pos, head, SIZE); out[..n] == stream[p..p + n]
      ensures cap > 0 ==> IsAnswer(stream, pos, cap, out[..n], next)
      ensures Valid()
    {
      if cap == 0 {
        return 0, pos;
      }
      var oldest := if head > SIZE then head - SIZE else 0;
      next := pos;
      if next < oldest || next > head {
        next := if next > head then head else oldest;
      }
      n := head - next;
      if n > cap {
        n := cap;
      }
      ghost var held := buf[..];
      for i := 0 to n
        invariant forall k | 0 <= k < i :: out[k] == stream[next + k]
        invariant buf[..] == held
      {
        ReadBack(held, stream, next + i);
        out[i] := buf[Place(next + i)];
      }
      GotIs(out[..n], stream, next);
      next := next + n;
      AnswerIs(stream, pos, cap, out[..n], next);
    }
  }
}
