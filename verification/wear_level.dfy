// Taking the wear-levelling layer off a FAT image again. Models remove_wl and
// WLFATFS.init_wl in components/fatfs/wl_fatfsgen.py; the walk of the dummy
// sector follows the layout in components/fatfs/fatfsparse.py.

module WearLevelling {
  import opened Options

  type byte = x: int | 0 <= x < 0x100

  const SECTOR := 0x1000
  const RECORD := 16
  const HEADER := 64

  // ---- Python's slices: clamped, and from the end when negative ----

  // s[-n:]; taking nothing off is all of it.
  function FromEnd(s: seq<byte>, n: nat): seq<byte> {
    if n == 0 || n > |s| then s else s[|s| - n..]
  }

  // s[:-n]
  function ButEnd(s: seq<byte>, n: nat): seq<byte> {
    if n == 0 || n > |s| then [] else s[..|s| - n]
  }

  // s[:k]
  function Upto(s: seq<byte>, k: int): seq<byte> {
    if k < 0 then ButEnd(s, -k) else if k > |s| then s else s[..k]
  }

  // s[k:]
  function After(s: seq<byte>, k: nat): seq<byte> {
    if k > |s| then [] else s[k..]
  }

  function Full(n: nat): (s: seq<byte>)
    ensures |s| == n && forall i | 0 <= i < n :: s[i] == 0xff
  {
    seq(n, _ => 0xff)
  }

  // ---- the state sectors ----

  // Sectors one copy of the state takes in a partition of so many.
  function StateSectors(total: nat): (n: nat)
    ensures n * SECTOR >= HEADER + RECORD * total
    ensures n > 0
  {
    (HEADER + RECORD * total + SECTOR - 1) / SECTOR
  }

  /** Not a sector more than the header and one record a sector take. */
  lemma StateSizeIsExact(total: nat)
    ensures (StateSectors(total) - 1) * 4096 < 64 + 16 * total <= StateSectors(total) * 4096
  {
  }

  function ReadWord(s: seq<byte>, at: nat): nat
    requires at + 4 <= |s|
  {
    s[at] as int + 0x100 * (s[at + 1] as int) + 0x1_0000 * (s[at + 2] as int) + 0x100_0000 * (s[at + 3] as int)
  }

  function Word(n: nat): (s: seq<byte>)
    requires n < 0x1_0000_0000
    ensures |s| == 4
  {
    var b1 := n / 0x100;
    var b2 := b1 / 0x100;
    [n % 0x100, b1 % 0x100, b2 % 0x100, b2 / 0x100]
  }

  /** The lowest byte first. */
  lemma WordIsLittleEndian(n: nat)
    requires n < 0x1_0000_0000
    ensures var s := Word(n);
            n == s[0] as int + 256 * (s[1] as int) + 65536 * (s[2] as int) + 16777216 * (s[3] as int)
  {
    WordReads(n);
  }

  lemma WordReads(n: nat)
    requires n < 0x1_0000_0000
    ensures ReadWord(Word(n), 0) == n
  {
    var b1 := n / 0x100;
    var b2 := b1 / 0x100;
    assert b1 == 0x100 * b2 + b1 % 0x100;
  }

  // The move count of a state header, or None when the header does not parse.
  function MoveCount(header: seq<byte>): Option<nat> {
    if |header| >= 60 && forall i | 32 <= i < 60 :: header[i] == 0
    then Some(ReadWord(header, 8)) else None
  }

  /** The count of rounds stands in the bytes 8 to 11, the lowest first. */
  lemma MoveCountStands(header: seq<byte>)
    ensures MoveCount(header).Some? <==> |header| >= 60 && header[32..60] == seq(28, _ => 0)
    ensures MoveCount(header).Some? ==>
              MoveCount(header).value == header[8] as int + 256 * (header[9] as int)
                                       + 65536 * (header[10] as int) + 16777216 * (header[11] as int)
  {
    if |header| >= 60 {
      assert forall i | 32 <= i < 60 :: header[i] == header[32..60][i - 32];
    }
  }

  // The record at i was never written; past the end there is none to be blank.
  predicate Blank(state: seq<byte>, i: nat) {
    i + RECORD <= |state| && forall j | i <= j < i + RECORD :: state[j] == 0xff
  }

  function RecordAt(k: nat): nat {
    HEADER + RECORD * k
  }

  // The records from the k-th up to the first blank one.
  function Records(state: seq<byte>, k: nat, end: nat): nat
    decreases end - k
  {
    if RecordAt(k) >= end || Blank(state, RecordAt(k)) then 0 else 1 + Records(state, k + 1, end)
  }

  /** What is counted ends at the first record of nothing but erased bytes. */
  lemma {:induction false} CountEndsAtABlank(state: seq<byte>, k: nat, end: nat)
    ensures var n := Records(state, k, end);
            && (forall j | k <= j < k + n ::
                  64 + 16 * j < end && (64 + 16 * j + 16 <= |state| ==> state[64 + 16 * j..][..16] != Full(16)))
            && (64 + 16 * (k + n) >= end
                || (64 + 16 * (k + n) + 16 <= |state| && state[64 + 16 * (k + n)..][..16] == Full(16)))
    decreases end - k
  {
    var at := RecordAt(k);
    if at < end {
      if at + 16 <= |state| {
        ErasedIs(state, at);
      }
      if !Blank(state, at) {
        CountEndsAtABlank(state, k + 1, end);
      }
    }
  }

  lemma ErasedIs(state: seq<byte>, at: nat)
    requires at + 16 <= |state|
    ensures Blank(state, at) <==> state[at..][..16] == Full(16)
  {
    var r := state[at..][..16];
    assert forall j | 0 <= j < 16 :: r[j] == state[at + j];
    assert forall j | at <= j < at + 16 :: state[j] == r[j - at];
  }

  // ---- remove_wl ----

  // A round count above the number of data sectors is not taken modulo it.
  function Rotated(s: seq<byte>, moves: nat): (r: seq<byte>)
    ensures moves * SECTOR > |s| ==> r == s
  {
    FromEnd(s, moves * SECTOR) + ButEnd(s, moves * SECTOR)
  }

  // The image without the dummy sector and without the state and config sectors.
  function Stripped(image: seq<byte>, dummy: nat, stateBytes: nat): seq<byte> {
    var cut := Upto(image, dummy * SECTOR) + After(image, dummy * SECTOR + SECTOR);
    Upto(cut, |cut| - (SECTOR + 2 * stateBytes))
  }

  function StateBytes(image: seq<byte>): nat {
    StateSectors(|image| / SECTOR) * SECTOR
  }

  // Both copies of the state and the config.
  function WlSectors(image: seq<byte>): seq<byte> {
    FromEnd(image, 2 * StateBytes(image) + SECTOR)
  }

  function Removed(image: seq<byte>): Option<seq<byte>> {
    match MoveCount(Upto(WlSectors(image), HEADER))
    case None => None
    case Some(moves) =>
      var dummy := Records(WlSectors(image), 0, StateBytes(image));
      Some(Rotated(Stripped(image, dummy, StateBytes(image)), moves))
  }

  method CountRecords(state: seq<byte>, end: nat) returns (n: nat)
    ensures n == Records(state, 0, end)
  {
    n := 0;
    var i := HEADER;
    while i < end && !Blank(state, i)
      invariant i == RecordAt(n) && n + Records(state, n, end) == Records(state, 0, end)
      decreases end - i
    {
      n := n + 1;
      i := i + RECORD;
    }
  }

  method RemoveWl(image: seq<byte>) returns (r: Option<seq<byte>>)
    ensures r == Removed(image)
  {
    var stateBytes := StateBytes(image);
    var tail := WlSectors(image);
    var moves := MoveCount(Upto(tail, HEADER));
    match moves
    case None =>
      r := None;
    case Some(n) =>
      var records := CountRecords(tail, stateBytes);
      var stripped := Stripped(image, records, stateBytes);
      r := Some(Rotated(stripped, n));
  }

  // ---- sectors ----

  type Sector = s: seq<byte> | |s| == SECTOR witness Full(SECTOR)

  function Flat(cells: seq<Sector>): (b: seq<byte>)
    ensures |b| == |cells| * SECTOR
  {
    if cells == [] then [] else Flat(cells[..|cells| - 1]) + cells[|cells| - 1]
  }

  lemma {:induction false} FlatAppend(a: seq<Sector>, b: seq<Sector>)
    ensures Flat(a + b) == Flat(a) + Flat(b)
  {
    if b == [] {
      assert a + b == a;
    } else {
      assert (a + b)[..|a + b| - 1] == a + b[..|b| - 1];
      FlatAppend(a, b[..|b| - 1]);
    }
  }

  lemma FlatOne(c: Sector)
    ensures Flat([c]) == c
  {
    assert [c][..0] == [];
  }

  // ---- a partition in use ----

  // The cells of the partition, the position of the dummy among them, and how
  // often it went all the way round.
  datatype Wl = Wl(cells: seq<Sector>, dummy: nat, moves: nat)

  predicate Valid(w: Wl) {
    w.dummy < |w.cells| && w.moves < |w.cells|
  }

  function Data(w: Wl): (d: seq<Sector>)
    requires Valid(w)
    ensures |d| == |w.cells| - 1
  {
    w.cells[..w.dummy] + w.cells[w.dummy + 1..]
  }

  // A partition in use never counts a full turn of its data sectors.
  predicate InUse(w: Wl) {
    Valid(w) && (w.moves < |w.cells| - 1 || w.moves == 0)
  }

  // The file system's own sectors, in order.
  function Plain(w: Wl): (p: seq<Sector>)
    requires Valid(w)
    ensures |p| == |w.cells| - 1
  {
    var d := Data(w);
    d[|d| - w.moves..] + d[..|d| - w.moves]
  }

  // One step of the walk: the sector after the dummy moves into its place, the
  // first one when the dummy is last.
  function Walk(w: Wl): (v: Wl)
    requires InUse(w)
    ensures InUse(v) && |v.cells| == |w.cells|
  {
    var n := |w.cells| - 1;
    if w.dummy < n then Wl(w.cells[w.dummy := w.cells[w.dummy + 1]], w.dummy + 1, w.moves)
    else Wl(w.cells[n := w.cells[0]], 0, if w.moves + 1 >= n then 0 else w.moves + 1)
  }

  function WalkTimes(w: Wl, steps: nat): (r: Wl)
    requires InUse(w)
    ensures InUse(r)
  {
    if steps == 0 then w else Walk(WalkTimes(w, steps - 1))
  }

  lemma WalkKeepsPlain(w: Wl)
    requires InUse(w)
    ensures Plain(Walk(w)) == Plain(w)
  {
    if w.dummy < |w.cells| - 1 {
      DummyMoves(w);
    } else if |w.cells| > 1 {
      TurnKeepsPlain(w);
    }
  }

  lemma TurnKeepsPlain(w: Wl)
    requires InUse(w) && w.dummy == |w.cells| - 1 > 0
    ensures Plain(Walk(w)) == Plain(w)
  {
    FirstGoesLast(w);
    TurnsBack(Data(w), w.moves);
  }

  lemma DummyMoves(w: Wl)
    requires InUse(w) && w.dummy < |w.cells| - 1
    ensures Data(Walk(w)) == Data(w) && Plain(Walk(w)) == Plain(w)
  {
    var d, e := Data(w), Data(Walk(w));
    forall i | 0 <= i < |d| ensures e[i] == d[i] {
    }
  }

  lemma FirstGoesLast(w: Wl)
    requires InUse(w) && w.dummy == |w.cells| - 1 > 0
    ensures var d := Data(w);
            Data(Walk(w)) == d[1..] + [d[0]]
  {
    var d, e := Data(w), Data(Walk(w));
    forall i | 0 <= i < |e| ensures e[i] == (d[1..] + [d[0]])[i] {
    }
  }

  // One sector from the front to the back, one round more.
  lemma TurnsBack(d: seq<Sector>, moves: nat)
    requires moves < |d|
    ensures var e, more := d[1..] + [d[0]], if moves + 1 >= |d| then 0 else moves + 1;
            e[|e| - more..] + e[..|e| - more] == d[|d| - moves..] + d[..|d| - moves]
  {
    var e, more := d[1..] + [d[0]], if moves + 1 >= |d| then 0 else moves + 1;
    var r, q := e[|e| - more..] + e[..|e| - more], d[|d| - moves..] + d[..|d| - moves];
    forall i | 0 <= i < |d| ensures r[i] == q[i] {
    }
  }

  lemma {:induction false} WalksKeepPlain(w: Wl, steps: nat)
    requires InUse(w)
    ensures Plain(WalkTimes(w, steps)) == Plain(w)
  {
    if steps > 0 {
      WalksKeepPlain(w, steps - 1);
      WalkKeepsPlain(WalkTimes(w, steps - 1));
    }
  }

  // ---- the image of a partition in use ----

  // One copy of the state: it says how often the dummy went round, and has one
  // record for each place the dummy left since.
  predicate StateOf(state: seq<byte>, w: Wl, sectors: nat) {
    && |state| == sectors * SECTOR
    && MoveCount(Upto(state, HEADER)) == Some(w.moves)
    && (forall k | 0 <= k < w.dummy :: !Blank(state, RecordAt(k)))
    && Blank(state, RecordAt(w.dummy))
  }

  predicate ImageOf(image: seq<byte>, w: Wl, state: seq<byte>, copy: seq<byte>, config: seq<byte>) {
    && Valid(w)
    && image == Flat(w.cells) + state + copy + config
    && |copy| == |state| && |config| == SECTOR
    && StateOf(state, w, StateSectors(|image| / SECTOR))
  }

  lemma {:induction false} RecordsAre(s: seq<byte>, dummy: nat, end: nat, k: nat)
    requires k <= dummy && RecordAt(dummy) + RECORD <= end
    requires forall j | k <= j < dummy :: !Blank(s, RecordAt(j))
    requires Blank(s, RecordAt(dummy))
    ensures Records(s, k, end) == dummy - k
    decreases dummy - k
  {
    if k < dummy {
      RecordsAre(s, dummy, end, k + 1);
    }
  }

  lemma BlankStill(state: seq<byte>, rest: seq<byte>, i: nat)
    requires i + RECORD <= |state|
    ensures Blank(state + rest, i) == Blank(state, i)
  {
    assert forall j | i <= j < i + RECORD :: (state + rest)[j] == state[j];
  }

  lemma RecordsCount(state: seq<byte>, rest: seq<byte>, w: Wl, sectors: nat)
    requires StateOf(state, w, sectors)
    requires RecordAt(w.dummy) + RECORD <= |state|
    ensures Records(state + rest, 0, |state|) == w.dummy
  {
    forall j | 0 <= j <= w.dummy ensures Blank(state + rest, RecordAt(j)) == Blank(state, RecordAt(j)) {
      BlankStill(state, rest, RecordAt(j));
    }
    RecordsAre(state + rest, w.dummy, |state|, 0);
  }

  lemma StrippedIs(w: Wl, tail: seq<byte>, stateBytes: nat)
    requires Valid(w) && |tail| == SECTOR + 2 * stateBytes
    ensures Stripped(Flat(w.cells) + tail, w.dummy, stateBytes) == Flat(Data(w))
  {
    var a, d, b := w.cells[..w.dummy], w.cells[w.dummy], w.cells[w.dummy + 1..];
    assert w.cells == a + [d] + b;
    FlatAppend(a + [d], b);
    FlatAppend(a, [d]);
    FlatAppend(a, b);
    FlatOne(d);
    var image := Flat(w.cells) + tail;
    assert image == Flat(a) + d + Flat(b) + tail;
    assert Upto(image, w.dummy * SECTOR) == Flat(a);
    assert After(image, w.dummy * SECTOR + SECTOR) == Flat(b) + tail;
    var cut := Flat(a) + (Flat(b) + tail);
    assert Upto(cut, |cut| - (SECTOR + 2 * stateBytes)) == Flat(a) + Flat(b);
  }

  lemma RotatedIs(w: Wl)
    requires Valid(w)
    ensures Rotated(Flat(Data(w)), w.moves) == Flat(Plain(w))
  {
    var d := Data(w);
    var a, b := d[..|d| - w.moves], d[|d| - w.moves..];
    assert d == a + b;
    FlatAppend(a, b);
    FlatAppend(b, a);
    var s := Flat(a) + Flat(b);
    assert FromEnd(s, w.moves * SECTOR) == if w.moves == 0 then s else Flat(b);
    assert ButEnd(s, w.moves * SECTOR) == if w.moves == 0 then [] else Flat(a);
    if w.moves == 0 {
      assert b == [] && Flat(b) == [];
    }
  }

  /** For any place of the dummy and any number of rounds, the plain sectors come
      back in order. */
  lemma RemoveUndoesWear(image: seq<byte>, w: Wl, state: seq<byte>, copy: seq<byte>, config: seq<byte>)
    requires ImageOf(image, w, state, copy, config)
    ensures Removed(image) == Some(Flat(Plain(w)))
  {
    var sectors := StateSectors(|image| / SECTOR);
    var rest := copy + config;
    var tail := state + rest;
    assert image == Flat(w.cells) + tail;
    assert |image| / SECTOR == |w.cells| + 2 * sectors + 1;
    assert FromEnd(image, 2 * |state| + SECTOR) == tail;
    assert Upto(tail, HEADER) == Upto(state, HEADER);
    RecordsCount(state, rest, w, sectors);
    StrippedIs(w, tail, |state|);
    RotatedIs(w);
  }

  /** However far the dummy has walked, the answer is the same. */
  lemma WalkingChangesNothing(image: seq<byte>, w: Wl, steps: nat, state: seq<byte>, copy: seq<byte>, config: seq<byte>)
    requires InUse(w)
    requires ImageOf(image, WalkTimes(w, steps), state, copy, config)
    ensures Removed(image) == Some(Flat(Plain(w)))
  {
    RemoveUndoesWear(image, WalkTimes(w, steps), state, copy, config);
    WalksKeepPlain(w, steps);
  }
}

module WearLevelBuild {
  import opened Options
  import opened Sequences
  import opened WearLevelling

  const ERASED: Sector := Full(SECTOR)

  function Zeros(n: nat): (s: seq<byte>)
    ensures |s| == n && forall i | 0 <= i < n :: s[i] == 0
  {
    seq(n, _ => 0)
  }

  // The two sectors kept back in safe mode.
  function Dump(safe: bool): seq<Sector> {
    if safe then [ERASED, ERASED] else []
  }

  // Sectors of a partition that are not the file system's.
  function Overhead(total: nat, safe: bool): nat {
    1 + 1 + 2 * StateSectors(total) + |Dump(safe)|
  }

  // pos, max_pos, move_count, access_count, max_count, block_size, version,
  // device_id, 28 reserved bytes, checksum.
  predicate HeaderOf(header: seq<byte>, moves: nat) {
    && |header| == HEADER && moves < 0x1_0000_0000
    && header[8..12] == Word(moves)
    && header[32..60] == Zeros(28)
  }

  lemma HeaderParses(header: seq<byte>, moves: nat)
    requires HeaderOf(header, moves)
    ensures MoveCount(header) == Some(moves)
  {
    forall i | 32 <= i < 60 ensures header[i] == 0 {
      assert header[32..60][i - 32] == 0;
    }
    WordReads(moves);
    forall i | 0 <= i < 4 ensures header[8 + i] == Word(moves)[i] {
      assert header[8..12][i] == header[8 + i];
    }
  }

  function StateCopy(header: seq<byte>, sectors: nat): seq<byte>
    requires |header| == HEADER && sectors > 0
  {
    header + Full(sectors * SECTOR - HEADER)
  }

  lemma FreshState(header: seq<byte>, sectors: nat, w: Wl)
    requires HeaderOf(header, 0) && sectors > 0
    requires w.dummy == 0 && w.moves == 0
    ensures StateOf(StateCopy(header, sectors), w, sectors)
  {
    HeaderParses(header, 0);
    var state := StateCopy(header, sectors);
    assert Upto(state, HEADER) == header;
    assert Blank(state, RecordAt(0));
  }

  function ConfigSector(config: seq<byte>): (s: seq<byte>)
    requires |config| == 48
    ensures |s| == SECTOR
  {
    config + Full(SECTOR - 48)
  }

  // The dummy, the data, in safe mode two dump sectors, both copies of the state
  // and the config, each at its place.
  predicate LaidOut(image: seq<byte>, plain: seq<Sector>, safe: bool, copy: seq<byte>, last: seq<byte>) {
    var data := 1 + |plain| + |Dump(safe)|;
    var states := data * SECTOR;
    && |image| == states + 2 * |copy| + |last|
    && image[..SECTOR] == ERASED
    && image[SECTOR..states] == Flat(plain + Dump(safe))
    && image[states..states + |copy|] == image[states + |copy|..states + 2 * |copy|] == copy
    && image[states + 2 * |copy|..] == last
  }

  // The partition as it is first written: the dummy in front.
  function FirstUse(plain: seq<Sector>, safe: bool): (w: Wl)
    ensures InUse(w)
  {
    Wl([ERASED] + plain + Dump(safe), 0, 0)
  }

  lemma FirstUseIsPlain(plain: seq<Sector>, safe: bool)
    ensures Plain(FirstUse(plain, safe)) == plain + Dump(safe)
  {
    var d := plain + Dump(safe);
    assert Data(FirstUse(plain, safe)) == d;
    assert d[|d|..] + d[..|d|] == d;
  }

  class WlImage {
    const plain: seq<Sector>
    const total: nat
    const safe: bool
    var image: seq<byte>

    constructor (plain: seq<Sector>, total: nat, safe: bool)
      ensures this.plain == plain && this.total == total && this.safe == safe && image == Flat(plain)
    {
      this.plain, this.total, this.safe := plain, total, safe;
      image := Flat(plain);
    }

    method AddDummySector()
      modifies this
      ensures image == Full(SECTOR) + old(image)
    {
      image := Full(SECTOR) + image;
    }

    method AddStateSectors(header: seq<byte>)
      requires |header| == HEADER
      modifies this
      ensures var copy := StateCopy(header, StateSectors(total));
              image == old(image) + Flat(Dump(safe)) + (copy + copy)
    {
      var copy := StateCopy(header, StateSectors(total));
      if safe {
        image := image + Flat([ERASED, ERASED]);
      }
      image := image + (copy + copy);
    }

    method AddConfigSector(config: seq<byte>)
      requires |config| == 48
      modifies this
      ensures image == old(image) + ConfigSector(config)
    {
      image := image + ConfigSector(config);
    }

    /** Builds the image; taking the layer off it again gives the plain image, with
        the two dump sectors still behind it in safe mode. */
    method InitWl(header: seq<byte>, config: seq<byte>)
      requires HeaderOf(header, 0) && |config| == 48
      requires total == |plain| + Overhead(total, safe)
      modifies this
      ensures Removed(image) == Some(Flat(plain + Dump(safe)))
      ensures |image| == total * SECTOR
      ensures LaidOut(image, plain, safe, StateCopy(header, StateSectors(total)), ConfigSector(config))
    {
      image := Flat(plain);
      AddDummySector();
      AddStateSectors(header);
      AddConfigSector(config);
      ghost var copy, last := StateCopy(header, StateSectors(total)), ConfigSector(config);
      Shape(plain, safe, copy, last);
      BuiltImage(FirstUse(plain, safe), total, header, copy, last, image);
      FirstUseIsPlain(plain, safe);
      Places(image, plain, safe, copy, last);
    }
  }

  lemma Places(image: seq<byte>, plain: seq<Sector>, safe: bool, copy: seq<byte>, last: seq<byte>)
    requires image == Full(SECTOR) + Flat(plain) + Flat(Dump(safe)) + (copy + copy) + last
    ensures LaidOut(image, plain, safe, copy, last)
  {
    FlatAppend(plain, Dump(safe));
    Assoc(ERASED, Flat(plain), Flat(Dump(safe)));
    Slices(image, ERASED, Flat(plain + Dump(safe)), copy, last);
  }

  lemma Slices(s: seq<byte>, a: seq<byte>, b: seq<byte>, c: seq<byte>, d: seq<byte>)
    requires s == a + b + (c + c) + d
    ensures var n := |a| + |b|;
            && |s| == n + 2 * |c| + |d| && s[..|a|] == a && s[|a|..n] == b
            && s[n..n + |c|] == s[n + |c|..n + 2 * |c|] == c && s[n + 2 * |c|..] == d
  {
  }

  lemma Shape(plain: seq<Sector>, safe: bool, copy: seq<byte>, last: seq<byte>)
    ensures Full(SECTOR) + Flat(plain) + Flat(Dump(safe)) + (copy + copy) + last
         == Flat(FirstUse(plain, safe).cells) + copy + copy + last
  {
    FlatAppend([ERASED] + plain, Dump(safe));
    FlatAppend([ERASED], plain);
    FlatOne(ERASED);
  }

  lemma BuiltImage(w: Wl, total: nat, header: seq<byte>, copy: seq<byte>, last: seq<byte>, image: seq<byte>)
    requires HeaderOf(header, 0) && |last| == SECTOR
    requires Valid(w) && w.dummy == 0 && w.moves == 0
    requires total == |w.cells| + 1 + 2 * StateSectors(total)
    requires copy == StateCopy(header, StateSectors(total))
    requires image == Flat(w.cells) + copy + copy + last
    ensures Removed(image) == Some(Flat(Plain(w)))
    ensures |image| == total * SECTOR
  {
    assert |copy| == StateSectors(total) * SECTOR;
    assert |image| == total * SECTOR;
    assert |image| / SECTOR == total;
    FreshState(header, StateSectors(total), w);
    RemoveUndoesWear(image, w, copy, copy, last);
  }
}
