// String values copied raw, and the chats listed from a getUpdates reply.
// Models copy_raw and tg_chats_from_updates in components/kvm_notify/tg_chats.c.

module RawCopy {
  import opened Sequences
  import opened Options
  import opened JsonText
  import opened ObjectScan
  import opened KeySearch

  // Bytes of the escape or character that t starts with, by its first bytes.
  function UnitLength(t: string): (n: nat)
    requires t != ""
    ensures n > 0
  {
    var c := t[0] as int;
    if t[0] == '\\' then (if |t| > 1 && t[1] == 'u' then 6 else 2)
    else if c >= 0xf0 then 4
    else if c >= 0xe0 then 3
    else if c >= 0xc0 then 2
    else 1
  }

  // What is kept of the string whose content starts t.
  function Kept(t: string, limit: nat): (k: string)
    ensures |k| <= limit
    decreases |t|
  {
    if t == "" || t[0] == '"' then ""
    else
      var n := UnitLength(t);
      if n > |t| || n > limit then "" else t[..n] + Kept(t[n..], limit - n)
  }

  method CopyRaw(s: string, v: int, stop: nat, limit: nat) returns (n: int, out: string)
    requires -1 <= v && stop <= |s|
    ensures 0 <= v < stop && s[v] == '"' ==> n == |out| && out == Kept(s[v + 1..stop], limit)
    ensures !(0 <= v < stop && s[v] == '"') ==> n == -1 && out == ""
  {
    if v < 0 || v >= stop || s[v] != '"' {
      return -1, "";
    }
    out := "";
    var p := v + 1;
    while p < stop && s[p] != '"'
      invariant v < p <= stop
      invariant Copied(s, p, stop, out, limit, Kept(s[v + 1..stop], limit))
      decreases stop - p
    {
      var step := UnitLength(s[p..]);
      CopyStep(s, p, stop, out, step, limit, Kept(s[v + 1..stop], limit));
      if p + step > stop || |out| + step > limit {
        break;
      }
      out := out + s[p..p + step];
      p := p + step;
    }
    n := |out|;
  }

  // out, and what is still to be copied from p, make up all.
  predicate Copied(s: string, p: nat, stop: nat, out: string, limit: nat, all: string)
    requires p <= stop <= |s|
  {
    |out| <= limit && all == out + Kept(s[p..stop], limit - |out|)
  }

  lemma CopyStep(s: string, p: nat, stop: nat, out: string, step: nat, limit: nat, all: string)
    requires p < stop <= |s| && s[p] != '"' && step == UnitLength(s[p..])
    requires Copied(s, p, stop, out, limit, all)
    ensures p + step > stop || |out| + step > limit ==> all == out
    ensures p + step <= stop && |out| + step <= limit ==>
              Copied(s, p + step, stop, out + s[p..p + step], limit, all)
  {
    var t := s[p..stop];
    assert t[0] == s[p];
    if p + step <= stop && |out| + step <= limit {
      assert t[..step] == s[p..p + step] && t[step..] == s[p + step..stop];
      Assoc(out, s[p..p + step], Kept(t[step..], limit - |out| - step));
    }
  }

  // How many of the units fit whole.
  function Fit(us: seq<Unit>, limit: nat): (k: nat)
    ensures k <= |us|
  {
    if us == [] || |WriteUnit(us[0])| > limit then 0
    else 1 + Fit(us[1..], limit - |WriteUnit(us[0])|)
  }

  lemma {:induction false} FitIsLongest(us: seq<Unit>, limit: nat, k: nat)
    requires k <= |us|
    ensures |WriteUnits(us[..k])| <= limit <==> k <= Fit(us, limit)
  {
    if k > 0 {
      var room := limit - |WriteUnit(us[0])|;
      assert us[..k][1..] == us[1..][..k - 1];
      assert WriteUnits(us[..k]) == WriteUnit(us[0]) + WriteUnits(us[1..][..k - 1]);
      if room >= 0 {
        FitIsLongest(us[1..], room, k - 1);
      }
    }
  }

  lemma UnitLengthIsRight(u: Unit, more: string)
    requires UnitOk(u)
    ensures UnitLength(WriteUnit(u) + more) == |WriteUnit(u)|
    ensures (WriteUnit(u) + more)[0] != '"'
  {
    var t := WriteUnit(u) + more;
    match u
    case Plain(b) => assert t[0] == b[0];
    case Escape(c) => assert t[0] == '\\' && t[1] == c;
    case EscapeU(h) => assert t[0] == '\\' && t[1] == 'u';
  }

  /** Of a well-formed string the copy keeps the longest prefix of whole escapes
      and whole characters that fits. */
  lemma {:induction false} CopyKeepsWholeUnits(us: seq<Unit>, rest: string, limit: nat)
    requires UnitsOk(us)
    ensures Kept(WriteUnits(us) + ("\"" + rest), limit) == WriteUnits(us[..Fit(us, limit)])
  {
    var close := "\"" + rest;
    if us == [] {
      assert WriteUnits(us) + close == close;
    } else {
      KeptOfUnit(us, close, limit);
      var w := WriteUnit(us[0]);
      if |w| <= limit {
        CopyKeepsWholeUnits(us[1..], rest, limit - |w|);
        FitOfMore(us, limit);
      }
    }
  }

  lemma KeptOfUnit(us: seq<Unit>, close: string, limit: nat)
    requires us != [] && UnitOk(us[0])
    ensures var w := WriteUnit(us[0]);
            Kept(WriteUnits(us) + close, limit) ==
              if |w| > limit then "" else w + Kept(WriteUnits(us[1..]) + close, limit - |w|)
  {
    var w, more := WriteUnit(us[0]), WriteUnits(us[1..]) + close;
    Assoc(w, WriteUnits(us[1..]), close);
    UnitLengthIsRight(us[0], more);
    KeptOfTwo(w, more, limit);
  }

  lemma KeptOfTwo(w: string, more: string, limit: nat)
    requires w != "" && (w + more)[0] != '"' && UnitLength(w + more) == |w|
    ensures Kept(w + more, limit) == if |w| > limit then "" else w + Kept(more, limit - |w|)
  {
    assert (w + more)[|w|..] == more && (w + more)[..|w|] == w;
  }

  lemma FitOfMore(us: seq<Unit>, limit: nat)
    requires us != [] && |WriteUnit(us[0])| <= limit
    ensures var k := Fit(us[1..], limit - |WriteUnit(us[0])|);
            WriteUnits(us[..Fit(us, limit)]) == WriteUnit(us[0]) + WriteUnits(us[1..][..k])
  {
    var k := Fit(us[1..], limit - |WriteUnit(us[0])|);
    assert us[..k + 1][1..] == us[1..][..k];
  }

  // ---- characters beyond the sixteen-bit range ----

  function HexValue(c: char): nat
    requires Hex(c)
  {
    if c <= '9' then c as int - '0' as int
    else if c <= 'F' then c as int - 'A' as int + 10
    else c as int - 'a' as int + 10
  }

  function HexWord(h: string): nat
    requires |h| == 4 && forall i | 0 <= i < 4 :: Hex(h[i])
  {
    HexValue(h[0]) * 0x1000 + HexValue(h[1]) * 0x100 + HexValue(h[2]) * 0x10 + HexValue(h[3])
  }

  // Two escapes stand for one character (RFC 8259 section 7).
  predicate High(u: Unit)
    requires UnitOk(u)
  {
    u.EscapeU? && 0xd800 <= HexWord(u.hex) < 0xdc00
  }

  predicate Low(u: Unit)
    requires UnitOk(u)
  {
    u.EscapeU? && 0xdc00 <= HexWord(u.hex) < 0xe000
  }

  // No half of a pair stands alone.
  predicate Paired(us: seq<Unit>)
    requires UnitsOk(us)
  {
    && (forall i | 0 <= i < |us| && High(us[i]) :: i + 1 < |us| && Low(us[i + 1]))
    && (forall i | 0 <= i < |us| && Low(us[i]) :: i > 0 && High(us[i - 1]))
  }

  // The limit falls between the two escapes of the pair at k.
  predicate CutsPairAt(us: seq<Unit>, limit: nat, k: nat)
    requires UnitsOk(us)
  {
    && k + 1 < |us| && High(us[k])
    && |WriteUnits(us[..k + 1])| <= limit < |WriteUnits(us[..k + 1])| + 6
  }

  lemma PrefixPaired(us: seq<Unit>, n: nat)
    requires UnitsOk(us) && Paired(us) && n <= |us|
    ensures Paired(us[..n]) <==> !(0 < n < |us| && High(us[n - 1]))
  {
    assert forall i | 0 <= i < n :: us[..n][i] == us[i];
    if 0 < n < |us| && High(us[n - 1]) {
      assert High(us[..n][n - 1]);
    }
  }

  // The copy ends behind unit n exactly if the limit falls in the one behind it.
  lemma {:induction false} FitEnds(us: seq<Unit>, limit: nat, n: nat)
    requires n < |us|
    ensures Fit(us, limit) == n <==>
              |WriteUnits(us[..n])| <= limit < |WriteUnits(us[..n])| + |WriteUnit(us[n])|
  {
    FitIsLongest(us, limit, n);
    FitIsLongest(us, limit, n + 1);
    WrittenMore(us, n);
  }

  /** The copy is of whole characters too if and only if the limit falls between
      the two escapes of no pair. */
  lemma {:induction false} CopyKeepsWholeCharactersExactly(us: seq<Unit>, limit: nat)
    requires UnitsOk(us) && Paired(us)
    ensures Paired(us[..Fit(us, limit)]) <==> forall k: nat :: !CutsPairAt(us, limit, k)
  {
    var n := Fit(us, limit);
    PrefixPaired(us, n);
    if k: nat :| CutsPairAt(us, limit, k) {
      FitEnds(us, limit, k + 1);
    } else if !Paired(us[..n]) {
      FitEnds(us, limit, n);
      assert CutsPairAt(us, limit, n - 1);
    }
  }

  lemma {:induction false} WrittenMore(us: seq<Unit>, k: nat)
    requires k < |us|
    ensures |WriteUnits(us[..k + 1])| == |WriteUnits(us[..k])| + |WriteUnit(us[k])|
  {
    if k > 0 {
      WrittenMore(us[1..], k - 1);
      assert us[..k + 1][1..] == us[1..][..k] && us[..k][1..] == us[1..][..k - 1];
    } else {
      assert us[..1][1..] == [] && us[..0] == [];
    }
  }

  const GRIN := [EscapeU("d83d"), EscapeU("de00")]

  lemma GrinIsAPair()
    ensures UnitsOk(GRIN) && High(GRIN[0]) && Low(GRIN[1]) && !Low(GRIN[0]) && !High(GRIN[1])
  {
    assert HexWord("d83d") == 0xd83d && HexWord("de00") == 0xde00;
  }

  lemma {:induction false} PairedWithGrin(before: seq<Unit>)
    requires UnitsOk(before) && Paired(before)
    ensures UnitsOk(before + GRIN) && Paired(before + GRIN)
  {
    GrinIsAPair();
    var us, n := before + GRIN, |before|;
    assert forall i | 0 <= i < n :: us[i] == before[i];
    assert us[n] == GRIN[0] && us[n + 1] == GRIN[1];
  }

  /** Behind a text that leaves room for one escape but not for two, half of a
      character is kept: whatever the limit, a name can end so. */
  lemma {:induction false} HalfACharacterIsKept(before: seq<Unit>, limit: nat)
    requires UnitsOk(before) && Paired(before)
    requires |WriteUnits(before)| + 6 <= limit < |WriteUnits(before)| + 12
    ensures var us := before + GRIN;
            && UnitsOk(us) && Paired(us)
            && us[..Fit(us, limit)] == before + GRIN[..1] && !Paired(us[..Fit(us, limit)])
  {
    var us, n := before + GRIN, |before|;
    PairedWithGrin(before);
    GrinIsAPair();
    assert us[..n] == before && us[..n + 1] == before + GRIN[..1] && us[n] == GRIN[0] && us[n + 1] == GRIN[1];
    WrittenMore(us, n);
    FitEnds(us, limit, n + 1);
    PrefixPaired(us, n + 1);
  }

  // ---- the value the search stops at ----

  // The member that KeySearch.Named places.
  function NamedIs(v: Json, key: string): Option<Member>
    decreases v, 1
  {
    match v
    case List(_, items) => NamedInItems(items, key)
    case Object(_, ms) => NamedInMembers(ms, key)
    case _ => None
  }

  function NamedInItems(items: seq<Item>, key: string): Option<Member>
    decreases items, 0
  {
    if items == [] then None
    else if Named(items[0].value, key) >= 0 then NamedIs(items[0].value, key)
    else NamedInItems(items[1..], key)
  }

  function NamedInMembers(ms: seq<Member>, key: string): Option<Member>
    decreases ms, 0
  {
    if ms == [] then None
    else if ms[0].afterName == "" && EndsInKey(ms[0].name, key) then Some(ms[0])
    else if Named(ms[0].value, key) >= 0 then NamedIs(ms[0].value, key)
    else NamedInMembers(ms[1..], key)
  }

  // t has m's value at its start, with what may follow a value behind it.
  ghost predicate ValueStarts(t: string, m: Option<Member>) {
    && m.Some? && MemberOk(m.value)
    && exists more :: Delimited(more) && t == m.value.beforeValue + (Write(m.value.value) + more)
  }

  lemma ValueStartsLater(t: string, at: nat, whole: string, n: nat, m: Option<Member>)
    requires at <= |t| && ValueStarts(t[at..], m)
    requires n <= |whole| && whole[n..] == t
    ensures n + at <= |whole| && ValueStarts(whole[n + at..], m)
  {
    assert whole[n + at..] == whole[n..][at..];
  }

  lemma {:induction false} ValueStandsThere(v: Json, rest: string, key: string)
    requires WellFormed(v) && Delimited(rest) && Named(v, key) >= 0
    ensures ValueStarts((Write(v) + rest)[Named(v, key)..], NamedIs(v, key))
    decreases v, 1
  {
    match v
    case List(blank, items) =>
      var tail := "]" + rest;
      ListShape(v, rest);
      ItemStandsThere(items, tail, key);
      ValueStartsLater(WriteItems(items) + tail, NamedItem(items, key), Write(v) + rest, 1 + |blank|, NamedIs(v, key));
    case Object(blank, ms) =>
      var tail := "}" + rest;
      ObjectShape(v, rest);
      MemberStandsThere(ms, tail, key);
      ValueStartsLater(WriteMembers(ms) + tail, NamedMember(ms, key), Write(v) + rest, 1 + |blank|, NamedIs(v, key));
  }

  lemma {:induction false} ItemStandsThere(items: seq<Item>, rest: string, key: string)
    requires ItemsOk(items) && Delimited(rest) && NamedItem(items, key) >= 0
    ensures ValueStarts((WriteItems(items) + rest)[NamedItem(items, key)..], NamedInItems(items, key))
    decreases items, 0
  {
    var it, last := items[0], |items| == 1;
    var more := WriteItems(items[1..]) + rest;
    assert last ==> more == rest;
    Assoc(WriteItem(it, last), WriteItems(items[1..]), rest);
    if Named(it.value, key) >= 0 {
      ItemShape(it, last, more);
      GapDelimits(it.after, last, more);
      ValueStandsThere(it.value, Gap(it.after, last) + more, key);
      ValueStartsLater(Write(it.value) + (Gap(it.after, last) + more), Named(it.value, key),
                       WriteItems(items) + rest, |it.before|, NamedInItems(items, key));
    } else {
      ItemStandsThere(items[1..], rest, key);
      ValueStartsLater(more, NamedItem(items[1..], key),
                       WriteItems(items) + rest, |WriteItem(it, last)|, NamedInItems(items, key));
    }
  }

  lemma {:induction false} MemberStandsThere(ms: seq<Member>, rest: string, key: string)
    requires MembersOk(ms) && Delimited(rest) && NamedMember(ms, key) >= 0
    ensures ValueStarts((WriteMembers(ms) + rest)[NamedMember(ms, key)..], NamedInMembers(ms, key))
    decreases ms, 0
  {
    var m, last := ms[0], |ms| == 1;
    var more := WriteMembers(ms[1..]) + rest;
    assert last ==> more == rest;
    Assoc(WriteMember(m, last), WriteMembers(ms[1..]), rest);
    if NamedHere(m, key) >= 0 {
      MemberShape(m, last, more);
      GapDelimits(m.after, last, more);
      HereStandsThere(m, Gap(m.after, last) + more, key);
    } else {
      MemberStandsThere(ms[1..], rest, key);
      ValueStartsLater(more, NamedMember(ms[1..], key),
                       WriteMembers(ms) + rest, |WriteMember(m, last)|, NamedInMembers(ms, key));
    }
  }

  lemma {:induction false} HereStandsThere(m: Member, rest: string, key: string)
    requires MemberOk(m) && Delimited(rest) && NamedHere(m, key) >= 0
    ensures ValueStarts((MemberHead(m) + (Write(m.value) + rest))[NamedHere(m, key)..],
                        if m.afterName == "" && EndsInKey(m.name, key) then Some(m) else NamedIs(m.value, key))
    decreases m, 0
  {
    var whole := MemberHead(m) + (Write(m.value) + rest);
    if m.afterName == "" && EndsInKey(m.name, key) {
      assert whole[NamedHere(m, key)..] == m.beforeValue + (Write(m.value) + rest);
    } else {
      ValueStandsThere(m.value, rest, key);
      ValueStartsLater(Write(m.value) + rest, Named(m.value, key), whole, |MemberHead(m)|, NamedIs(m.value, key));
    }
  }
}

module ChatList {
  import opened Sequences
  import opened Options
  import opened DecimalText
  import opened JsonText
  import opened ObjectScan
  import opened KeySearch
  import opened RawCopy

  // ---- numbers read and printed ----

  const INT64_MAX: int := 0x7fff_ffff_ffff_ffff

  predicate Space(c: char) {
    c == ' ' || 9 <= c as int <= 13
  }

  function Spaces(t: string): (n: nat)
    ensures n <= |t|
  {
    if t != "" && Space(t[0]) then 1 + Spaces(t[1..]) else 0
  }

  predicate IsDigit(c: char) {
    '0' <= c <= '9'
  }

  function DigitCount(t: string): (n: nat)
    ensures n <= |t| && forall i | 0 <= i < n :: IsDigit(t[i])
  {
    if t != "" && IsDigit(t[0]) then 1 + DigitCount(t[1..]) else 0
  }

  function Clamped(n: int): int {
    if n > INT64_MAX then INT64_MAX else if n < -INT64_MAX - 1 then -INT64_MAX - 1 else n
  }

  // The C library's strtoll in base ten; None when it converts nothing.
  function ReadInt(t: string): Option<int> {
    ReadSigned(t[Spaces(t)..])
  }

  function ReadSigned(u: string): Option<int> {
    var minus := StartsWith(u, '-');
    var d := if minus || StartsWith(u, '+') then u[1..] else u;
    var k := DigitCount(d);
    var n: int := Value(d[..k]);
    if k == 0 then None else Some(Clamped(if minus then -n else n))
  }

  function Signed(n: int): string {
    if n < 0 then "-" + Decimal(-n) else Decimal(n)
  }

  // ---- one chat ----

  datatype Chat = Chat(id: int, kind: string, name: string)

  const NAME_RAW_MAX := 128
  const TYPE_MAX := 23
  const SEEN_MAX := 32

  // o runs from the object's '{' up to its '}'.
  function Raw(o: string, key: string, limit: nat): (r: Option<string>)
    ensures r.Some? ==> |r.value| <= limit
  {
    var at := Seek(o, Pattern(key));
    if 0 <= at < |o| && o[at] == '"' then Some(Kept(o[at + 1..], limit)) else None
  }

  function TextOf(r: Option<string>): string {
    if r.Some? then r.value else ""
  }

  function NameOf(o: string): string {
    Composed(TextOf(Raw(o, "title", NAME_RAW_MAX)), TextOf(Raw(o, "first_name", NAME_RAW_MAX)),
             TextOf(Raw(o, "last_name", NAME_RAW_MAX)), TextOf(Raw(o, "username", NAME_RAW_MAX)))
  }

  function Composed(title: string, first: string, last: string, user: string): string {
    if title != "" then title
    else if first != "" then (if last != "" then first + " " + last else first)
    else user
  }

  datatype Cut = Cut(body: string, tail: string)

  // An object up to its '}', and the reply from its '{' on.
  type Span = c: Cut | |c.body| <= |c.tail| witness Cut("", "")

  function IdOf(s: Span): Option<int> {
    var at := Seek(s.body, Pattern("id"));
    if at < 0 then None else ReadInt(s.tail[at..])
  }

  function ChatOf(s: Span): Option<Chat> {
    var id := IdOf(s);
    if id.None? then None
    else Some(Chat(id.value, TextOf(Raw(s.body, "type", TYPE_MAX)), NameOf(s.body)))
  }

  const HEAD := "\"chat\":{"

  // The chat objects the reply names, in order; one cut short ends the list.
  function Objects(t: string): seq<Span> {
    if |t| < |HEAD| then []
    else if !Here(t, HEAD) then Objects(t[1..])
    else
      var o := t[|HEAD| - 1..];
      var end := End(o, 0, false);
      if end < 0 then [] else [Cut(o[..end], o)] + Objects(t[1..])
  }

  function Read(spans: seq<Span>): (r: seq<Option<Chat>>)
    ensures |r| == |spans| && forall i | 0 <= i < |r| :: r[i] == ChatOf(spans[i])
  {
    seq(|spans|, i requires 0 <= i < |spans| => ChatOf(spans[i]))
  }

  function Somes<T>(r: seq<Option<T>>): seq<T> {
    if r == [] then []
    else if r[0].None? then Somes(r[1..])
    else [r[0].value] + Somes(r[1..])
  }

  function Candidates(t: string): seq<Chat> {
    Somes(Read(Objects(t)))
  }

  // ---- which are listed ----

  function Ids(cs: seq<Chat>): set<int> {
    set c | c in cs :: c.id
  }

  function FirstOfEach(cs: seq<Chat>, seen: seq<int>): (f: seq<Chat>)
    decreases cs
  {
    if cs == [] then []
    else if cs[0].id in seen then FirstOfEach(cs[1..], seen)
    else [cs[0]] + FirstOfEach(cs[1..], seen + [cs[0].id])
  }

  function Most(maxChats: int): int {
    if maxChats > SEEN_MAX then SEEN_MAX else maxChats
  }

  function Limited(all: seq<Chat>, maxChats: int): seq<Chat> {
    if Most(maxChats) <= 0 then [] else if |all| <= Most(maxChats) then all else all[..Most(maxChats)]
  }

  function Chosen(json: string, maxChats: int): seq<Chat> {
    Limited(FirstOfEach(Candidates(json), []), maxChats)
  }

  /** Each id is listed once, by the first chat that has it, and none that is
      not yet seen is missing. */
  lemma {:induction false} FirstOfEachIsRight(cs: seq<Chat>, seen: seq<int>)
    ensures var f := FirstOfEach(cs, seen);
            && (forall i, j | 0 <= i < j < |f| :: f[i].id != f[j].id)
            && (forall c | c in f :: c in cs)
            && Ids(f) == Ids(cs) - (set x | x in seen)
    decreases cs
  {
    if cs != [] {
      var f := FirstOfEach(cs, seen);
      if cs[0].id in seen {
        FirstOfEachIsRight(cs[1..], seen);
        assert Ids(cs) == Ids(cs[1..]) + {cs[0].id};
      } else {
        var more := seen + [cs[0].id];
        FirstOfEachIsRight(cs[1..], more);
        var g := FirstOfEach(cs[1..], more);
        assert (set x | x in more) == (set x | x in seen) + {cs[0].id};
        assert f == [cs[0]] + g && Ids(f) == Ids(g) + {cs[0].id};
        assert forall j | 1 <= j < |f| :: f[j] in g && f[j].id in Ids(g);
        assert Ids(cs) == Ids(cs[1..]) + {cs[0].id};
      }
    }
  }

  // Where the first chat with this id stands; the end without one.
  function FirstAt(cs: seq<Chat>, id: int): (k: nat)
    ensures k <= |cs| && (k < |cs| ==> cs[k].id == id) && forall i | 0 <= i < k :: cs[i].id != id
  {
    if cs == [] || cs[0].id == id then 0 else 1 + FirstAt(cs[1..], id)
  }

  // Each of f is the first of its id in cs, not seen before, in the order of cs.
  predicate FirstsInOrder(cs: seq<Chat>, seen: seq<int>, f: seq<Chat>) {
    && (forall i | 0 <= i < |f| :: f[i].id !in seen)
    && (forall i | 0 <= i < |f| :: FirstAt(cs, f[i].id) < |cs| && cs[FirstAt(cs, f[i].id)] == f[i])
    && (forall i, j | 0 <= i < j < |f| :: FirstAt(cs, f[i].id) < FirstAt(cs, f[j].id))
  }

  lemma OneBefore(cs: seq<Chat>, seen: seq<int>, f: seq<Chat>)
    requires cs != [] && cs[0].id in seen && FirstsInOrder(cs[1..], seen, f)
    ensures FirstsInOrder(cs, seen, f)
  {
    forall i | 0 <= i < |f| ensures FirstAt(cs, f[i].id) == 1 + FirstAt(cs[1..], f[i].id) {
      assert f[i].id != cs[0].id;
    }
  }

  lemma OneMoreFirst(cs: seq<Chat>, seen: seq<int>, g: seq<Chat>)
    requires cs != [] && cs[0].id !in seen && FirstsInOrder(cs[1..], seen + [cs[0].id], g)
    ensures FirstsInOrder(cs, seen, [cs[0]] + g)
  {
    var f, rest := [cs[0]] + g, cs[1..];
    assert cs[0].id in seen + [cs[0].id];
    forall i | 1 <= i < |f|
      ensures f[i] == g[i - 1] && f[i].id !in seen && FirstAt(cs, f[i].id) == 1 + FirstAt(rest, g[i - 1].id)
    {
      assert f[i] == g[i - 1] && g[i - 1].id !in seen + [cs[0].id];
      assert g[i - 1].id != cs[0].id;
    }
    assert FirstAt(cs, f[0].id) == 0;
    forall i | 1 <= i < |f| ensures FirstAt(cs, f[i].id) < |cs| && cs[FirstAt(cs, f[i].id)] == f[i] {
      var k := FirstAt(rest, g[i - 1].id);
      assert k < |rest| && rest[k] == g[i - 1];
    }
    forall i, j | 1 <= i < j < |f| ensures FirstAt(cs, f[i].id) < FirstAt(cs, f[j].id) {
      assert FirstAt(rest, g[i - 1].id) < FirstAt(rest, g[j - 1].id);
    }
  }

  /** What is listed is the first chat of its id, and they stand in the order in
      which their ids came first. */
  lemma {:induction false} FirstOfEachInOrder(cs: seq<Chat>, seen: seq<int>)
    ensures FirstsInOrder(cs, seen, FirstOfEach(cs, seen))
    decreases cs
  {
    if cs != [] {
      if cs[0].id in seen {
        FirstOfEachInOrder(cs[1..], seen);
        OneBefore(cs, seen, FirstOfEach(cs[1..], seen));
      } else {
        FirstOfEachInOrder(cs[1..], seen + [cs[0].id]);
        OneMoreFirst(cs, seen, FirstOfEach(cs[1..], seen + [cs[0].id]));
      }
    }
  }

  /** As many are listed as there are, up to the number asked for and 32. */
  lemma LimitedIs(all: seq<Chat>, maxChats: int)
    ensures var f := Limited(all, maxChats);
            && f <= all && |f| <= 32 && (maxChats >= 0 ==> |f| <= maxChats) && (maxChats < 0 ==> f == [])
            && (|all| <= 32 && |all| <= maxChats ==> f == all)
            && (|f| < |all| ==> |f| == 32 || |f| == maxChats || maxChats < 0)
  {
  }

  // ---- the text ----

  function Entry(c: Chat, first: bool): string {
    (if first then "" else ",") +
    ("{" + Pair("id", Signed(c.id)) + "," + Pair("type", c.kind) + "," + Pair("name", c.name) + "}")
  }

  function Pair(key: string, value: string): string {
    "\"" + key + "\":\"" + value + "\""
  }

  function Listed(cs: seq<Chat>): string {
    if cs == [] then ""
    else Listed(cs[..|cs| - 1]) + Entry(cs[|cs| - 1], |cs| == 1)
  }

  function Reply(cs: seq<Chat>): string {
    "[" + Listed(cs) + "]"
  }

  lemma {:induction false} ListedGrows(cs: seq<Chat>, k: nat)
    requires k <= |cs|
    ensures |Listed(cs[..k])| <= |Listed(cs)|
  {
    if k < |cs| {
      ListedGrows(cs[..|cs| - 1], k);
      assert cs[..|cs| - 1][..k] == cs[..k];
    } else {
      assert cs[..k] == cs;
    }
  }

  // ---- the operation ----

  method Field(s: string, start: nat, stop: nat, key: string, limit: nat) returns (n: int, out: string)
    requires start <= stop <= |s|
    ensures var r := Raw(s[start..stop], key, limit);
            n == (if r.Some? then |r.value| else -1) && out == TextOf(r)
  {
    var v := FindKey(s, start, stop, key);
    n, out := CopyRaw(s, v, stop, limit);
    RawAt(s, start, stop, v, key, limit);
  }

  lemma RawAt(s: string, start: nat, stop: nat, v: int, key: string, limit: nat)
    requires start <= stop <= |s| && v == Past(start, Seek(s[start..stop], Pattern(key)))
    ensures Raw(s[start..stop], key, limit) ==
              if 0 <= v < stop && s[v] == '"' then Some(Kept(s[v + 1..stop], limit)) else None
  {
    var o, at := s[start..stop], Seek(s[start..stop], Pattern(key));
    if 0 <= at < |o| {
      assert o[at] == s[v] && o[at + 1..] == s[v + 1..stop];
    }
  }

  // The title, else the first name and the last if there is one, else the user's
  // name; each of at most 128 bytes.
  predicate IsNamed(o: string, name: string) {
    var title, user := TextOf(Raw(o, "title", 128)), TextOf(Raw(o, "username", 128));
    var first, last := TextOf(Raw(o, "first_name", 128)), TextOf(Raw(o, "last_name", 128));
    && (title != "" ==> name == title)
    && (title == "" && first != "" && last != "" ==> name == first + " " + last)
    && (title == "" && first != "" && last == "" ==> name == first)
    && (title == "" && first == "" ==> name == user)
  }

  method ReadName(s: string, start: nat, stop: nat) returns (name: string)
    requires start <= stop <= |s|
    ensures name == NameOf(s[start..stop])
    ensures IsNamed(s[start..stop], name)
  {
    var n;
    n, name := Field(s, start, stop, "title", NAME_RAW_MAX);
    if n <= 0 {
      n, name := Field(s, start, stop, "first_name", NAME_RAW_MAX);
      if n > 0 {
        var m, last := Field(s, start, stop, "last_name", NAME_RAW_MAX);
        if m > 0 {
          name := name + " " + last;
        }
      } else {
        n, name := Field(s, start, stop, "username", NAME_RAW_MAX);
      }
    }
  }

  method ReadId(json: string, s: nat, e: nat) returns (id: Option<int>)
    requires s <= e <= |json|
    ensures id == IdOf(Cut(json[s..e], json[s..]))
  {
    var idv := FindKey(json, s, e, "id");
    if idv < 0 {
      return None;
    }
    assert json[s..][idv - s..] == json[idv..];
    return ReadInt(json[idv..]);
  }

  method ReadChat(json: string, s: nat, e: nat) returns (c: Option<Chat>)
    requires s <= e <= |json|
    ensures c == ChatOf(Cut(json[s..e], json[s..]))
    ensures var o, at := json[s..e], Seek(json[s..e], "\"id\":");
            && (c.Some? <==> at >= 0 && ReadInt(json[s..][at..]).Some?)
            && (c.Some? ==>
                  && Some(c.value.id) == ReadInt(json[s..][at..])
                  && c.value.kind == TextOf(Raw(o, "type", 23)) && IsNamed(o, c.value.name))
  {
    assert Pattern("id") == "\"id\":";
    var id := ReadId(json, s, e);
    if id.None? {
      return None;
    }
    var _, kind := Field(json, s, e, "type", TYPE_MAX);
    var name := ReadName(json, s, e);
    return Some(Chat(id.value, kind, name));
  }

  method IsSeen(seen: seq<int>, id: int) returns (dup: bool)
    ensures dup <==> id in seen
  {
    dup := false;
    for i := 0 to |seen|
      invariant dup <==> id in seen[..i]
    {
      dup := dup || seen[i] == id;
    }
  }

  // The next start of a chat from p on, -1 without one.
  method NextHead(json: string, p: nat) returns (at: int)
    requires p <= |json|
    ensures at == -1 || (p <= at < |json| && Here(json[at..], HEAD))
    ensures Objects(json[p..]) == if at < 0 then [] else Objects(json[at..])
  {
    at := p;
    while at + |HEAD| <= |json|
      invariant p <= at <= |json|
      invariant Objects(json[p..]) == Objects(json[at..])
    {
      if json[at..][..|HEAD|] == HEAD {
        return at;
      }
      assert json[at..][1..] == json[at + 1..];
      NoHeadHere(json[at..]);
      at := at + 1;
    }
    return -1;
  }

  lemma NoHeadHere(t: string)
    requires |t| >= |HEAD| && !Here(t, HEAD)
    ensures Objects(t) == Objects(t[1..])
  {
  }

  // Where the object of the chat at p ends, -1 when the reply is cut short.
  method HeadEnd(json: string, p: nat) returns (e: int)
    requires p < |json| && Here(json[p..], HEAD)
    ensures e < 0 ==> Objects(json[p..]) == []
    ensures e >= 0 ==>
              var s := p + |HEAD| - 1;
              && s <= e <= |json|
              && Objects(json[p..]) == [Cut(json[s..e], json[s..])] + Objects(json[p + 1..])
  {
    var s := p + |HEAD| - 1;
    e := ObjectEnd(json, s);
    FirstObject(json, p);
    if e >= 0 {
      assert json[s..][..e - s] == json[s..e];
    }
  }

  lemma FirstObject(json: string, p: nat)
    requires p < |json| && Here(json[p..], HEAD)
    ensures var o := json[p + |HEAD| - 1..];
            var end := End(o, 0, false);
            Objects(json[p..]) == if end < 0 then [] else [Cut(o[..end], o)] + Objects(json[p + 1..])
  {
    assert json[p..][|HEAD| - 1..] == json[p + |HEAD| - 1..];
    assert json[p..][1..] == json[p + 1..];
  }

  lemma ReadSplits(s: Span, rest: seq<Span>)
    ensures Read([s] + rest) == [ChatOf(s)] + Read(rest)
  {
  }

  // What is listed so far, and what the reply still offers, are all of it.
  ghost predicate Listing(all: seq<Chat>, rest: seq<Option<Chat>>, list: seq<Chat>, seen: seq<int>) {
    && all == list + FirstOfEach(Somes(rest), seen) && |seen| == |list|
  }

  lemma ListingSkips(all: seq<Chat>, c: Option<Chat>, rest: seq<Option<Chat>>, list: seq<Chat>, seen: seq<int>)
    requires Listing(all, [c] + rest, list, seen)
    ensures c.None? || c.value.id in seen ==> Listing(all, rest, list, seen)
    ensures c.Some? && c.value.id !in seen ==> Listing(all, rest, list + [c.value], seen + [c.value.id])
  {
    assert ([c] + rest)[1..] == rest;
    if c.Some? {
      FirstOfOne(c.value, Somes(rest), seen);
    }
  }

  lemma FirstOfOne(c: Chat, rest: seq<Chat>, seen: seq<int>)
    ensures FirstOfEach([c] + rest, seen) ==
              if c.id in seen then FirstOfEach(rest, seen) else [c] + FirstOfEach(rest, seen + [c.id])
  {
    assert ([c] + rest)[1..] == rest;
  }

  // The text so far lists list, and leaves room to close it.
  ghost predicate Building(all: seq<Chat>, rest: seq<Option<Chat>>, list: seq<Chat>, seen: seq<int>,
                           out: string, cap: nat)
  {
    Listing(all, rest, list, seen) && out == "[" + Listed(list) && |out| + 2 <= cap
  }

  lemma BuildingStarts(rest: seq<Option<Chat>>, cap: nat)
    requires cap >= 3
    ensures Building(FirstOfEach(Somes(rest), []), rest, [], [], "[", cap)
  {
  }

  lemma BuildingAdds(all: seq<Chat>, c: Chat, rest: seq<Option<Chat>>, list: seq<Chat>, seen: seq<int>,
                     out: string, cap: nat, maxChats: int)
    requires Building(all, [Some(c)] + rest, list, seen, out, cap)
    requires c.id !in seen && |seen| < Most(maxChats)
    ensures var entry := Entry(c, seen == []);
            if |entry| < cap - |out| - 1 then Building(all, rest, list + [c], seen + [c.id], out + entry, cap)
            else |Reply(Limited(all, maxChats))| >= cap
  {
    ListingSkips(all, Some(c), rest, list, seen);
    ListedMore(list, c);
    TooLong(all, rest, list + [c], seen + [c.id], maxChats);
  }

  lemma BuildingEnds(all: seq<Chat>, rest: seq<Option<Chat>>, list: seq<Chat>, seen: seq<int>,
                     out: string, cap: nat, maxChats: int)
    requires Building(all, rest, list, seen, out, cap)
    requires (rest == [] || |seen| >= Most(maxChats)) && (|seen| <= Most(maxChats) || seen == [])
    ensures Limited(all, maxChats) == list && out + "]" == Reply(list)
  {
  }

  lemma TooLong(all: seq<Chat>, rest: seq<Option<Chat>>, list: seq<Chat>, seen: seq<int>, maxChats: int)
    requires Listing(all, rest, list, seen)
    requires 0 < |list| <= Most(maxChats)
    ensures |Reply(Limited(all, maxChats))| >= |Reply(list)|
  {
    var all := Limited(all, maxChats);
    assert all[..|list|] == list;
    ListedGrows(all, |list|);
  }

  lemma ListedMore(list: seq<Chat>, c: Chat)
    ensures "[" + Listed(list + [c]) == ("[" + Listed(list)) + Entry(c, list == [])
  {
    assert (list + [c])[..|list|] == list;
    Assoc("[", Listed(list), Entry(c, list == []));
  }

  ghost predicate BuildingFrom(all: seq<Chat>, rest: seq<Span>, list: seq<Chat>, seen: seq<int>,
                               out: string, cap: nat)
  {
    Building(all, Read(rest), list, seen, out, cap)
  }

  lemma StartsFrom(rest: seq<Span>, cap: nat)
    requires cap >= 3
    ensures BuildingFrom(FirstOfEach(Somes(Read(rest)), []), rest, [], [], "[", cap)
  {
    BuildingStarts(Read(rest), cap);
  }

  lemma EndsFrom(all: seq<Chat>, rest: seq<Span>, list: seq<Chat>, seen: seq<int>,
                 out: string, cap: nat, maxChats: int)
    requires BuildingFrom(all, rest, list, seen, out, cap)
    requires (rest == [] || |seen| >= Most(maxChats)) && (|seen| <= Most(maxChats) || seen == [])
    ensures Limited(all, maxChats) == list && out + "]" == Reply(list)
    ensures |seen| == |list| && |Reply(list)| < cap
  {
    BuildingEnds(all, Read(rest), list, seen, out, cap, maxChats);
  }

  // Adds the chat at s if it is one not seen before; not ok when the text would
  // not fit.
  method AddChat(json: string, s: nat, e: nat, seen: seq<int>, out: string, cap: nat,
                 ghost all: seq<Chat>, ghost rest: seq<Span>, ghost list: seq<Chat>, ghost maxChats: int)
    returns (ok: bool, seen': seq<int>, out': string, ghost list': seq<Chat>)
    requires s <= e <= |json|
    requires BuildingFrom(all, [Cut(json[s..e], json[s..])] + rest, list, seen, out, cap) && |seen| < Most(maxChats)
    ensures ok ==> BuildingFrom(all, rest, list', seen', out', cap) && |seen'| <= |seen| + 1
    ensures !ok ==> |Reply(Limited(all, maxChats))| >= cap
  {
    ReadSplits(Cut(json[s..e], json[s..]), rest);
    var c := ReadChat(json, s, e);
    ok, seen', out', list' := Add(c, seen, out, cap, all, Read(rest), list, maxChats);
  }

  method Add(c: Option<Chat>, seen: seq<int>, out: string, cap: nat,
             ghost all: seq<Chat>, ghost rest: seq<Option<Chat>>, ghost list: seq<Chat>, ghost maxChats: int)
    returns (ok: bool, seen': seq<int>, out': string, ghost list': seq<Chat>)
    requires Building(all, [c] + rest, list, seen, out, cap) && |seen| < Most(maxChats)
    ensures ok ==> Building(all, rest, list', seen', out', cap) && |seen'| <= |seen| + 1
    ensures !ok ==> |Reply(Limited(all, maxChats))| >= cap
  {
    ok, seen', out', list' := true, seen, out, list;
    var dup := true;
    if c.Some? {
      dup := IsSeen(seen, c.value.id);
    }
    if dup {
      ListingSkips(all, c, rest, list, seen);
    } else {
      var entry := Entry(c.value, seen == []);
      BuildingAdds(all, c.value, rest, list, seen, out, cap, maxChats);
      if |entry| >= cap - |out| - 1 {
        return false, seen, out, list;
      }
      out' := out + entry;
      seen' := seen + [c.value.id];
      list' := list + [c.value];
    }
  }

  /** The reply is exactly the first chat of each id, as many as asked for, or -1
      exactly when that does not fit. */
  method ChatsFromUpdates(json: string, cap: nat, maxChats: int) returns (count: int, out: string)
    ensures var chosen := Chosen(json, maxChats);
            if |Reply(chosen)| < cap then count == |chosen| && out == Reply(chosen) else count == -1
  {
    var most := if maxChats > SEEN_MAX then SEEN_MAX else maxChats;
    if cap < 3 {
      return -1, "";
    }
    out := "[";
    var seen: seq<int> := [];
    ghost var list: seq<Chat> := [];
    ghost var all := FirstOfEach(Candidates(json), []);
    var p := NextHead(json, 0);
    assert json[0..] == json;
    ghost var rest := Objects(json);
    StartsFrom(rest, cap);
    while 0 <= p && |seen| < most
      invariant -1 <= p < |json|
      invariant p >= 0 ==> Here(json[p..], HEAD)
      invariant rest == if p < 0 then [] else Objects(json[p..])
      invariant BuildingFrom(all, rest, list, seen, out, cap)
      invariant |seen| <= most || seen == []
      decreases if p < 0 then 0 else |json| - p
    {
      var e := HeadEnd(json, p);
      if e < 0 {
        rest := [];
        break;
      }
      rest := Objects(json[p + 1..]);
      var ok;
      ok, seen, out, list := AddChat(json, p + |HEAD| - 1, e, seen, out, cap, all, rest, list, maxChats);
      if !ok {
        return -1, "";
      }
      p := NextHead(json, p + 1);
    }
    EndsFrom(all, rest, list, seen, out, cap, maxChats);
    out := out + "]";
    count := |seen|;
  }
}
