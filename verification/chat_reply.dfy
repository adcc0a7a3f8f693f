// What the whole reply of a chat service is read as. Models
// tg_chats_from_updates in components/kvm_notify/tg_chats.c.

module ChatReply {
  import opened Sequences
  import opened Options
  import opened JsonText
  import opened ObjectScan
  import opened KeySearch
  import opened RawCopy
  import opened ChatList
  import opened ChatMeaning

  // ---- the chats in a reply ----

  // A member taken for a chat: an object that stands directly behind the colon,
  // and the colon directly behind the name.
  predicate IsChat(m: Member) {
    m.afterName == "" && EndsInKey(m.name, "chat") && m.beforeValue == "" && m.value.Object?
  }

  // In the order of the text and at any depth, also inside another chat.
  function ChatsIn(v: Json): seq<Json>
    decreases v, 1
  {
    match v
    case List(_, items) => ChatsInItems(items)
    case Object(_, ms) => ChatsInMembers(ms)
    case _ => []
  }

  function ChatsInItems(items: seq<Item>): seq<Json>
    decreases items, 0
  {
    if items == [] then [] else ChatsIn(items[0].value) + ChatsInItems(items[1..])
  }

  function ChatsInMembers(ms: seq<Member>): seq<Json>
    decreases ms, 0
  {
    if ms == [] then [] else ChatsHere(ms[0]) + ChatsInMembers(ms[1..])
  }

  function ChatsHere(m: Member): seq<Json>
    decreases m, 2
  {
    (if IsChat(m) then [m.value] else []) + ChatsIn(m.value)
  }

  function Meant(vs: seq<Json>): (r: seq<Option<Chat>>) {
    seq(|vs|, i requires 0 <= i < |vs| => Told(MeantChat(vs[i])))
  }

  lemma MeantOfTwo(a: seq<Json>, b: seq<Json>)
    ensures Meant(a + b) == Meant(a) + Meant(b)
  {
  }

  lemma MeantThen(a: seq<Json>, b: seq<Json>, r: seq<Option<Chat>>)
    ensures Meant(a) + (Meant(b) + r) == Meant(a + b) + r
  {
    MeantOfTwo(a, b);
    Assoc(Meant(a), Meant(b), r);
  }

  function Reads(t: string): seq<Option<Chat>> {
    Read(Objects(t))
  }

  // ---- what is passed over ----

  lemma {:induction false} NoHeadIn(n: string, rest: string)
    requires forall i | 0 <= i < |n| :: !Here((n + rest)[i..], HEAD)
    ensures Reads(n + rest) == Reads(rest)
  {
    var t := n + rest;
    if n == "" {
      assert t == rest;
    } else {
      assert t[1..] == n[1..] + rest;
      forall i | 0 <= i < |n[1..]| ensures !Here((n[1..] + rest)[i..], HEAD) {
        assert (n[1..] + rest)[i..] == t[i + 1..];
      }
      NoHeadIn(n[1..], rest);
      assert t[0..] == t;
    }
  }

  lemma HeadNamesChat(t: string)
    requires Here(t, HEAD)
    ensures Here(t, Pattern("chat")) && t[0] == '"' && Here(t[|HEAD| - 2..], ":{")
  {
    assert Pattern("chat") == HEAD[..|HEAD| - 1];
    assert t[..|HEAD|][..|HEAD| - 1] == t[..|HEAD| - 1];
    assert t[0] == t[..|HEAD|][0];
    assert t[|HEAD| - 2..][..2] == t[..|HEAD|][|HEAD| - 2..] == ":{";
  }

  lemma PassQuiet(n: string, rest: string)
    requires Quiet(n)
    ensures Reads(n + rest) == Reads(rest)
  {
    forall i | 0 <= i < |n| ensures !Here((n + rest)[i..], HEAD) {
      assert (n + rest)[i..][0] == n[i];
      if Here((n + rest)[i..], HEAD) {
        HeadNamesChat((n + rest)[i..]);
      }
    }
    NoHeadIn(n, rest);
  }

  // A head can start only at the last quoted chat of a string, before ":{".
  lemma HeadInString(us: seq<Unit>, rest: string, i: nat)
    requires UnitsOk(us) && (rest == "" || !KeyChar(rest[0]))
    requires i < |Quoted(us)| && Here((Quoted(us) + rest)[i..], HEAD)
    ensures EndsInKey(us, "chat") && Here(rest, ":{") && i == |Quoted(us)| - 6
  {
    InString(us, rest, i);
    HeadNamesChat((Quoted(us) + rest)[i..]);
    Behind(Quoted(us), rest, i, |HEAD| - 2);
  }

  lemma InString(us: seq<Unit>, rest: string, i: nat)
    requires UnitsOk(us) && (rest == "" || !KeyChar(rest[0]))
    requires i < |Quoted(us)| && Here((Quoted(us) + rest)[i..], HEAD)
    ensures EndsInKey(us, "chat") && i + 6 == |Quoted(us)|
  {
    UnitsEscapeQuotes(us);
    HeadNamesChat((Quoted(us) + rest)[i..]);
    MatchInString(WriteUnits(us), rest, "chat", i);
  }

  lemma Behind(n: string, rest: string, i: nat, k: nat)
    requires i + k == |n|
    ensures (n + rest)[i..][k..] == rest
  {
  }

  lemma PassQuoted(us: seq<Unit>, rest: string)
    requires UnitsOk(us) && (rest == "" || !KeyChar(rest[0]))
    requires !(EndsInKey(us, "chat") && Here(rest, ":{"))
    ensures Reads(Quoted(us) + rest) == Reads(rest)
  {
    forall i | 0 <= i < |Quoted(us)| ensures !Here((Quoted(us) + rest)[i..], HEAD) {
      if Here((Quoted(us) + rest)[i..], HEAD) {
        HeadInString(us, rest, i);
      }
    }
    NoHeadIn(Quoted(us), rest);
  }

  // A string that ends in a quoted chat.
  lemma TakeQuoted(us: seq<Unit>, v: Json, rest: string)
    requires UnitsOk(us) && EndsInKey(us, "chat") && WellFormed(v) && v.Object?
    ensures var more := ":" + (Write(v) + rest);
            Reads(Quoted(us) + more) == [Told(MeantChat(v))] + Reads(more)
  {
    var more := ":" + (Write(v) + rest);
    var t := "\"chat\"" + more;
    QuotedEnd(us, more);
    PassBefore(us, more);
    PassBehind(more);
    HeadText(Write(v) + rest);
    ReadOneMore(t, v, rest);
  }

  lemma HeadText(o: string)
    ensures "\"chat\"" + (":" + o) == "\"chat\":" + o
    ensures ("\"chat\"" + (":" + o))[1..] == "chat\"" + (":" + o)
  {
  }

  lemma ReadOneMore(t: string, v: Json, rest: string)
    requires WellFormed(v) && v.Object? && t == "\"chat\":" + (Write(v) + rest)
    ensures Reads(t) == [Told(MeantChat(v))] + Reads(t[1..])
  {
    var s := Cut(Write(v)[..|Write(v)| - 1], Write(v) + rest);
    FoundAt(t, v, rest, s);
    ReadThen(t, s, Told(MeantChat(v)));
  }

  lemma FoundAt(t: string, v: Json, rest: string, s: Span)
    requires WellFormed(v) && v.Object? && t == "\"chat\":" + (Write(v) + rest)
    requires s == Cut(Write(v)[..|Write(v)| - 1], Write(v) + rest)
    ensures Objects(t) == [s] + Objects(t[1..]) && ChatOf(s) == Told(MeantChat(v))
  {
    ChatReadIsTheChatMeant(v, rest);
  }

  lemma ReadThen(t: string, s: Span, c: Option<Chat>)
    requires t != "" && Objects(t) == [s] + Objects(t[1..]) && ChatOf(s) == c
    ensures Reads(t) == [c] + Reads(t[1..])
  {
    ReadOfMore(s, Objects(t[1..]));
  }

  lemma ReadOfMore(s: Span, more: seq<Span>)
    ensures Read([s] + more) == [ChatOf(s)] + Read(more)
  {
  }

  lemma QuotedEnd(us: seq<Unit>, rest: string)
    requires EndsInKey(us, "chat")
    ensures |Quoted(us)| >= 6
    ensures Quoted(us) + rest == Quoted(us)[..|Quoted(us)| - 6] + ("\"chat\"" + rest)
  {
    var w, n := "\"" + WriteUnits(us), Quoted(us);
    assert n == w + "\"";
    assert n[|n| - 6..] == w[|w| - 5..] + "\"";
    assert n == n[..|n| - 6] + "\"chat\"";
    Assoc(n[..|n| - 6], "\"chat\"", rest);
  }

  lemma PassBefore(us: seq<Unit>, rest: string)
    requires UnitsOk(us) && EndsInKey(us, "chat") && rest != "" && !KeyChar(rest[0])
    ensures |Quoted(us)| >= 6
    ensures var tail := "\"chat\"" + rest;
            Reads(Quoted(us)[..|Quoted(us)| - 6] + tail) == Reads(tail)
  {
    QuotedEnd(us, rest);
    var n, tail := Quoted(us)[..|Quoted(us)| - 6], "\"chat\"" + rest;
    forall i | 0 <= i < |n| ensures !Here((n + tail)[i..], HEAD) {
      if Here((n + tail)[i..], HEAD) {
        HeadInString(us, rest, i);
      }
    }
    NoHeadIn(n, tail);
  }

  lemma PassBehind(rest: string)
    requires rest != "" && rest[0] == ':'
    ensures Reads("chat\"" + rest) == Reads(rest)
  {
    assert "chat\"" + rest == "chat" + ("\"" + rest);
    PassQuiet("chat", "\"" + rest);
    var n := "\"";
    forall i | 0 <= i < |n| ensures !Here((n + rest)[i..], HEAD) {
      NotHere((n + rest)[i..], HEAD, 1);
    }
    NoHeadIn(n, rest);
  }

  // ---- what is read ----

  lemma OpensWithBrace(v: Json, rest: string)
    requires WellFormed(v)
    ensures Here(":" + (Write(v) + rest), ":{") <==> v.Object?
  {
    var t := Write(v) + rest;
    FirstBrace(v);
    assert t[0] == Write(v)[0];
    assert (":" + t)[..2] == [':', t[0]];
  }

  lemma FirstBrace(v: Json)
    requires WellFormed(v)
    ensures Write(v) != "" && (Write(v)[0] == '{' <==> v.Object?)
  {
    if v.Number? || v.Word? {
      PlainIsNeutral(v);
    }
  }

  lemma {:induction false} ReadValue(v: Json, rest: string)
    requires WellFormed(v) && Delimited(rest)
    ensures Reads(Write(v) + rest) == Meant(ChatsIn(v)) + Reads(rest)
    decreases v, 1
  {
    match v
    case Word(_) => ReadPlain(v, rest);
    case Number(_, _, _, _) => ReadPlain(v, rest);
    case Text(us) => PassQuoted(us, rest);
    case List(blank, items) =>
      ListShape(v, rest);
      ReadItems(items, "]" + rest);
      ReadBrackets("[", blank, WriteItems(items), "]", rest, Meant(ChatsIn(v)));
    case Object(blank, ms) =>
      ObjectShape(v, rest);
      ReadMembers(ms, "}" + rest);
      ReadBrackets("{", blank, WriteMembers(ms), "}", rest, Meant(ChatsIn(v)));
  }

  lemma ReadPlain(v: Json, rest: string)
    requires WellFormed(v) && (v.Word? || v.Number?)
    ensures Reads(Write(v) + rest) == Reads(rest)
  {
    PlainIsNeutral(v);
    PassQuiet(Write(v), rest);
  }

  lemma ReadBrackets(open: string, blank: string, body: string, close: string, rest: string, inner: seq<Option<Chat>>)
    requires open in ["[", "{"] && IsBlank(blank) && close in ["]", "}"]
    requires Reads(body + (close + rest)) == inner + Reads(close + rest)
    ensures Reads(open + (blank + (body + (close + rest)))) == inner + Reads(rest)
  {
    PassQuiet(open, blank + (body + (close + rest)));
    PassQuiet(blank, body + (close + rest));
    PassQuiet(close, rest);
  }

  lemma {:induction false} ReadItems(items: seq<Item>, rest: string)
    requires ItemsOk(items) && Delimited(rest)
    ensures Reads(WriteItems(items) + rest) == Meant(ChatsInItems(items)) + Reads(rest)
    decreases items, 0
  {
    if items == [] {
      assert WriteItems(items) + rest == rest;
    } else {
      var it, last := items[0], |items| == 1;
      var more := WriteItems(items[1..]) + rest;
      assert last ==> more == rest;
      ReadItem(it, last, more);
      Assoc(WriteItem(it, last), WriteItems(items[1..]), rest);
      ReadItems(items[1..], rest);
      MeantThen(ChatsIn(it.value), ChatsInItems(items[1..]), Reads(rest));
    }
  }

  lemma {:induction false} ReadItem(it: Item, last: bool, more: string)
    requires ItemOk(it) && (last ==> Delimited(more))
    ensures Reads(WriteItem(it, last) + more) == Meant(ChatsIn(it.value)) + Reads(more)
    decreases it, 0
  {
    var gap := Gap(it.after, last);
    ItemShape(it, last, more);
    PassQuiet(it.before, Write(it.value) + (gap + more));
    GapDelimits(it.after, last, more);
    ReadValue(it.value, gap + more);
    PassQuiet(gap, more);
  }

  lemma {:induction false} ReadMembers(ms: seq<Member>, rest: string)
    requires MembersOk(ms) && Delimited(rest)
    ensures Reads(WriteMembers(ms) + rest) == Meant(ChatsInMembers(ms)) + Reads(rest)
    decreases ms, 0
  {
    if ms == [] {
      assert WriteMembers(ms) + rest == rest;
    } else {
      var m, last := ms[0], |ms| == 1;
      var more := WriteMembers(ms[1..]) + rest;
      assert last ==> more == rest;
      ReadMember(m, last, more);
      Assoc(WriteMember(m, last), WriteMembers(ms[1..]), rest);
      ReadMembers(ms[1..], rest);
      MeantThen(ChatsHere(m), ChatsInMembers(ms[1..]), Reads(rest));
    }
  }

  lemma {:induction false} ReadMember(m: Member, last: bool, more: string)
    requires MemberOk(m) && (last ==> Delimited(more))
    ensures Reads(WriteMember(m, last) + more) == Meant(ChatsHere(m)) + Reads(more)
    decreases m, 0
  {
    var gap := Gap(m.after, last);
    MemberShape(m, last, more);
    ReadHead(m, gap + more);
    GapDelimits(m.after, last, more);
    ReadValue(m.value, gap + more);
    PassQuiet(gap, more);
    MeantThen(if IsChat(m) then [m.value] else [], ChatsIn(m.value), Reads(more));
  }

  // From behind the name to behind the value.
  function Colon(m: Member, rest: string): string {
    m.afterName + (":" + (m.beforeValue + (Write(m.value) + rest)))
  }

  lemma ReadHead(m: Member, rest: string)
    requires MemberOk(m)
    ensures Reads(MemberHead(m) + (Write(m.value) + rest)) ==
              Meant(if IsChat(m) then [m.value] else []) + Reads(Write(m.value) + rest)
  {
    HeadShape(m, Write(m.value) + rest);
    PassQuiet(m.before, Quoted(m.name) + Colon(m, rest));
    ReadNamed(m, rest);
    PassColon(m, rest);
  }

  lemma PassColon(m: Member, rest: string)
    requires MemberOk(m)
    ensures Reads(Colon(m, rest)) == Reads(Write(m.value) + rest)
  {
    var value := m.beforeValue + (Write(m.value) + rest);
    PassQuiet(m.afterName, ":" + value);
    PassQuiet(":", value);
    PassQuiet(m.beforeValue, Write(m.value) + rest);
  }

  lemma ReadNamed(m: Member, rest: string)
    requires MemberOk(m)
    ensures Reads(Quoted(m.name) + Colon(m, rest)) ==
              Meant(if IsChat(m) then [m.value] else []) + Reads(Colon(m, rest))
  {
    if IsChat(m) {
      TakeChat(m, rest);
    } else {
      OpensAfterColon(m, rest);
      PassQuoted(m.name, Colon(m, rest));
    }
  }

  lemma TakeChat(m: Member, rest: string)
    requires MemberOk(m) && IsChat(m)
    ensures Reads(Quoted(m.name) + Colon(m, rest)) == Meant([m.value]) + Reads(Colon(m, rest))
  {
    assert Colon(m, rest) == ":" + (Write(m.value) + rest);
    TakeQuoted(m.name, m.value, rest);
    MeantOfOne(m.value);
  }

  lemma MeantOfOne(v: Json)
    ensures Meant([v]) == [Told(MeantChat(v))]
  {
  }

  // What stands behind the name opens an object only where IsChat says so.
  lemma OpensAfterColon(m: Member, rest: string)
    requires MemberOk(m)
    ensures var colon := Colon(m, rest);
            && !KeyChar(colon[0])
            && (Here(colon, ":{") <==> m.afterName == "" && m.beforeValue == "" && m.value.Object?)
  {
    var colon := Colon(m, rest);
    if m.afterName != "" {
      NotHere(colon, ":{", 0);
    } else if m.beforeValue != "" {
      assert colon[1] == m.beforeValue[0];
      NotHere(colon, ":{", 1);
    } else {
      assert colon == ":" + (Write(m.value) + rest);
      OpensWithBrace(m.value, rest);
    }
  }

  lemma NotHere(t: string, pat: string, i: nat)
    requires i < |t| && i < |pat| && t[i] != pat[i]
    ensures !Here(t, pat)
  {
    if |pat| <= |t| {
      assert t[..|pat|][i] == t[i];
    }
  }

  /** A well-formed reply is read as the chats that its members named chat stand
      for, in the order of the text, and as nothing else. */
  lemma ReplyIsReadAsMeant(v: Json)
    requires WellFormed(v)
    ensures Reads(Write(v)) == Meant(ChatsIn(v))
    ensures Candidates(Write(v)) == Somes(Meant(ChatsIn(v)))
  {
    assert Write(v) + "" == Write(v);
    ReadValue(v, "");
    assert Objects("") == [] && Read([]) == [];
    assert Meant(ChatsIn(v)) + [] == Meant(ChatsIn(v));
  }
}
