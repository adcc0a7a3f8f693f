// What the chat list says, for replies whose chat objects are well-formed JSON.

module ChatMeaning {
  import opened Sequences
  import opened Options
  import opened DecimalText
  import opened JsonText
  import opened ObjectScan
  import opened KeySearch
  import opened RawCopy
  import opened ChatList

  // ---- strings ----

  // The first member so named, when it is a string right behind its colon.
  function TextNamed(v: Json, key: string, limit: nat): Option<seq<Unit>> {
    if Named(v, key) >= 0 && NamedIs(v, key).Some? then TextOfMember(NamedIs(v, key).value, limit) else None
  }

  function TextOfMember(m: Member, limit: nat): Option<seq<Unit>> {
    if m.beforeValue == "" && m.value.Text? then Some(m.value.units[..Fit(m.value.units, limit)]) else None
  }

  function Written(r: Option<seq<Unit>>): Option<string> {
    if r.Some? then Some(WriteUnits(r.value)) else None
  }

  lemma FirstChar(v: Json)
    requires WellFormed(v)
    ensures Write(v) != "" && (Write(v)[0] == '"' <==> v.Text?)
  {
    if v.Number? && !v.minus {
      assert Write(v)[0] == v.whole[0];
    }
  }

  lemma InnerText(v: Json)
    requires v.Object?
    ensures var o := Write(v)[..|Write(v)| - 1];
            1 + |v.blank| <= |o| && o[1 + |v.blank|..] == WriteMembers(v.members) + ""
  {
    assert Write(v)[..|Write(v)| - 1] == "{" + v.blank + WriteMembers(v.members);
  }

  /** A field read from a well-formed object is the first member so named, cut
      to whole units, and nothing when that is not a string. */
  lemma RawReadsTheMember(v: Json, key: string, limit: nat)
    requires WellFormed(v) && v.Object? && KeyOk(key)
    ensures Raw(Write(v)[..|Write(v)| - 1], key, limit) == Written(TextNamed(v, key, limit))
  {
    var o, at := Write(v)[..|Write(v)| - 1], Named(v, key);
    SearchFindsTheMember(v, key);
    if at >= 0 {
      ValueStartsInside(v, key);
      RawReadsAt(o, at, NamedIs(v, key), limit);
    }
    RawIs(o, key, limit, at);
  }

  lemma RawIs(o: string, key: string, limit: nat, at: int)
    requires at == Seek(o, Pattern(key))
    ensures Raw(o, key, limit) == if 0 <= at < |o| && o[at] == '"' then Some(Kept(o[at + 1..], limit)) else None
  {
  }

  lemma ValueStartsInside(v: Json, key: string)
    requires WellFormed(v) && v.Object? && Named(v, key) >= 0
    ensures Named(v, key) <= |Write(v)| - 1
    ensures ValueStarts(Write(v)[..|Write(v)| - 1][Named(v, key)..], NamedIs(v, key))
  {
    InnerText(v);
    MemberStandsThere(v.members, "", key);
    ValueStartsLater(WriteMembers(v.members) + "", NamedMember(v.members, key),
                     Write(v)[..|Write(v)| - 1], 1 + |v.blank|, NamedIs(v, key));
  }

  lemma RawReadsAt(o: string, at: nat, found: Option<Member>, limit: nat)
    requires at <= |o| && ValueStarts(o[at..], found)
    ensures at < |o| && found.Some?
    ensures (if o[at] == '"' then Some(Kept(o[at + 1..], limit)) else None) == Written(TextOfMember(found.value, limit))
  {
    var m := found.value;
    var more :| Delimited(more) && o[at..] == m.beforeValue + (Write(m.value) + more);
    FirstChar(m.value);
    assert o[at..][0] == o[at] && o[at..][1..] == o[at + 1..];
    if m.beforeValue == "" && m.value.Text? {
      AfterQuote(m.value.units, more);
      CopyKeepsWholeUnits(m.value.units, more, limit);
    }
  }

  lemma AfterQuote(us: seq<Unit>, more: string)
    ensures ("" + (Quoted(us) + more))[1..] == WriteUnits(us) + ("\"" + more)
  {
  }

  // ---- ids ----

  function IdNamed(v: Json): Option<int> {
    if Named(v, "id") >= 0 && NamedIs(v, "id").Some? then NumberOf(NamedIs(v, "id").value.value) else None
  }

  function NumberOf(v: Json): Option<int> {
    if v.Number? && Digits(v.whole) then
      var n: int := Value(v.whole);
      Some(Clamped(if v.minus then -n else n))
    else None
  }

  /** The number that a member stands for, cut to 64 bits on its own side. */
  lemma NumberIsRead(v: Json)
    requires WellFormed(v) && v.Number?
    ensures var n: int := if v.minus then -(Value(v.whole) as int) else Value(v.whole);
            && (-0x8000_0000_0000_0000 <= n <= 0x7fff_ffff_ffff_ffff ==> NumberOf(v) == Some(n))
            && (n > 0x7fff_ffff_ffff_ffff ==> NumberOf(v) == Some(0x7fff_ffff_ffff_ffff))
            && (n < -0x8000_0000_0000_0000 ==> NumberOf(v) == Some(-0x8000_0000_0000_0000))
  {
  }

  lemma {:induction false} SpacesOfBlank(blank: string, u: string)
    requires IsBlank(blank) && (u == "" || !Space(u[0]))
    ensures Spaces(blank + u) == |blank|
  {
    if blank == "" {
      assert blank + u == u;
    } else {
      assert (blank + u)[1..] == blank[1..] + u;
      SpacesOfBlank(blank[1..], u);
    }
  }

  lemma {:induction false} DigitsCounted(d: string, u: string)
    requires (d == "" || Digits(d)) && (u == "" || !IsDigit(u[0]))
    ensures DigitCount(d + u) == |d|
  {
    if d == "" {
      assert d + u == u;
    } else {
      assert (d + u)[1..] == d[1..] + u;
      DigitsCounted(d[1..], u);
    }
  }

  lemma ReadIntOf(blank: string, sign: string, d: string, u: string)
    requires IsBlank(blank) && sign in ["", "-"] && (d == "" || Digits(d))
    requires u == "" || !IsDigit(u[0])
    requires d == "" ==> sign == "" && u != "" && !Space(u[0]) && u[0] != '-' && u[0] != '+'
    ensures ReadInt(blank + (sign + (d + u))) ==
              if d == "" then None
              else Some(Clamped(if sign == "-" then -(Value(d) as int) else Value(d)))
  {
    var signed := sign + (d + u);
    assert d == "" ==> signed == u;
    SpacesOfBlank(blank, signed);
    assert (blank + signed)[|blank|..] == signed;
    ReadSignedOf(sign, d, u);
  }

  lemma ReadSignedOf(sign: string, d: string, u: string)
    requires sign in ["", "-"] && (d == "" || Digits(d))
    requires u == "" || !IsDigit(u[0])
    requires d == "" ==> sign == "" && u != "" && u[0] != '-' && u[0] != '+'
    ensures ReadSigned(sign + (d + u)) ==
              if d == "" then None
              else Some(Clamped(if sign == "-" then -(Value(d) as int) else Value(d)))
  {
    DigitsCounted(d, u);
    assert (d + u)[..|d|] == d;
    if sign == "" {
      assert sign + (d + u) == d + u && (d == "" ==> d + u == u);
    } else {
      assert (sign + (d + u))[1..] == d + u;
    }
  }

  /** An id that was printed reads back as itself, whatever follows it. */
  lemma SignedReadsBack(n: int, u: string)
    requires -0x8000_0000_0000_0000 <= n <= 0x7fff_ffff_ffff_ffff
    requires u == "" || !IsDigit(u[0])
    ensures ReadInt(Signed(n) + u) == Some(n)
  {
    var size := if n < 0 then -n else n;
    DecimalReadsBack(size);
    PrintedReads(if n < 0 then "-" else "", Decimal(size), u);
    SignedShape(n, u);
  }

  lemma SignedShape(n: int, u: string)
    ensures Signed(n) + u == (if n < 0 then "-" else "") + (Decimal(if n < 0 then -n else n) + u)
  {
    if n >= 0 {
      assert "" + (Decimal(n) + u) == Decimal(n) + u;
    }
  }

  lemma PrintedReads(sign: string, d: string, u: string)
    requires sign in ["", "-"] && Digits(d) && (u == "" || !IsDigit(u[0]))
    ensures ReadInt(sign + (d + u)) == Some(Clamped(if sign == "-" then -(Value(d) as int) else Value(d)))
  {
    ReadIntOf("", sign, d, u);
    assert "" + (sign + (d + u)) == sign + (d + u);
  }

  lemma NumberShape(v: Json, more: string)
    requires WellFormed(v) && v.Number? && Delimited(more)
    ensures var u := v.frac + v.exp + more;
            && Write(v) + more == (if v.minus then "-" else "") + (v.whole + u)
            && (u == "" || !IsDigit(u[0]))
  {
  }

  lemma ReadIntOfValue(blank: string, v: Json, more: string)
    requires IsBlank(blank) && WellFormed(v) && Delimited(more)
    ensures ReadInt(blank + (Write(v) + more)) == NumberOf(v)
  {
    if v.Number? {
      NumberShape(v, more);
      ReadIntOf(blank, if v.minus then "-" else "", v.whole, v.frac + v.exp + more);
    } else {
      NotANumber(v, more);
      ReadIntOf(blank, "", "", Write(v) + more);
    }
  }

  lemma NotANumber(v: Json, more: string)
    requires WellFormed(v) && !v.Number?
    ensures var u := Write(v) + more;
            && u == "" + ("" + u)
            && u != "" && !IsDigit(u[0]) && !Space(u[0]) && u[0] != '-' && u[0] != '+'
  {
    FirstChar(v);
    assert (Write(v) + more)[0] == Write(v)[0];
  }

  lemma ReadIntOfStart(t: string, m: Option<Member>)
    requires ValueStarts(t, m)
    ensures ReadInt(t) == NumberOf(m.value.value)
  {
    var more :| Delimited(more) && t == m.value.beforeValue + (Write(m.value.value) + more);
    ReadIntOfValue(m.value.beforeValue, m.value.value, more);
  }

  lemma IdReadsTheMember(v: Json, rest: string)
    requires WellFormed(v) && v.Object? && Named(v, "id") >= 0
    ensures Named(v, "id") <= |Write(v) + rest|
    ensures ReadInt((Write(v) + rest)[Named(v, "id")..]) == IdNamed(v)
  {
    ValueStartsInReply(v, rest, "id");
    ReadIntOfStart((Write(v) + rest)[Named(v, "id")..], NamedIs(v, "id"));
  }

  lemma AfterOpening(v: Json, rest: string)
    requires v.Object?
    ensures 1 + |v.blank| <= |Write(v) + rest|
    ensures (Write(v) + rest)[1 + |v.blank|..] == WriteMembers(v.members) + ("}" + rest)
  {
    ObjectShape(v, rest);
  }

  lemma ValueStartsInReply(v: Json, rest: string, key: string)
    requires WellFormed(v) && v.Object? && Named(v, key) >= 0
    ensures Named(v, key) <= |Write(v) + rest|
    ensures ValueStarts((Write(v) + rest)[Named(v, key)..], NamedIs(v, key))
  {
    var tail := "}" + rest;
    AfterOpening(v, rest);
    MemberStandsThere(v.members, tail, key);
    ValueStartsLater(WriteMembers(v.members) + tail, NamedMember(v.members, key),
                     Write(v) + rest, 1 + |v.blank|, NamedIs(v, key));
  }

  // ---- chats ----

  lemma FieldsAreKeys()
    ensures KeyOk("id") && KeyOk("type") && KeyOk("title")
    ensures KeyOk("first_name") && KeyOk("last_name") && KeyOk("username")
  {
  }

  datatype Meant = Meant(id: int, kind: seq<Unit>, name: seq<Unit>)

  function UnitsOf(r: Option<seq<Unit>>): seq<Unit> {
    if r.Some? then r.value else []
  }

  function MeantName(v: Json): seq<Unit> {
    MeantFrom(UnitsOf(TextNamed(v, "title", NAME_RAW_MAX)), UnitsOf(TextNamed(v, "first_name", NAME_RAW_MAX)),
              UnitsOf(TextNamed(v, "last_name", NAME_RAW_MAX)), UnitsOf(TextNamed(v, "username", NAME_RAW_MAX)))
  }

  function MeantFrom(title: seq<Unit>, first: seq<Unit>, last: seq<Unit>, user: seq<Unit>): seq<Unit> {
    if title != [] then title
    else if first != [] then (if last != [] then first + [Plain(" ")] + last else first)
    else user
  }

  // The chat that an object stands for.
  function MeantChat(v: Json): Option<Meant> {
    if IdNamed(v).None? then None
    else Some(Meant(IdNamed(v).value, UnitsOf(TextNamed(v, "type", TYPE_MAX)), MeantName(v)))
  }

  lemma {:induction false} WriteUnitsOfTwo(a: seq<Unit>, b: seq<Unit>)
    ensures WriteUnits(a + b) == WriteUnits(a) + WriteUnits(b)
  {
    if a == [] {
      assert a + b == b;
    } else {
      assert (a + b)[1..] == a[1..] + b;
      WriteUnitsOfTwo(a[1..], b);
    }
  }

  lemma TextNamedIsOk(v: Json, key: string, limit: nat)
    requires WellFormed(v) && v.Object? && KeyOk(key)
    ensures var us := UnitsOf(TextNamed(v, key, limit));
            UnitsOk(us) && TextOf(Raw(Write(v)[..|Write(v)| - 1], key, limit)) == WriteUnits(us)
  {
    RawReadsTheMember(v, key, limit);
    if TextNamed(v, key, limit).Some? {
      ValueStartsInside(v, key);
      var m := NamedIs(v, key).value;
      assert MemberOk(m) && WellFormed(m.value) && UnitsOk(m.value.units);
    }
  }

  lemma OnlyNoUnitsAreEmpty(us: seq<Unit>)
    requires UnitsOk(us)
    ensures us == [] <==> WriteUnits(us) == ""
  {
    if us != [] {
      assert UnitOk(us[0]);
    }
  }

  lemma ComposedIsMeant(title: seq<Unit>, first: seq<Unit>, last: seq<Unit>, user: seq<Unit>)
    requires UnitsOk(title) && UnitsOk(first) && UnitsOk(last) && UnitsOk(user)
    ensures UnitsOk(MeantFrom(title, first, last, user))
    ensures Composed(WriteUnits(title), WriteUnits(first), WriteUnits(last), WriteUnits(user)) ==
              WriteUnits(MeantFrom(title, first, last, user))
  {
    OnlyNoUnitsAreEmpty(title);
    OnlyNoUnitsAreEmpty(first);
    OnlyNoUnitsAreEmpty(last);
    WriteUnitsOfTwo(first + [Plain(" ")], last);
    WriteUnitsOfTwo(first, [Plain(" ")]);
    assert WriteUnits([Plain(" ")]) == " ";
  }

  lemma MeantNameIsOk(v: Json)
    requires WellFormed(v) && v.Object?
    ensures UnitsOk(MeantName(v))
    ensures NameOf(Write(v)[..|Write(v)| - 1]) == WriteUnits(MeantName(v))
  {
    FieldsAreKeys();
    TextNamedIsOk(v, "title", NAME_RAW_MAX);
    TextNamedIsOk(v, "first_name", NAME_RAW_MAX);
    TextNamedIsOk(v, "last_name", NAME_RAW_MAX);
    TextNamedIsOk(v, "username", NAME_RAW_MAX);
    ComposedIsMeant(UnitsOf(TextNamed(v, "title", NAME_RAW_MAX)), UnitsOf(TextNamed(v, "first_name", NAME_RAW_MAX)),
                    UnitsOf(TextNamed(v, "last_name", NAME_RAW_MAX)), UnitsOf(TextNamed(v, "username", NAME_RAW_MAX)));
  }

  lemma ChatIsMeant(v: Json, rest: string)
    requires WellFormed(v) && v.Object?
    ensures ChatOf(Cut(Write(v)[..|Write(v)| - 1], Write(v) + rest)) == Told(MeantChat(v))
  {
    FieldsAreKeys();
    SearchFindsTheMember(v, "id");
    if Named(v, "id") >= 0 {
      IdReadsTheMember(v, rest);
    }
    TextNamedIsOk(v, "type", TYPE_MAX);
    MeantNameIsOk(v);
  }

  function Told(c: Option<Meant>): Option<Chat> {
    if c.None? then None else Some(Chat(c.value.id, WriteUnits(c.value.kind), WriteUnits(c.value.name)))
  }

  /** Wherever a reply says "chat": and a well-formed object, whatever follows,
      the chat read there is the one the object stands for. */
  lemma ChatReadIsTheChatMeant(v: Json, rest: string)
    requires WellFormed(v) && v.Object?
    ensures var t, s := "\"chat\":" + (Write(v) + rest), Cut(Write(v)[..|Write(v)| - 1], Write(v) + rest);
            Objects(t) == [s] + Objects(t[1..]) && ChatOf(s) == Told(MeantChat(v))
  {
    ObjectEndsAtItsBrace(v, rest);
    ObjectIsFound(Write(v) + rest);
    assert (Write(v) + rest)[..|Write(v)| - 1] == Write(v)[..|Write(v)| - 1];
    ChatIsMeant(v, rest);
  }

  lemma ObjectIsFound(o: string)
    requires StartsWith(o, '{') && End(o, 0, false) >= 0
    ensures var t := "\"chat\":" + o; Objects(t) == [Cut(o[..End(o, 0, false)], o)] + Objects(t[1..])
  {
    var t := "\"chat\":" + o;
    assert t[..|HEAD|] == HEAD;
    assert t[|HEAD| - 1..] == o;
  }

  // ---- the reply ----

  function Ascii(s: string): (us: seq<Unit>)
    ensures |us| == |s| && forall i | 0 <= i < |s| :: us[i] == Plain([s[i]])
  {
    seq(|s|, i requires 0 <= i < |s| => Plain([s[i]]))
  }

  lemma {:induction false} AsciiIsWritten(s: string)
    ensures WriteUnits(Ascii(s)) == s
  {
    if s != "" {
      AsciiIsWritten(s[1..]);
      assert Ascii(s)[1..] == Ascii(s[1..]);
    }
  }

  lemma SignedIsPlain(n: int)
    ensures UnitsOk(Ascii(Signed(n))) && WriteUnits(Ascii(Signed(n))) == Signed(n)
  {
    AsciiIsWritten(Signed(n));
    var s := Signed(n);
    forall i | 0 <= i < |s| ensures IsDigit(s[i]) || s[i] == '-' {
    }
  }

  function Field(name: string, value: seq<Unit>): Member {
    Member("", Ascii(name), "", "", Text(value), "")
  }

  function ChatValue(c: Meant): Json {
    Object("", [Field("id", Ascii(Signed(c.id))), Field("type", c.kind), Field("name", c.name)])
  }

  function ReplyItems(ms: seq<Meant>): (items: seq<Item>)
    ensures |items| == |ms| && forall i | 0 <= i < |ms| :: items[i] == Item("", ChatValue(ms[i]), "")
  {
    seq(|ms|, i requires 0 <= i < |ms| => Item("", ChatValue(ms[i]), ""))
  }

  function ReplyValue(ms: seq<Meant>): Json {
    List("", ReplyItems(ms))
  }

  predicate MeantOk(c: Meant) {
    UnitsOk(c.kind) && UnitsOk(c.name)
  }

  lemma FieldIsWritten(name: string, value: seq<Unit>, last: bool)
    ensures WriteMember(Field(name, value), last) == Pair(name, WriteUnits(value)) + if last then "" else ","
  {
    AsciiIsWritten(name);
    var w := WriteUnits(value);
    assert MemberHead(Field(name, value)) == "\"" + name + "\":";
    assert MemberHead(Field(name, value)) + ("\"" + w + "\"") == Pair(name, w);
  }

  lemma WriteThree(a: Member, b: Member, c: Member)
    ensures Write(Object("", [a, b, c])) ==
              "{" + WriteMember(a, false) + WriteMember(b, false) + WriteMember(c, true) + "}"
  {
    assert WriteMembers([]) == "";
    WriteMore(c, []);
    WriteMore(b, [c]);
    WriteMore(a, [b, c]);
    assert [c] + [] == [c] && [b] + [c] == [b, c] && [a] + [b, c] == [a, b, c];
    BraceThree(WriteMember(a, false), WriteMember(b, false), WriteMember(c, true));
  }

  lemma WriteMore(m: Member, ms: seq<Member>)
    ensures WriteMembers([m] + ms) == WriteMember(m, ms == []) + WriteMembers(ms)
  {
    assert ([m] + ms)[1..] == ms;
  }

  lemma BraceThree(a: string, b: string, c: string)
    ensures "{" + "" + (a + (b + (c + ""))) + "}" == "{" + a + b + c + "}"
  {
    Assoc("{" + a, b, c);
    Assoc("{", a, b + c);
    assert c + "" == c && "{" + "" == "{";
  }

  lemma ChatIsWritten(c: Meant, first: bool)
    ensures Entry(Told(Some(c)).value, first) == (if first then "" else ",") + Write(ChatValue(c))
  {
    AsciiIsWritten(Signed(c.id));
    WriteThree(Field("id", Ascii(Signed(c.id))), Field("type", c.kind), Field("name", c.name));
    FieldIsWritten("id", Ascii(Signed(c.id)), false);
    FieldIsWritten("type", c.kind, false);
    FieldIsWritten("name", c.name, true);
    Commas(Pair("id", Signed(c.id)), Pair("type", WriteUnits(c.kind)), Pair("name", WriteUnits(c.name)));
  }

  lemma Commas(a: string, b: string, c: string)
    ensures "{" + (a + ",") + (b + ",") + (c + "") + "}" == "{" + a + "," + b + "," + c + "}"
  {
    assert c + "" == c;
    Assoc("{", a, ",");
    Assoc("{" + a + ",", b, ",");
  }

  lemma {:induction false} WriteOneMore(items: seq<Item>, it: Item)
    requires it.before == it.after == "" && forall i | 0 <= i < |items| :: items[i].after == ""
    ensures WriteItems(items + [it]) == WriteItems(items) + (if items == [] then "" else ",") + Write(it.value)
  {
    if items == [] {
      assert ([] + [it])[1..] == [];
    } else {
      var rest := items[1..];
      assert (items + [it])[1..] == rest + [it];
      WriteOneMore(rest, it);
      var a, b := WriteItem(items[0], rest == []), WriteItems(rest);
      if rest == [] {
        assert WriteItem(items[0], false) == a + ",";
        assert items == [items[0]] && WriteItems(items) == a;
        Assoc(a, ",", Write(it.value));
      } else {
        Assoc(a, b + ",", Write(it.value));
        Assoc(a, b, ",");
      }
    }
  }

  lemma {:induction false} ListedIsWritten(cs: seq<Chat>, ms: seq<Meant>)
    requires |cs| == |ms| && forall i | 0 <= i < |cs| :: cs[i] == Told(Some(ms[i])).value
    ensures Listed(cs) == WriteItems(ReplyItems(ms))
  {
    if cs != [] {
      var k := |cs| - 1;
      ListedIsWritten(cs[..k], ms[..k]);
      OneMoreItem(ms);
      ChatIsWritten(ms[k], k == 0);
      Assoc(Listed(cs[..k]), if k == 0 then "" else ",", Write(ChatValue(ms[k])));
    }
  }

  lemma OneMoreItem(ms: seq<Meant>)
    requires ms != []
    ensures var k := |ms| - 1;
            WriteItems(ReplyItems(ms)) ==
              WriteItems(ReplyItems(ms[..k])) + (if k == 0 then "" else ",") + Write(ChatValue(ms[k]))
  {
    var k := |ms| - 1;
    assert ReplyItems(ms) == ReplyItems(ms[..k]) + [Item("", ChatValue(ms[k]), "")];
    WriteOneMore(ReplyItems(ms[..k]), Item("", ChatValue(ms[k]), ""));
  }

  lemma {:induction false} ItemsAreOk(ms: seq<Meant>)
    requires forall i | 0 <= i < |ms| :: MeantOk(ms[i])
    ensures ItemsOk(ReplyItems(ms))
  {
    if ms != [] {
      ItemsAreOk(ms[1..]);
      assert ReplyItems(ms)[1..] == ReplyItems(ms[1..]);
      ChatValueIsOk(ms[0]);
    }
  }

  lemma MoreMembersOk(m: Member, ms: seq<Member>)
    requires MembersOk(ms) && MemberOk(m)
    ensures MembersOk([m] + ms)
  {
    assert ([m] + ms)[1..] == ms;
  }

  lemma ChatValueIsOk(c: Meant)
    requires MeantOk(c)
    ensures WellFormed(ChatValue(c))
  {
    SignedIsPlain(c.id);
    var id, kind, name := Field("id", Ascii(Signed(c.id))), Field("type", c.kind), Field("name", c.name);
    assert MembersOk([]);
    MoreMembersOk(name, []);
    MoreMembersOk(kind, [name]);
    MoreMembersOk(id, [kind, name]);
    assert [kind] + [name] == [kind, name] && [id] + [kind, name] == [id, kind, name];
  }

  /** The reply is JSON, and says of each chat what its object says. */
  lemma ReplyIsJson(cs: seq<Chat>, ms: seq<Meant>)
    requires |cs| == |ms| && forall i | 0 <= i < |cs| :: cs[i] == Told(Some(ms[i])).value
    requires forall i | 0 <= i < |ms| :: MeantOk(ms[i])
    ensures Reply(cs) == Write(ReplyValue(ms)) && WellFormed(ReplyValue(ms))
  {
    ListedIsWritten(cs, ms);
    ItemsAreOk(ms);
    Brackets(WriteItems(ReplyItems(ms)));
  }

  // ---- the reply, read again ----

  lemma AsciiNameIsPlain(name: string)
    requires KeyOk(name)
    ensures UnitsOk(Ascii(name)) && WriteUnits(Ascii(name)) == name && '\\' !in name
  {
    AsciiIsWritten(name);
  }

  lemma FieldIsFound(name: string, key: string)
    requires KeyOk(name) && KeyOk(key)
    ensures EndsInKey(Ascii(name), key) <==> name == key
  {
    AsciiNameIsPlain(name);
    PlainNameIsTheKey(Ascii(name), key);
  }

  // The first member that is so named, where no value before it has one inside.
  lemma {:induction false} FirstSoNamed(ms: seq<Member>, key: string, k: nat)
    requires k < |ms| && ms[k].afterName == "" && EndsInKey(ms[k].name, key)
    requires forall i | 0 <= i < k :: !EndsInKey(ms[i].name, key) && ms[i].value.Text?
    ensures NamedMember(ms, key) >= 0 && NamedInMembers(ms, key) == Some(ms[k])
  {
    if k > 0 {
      FirstSoNamed(ms[1..], key, k - 1);
      NotSoNamed(ms, key);
    } else {
      SoNamed(ms, key);
    }
  }

  lemma SoNamed(ms: seq<Member>, key: string)
    requires ms != [] && ms[0].afterName == "" && EndsInKey(ms[0].name, key)
    ensures NamedMember(ms, key) >= 0 && NamedInMembers(ms, key) == Some(ms[0])
  {
    var here := NamedHere(ms[0], key);
    assert here >= 0;
  }

  lemma NotSoNamed(ms: seq<Member>, key: string)
    requires ms != [] && !EndsInKey(ms[0].name, key) && ms[0].value.Text?
    ensures NamedMember(ms[1..], key) >= 0 ==> NamedMember(ms, key) >= 0
    ensures NamedInMembers(ms, key) == NamedInMembers(ms[1..], key)
  {
    assert Named(ms[0].value, key) == -1;
    assert NamedHere(ms[0], key) == -1;
  }

  function FieldsOf(c: Meant): seq<Member> {
    [Field("id", Ascii(Signed(c.id))), Field("type", c.kind), Field("name", c.name)]
  }

  lemma FieldStands(c: Meant, k: nat, name: string)
    requires k < 3 && name == ["id", "type", "name"][k]
    ensures Named(ChatValue(c), name) >= 0 && NamedIs(ChatValue(c), name) == Some(FieldsOf(c)[k])
  {
    KeysOfReply();
    FieldIsFound("id", name);
    FieldIsFound("type", name);
    FieldIsFound("name", name);
    FirstSoNamed(FieldsOf(c), name, k);
  }

  // The text of a field, as the same code would read it from the reply.
  lemma FieldReadsBack(c: Meant, k: nat, name: string, value: seq<Unit>, limit: nat)
    requires MeantOk(c) && k < 3 && name == ["id", "type", "name"][k]
    requires FieldsOf(c)[k].value == Text(value) && |WriteUnits(value)| <= limit
    ensures WellFormed(ChatValue(c))
    ensures var o := Write(ChatValue(c)); Raw(o[..|o| - 1], name, limit) == Some(WriteUnits(value))
  {
    ChatValueIsOk(c);
    KeysOfReply();
    FieldStands(c, k, name);
    RawReadsTheMember(ChatValue(c), name, limit);
    FitsWhole(value, limit);
  }

  lemma FitsWhole(us: seq<Unit>, limit: nat)
    requires |WriteUnits(us)| <= limit
    ensures us[..Fit(us, limit)] == us
  {
    FitIsLongest(us, limit, |us|);
    assert us[..|us|] == us;
  }

  lemma KeysOfReply()
    ensures KeyOk("id") && KeyOk("type") && KeyOk("name")
    ensures "id" != "type" && "id" != "name" && "type" != "name"
  {
  }

  /** Of each chat in the reply, its fields read as they were taken, and the id as
      the number it is; so two chats with different ids differ in the reply. */
  lemma ReplyReadsBack(c: Meant, limit: nat)
    requires MeantOk(c) && -0x8000_0000_0000_0000 <= c.id <= 0x7fff_ffff_ffff_ffff
    requires |Signed(c.id)| <= limit && |WriteUnits(c.kind)| <= limit && |WriteUnits(c.name)| <= limit
    ensures var w := Write(ChatValue(c));
            var o, id := w[..|w| - 1], Raw(w[..|w| - 1], "id", limit);
            && id.Some? && ReadInt(id.value) == Some(c.id)
            && Raw(o, "type", limit) == Some(WriteUnits(c.kind))
            && Raw(o, "name", limit) == Some(WriteUnits(c.name))
  {
    AsciiIsWritten(Signed(c.id));
    FieldReadsBack(c, 0, "id", Ascii(Signed(c.id)), limit);
    FieldReadsBack(c, 1, "type", c.kind, limit);
    FieldReadsBack(c, 2, "name", c.name, limit);
    SignedReadsBack(c.id, "");
    assert Signed(c.id) + "" == Signed(c.id);
  }

  lemma Brackets(body: string)
    ensures "[" + "" + body + "]" == "[" + body + "]"
  {
    assert "[" + "" == "[";
  }
}
