// JSON as text: values, and the bytes they are written with (RFC 8259 sections
// 2 to 7, characters per RFC 3629 section 3). A char here is one byte.

module JsonText {
  import opened Sequences

  // A string's content: characters as they stand, and escapes.
  datatype Unit =
    | Plain(bytes: string)
    | Escape(c: char)
    | EscapeU(hex: string)

  datatype Json =
    | Word(text: string)
    | Number(minus: bool, whole: string, frac: string, exp: string)
    | Text(units: seq<Unit>)
    | List(blank: string, items: seq<Item>)
    | Object(blank: string, members: seq<Member>)

  datatype Item = Item(before: string, value: Json, after: string)

  datatype Member = Member(before: string, name: seq<Unit>, afterName: string,
                           beforeValue: string, value: Json, after: string)

  // ---- what is well-formed ----

  predicate IsBlank(s: string) {
    forall i | 0 <= i < |s| :: s[i] == ' ' || s[i] == '\t' || s[i] == '\n' || s[i] == '\r'
  }

  predicate Digits(s: string) {
    |s| > 0 && forall i | 0 <= i < |s| :: '0' <= s[i] <= '9'
  }

  predicate Continues(c: char) {
    0x80 <= c as int <= 0xbf
  }

  // One character of UTF-8.
  predicate Utf8Char(b: string) {
    || (|b| == 1 && b[0] as int <= 0x7f)
    || (|b| == 2 && 0xc2 <= b[0] as int <= 0xdf && Continues(b[1]))
    || (|b| == 3 && 0xe0 <= b[0] as int <= 0xef && Continues(b[1]) && Continues(b[2])
        && (b[0] as int == 0xe0 ==> 0xa0 <= b[1] as int) && (b[0] as int == 0xed ==> b[1] as int <= 0x9f))
    || (|b| == 4 && 0xf0 <= b[0] as int <= 0xf4 && Continues(b[1]) && Continues(b[2]) && Continues(b[3])
        && (b[0] as int == 0xf0 ==> 0x90 <= b[1] as int) && (b[0] as int == 0xf4 ==> b[1] as int <= 0x8f))
  }

  predicate Hex(c: char) {
    '0' <= c <= '9' || 'a' <= c <= 'f' || 'A' <= c <= 'F'
  }

  predicate UnitOk(u: Unit) {
    match u
    case Plain(b) => Utf8Char(b) && b[0] as int >= 0x20 && b[0] != '"' && b[0] != '\\'
    case Escape(c) => c in "\"\\/bfnrt"
    case EscapeU(h) => |h| == 4 && forall i | 0 <= i < 4 :: Hex(h[i])
  }

  predicate UnitsOk(us: seq<Unit>) {
    forall i | 0 <= i < |us| :: UnitOk(us[i])
  }

  predicate NumberOk(whole: string, frac: string, exp: string) {
    && Digits(whole) && (whole[0] == '0' ==> |whole| == 1)
    && (frac != "" ==> frac[0] == '.' && Digits(frac[1..]))
    && (exp != "" ==>
          && (exp[0] == 'e' || exp[0] == 'E')
          && (Digits(exp[1..]) || (|exp| > 1 && (exp[1] == '+' || exp[1] == '-') && Digits(exp[2..]))))
  }

  predicate WellFormed(v: Json)
    decreases v, 1
  {
    match v
    case Word(t) => t == "true" || t == "false" || t == "null"
    case Number(_, whole, frac, exp) => NumberOk(whole, frac, exp)
    case Text(us) => UnitsOk(us)
    case List(blank, items) => IsBlank(blank) && ItemsOk(items)
    case Object(blank, members) => IsBlank(blank) && MembersOk(members)
  }

  predicate ItemsOk(items: seq<Item>)
    decreases items, 0
  {
    items != [] ==>
      && ItemOk(items[0])
      && ItemsOk(items[1..])
  }

  predicate ItemOk(it: Item)
    decreases it, 2
  {
    IsBlank(it.before) && IsBlank(it.after) && WellFormed(it.value)
  }

  predicate MembersOk(ms: seq<Member>)
    decreases ms, 0
  {
    ms != [] ==>
      && MemberOk(ms[0])
      && MembersOk(ms[1..])
  }

  predicate MemberOk(m: Member)
    decreases m, 2
  {
    && IsBlank(m.before) && IsBlank(m.afterName) && IsBlank(m.beforeValue) && IsBlank(m.after)
    && UnitsOk(m.name) && WellFormed(m.value)
  }

  // ---- how it is written ----

  function WriteUnit(u: Unit): string {
    match u
    case Plain(b) => b
    case Escape(c) => ['\\', c]
    case EscapeU(h) => "\\u" + h
  }

  function WriteUnits(us: seq<Unit>): string {
    if us == [] then "" else WriteUnit(us[0]) + WriteUnits(us[1..])
  }

  function Quoted(us: seq<Unit>): string {
    "\"" + WriteUnits(us) + "\""
  }

  function Write(v: Json): string
    decreases v, 1
  {
    match v
    case Word(t) => t
    case Number(minus, whole, frac, exp) => (if minus then "-" else "") + whole + frac + exp
    case Text(us) => Quoted(us)
    case List(blank, items) => "[" + blank + WriteItems(items) + "]"
    case Object(blank, members) => "{" + blank + WriteMembers(members) + "}"
  }

  function WriteItems(items: seq<Item>): string
    decreases items, 0
  {
    if items == [] then ""
    else WriteItem(items[0], |items| == 1) + WriteItems(items[1..])
  }

  function WriteItem(it: Item, last: bool): string
    decreases it, 2
  {
    it.before + Write(it.value) + Gap(it.after, last)
  }

  function WriteMembers(ms: seq<Member>): string
    decreases ms, 0
  {
    if ms == [] then ""
    else WriteMember(ms[0], |ms| == 1) + WriteMembers(ms[1..])
  }

  function WriteMember(m: Member, last: bool): string
    decreases m, 2
  {
    MemberHead(m) + Write(m.value) + Gap(m.after, last)
  }

  // Between a value and the next item or member.
  function Gap(after: string, last: bool): string {
    after + if last then "" else ","
  }

  // Up to the value.
  function MemberHead(m: Member): string {
    m.before + Quoted(m.name) + m.afterName + ":" + m.beforeValue
  }

  lemma AssocFour(a: string, b: string, c: string, d: string)
    ensures a + b + c + d == a + (b + (c + d))
  {
    Assoc(a + b, c, d);
    Assoc(a, b, c + d);
  }

  // The same text, bracketed the way it is read.
  lemma ObjectShape(v: Json, rest: string)
    requires v.Object?
    ensures Write(v) + rest == "{" + (v.blank + (WriteMembers(v.members) + ("}" + rest)))
  {
  }

  lemma ListShape(v: Json, rest: string)
    requires v.List?
    ensures Write(v) + rest == "[" + (v.blank + (WriteItems(v.items) + ("]" + rest)))
  {
  }

  lemma ItemShape(it: Item, last: bool, rest: string)
    ensures WriteItem(it, last) + rest == it.before + (Write(it.value) + (Gap(it.after, last) + rest))
  {
    AssocFour(it.before, Write(it.value), Gap(it.after, last), rest);
  }

  lemma MemberShape(m: Member, last: bool, rest: string)
    ensures WriteMember(m, last) + rest == MemberHead(m) + (Write(m.value) + (Gap(m.after, last) + rest))
  {
    AssocFour(MemberHead(m), Write(m.value), Gap(m.after, last), rest);
  }

  lemma HeadShape(m: Member, rest: string)
    ensures MemberHead(m) + rest == m.before + (Quoted(m.name) + (m.afterName + (":" + (m.beforeValue + rest))))
  {
    Assoc(m.before + Quoted(m.name) + m.afterName + ":", m.beforeValue, rest);
    AssocFour(m.before + Quoted(m.name), m.afterName, ":", m.beforeValue + rest);
    Assoc(m.before, Quoted(m.name), m.afterName + (":" + (m.beforeValue + rest)));
  }
}
