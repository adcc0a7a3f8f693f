// The search for "key": in an object, and what it finds in well-formed JSON.
// Models find_key in components/kvm_notify/tg_chats.c.

module KeySearch {
  import opened Sequences
  import opened JsonText
  import opened ObjectScan

  predicate KeyChar(c: char) {
    'a' <= c <= 'z' || 'A' <= c <= 'Z' || c == '_'
  }

  predicate KeyOk(key: string) {
    |key| > 0 && forall i | 0 <= i < |key| :: KeyChar(key[i])
  }

  function Pattern(key: string): string {
    "\"" + key + "\":"
  }

  predicate Here(t: string, pat: string) {
    |pat| <= |t| && t[..|pat|] == pat
  }

  // Just behind the first pat in t, -1 without one.
  function Seek(t: string, pat: string): (at: int)
    requires pat != ""
    ensures at == -1 || |pat| <= at <= |t|
    decreases |t|
  {
    if |t| < |pat| then -1
    else if Here(t, pat) then |pat|
    else Past(1, Seek(t[1..], pat))
  }

  method FindKey(s: string, start: nat, stop: nat, key: string) returns (at: int)
    requires start <= stop <= |s|
    ensures at == Past(start, Seek(s[start..stop], Pattern(key)))
  {
    var pat := Pattern(key);
    var p := start;
    while p + |pat| <= stop
      invariant start <= p <= stop
      invariant Past(start, Seek(s[start..stop], pat)) == Past(p, Seek(s[p..stop], pat))
    {
      SeekFrom(s, p, stop, pat);
      if s[p..p + |pat|] == pat {
        return p + |pat|;
      }
      p := p + 1;
    }
    SeekShort(s[p..stop], pat);
    return -1;
  }

  lemma SeekFrom(s: string, p: nat, stop: nat, pat: string)
    requires pat != "" && p + |pat| <= stop <= |s|
    ensures Seek(s[p..stop], pat) == if s[p..p + |pat|] == pat then |pat| else Past(1, Seek(s[p + 1..stop], pat))
  {
    assert s[p..stop][..|pat|] == s[p..p + |pat|] && s[p..stop][1..] == s[p + 1..stop];
  }

  lemma SeekShort(t: string, pat: string)
    requires |t| < |pat|
    ensures Seek(t, pat) == -1
  {
  }

  /** What is found is a match, and no match lies before it; without one there
      is none. */
  lemma {:induction false} SeekIsFirst(t: string, pat: string, i: nat)
    requires pat != "" && i + |pat| <= |t|
    ensures var at := Seek(t, pat);
            if t[i..i + |pat|] == pat then 0 <= at <= i + |pat| else at != i + |pat|
  {
    if i > 0 && !Here(t, pat) {
      assert t[1..][i - 1..i - 1 + |pat|] == t[i..i + |pat|];
      SeekIsFirst(t[1..], pat, i - 1);
    } else if i == 0 {
      assert t[0..|pat|] == t[..|pat|];
    }
  }

  // ---- what the search passes over ----

  lemma {:induction false} SeekSkips(n: string, rest: string, pat: string)
    requires pat != ""
    requires forall i | 0 <= i < |n| :: !Here((n + rest)[i..], pat)
    ensures Seek(n + rest, pat) == Past(|n|, Seek(rest, pat))
  {
    if n == "" {
      assert n + rest == rest;
    } else {
      var t := n + rest;
      assert t[1..] == n[1..] + rest;
      forall i | 0 <= i < |n[1..]| ensures !Here((n[1..] + rest)[i..], pat) {
        assert (n[1..] + rest)[i..] == t[i + 1..];
      }
      SeekSkips(n[1..], rest, pat);
      assert t[0..] == t;
      if |t| < |pat| {
        SeekShort(rest, pat);
      }
    }
  }

  predicate Quiet(s: string) {
    forall i | 0 <= i < |s| :: s[i] != '"'
  }

  lemma SeekQuiet(n: string, rest: string, key: string)
    requires Quiet(n)
    ensures Seek(n + rest, Pattern(key)) == Past(|n|, Seek(rest, Pattern(key)))
  {
    var pat := Pattern(key);
    forall i | 0 <= i < |n| ensures !Here((n + rest)[i..], pat) {
      var u := (n + rest)[i..];
      assert u[0] == n[i] && pat[0] == '"';
      assert |u| >= |pat| ==> u[..|pat|][0] == u[0];
    }
    SeekSkips(n, rest, pat);
  }

  // A quote inside a string follows a backslash.
  predicate QuotesEscaped(c: string) {
    forall i | 0 <= i < |c| && c[i] == '"' :: i > 0 && c[i - 1] == '\\'
  }

  lemma {:induction false} UnitsEscapeQuotes(us: seq<Unit>)
    requires UnitsOk(us)
    ensures QuotesEscaped(WriteUnits(us))
  {
    if us != [] {
      UnitsEscapeQuotes(us[1..]);
      var w, more := WriteUnit(us[0]), WriteUnits(us[1..]);
      assert UnitOk(us[0]);
      assert QuotesEscaped(w);
      forall i | 0 <= i < |w + more| && (w + more)[i] == '"' ensures i > 0 && (w + more)[i - 1] == '\\' {
        if i >= |w| {
          assert more[i - |w|] == '"';
        }
      }
    }
  }

  // The name is key, or ends in an escaped quote and key.
  predicate EndsInKey(name: seq<Unit>, key: string) {
    var w := "\"" + WriteUnits(name);
    |key| < |w| && w[|w| - |key| - 1..] == "\"" + key
  }

  predicate StartsWith(t: string, c: char) {
    t != "" && t[0] == c
  }

  // Only the closing quote of a string can close a match.
  lemma MatchInString(c: string, rest: string, key: string, i: nat)
    requires KeyOk(key)
    requires QuotesEscaped(c) && (rest == "" || !KeyChar(rest[0]))
    requires i < |c| + 2 && Here(("\"" + c + "\"" + rest)[i..], Pattern(key))
    ensures i + |key| == |c| && StartsWith(rest, ':')
    ensures ("\"" + c)[|c| - |key|..] == "\"" + key
  {
    var t, pat := "\"" + c + "\"" + rest, Pattern(key);
    var k, j := |key|, i + 1 + |key|;
    assert forall x | 0 <= x < |pat| :: t[i + x] == t[i..][..|pat|][x] == pat[x];
    assert pat[1 + k] == '"' && pat[k] == key[k - 1] && pat[2 + k] == ':';
    assert t[j] == '"' && KeyChar(t[j - 1]) && t[j + 1] == ':';
    assert j >= |c| + 1;
    assert t[|c| + 1] == '"' && t[|c| + 2..] == rest;
    assert forall x | i + 1 <= x <= i + k :: t[x] == key[x - i - 1];
    assert rest[0] == t[j + 1];
    assert forall x | 0 <= x <= k :: ("\"" + c)[i + x] == t[i + x] == pat[x] == ("\"" + key)[x];
  }

  lemma SeekQuoted(us: seq<Unit>, rest: string, key: string)
    requires KeyOk(key)
    requires UnitsOk(us) && (rest == "" || !KeyChar(rest[0]))
    ensures Seek(Quoted(us) + rest, Pattern(key)) ==
              if StartsWith(rest, ':') && EndsInKey(us, key) then |Quoted(us)| + 1
              else Past(|Quoted(us)|, Seek(rest, Pattern(key)))
  {
    var c, pat, n := WriteUnits(us), Pattern(key), Quoted(us);
    UnitsEscapeQuotes(us);
    if StartsWith(rest, ':') && EndsInKey(us, key) {
      var at := |c| - |key|;
      assert n == n[..at] + n[at..];
      var more := n[at..] + rest;
      assert n + rest == n[..at] + more;
      forall i | 0 <= i < at ensures !Here((n[..at] + more)[i..], pat) {
        if Here((n + rest)[i..], pat) {
          MatchInString(c, rest, key, i);
        }
      }
      SeekSkips(n[..at], more, pat);
      assert n[at..] == "\"" + key + "\"";
      assert more[..|pat|] == pat;
    } else {
      forall i | 0 <= i < |n| ensures !Here((n + rest)[i..], pat) {
        if Here((n + rest)[i..], pat) {
          MatchInString(c, rest, key, i);
        }
      }
      SeekSkips(n, rest, pat);
    }
  }

  // ---- what it finds ----

  // Where in its text the first member so named, in the order of the text and
  // at any depth, has its value; a blank behind the name hides the member.
  function Named(v: Json, key: string): (at: int)
    ensures -1 <= at <= |Write(v)|
    decreases v, 1
  {
    match v
    case List(blank, items) => Past(1 + |blank|, NamedItem(items, key))
    case Object(blank, ms) => Past(1 + |blank|, NamedMember(ms, key))
    case _ => -1
  }

  function NamedItem(items: seq<Item>, key: string): (at: int)
    ensures -1 <= at <= |WriteItems(items)|
    decreases items, 0
  {
    if items == [] then -1
    else
      Or(Past(|items[0].before|, Named(items[0].value, key)),
         Past(|WriteItem(items[0], |items| == 1)|, NamedItem(items[1..], key)))
  }

  function NamedMember(ms: seq<Member>, key: string): (at: int)
    ensures -1 <= at <= |WriteMembers(ms)|
    decreases ms, 0
  {
    if ms == [] then -1
    else
      Or(NamedHere(ms[0], key), Past(|WriteMember(ms[0], |ms| == 1)|, NamedMember(ms[1..], key)))
  }

  function NamedHere(m: Member, key: string): (at: int)
    ensures -1 <= at <= |MemberHead(m)| + |Write(m.value)|
    decreases m, 2
  {
    if m.afterName == "" && EndsInKey(m.name, key) then |m.before| + |Quoted(m.name)| + 1
    else Past(|MemberHead(m)|, Named(m.value, key))
  }

  function Or(a: int, b: int): int {
    if a >= 0 then a else b
  }

  // What may stand behind a value.
  predicate Delimited(rest: string) {
    || rest == "" || rest[0] == ' ' || rest[0] == '\t' || rest[0] == '\n' || rest[0] == '\r'
    || rest[0] == ',' || rest[0] == ']' || rest[0] == '}'
  }

  lemma GapDelimits(after: string, last: bool, more: string)
    requires IsBlank(after) && (last ==> Delimited(more))
    ensures Delimited(Gap(after, last) + more) && Quiet(Gap(after, last))
  {
  }

  lemma {:induction false} SeekValue(v: Json, rest: string, key: string)
    requires WellFormed(v) && KeyOk(key) && Delimited(rest)
    ensures Seek(Write(v) + rest, Pattern(key)) ==
              Or(Named(v, key), Past(|Write(v)|, Seek(rest, Pattern(key))))
    decreases v, 1
  {
    match v
    case Word(_) => SeekPlain(v, rest, key);
    case Number(_, _, _, _) => SeekPlain(v, rest, key);
    case Text(us) => SeekQuoted(us, rest, key);
    case List(blank, items) =>
      SeekItems(items, "]" + rest, key);
      SeekBrackets("[", blank, WriteItems(items), NamedItem(items, key), "]", rest, key);
      ListShape(v, rest);
    case Object(blank, ms) =>
      SeekMembers(ms, "}" + rest, key);
      SeekBrackets("{", blank, WriteMembers(ms), NamedMember(ms, key), "}", rest, key);
      ObjectShape(v, rest);
  }

  lemma SeekPlain(v: Json, rest: string, key: string)
    requires WellFormed(v) && (v.Word? || v.Number?)
    ensures Seek(Write(v) + rest, Pattern(key)) == Past(|Write(v)|, Seek(rest, Pattern(key)))
  {
    PlainIsNeutral(v);
    SeekQuiet(Write(v), rest, key);
  }

  lemma SeekBrackets(open: string, blank: string, body: string, inner: int, close: string, rest: string, key: string)
    requires open in ["[", "{"] && IsBlank(blank) && close in ["]", "}"] && inner >= -1
    requires Seek(body + (close + rest), Pattern(key)) ==
               Or(inner, Past(|body|, Seek(close + rest, Pattern(key))))
    ensures Seek(open + (blank + (body + (close + rest))), Pattern(key)) ==
              Or(Past(1 + |blank|, inner), Past(1 + |blank| + |body| + 1, Seek(rest, Pattern(key))))
  {
    SeekQuiet(open, blank + (body + (close + rest)), key);
    SeekQuiet(blank, body + (close + rest), key);
    SeekQuiet(close, rest, key);
  }

  lemma {:induction false} SeekItems(items: seq<Item>, rest: string, key: string)
    requires ItemsOk(items) && KeyOk(key) && Delimited(rest)
    ensures Seek(WriteItems(items) + rest, Pattern(key)) ==
              Or(NamedItem(items, key), Past(|WriteItems(items)|, Seek(rest, Pattern(key))))
    decreases items, 0
  {
    if items == [] {
      assert WriteItems(items) + rest == rest;
    } else {
      var more := WriteItems(items[1..]) + rest;
      assert |items| == 1 ==> more == rest;
      SeekItem(items[0], |items| == 1, more, key);
      Assoc(WriteItem(items[0], |items| == 1), WriteItems(items[1..]), rest);
      SeekItems(items[1..], rest, key);
    }
  }

  lemma {:induction false} SeekItem(it: Item, last: bool, more: string, key: string)
    requires ItemOk(it) && KeyOk(key) && (last ==> Delimited(more))
    ensures Seek(WriteItem(it, last) + more, Pattern(key)) ==
              Or(Past(|it.before|, Named(it.value, key)), Past(|WriteItem(it, last)|, Seek(more, Pattern(key))))
    decreases it, 0
  {
    var gap := Gap(it.after, last);
    ItemShape(it, last, more);
    SeekQuiet(it.before, Write(it.value) + (gap + more), key);
    GapDelimits(it.after, last, more);
    SeekValue(it.value, gap + more, key);
    SeekQuiet(gap, more, key);
  }

  lemma {:induction false} SeekMembers(ms: seq<Member>, rest: string, key: string)
    requires MembersOk(ms) && KeyOk(key) && Delimited(rest)
    ensures Seek(WriteMembers(ms) + rest, Pattern(key)) ==
              Or(NamedMember(ms, key), Past(|WriteMembers(ms)|, Seek(rest, Pattern(key))))
    decreases ms, 0
  {
    if ms == [] {
      assert WriteMembers(ms) + rest == rest;
    } else {
      var more := WriteMembers(ms[1..]) + rest;
      assert |ms| == 1 ==> more == rest;
      SeekMember(ms[0], |ms| == 1, more, key);
      Assoc(WriteMember(ms[0], |ms| == 1), WriteMembers(ms[1..]), rest);
      SeekMembers(ms[1..], rest, key);
    }
  }

  lemma {:induction false} SeekMember(m: Member, last: bool, more: string, key: string)
    requires MemberOk(m) && KeyOk(key) && (last ==> Delimited(more))
    ensures Seek(WriteMember(m, last) + more, Pattern(key)) ==
              Or(NamedHere(m, key), Past(|WriteMember(m, last)|, Seek(more, Pattern(key))))
    decreases m, 0
  {
    var gap := Gap(m.after, last);
    MemberShape(m, last, more);
    SeekHead(m, Write(m.value) + (gap + more), key);
    GapDelimits(m.after, last, more);
    SeekValue(m.value, gap + more, key);
    SeekQuiet(gap, more, key);
  }

  lemma SeekHead(m: Member, rest: string, key: string)
    requires KeyOk(key)
    requires IsBlank(m.before) && IsBlank(m.afterName) && IsBlank(m.beforeValue) && UnitsOk(m.name)
    ensures Seek(MemberHead(m) + rest, Pattern(key)) ==
              if m.afterName == "" && EndsInKey(m.name, key) then |m.before| + |Quoted(m.name)| + 1
              else Past(|MemberHead(m)|, Seek(rest, Pattern(key)))
  {
    HeadShape(m, rest);
    var value := m.beforeValue + rest;
    var colon := m.afterName + (":" + value);
    SeekQuiet(m.before, Quoted(m.name) + colon, key);
    assert !KeyChar(colon[0]) && (StartsWith(colon, ':') <==> m.afterName == "");
    SeekQuoted(m.name, colon, key);
    SeekQuiet(m.afterName, ":" + value, key);
    SeekQuiet(":", value, key);
    SeekQuiet(m.beforeValue, rest, key);
  }

  /** Inside [its '{', its '}') the search finds the first member so named and
      nothing else: no text inside a string value is ever taken for a key. */
  lemma SearchFindsTheMember(v: Json, key: string)
    requires KeyOk(key)
    requires WellFormed(v) && v.Object?
    ensures Seek(Write(v)[..|Write(v)| - 1], Pattern(key)) == Named(v, key)
  {
    var inner := v.blank + WriteMembers(v.members);
    assert Write(v)[..|Write(v)| - 1] == "{" + inner;
    assert WriteMembers(v.members) + "" == WriteMembers(v.members);
    SeekQuiet("{", inner, key);
    SeekQuiet(v.blank, WriteMembers(v.members), key);
    SeekMembers(v.members, "", key);
  }

  /** A name without an escape is matched only when it is the key. */
  lemma PlainNameIsTheKey(name: seq<Unit>, key: string)
    requires UnitsOk(name) && '\\' !in WriteUnits(name)
    ensures EndsInKey(name, key) <==> WriteUnits(name) == key
  {
    var c := WriteUnits(name);
    UnitsEscapeQuotes(name);
    NoQuotes(c);
    if EndsInKey(name, key) {
      EndIsWhole(c, key);
    }
    assert ("\"" + c)[0..] == "\"" + c;
  }

  lemma NoQuotes(c: string)
    requires QuotesEscaped(c) && '\\' !in c
    ensures Quiet(c)
  {
    forall i | 0 <= i < |c| ensures c[i] != '"' {
      assert i > 0 ==> c[i - 1] in c;
    }
  }

  lemma EndIsWhole(c: string, key: string)
    requires Quiet(c) && |key| <= |c| && ("\"" + c)[|c| - |key|..] == "\"" + key
    ensures c == key
  {
    var w, i := "\"" + c, |c| - |key|;
    assert w[i] == w[i..][0] == '"' && w[1..] == c;
    assert forall k | 1 <= k < |w| :: w[k] == c[k - 1];
    assert i == 0;
    assert w[0..] == w && w[1..] == c && ("\"" + key)[1..] == key;
  }

  /** A name that holds an escaped quote can be taken for a shorter key. */
  lemma EscapedQuoteInANameFools()
    ensures var ms := [Member("", [Plain("x"), Escape('"'), Plain("i"), Plain("d")], "", "",
                              Number(false, "5", "", ""), "")];
            && WellFormed(Object("", ms)) && WriteUnits(ms[0].name) != "id"
            && Named(Object("", ms), "id") >= 0
  {
    var name := [Plain("x"), Escape('"'), Plain("i"), Plain("d")];
    assert name[1..] == [Escape('"'), Plain("i"), Plain("d")];
    assert name[1..][1..] == [Plain("i"), Plain("d")];
    assert name[1..][1..][1..] == [Plain("d")];
    assert WriteUnits(name) == "x\\\"id";
    var w := "\"" + WriteUnits(name);
    assert w[3..] == "\"id";
    assert EndsInKey(name, "id");
  }
}
