// The brace matcher, the key search and the string copy that read chats out of
// a reply. Models object_end, find_key, copy_raw and tg_chats_from_updates in
// components/kvm_notify/tg_chats.c.

module ObjectScan {
  import opened Sequences
  import opened JsonText

  // Where the object ends in t, -1 when t ends first; depth braces are open.
  function End(t: string, depth: int, inText: bool): (at: int)
    ensures -1 <= at < |t|
  {
    if t == "" then -1
    else if inText then
      if t[0] == '\\' && |t| > 1 then Past(2, End(t[2..], depth, true))
      else Past(1, End(t[1..], depth, t[0] != '"'))
    else if t[0] == '"' then Past(1, End(t[1..], depth, true))
    else if t[0] == '{' then Past(1, End(t[1..], depth + 1, false))
    else if t[0] == '}' && depth - 1 == 0 then 0
    else Past(1, End(t[1..], if t[0] == '}' then depth - 1 else depth, false))
  }

  function Past(n: nat, at: int): int {
    if at < 0 then -1 else n + at
  }

  method ObjectEnd(s: string, start: nat) returns (at: int)
    requires start <= |s|
    ensures at == Past(start, End(s[start..], 0, false))
  {
    var depth, inText, p := 0, false, start;
    while p < |s|
      invariant start <= p <= |s|
      invariant Past(start, End(s[start..], 0, false)) == Past(p, End(s[p..], depth, inText))
    {
      assert p + 1 <= |s| && s[p..][1..] == s[p + 1..];
      if inText {
        if s[p] == '\\' && p + 1 < |s| {
          assert s[p..][2..] == s[p + 2..];
          p := p + 1;
        } else if s[p] == '"' {
          inText := false;
        }
      } else if s[p] == '"' {
        inText := true;
      } else if s[p] == '{' {
        depth := depth + 1;
      } else if s[p] == '}' {
        depth := depth - 1;
        if depth == 0 {
          return p;
        }
      }
      p := p + 1;
    }
    return -1;
  }

  // ---- what the matcher passes over ----

  predicate Neutral(s: string) {
    forall i | 0 <= i < |s| :: s[i] != '"' && s[i] != '{' && s[i] != '}'
  }

  lemma {:induction false} SkipNeutral(n: string, rest: string, depth: int)
    requires Neutral(n)
    ensures End(n + rest, depth, false) == Past(|n|, End(rest, depth, false))
  {
    if n == "" {
      assert n + rest == rest;
    } else {
      assert (n + rest)[1..] == n[1..] + rest;
      SkipNeutral(n[1..], rest, depth);
    }
  }

  predicate InsideText(s: string) {
    forall i | 0 <= i < |s| :: s[i] != '"' && s[i] != '\\'
  }

  lemma {:induction false} SkipInside(n: string, rest: string, depth: int)
    requires InsideText(n)
    ensures End(n + rest, depth, true) == Past(|n|, End(rest, depth, true))
  {
    if n == "" {
      assert n + rest == rest;
    } else {
      assert (n + rest)[1..] == n[1..] + rest;
      SkipInside(n[1..], rest, depth);
    }
  }

  lemma {:induction false} SkipUnits(us: seq<Unit>, rest: string, depth: int)
    requires UnitsOk(us)
    ensures End(WriteUnits(us) + rest, depth, true) == Past(|WriteUnits(us)|, End(rest, depth, true))
  {
    if us == [] {
      assert WriteUnits(us) + rest == rest;
    } else {
      var more := WriteUnits(us[1..]) + rest;
      SkipUnits(us[1..], rest, depth);
      assert WriteUnits(us) + rest == WriteUnit(us[0]) + more;
      SkipUnit(us[0], more, depth);
    }
  }

  lemma SkipUnit(u: Unit, rest: string, depth: int)
    requires UnitOk(u)
    ensures End(WriteUnit(u) + rest, depth, true) == Past(|WriteUnit(u)|, End(rest, depth, true))
  {
    match u
    case Plain(b) => SkipInside(b, rest, depth);
    case Escape(c) => assert (WriteUnit(u) + rest)[2..] == rest;
    case EscapeU(h) =>
      assert (WriteUnit(u) + rest)[2..] == h + rest;
      SkipInside(h, rest, depth);
  }

  lemma SkipQuoted(us: seq<Unit>, rest: string, depth: int)
    requires UnitsOk(us)
    ensures End(Quoted(us) + rest, depth, false) == Past(|Quoted(us)|, End(rest, depth, false))
  {
    var close := "\"" + rest;
    assert (Quoted(us) + rest)[1..] == WriteUnits(us) + close;
    SkipUnits(us, close, depth);
    assert close[1..] == rest;
  }

  lemma PlainIsNeutral(v: Json)
    requires WellFormed(v) && (v.Word? || v.Number?)
    ensures Neutral(Write(v))
  {
    if v.Number? {
      var sign := if v.minus then "-" else "";
      assert Neutral(sign) && Neutral(v.whole);
      assert Neutral(v.frac) by {
        if v.frac != "" {
          assert v.frac == [v.frac[0]] + v.frac[1..];
        }
      }
      assert Neutral(v.exp) by {
        if v.exp != "" {
          assert v.exp == [v.exp[0]] + v.exp[1..];
          if !Digits(v.exp[1..]) {
            assert v.exp[1..] == [v.exp[1]] + v.exp[2..];
          }
        }
      }
    }
  }

  /** A whole value in an open object leaves the matcher as it was. */
  lemma {:induction false} SkipValue(v: Json, rest: string, depth: int)
    requires WellFormed(v) && depth >= 1
    ensures End(Write(v) + rest, depth, false) == Past(|Write(v)|, End(rest, depth, false))
    decreases v, 1
  {
    match v
    case Word(_) =>
      PlainIsNeutral(v);
      SkipNeutral(Write(v), rest, depth);
    case Number(_, _, _, _) =>
      PlainIsNeutral(v);
      SkipNeutral(Write(v), rest, depth);
    case Text(us) => SkipQuoted(us, rest, depth);
    case List(blank, items) =>
      var tail := "]" + rest;
      ListShape(v, rest);
      SkipNeutral("[", blank + (WriteItems(items) + tail), depth);
      SkipNeutral(blank, WriteItems(items) + tail, depth);
      SkipItems(items, tail, depth);
      SkipNeutral("]", rest, depth);
    case Object(blank, ms) =>
      SkipObject(v, rest, depth);
  }

  lemma {:induction false} SkipObject(v: Json, rest: string, depth: int)
    requires WellFormed(v) && v.Object? && depth >= 0
    ensures End(Write(v) + rest, depth, false) ==
              if depth == 0 then |Write(v)| - 1 else Past(|Write(v)|, End(rest, depth, false))
    decreases v, 0
  {
    var tail := "}" + rest;
    ObjectShape(v, rest);
    SkipOpening(v.blank, WriteMembers(v.members) + tail, depth);
    SkipMembers(v.members, tail, depth + 1);
    Close(rest, depth);
  }

  lemma SkipOpening(blank: string, body: string, depth: int)
    requires IsBlank(blank)
    ensures End("{" + (blank + body), depth, false) == Past(1 + |blank|, End(body, depth + 1, false))
  {
    assert ("{" + (blank + body))[1..] == blank + body;
    SkipNeutral(blank, body, depth + 1);
  }

  lemma Close(rest: string, depth: int)
    ensures End("}" + rest, depth + 1, false) == if depth == 0 then 0 else Past(1, End(rest, depth, false))
  {
    assert ("}" + rest)[1..] == rest;
  }

  lemma {:induction false} SkipItems(items: seq<Item>, rest: string, depth: int)
    requires ItemsOk(items) && depth >= 1
    ensures End(WriteItems(items) + rest, depth, false) == Past(|WriteItems(items)|, End(rest, depth, false))
    decreases items, 0
  {
    if items == [] {
      assert WriteItems(items) + rest == rest;
    } else {
      var it, gap := items[0], Gap(items[0].after, |items| == 1);
      var more := WriteItems(items[1..]) + rest;
      Assoc(WriteItem(it, |items| == 1), WriteItems(items[1..]), rest);
      ItemShape(it, |items| == 1, more);
      SkipNeutral(it.before, Write(it.value) + (gap + more), depth);
      SkipValue(it.value, gap + more, depth);
      SkipNeutral(gap, more, depth);
      SkipItems(items[1..], rest, depth);
    }
  }

  lemma {:induction false} SkipMembers(ms: seq<Member>, rest: string, depth: int)
    requires MembersOk(ms) && depth >= 1
    ensures End(WriteMembers(ms) + rest, depth, false) == Past(|WriteMembers(ms)|, End(rest, depth, false))
    decreases ms, 0
  {
    if ms == [] {
      assert WriteMembers(ms) + rest == rest;
    } else {
      var m := ms[0];
      var more := WriteMembers(ms[1..]) + rest;
      Assoc(WriteMember(m, |ms| == 1), WriteMembers(ms[1..]), rest);
      SkipMember(m, |ms| == 1, more, depth);
      SkipMembers(ms[1..], rest, depth);
    }
  }

  lemma {:induction false} SkipMember(m: Member, last: bool, more: string, depth: int)
    requires MemberOk(m) && depth >= 1
    ensures End(WriteMember(m, last) + more, depth, false) == Past(|WriteMember(m, last)|, End(more, depth, false))
    decreases m, 0
  {
    var gap := Gap(m.after, last);
    MemberShape(m, last, more);
    SkipHead(m, Write(m.value) + (gap + more), depth);
    SkipValue(m.value, gap + more, depth);
    SkipNeutral(gap, more, depth);
  }

  lemma SkipHead(m: Member, rest: string, depth: int)
    requires IsBlank(m.before) && IsBlank(m.afterName) && IsBlank(m.beforeValue) && UnitsOk(m.name)
    ensures End(MemberHead(m) + rest, depth, false) == Past(|MemberHead(m)|, End(rest, depth, false))
  {
    HeadShape(m, rest);
    var value := m.beforeValue + rest;
    SkipNeutral(m.before, Quoted(m.name) + (m.afterName + (":" + value)), depth);
    SkipQuoted(m.name, m.afterName + (":" + value), depth);
    SkipNeutral(m.afterName, ":" + value, depth);
    SkipNeutral(":", value, depth);
    SkipNeutral(m.beforeValue, rest, depth);
  }

  /** For every well-formed object and anything after it, the matcher stops on
      that object's own closing brace. */
  lemma ObjectEndsAtItsBrace(v: Json, rest: string)
    requires WellFormed(v) && v.Object?
    ensures End(Write(v) + rest, 0, false) == |Write(v)| - 1
  {
    SkipObject(v, rest, 0);
  }

  // What has been found does not change with what follows.
  lemma {:induction false} EndIsStable(t: string, more: string, depth: int, inText: bool)
    requires End(t, depth, inText) >= 0
    ensures End(t + more, depth, inText) == End(t, depth, inText)
    decreases |t|
  {
    assert (t + more)[1..] == t[1..] + more;
    if inText && t[0] == '\\' && |t| > 1 {
      assert (t + more)[2..] == t[2..] + more;
      EndIsStable(t[2..], more, depth, true);
    } else if inText {
      assert t[0] != '\\' || |t| > 1;
      EndIsStable(t[1..], more, depth, t[0] != '"');
    } else if t[0] == '"' {
      EndIsStable(t[1..], more, depth, true);
    } else if t[0] == '{' {
      EndIsStable(t[1..], more, depth + 1, false);
    } else if !(t[0] == '}' && depth - 1 == 0) {
      EndIsStable(t[1..], more, if t[0] == '}' then depth - 1 else depth, false);
    }
  }

  /** An object that is cut short has no end. */
  lemma CutObjectHasNoEnd(v: Json, n: nat)
    requires WellFormed(v) && v.Object? && n < |Write(v)|
    ensures End(Write(v)[..n], 0, false) == -1
  {
    var t, more := Write(v)[..n], Write(v)[n..];
    if End(t, 0, false) >= 0 {
      EndIsStable(t, more, 0, false);
      assert t + more == Write(v);
      assert Write(v) + "" == Write(v);
      ObjectEndsAtItsBrace(v, "");
      assert false;
    }
  }
}
