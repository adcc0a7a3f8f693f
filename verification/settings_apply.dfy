// One request that writes several settings: all of it or none, and never two
// things put on one pin. Models kvm_settings_apply_json and check_pins in
// components/kvm_config/kvm_settings.c.

module SettingsApply {
  import opened Options
  import opened PinConflict
  import opened DeviceSettings
  import opened DeviceProfiles
  import opened SettingsStore

  // ---- what a request asks for ----

  // The value j gives setting d; None when it does not take it.
  function Given(d: Setting, j: Json): (r: Option<Value>)
    ensures r.Some? ==> InRange(d, r.value)
  {
    var v := if !Numeric(d) then (if j.Str? then Some(Text(j.s)) else None)
             else if j.Flag? then Some(Number(if j.b then 1 else 0))
             else if j.Num? then Some(Number(j.n)) else None;
    if v.Some? && InRange(d, v.value) then v else None
  }

  function ItemError(t: seq<Setting>, p: Pair): Err {
    var i := FindIndex(t, p.key);
    if i < 0 then NotFound else if Given(t[i], p.value).None? then InvalidArg else Ok
  }

  function FirstError(t: seq<Setting>, o: seq<Pair>): (e: Err)
    ensures e == Ok <==> forall p | p in o :: ItemError(t, p) == Ok
  {
    if o == [] then Ok else if ItemError(t, o[0]) != Ok then ItemError(t, o[0]) else FirstError(t, o[1..])
  }

  // What setting d is after the request: its last value there.
  function Wanted(d: Setting, o: seq<Pair>, was: Value): Value {
    var j := Last(o, d.key);
    if j.Some? && Given(d, j.value).Some? then Given(d, j.value).value else was
  }

  // ---- what it comes to, in terms of the body alone ----

  // What item p asks for can be set.
  predicate Fits(t: seq<Setting>, p: Pair) {
    exists i :: 0 <= i < |t| && t[i].key == p.key && ValueFits(t[i], p.value)
  }

  predicate ValueFits(d: Setting, j: Json) {
    match j
    case Str(s) => TextFits(d, s)
    case Flag(b) => NumberFits(d, if b then 1 else 0)
    case Num(n) => NumberFits(d, n)
    case _ => false
  }

  predicate Known(t: seq<Setting>, key: string) {
    exists i :: 0 <= i < |t| && t[i].key == key
  }

  /** An item is refused exactly if no setting has its key, or its value is not of
      the setting's kind, too long or out of range. */
  lemma ItemIsTakenExactly(t: seq<Setting>, p: Pair)
    requires TableOk(t)
    ensures ItemError(t, p) == if !Known(t, p.key) then NotFound else if !Fits(t, p) then InvalidArg else Ok
  {
    var i := FindIndex(t, p.key);
    forall k | 0 <= k < |t| && t[k].key == p.key ensures k == i {
      if k != i {
        KeysDiffer(t, i, k);
      }
    }
    if i >= 0 {
      match p.value
      case Str(s) => RangeIsTheRows(t[i], Text(s));
      case Flag(b) => RangeIsTheRows(t[i], Number(if b then 1 else 0));
      case Num(n) => RangeIsTheRows(t[i], Number(n));
      case _ =>
    }
  }

  lemma {:induction false} OneOfThree(t: seq<Setting>, o: seq<Pair>)
    ensures FirstError(t, o) in {Ok, InvalidArg, NotFound}
  {
    if o != [] {
      OneOfThree(t, o[1..]);
    }
  }

  /** The error is that of the first item that does not fit. */
  lemma {:induction false} FirstErrorIs(t: seq<Setting>, o: seq<Pair>, k: nat)
    requires TableOk(t) && k <= |o| && (forall j | 0 <= j < k :: Fits(t, o[j])) && (k < |o| ==> !Fits(t, o[k]))
    ensures FirstError(t, o) ==
              if k == |o| then Ok else if Known(t, o[k].key) then InvalidArg else NotFound
  {
    if o != [] {
      ItemIsTakenExactly(t, o[0]);
      if k > 0 {
        assert Fits(t, o[0]);
        forall j | 0 <= j < k - 1 ensures Fits(t, o[1..][j]) {
          assert o[1..][j] == o[j + 1];
        }
        FirstErrorIs(t, o[1..], k - 1);
      }
    }
  }

  // The setting holds what was given, as its kind has it.
  predicate HeldAs(d: Setting, j: Json, v: Value) {
    match j
    case Str(s) => d.kind == Kind.Str && v == Text(s)
    case Flag(b) => d.kind != Kind.Str && v == Number(if b then 1 else 0)
    case Num(n) => d.kind != Kind.Str && v == Number(n)
    case _ => false
  }

  // The item at k is the last for its key.
  predicate IsLast(o: seq<Pair>, k: nat)
    requires k < |o|
  {
    forall j | k < j < |o| :: o[j].key != o[k].key
  }

  // Each setting that the body names holds the last value it has there, and no
  // other setting has moved.
  predicate AppliedAsGiven(t: seq<Setting>, o: seq<Pair>, before: seq<Value>, after: seq<Value>) {
    && |before| == |t| == |after|
    && (forall i, k | 0 <= i < |t| && 0 <= k < |o| && o[k].key == t[i].key && IsLast(o, k) ::
          HeldAs(t[i], o[k].value, after[i]))
    && (forall i | 0 <= i < |t| && (forall k | 0 <= k < |o| :: o[k].key != t[i].key) :: after[i] == before[i])
  }

  lemma {:induction false} LastStands(o: seq<Pair>, k: nat)
    requires k < |o| && IsLast(o, k)
    ensures Last(o, o[k].key) == Some(o[k].value)
  {
    if k > 0 {
      assert o[1..][k - 1] == o[k] && forall j | k - 1 < j < |o[1..]| :: o[1..][j] == o[j + 1];
      LastStands(o[1..], k - 1);
    } else {
      NotThere(o[1..], o[0].key);
    }
  }

  lemma {:induction false} NotThere(o: seq<Pair>, key: string)
    requires forall k | 0 <= k < |o| :: o[k].key != key
    ensures Last(o, key) == None
  {
    if o != [] {
      NotThere(o[1..], key);
    }
  }

  /** What is wanted is what the body gives. */
  lemma WantedIsGiven(t: seq<Setting>, o: seq<Pair>, before: seq<Value>, after: seq<Value>)
    requires TableOk(t) && FirstError(t, o) == Ok && AllWanted(t, o, before, after)
    ensures AppliedAsGiven(t, o, before, after)
  {
    forall i, k | 0 <= i < |t| && 0 <= k < |o| && o[k].key == t[i].key && IsLast(o, k)
      ensures HeldAs(t[i], o[k].value, after[i])
    {
      LastStands(o, k);
      assert o[k] in o && ItemError(t, o[k]) == Ok;
      var f := FindIndex(t, t[i].key);
      if f != i {
        KeysDiffer(t, f, i);
      }
    }
    forall i | 0 <= i < |t| && (forall k | 0 <= k < |o| :: o[k].key != t[i].key) ensures after[i] == before[i] {
      NotThere(o, t[i].key);
    }
  }

  // ---- helpers ----

  lemma {:induction false} LastOfMore(o: seq<Pair>, p: Pair, key: string)
    ensures Last(o + [p], key) == if p.key == key then Some(p.value) else Last(o, key)
  {
    if o == [] {
      assert (o + [p])[1..] == [];
    } else {
      assert (o + [p])[1..] == o[1..] + [p];
      LastOfMore(o[1..], p, key);
    }
  }

  lemma {:induction false} LastIsIn(o: seq<Pair>, key: string)
    ensures Last(o, key).Some? ==> Pair(key, Last(o, key).value) in o
    ensures Get(o, key).Some? ==> Pair(key, Get(o, key).value) in o
    ensures Last(o, key).Some? <==> Get(o, key).Some?
  {
    if o != [] {
      LastIsIn(o[1..], key);
    }
  }

  lemma {:induction false} OnlyOneIsLast(o: seq<Pair>, key: string)
    requires Count(o, key) <= 1
    ensures Last(o, key) == Get(o, key)
  {
    if o != [] {
      if o[0].key == key {
        CountIsGet(o[1..], key);
        LastIsIn(o[1..], key);
      } else {
        OnlyOneIsLast(o[1..], key);
      }
    }
  }

  // ---- pins ----

  function IntOf(v: Value): int {
    if v.Number? then v.n else 0
  }

  // The value row i will hold, as the pin check reads the request: the first of
  // a key named twice.
  function Resulting(t: seq<Setting>, o: seq<Pair>, seen: seq<Value>, i: nat): int
    requires i < |t| == |seen|
  {
    var r := Reading(Get(o, t[i].key));
    if r.Some? then r.value else IntOf(seen[i])
  }

  // What a member reads as, where a number is wanted.
  function Reading(j: Option<Json>): Option<int> {
    match j
    case Some(Flag(b)) => Some(if b then 1 else 0)
    case Some(Num(n)) => Some(n)
    case _ => None
  }

  predicate Applies(t: seq<Setting>, o: seq<Pair>, seen: seq<Value>, i: nat)
    requires i < |t| == |seen|
  {
    match t[i].visible
    case None => true
    case Some(v) => FindIndex(t, v.key) >= 0 ==> Resulting(t, o, seen, FindIndex(t, v.key)) == v.eq
  }

  function ClaimOf(t: seq<Setting>, o: seq<Pair>, seen: seq<Value>, i: nat): Claim
    requires i < |t| == |seen|
  {
    Claim(t[i].key, Resulting(t, o, seen, i), Get(o, t[i].key).Some?)
  }

  function Claims(t: seq<Setting>, o: seq<Pair>, seen: seq<Value>, n: nat): (cs: seq<Claim>)
    requires n <= |t| == |seen|
    ensures |cs| <= MAX_PIN_CLAIMS
  {
    if n == 0 then []
    else
      var cs := Claims(t, o, seen, n - 1);
      if |cs| < MAX_PIN_CLAIMS && t[n - 1].pin && Applies(t, o, seen, n - 1)
      then cs + [ClaimOf(t, o, seen, n - 1)] else cs
  }

  method CheckPins(s: Store, o: seq<Pair>, held: int -> Option<string>) returns (err: Err)
    requires s.Sound()
    ensures var claims := Claims(s.table, o, InEffect(s.values, s.over), |s.table|);
            err == if AnyConflict(claims, held) then InvalidArg else Ok
  {
    var claims := [];
    var seen := InEffect(s.values, s.over);
    var i := 0;
    while i < |s.table| && |claims| < MAX_PIN_CLAIMS
      invariant i <= |s.table| && claims == Claims(s.table, o, seen, i)
    {
      if s.table[i].pin && Applies(s.table, o, seen, i) {
        claims := claims + [ClaimOf(s.table, o, seen, i)];
      }
      i := i + 1;
    }
    NoMoreClaims(s.table, o, seen, i, |s.table|);
    var c := FindConflict(claims, held);
    return if c.Some? then InvalidArg else Ok;
  }

  lemma {:induction false} NoMoreClaims(t: seq<Setting>, o: seq<Pair>, seen: seq<Value>, i: nat, n: nat)
    requires i <= n <= |t| == |seen|
    requires i == n || |Claims(t, o, seen, i)| == MAX_PIN_CLAIMS
    ensures Claims(t, o, seen, n) == Claims(t, o, seen, i)
  {
    if i < n {
      NoMoreClaims(t, o, seen, i, n - 1);
    }
  }

  // ---- the request ----

  method CheckItems(t: seq<Setting>, o: seq<Pair>) returns (err: Err)
    ensures err == FirstError(t, o)
  {
    assert o[0..] == o;
    for k := 0 to |o|
      invariant FirstError(t, o) == FirstError(t, o[k..])
    {
      assert o[k..][1..] == o[k + 1..];
      err := ItemError(t, o[k]);
      if err != Ok {
        return;
      }
    }
    return Ok;
  }

  /** Nothing is written unless everything passes; then every key has its last
      value in the request and every other setting is as it was. */
  method ApplyJson(s: Store, body: Option<Json>, held: int -> Option<string>) returns (err: Err)
    requires s.Sound()
    modifies s
    ensures s.Sound()
    ensures err == Refusal(s.table, body, old(InEffect(s.values, s.over)), held)
    ensures err == Ok || err == InvalidArg || err == NotFound
    ensures err == Ok <==>
              && body.Some? && body.value.Object? && (forall p | p in body.value.members :: Fits(s.table, p))
              && !AnyConflict(Claims(s.table, body.value.members, old(InEffect(s.values, s.over)), |s.table|), held)
    ensures err != Ok ==> s.M() == old(s.M()) && InEffect(s.values, s.over) == old(InEffect(s.values, s.over))
    ensures err == Ok ==>
              forall i | 0 <= i < |s.table| ::
                InEffect(s.values, s.over)[i] ==
                Wanted(s.table[i], body.value.members, old(InEffect(s.values, s.over))[i])
    ensures err == Ok ==>
              AppliedAsGiven(s.table, body.value.members, old(InEffect(s.values, s.over)), InEffect(s.values, s.over))
    ensures old(s.Agrees()) && old(Clean(s.M())) ==> s.Agrees() && Clean(s.M())
  {
    if body.None? || !body.value.Object? {
      return InvalidArg;
    }
    var o := body.value.members;
    ghost var before := InEffect(s.values, s.over);
    forall p | p in o ensures Fits(s.table, p) <==> ItemError(s.table, p) == Ok {
      ItemIsTakenExactly(s.table, p);
      if Fits(s.table, p) {
        assert Known(s.table, p.key);
      }
    }
    OneOfThree(s.table, o);
    err := CheckItems(s.table, o);
    if err != Ok {
      return;
    }
    err := CheckPins(s, o, held);
    if err != Ok {
      return;
    }
    WriteItems(s, o);
    WantedIsGiven(s.table, o, before, InEffect(s.values, s.over));
  }

  function Refusal(t: seq<Setting>, body: Option<Json>, seen: seq<Value>, held: int -> Option<string>): Err
    requires |seen| == |t|
  {
    if body.None? || !body.value.Object? then InvalidArg
    else if FirstError(t, body.value.members) != Ok then FirstError(t, body.value.members)
    else if AnyConflict(Claims(t, body.value.members, seen, |t|), held) then InvalidArg
    else Ok
  }

  predicate AllWanted(t: seq<Setting>, o: seq<Pair>, before: seq<Value>, seen: seq<Value>) {
    && |before| == |t| == |seen|
    && forall i | 0 <= i < |t| :: seen[i] == Wanted(t[i], o, before[i])
  }

  lemma OneMoreWanted(t: seq<Setting>, o: seq<Pair>, p: Pair, before: seq<Value>, seen: seq<Value>)
    requires TableOk(t) && AllWanted(t, o, before, seen) && ItemError(t, p) == Ok
    ensures var i := FindIndex(t, p.key);
            AllWanted(t, o + [p], before, seen[i := Given(t[i], p.value).value])
  {
    var i := FindIndex(t, p.key);
    forall k | 0 <= k < |t|
      ensures seen[i := Given(t[i], p.value).value][k] == Wanted(t[k], o + [p], before[k])
    {
      LastOfMore(o, p, t[k].key);
      if k != i {
        KeysDiffer(t, i, k);
      }
    }
  }

  method WriteItems(s: Store, o: seq<Pair>)
    requires s.Sound() && FirstError(s.table, o) == Ok
    modifies s
    ensures s.Sound()
    ensures AllWanted(s.table, o, old(InEffect(s.values, s.over)), InEffect(s.values, s.over))
    ensures old(s.Agrees()) && old(Clean(s.M())) ==> s.Agrees() && Clean(s.M())
  {
    ghost var before := InEffect(s.values, s.over);
    for k := 0 to |o|
      invariant s.Sound()
      invariant AllWanted(s.table, o[..k], before, InEffect(s.values, s.over))
      invariant old(s.Agrees()) && old(Clean(s.M())) ==> s.Agrees() && Clean(s.M())
    {
      assert o[k] in o && o[..k + 1] == o[..k] + [o[k]];
      OneMoreWanted(s.table, o[..k], o[k], before, InEffect(s.values, s.over));
      WriteItem(s, o[k]);
    }
    assert o[..|o|] == o;
  }

  method WriteItem(s: Store, p: Pair)
    requires s.Sound() && ItemError(s.table, p) == Ok
    modifies s
    ensures s.Sound()
    ensures var i := FindIndex(s.table, p.key);
            InEffect(s.values, s.over) == old(InEffect(s.values, s.over))[i := Given(s.table[i], p.value).value]
    ensures old(s.Agrees()) && old(Clean(s.M())) ==> s.Agrees() && Clean(s.M())
  {
    var d := s.table[FindIndex(s.table, p.key)];
    var v := Given(d, p.value).value;
    if v.Text? {
      var _ := s.SetStr(d.key, v.s);
    } else {
      var _ := s.SetInt(d.key, v.n);
    }
  }

  // ---- what the pin check promises ----

  predicate Visible(t: seq<Setting>, seen: seq<Value>, i: nat)
    requires i < |t| == |seen|
  {
    match t[i].visible
    case None => true
    case Some(v) => FindIndex(t, v.key) >= 0 ==> IntOf(seen[FindIndex(t, v.key)]) == v.eq
  }

  // The request names no setting that pins depend on twice with two readings.
  predicate PinKeysAgree(t: seq<Setting>, o: seq<Pair>) {
    forall i | 0 <= i < |t| && t[i].pin ::
      && Agrees(o, t[i].key)
      && (t[i].visible.Some? ==> Agrees(o, t[i].visible.value.key))
  }

  predicate Agrees(o: seq<Pair>, key: string) {
    Reading(Get(o, key)) == Reading(Last(o, key))
  }

  lemma KeysGivenOnceAgree(t: seq<Setting>, o: seq<Pair>)
    requires NoRepeats(o)
    ensures PinKeysAgree(t, o)
  {
    forall key: string ensures Get(o, key) == Last(o, key) {
      assert Count(o, key) <= 1;
      OnlyOneIsLast(o, key);
    }
  }

  lemma ResultingIsWanted(t: seq<Setting>, o: seq<Pair>, before: seq<Value>, after: seq<Value>, i: nat)
    requires TableOk(t) && i < |t| && Numeric(t[i]) && Agrees(o, t[i].key)
    requires FirstError(t, o) == Ok && AllWanted(t, o, before, after)
    ensures Resulting(t, o, before, i) == IntOf(after[i])
  {
    LastIsIn(o, t[i].key);
    EveryRowIsOk(t, |t|);
    assert RowOk(t, i);
    var first, last := Get(o, t[i].key), Last(o, t[i].key);
    if first.Some? {
      assert ItemError(t, Pair(t[i].key, first.value)) == Ok;
      assert ItemError(t, Pair(t[i].key, last.value)) == Ok;
    }
  }

  lemma AppliesIsVisible(t: seq<Setting>, o: seq<Pair>, before: seq<Value>, after: seq<Value>, i: nat)
    requires TableOk(t) && i < |t| && t[i].pin && PinKeysAgree(t, o)
    requires FirstError(t, o) == Ok && AllWanted(t, o, before, after)
    ensures Applies(t, o, before, i) <==> Visible(t, after, i)
    ensures ClaimOf(t, o, before, i) == Claim(t[i].key, IntOf(after[i]), Get(o, t[i].key).Some?)
  {
    EveryRowIsOk(t, |t|);
    assert RowOk(t, i);
    ResultingIsWanted(t, o, before, after, i);
    if t[i].visible.Some? {
      var k := FindIndex(t, t[i].visible.value.key);
      if k >= 0 {
        ResultingIsWanted(t, o, before, after, k);
      }
    }
  }

  // Where row i's claim is; there is always room for it.
  lemma {:induction false} ClaimStands(t: seq<Setting>, o: seq<Pair>, seen: seq<Value>, n: nat, i: nat) returns (c: nat)
    requires i < n <= |t| == |seen| && PinRows(t, n) <= MAX_PIN_CLAIMS
    requires t[i].pin && Applies(t, o, seen, i)
    ensures c < |Claims(t, o, seen, n)| && Claims(t, o, seen, n)[c] == ClaimOf(t, o, seen, i)
  {
    ClaimsFit(t, o, seen, n - 1);
    if i == n - 1 {
      c := |Claims(t, o, seen, n - 1)|;
    } else {
      c := ClaimStands(t, o, seen, n - 1, i);
    }
  }

  lemma {:induction false} ClaimsFit(t: seq<Setting>, o: seq<Pair>, seen: seq<Value>, n: nat)
    requires n <= |t| == |seen|
    ensures |Claims(t, o, seen, n)| <= PinRows(t, n)
  {
    if n > 0 {
      ClaimsFit(t, o, seen, n - 1);
    }
  }

  /** After an accepted request, a pin it names, and shows, is on no hardware of
      the board and is shared with no other visible pin but a bus line. */
  lemma AcceptedPinsAreSound(t: seq<Setting>, o: seq<Pair>, before: seq<Value>, after: seq<Value>,
                             held: int -> Option<string>, i: nat, j: nat)
    requires TableOk(t) && PinKeysAgree(t, o)
    requires FirstError(t, o) == Ok && AllWanted(t, o, before, after)
    requires !AnyConflict(Claims(t, o, before, |t|), held)
    requires i < |t| && t[i].pin && Visible(t, after, i) && Get(o, t[i].key).Some? && IntOf(after[i]) >= 0
    requires j < |t| && t[j].pin && Visible(t, after, j) && j != i
    ensures held(IntOf(after[i])) == None
    ensures IntOf(after[j]) == IntOf(after[i]) ==> SharedBusLine(t[i].key, t[j].key)
  {
    var claims := Claims(t, o, before, |t|);
    AppliesIsVisible(t, o, before, after, i);
    AppliesIsVisible(t, o, before, after, j);
    var c := ClaimStands(t, o, before, |t|, i);
    var d := ClaimStands(t, o, before, |t|, j);
    KeysDiffer(t, i, j);
    assert !OnHardware(claims, held, c) && !Clash(claims, c, d);
  }

  // Every pin the request names and shows is on no hardware of the board, and
  // on no other visible pin that is not the same bus line.
  ghost predicate NamedPinsSound(t: seq<Setting>, o: seq<Pair>, after: seq<Value>, held: int -> Option<string>)
    requires |after| == |t|
  {
    forall i | 0 <= i < |t| && t[i].pin && Visible(t, after, i) && Get(o, t[i].key).Some? && IntOf(after[i]) >= 0 ::
      && held(IntOf(after[i])) == None
      && forall j | 0 <= j < |t| && t[j].pin && Visible(t, after, j) && j != i ::
           IntOf(after[j]) == IntOf(after[i]) ==> SharedBusLine(t[i].key, t[j].key)
  }

  // The row a claim was made for.
  function RowOf(t: seq<Setting>, o: seq<Pair>, seen: seq<Value>, n: nat, c: nat): (i: nat)
    requires n <= |t| == |seen| && c < |Claims(t, o, seen, n)|
    ensures i < n && t[i].pin && Applies(t, o, seen, i) && Claims(t, o, seen, n)[c] == ClaimOf(t, o, seen, i)
  {
    if c == |Claims(t, o, seen, n - 1)| then n - 1 else RowOf(t, o, seen, n - 1, c)
  }

  lemma {:induction false} RowsAscend(t: seq<Setting>, o: seq<Pair>, seen: seq<Value>, n: nat, c: nat, d: nat)
    requires n <= |t| == |seen| && c < d < |Claims(t, o, seen, n)|
    ensures RowOf(t, o, seen, n, c) < RowOf(t, o, seen, n, d)
  {
    if d < |Claims(t, o, seen, n - 1)| {
      RowsAscend(t, o, seen, n - 1, c, d);
    }
  }

  /** The check refuses a request that names no pin with two readings exactly when
      a pin it names would not be sound. */
  lemma PinCheckIsExact(t: seq<Setting>, o: seq<Pair>, before: seq<Value>, after: seq<Value>,
                        held: int -> Option<string>)
    requires TableOk(t) && PinKeysAgree(t, o)
    requires FirstError(t, o) == Ok && AllWanted(t, o, before, after)
    ensures !AnyConflict(Claims(t, o, before, |t|), held) <==> NamedPinsSound(t, o, after, held)
  {
    var claims := Claims(t, o, before, |t|);
    if !AnyConflict(claims, held) {
      forall i, j | 0 <= i < |t| && t[i].pin && Visible(t, after, i) && Get(o, t[i].key).Some? && IntOf(after[i]) >= 0
                    && 0 <= j < |t| && t[j].pin && Visible(t, after, j) && j != i
        ensures IntOf(after[j]) == IntOf(after[i]) ==> SharedBusLine(t[i].key, t[j].key)
      {
        AcceptedPinsAreSound(t, o, before, after, held, i, j);
      }
      forall i | 0 <= i < |t| && t[i].pin && Visible(t, after, i) && Get(o, t[i].key).Some? && IntOf(after[i]) >= 0
        ensures held(IntOf(after[i])) == None
      {
        AppliesIsVisible(t, o, before, after, i);
        var c := ClaimStands(t, o, before, |t|, i);
        assert !OnHardware(claims, held, c);
      }
    } else if AnyOnHardware(claims, held) {
      var c :| 0 <= c < |claims| && OnHardware(claims, held, c);
      AppliesIsVisible(t, o, before, after, RowOf(t, o, before, |t|, c));
    } else {
      var c, d :| 0 <= c < |claims| && 0 <= d < |claims| && Clash(claims, c, d);
      ClashIsUnsound(t, o, before, after, held, c, d);
    }
  }

  lemma ClashIsUnsound(t: seq<Setting>, o: seq<Pair>, before: seq<Value>, after: seq<Value>,
                       held: int -> Option<string>, c: nat, d: nat)
    requires TableOk(t) && PinKeysAgree(t, o)
    requires FirstError(t, o) == Ok && AllWanted(t, o, before, after)
    requires var claims := Claims(t, o, before, |t|); c < |claims| && d < |claims| && Clash(claims, c, d)
    ensures !NamedPinsSound(t, o, after, held)
  {
    var i, j := RowOf(t, o, before, |t|, c), RowOf(t, o, before, |t|, d);
    AppliesIsVisible(t, o, before, after, i);
    AppliesIsVisible(t, o, before, after, j);
    SharingIsMutual(t[i].key, t[j].key);
    if c < d {
      RowsAscend(t, o, before, |t|, c, d);
    } else {
      RowsAscend(t, o, before, |t|, d, c);
    }
  }

  // ---- all pins, named or not ----

  // No visible pin is on hardware of the board, and no two are on one pin that
  // is not a shared bus line.
  ghost predicate WiringSound(t: seq<Setting>, seen: seq<Value>, held: int -> Option<string>)
    requires |seen| == |t|
  {
    forall i | 0 <= i < |t| && t[i].pin && Visible(t, seen, i) && IntOf(seen[i]) >= 0 ::
      && held(IntOf(seen[i])) == None
      && forall j | 0 <= j < |t| && t[j].pin && Visible(t, seen, j) && j != i ::
           IntOf(seen[j]) == IntOf(seen[i]) ==> SharedBusLine(t[i].key, t[j].key)
  }

  // The same of the pins the request leaves alone.
  ghost predicate RestSound(t: seq<Setting>, o: seq<Pair>, seen: seq<Value>, held: int -> Option<string>)
    requires |seen| == |t|
  {
    forall i | 0 <= i < |t| && t[i].pin && Visible(t, seen, i) && Get(o, t[i].key).None? && IntOf(seen[i]) >= 0 ::
      && held(IntOf(seen[i])) == None
      && forall j | 0 <= j < |t| && t[j].pin && Visible(t, seen, j) && Get(o, t[j].key).None? && j != i ::
           IntOf(seen[j]) == IntOf(seen[i]) ==> SharedBusLine(t[i].key, t[j].key)
  }

  lemma WiringIsNamedAndRest(t: seq<Setting>, o: seq<Pair>, seen: seq<Value>, held: int -> Option<string>)
    requires |seen| == |t|
    ensures WiringSound(t, seen, held) <==> NamedPinsSound(t, o, seen, held) && RestSound(t, o, seen, held)
  {
    if NamedPinsSound(t, o, seen, held) && RestSound(t, o, seen, held) {
      forall i, j | 0 <= i < |t| && t[i].pin && Visible(t, seen, i) && IntOf(seen[i]) >= 0
                    && 0 <= j < |t| && t[j].pin && Visible(t, seen, j) && j != i
        ensures IntOf(seen[j]) == IntOf(seen[i]) ==> SharedBusLine(t[i].key, t[j].key)
      {
        SharingIsMutual(t[i].key, t[j].key);
      }
    }
  }

  /** The wiring a request results in is sound if and only if the check accepts it
      and the visible pins it does not name are sound among themselves. */
  lemma WiringIsSoundExactly(t: seq<Setting>, o: seq<Pair>, before: seq<Value>, after: seq<Value>,
                             held: int -> Option<string>)
    requires TableOk(t) && PinKeysAgree(t, o)
    requires FirstError(t, o) == Ok && AllWanted(t, o, before, after)
    ensures WiringSound(t, after, held) <==>
              !AnyConflict(Claims(t, o, before, |t|), held) && RestSound(t, o, after, held)
  {
    PinCheckIsExact(t, o, before, after, held);
    WiringIsNamedAndRest(t, o, after, held);
  }

  // Every pin the request leaves alone and that is visible then was so before.
  predicate ShowsNoOther(t: seq<Setting>, o: seq<Pair>, before: seq<Value>, after: seq<Value>)
    requires |before| == |t| == |after|
  {
    forall i | 0 <= i < |t| && t[i].pin && Get(o, t[i].key).None? && Visible(t, after, i) :: Visible(t, before, i)
  }

  /** So sound wiring stays sound, whatever is accepted, as long as no request shows
      a pin that it does not name. */
  lemma AcceptedKeepsWiring(t: seq<Setting>, o: seq<Pair>, before: seq<Value>, after: seq<Value>,
                            held: int -> Option<string>)
    requires TableOk(t) && PinKeysAgree(t, o)
    requires FirstError(t, o) == Ok && AllWanted(t, o, before, after)
    requires !AnyConflict(Claims(t, o, before, |t|), held)
    requires WiringSound(t, before, held) && ShowsNoOther(t, o, before, after)
    ensures WiringSound(t, after, held)
  {
    forall i | 0 <= i < |t| && Get(o, t[i].key).None? ensures after[i] == before[i] {
      LastIsIn(o, t[i].key);
    }
    WiringIsSoundExactly(t, o, before, after, held);
  }

  // ---- what is in effect, written back ----

  // Every setting with its value, as the console reads them.
  function AsBody(t: seq<Setting>, seen: seq<Value>): (o: seq<Pair>)
    requires |seen| == |t|
    ensures |o| == |t|
  {
    seq(|t|, i requires 0 <= i < |t| =>
      Pair(t[i].key, match seen[i] case Number(n) => Num(n) case Text(s) => Json.Str(s)))
  }

  lemma {:induction false} WrittenOnce(t: seq<Setting>, o: seq<Pair>, n: nat)
    requires TableOk(t) && n <= |t| && |o| == |t| - n && forall i | n <= i < |t| :: o[i - n].key == t[i].key
    ensures NoRepeats(o)
    ensures forall i | n <= i < |t| :: Get(o, t[i].key) == Last(o, t[i].key) == Some(o[i - n].value)
    ensures forall i | 0 <= i < n :: Get(o, t[i].key) == None && Last(o, t[i].key) == None && Count(o, t[i].key) == 0
    decreases |t| - n
  {
    if n < |t| {
      WrittenOnce(t, o[1..], n + 1);
      forall i | 0 <= i < |t| && i != n ensures t[i].key != t[n].key {
        KeysDiffer(t, i, n);
      }
      forall key: string ensures Count(o, key) <= 1 {
        assert Count(o[1..], key) <= 1;
      }
    } else {
      assert o == [];
    }
  }

  lemma WrittenFits(t: seq<Setting>, seen: seq<Value>)
    requires TableOk(t) && |seen| == |t| && forall i | 0 <= i < |t| :: InRange(t[i], seen[i])
    ensures FirstError(t, AsBody(t, seen)) == Ok && AllWanted(t, AsBody(t, seen), seen, seen)
  {
    var o := AsBody(t, seen);
    WrittenOnce(t, o, 0);
    forall i | 0 <= i < |t| ensures Fits(t, o[i]) {
      RangeIsTheRows(t[i], seen[i]);
      assert o[i].key == t[i].key && ValueFits(t[i], o[i].value);
    }
    FirstErrorIs(t, o, |o|);
  }

  /** What is in effect, written back in one request: every item fits and nothing
      moves, and it is accepted if and only if the wiring is sound as it is. */
  lemma WrittenBackChangesNothing(t: seq<Setting>, seen: seq<Value>, held: int -> Option<string>)
    requires TableOk(t) && |seen| == |t| && forall i | 0 <= i < |t| :: InRange(t[i], seen[i])
    ensures var o := AsBody(t, seen);
            && FirstError(t, o) == Ok && AllWanted(t, o, seen, seen) && AppliedAsGiven(t, o, seen, seen)
            && (!AnyConflict(Claims(t, o, seen, |t|), held) <==> WiringSound(t, seen, held))
  {
    var o := AsBody(t, seen);
    WrittenOnce(t, o, 0);
    WrittenFits(t, seen);
    WantedIsGiven(t, o, seen, seen);
    KeysGivenOnceAgree(t, o);
    WiringIsSoundExactly(t, o, seen, seen, held);
    assert RestSound(t, o, seen, held);
  }

  // ---- exactly when the check is right on every board ----

  // The request with each key named once, at its last value.
  function LastOnly(o: seq<Pair>): seq<Pair> {
    if o == [] then []
    else if Last(o[1..], o[0].key).Some? then LastOnly(o[1..])
    else [o[0]] + LastOnly(o[1..])
  }

  lemma {:induction false} LastOnlyIs(o: seq<Pair>, key: string)
    ensures Get(LastOnly(o), key) == Last(LastOnly(o), key) == Last(o, key)
    ensures Count(LastOnly(o), key) <= 1
    ensures forall p | p in LastOnly(o) :: p in o
  {
    if o != [] {
      LastOnlyIs(o[1..], key);
      var rest := LastOnly(o[1..]);
      if Last(o[1..], o[0].key).None? {
        assert ([o[0]] + rest)[1..] == rest;
        if o[0].key == key {
          CountIsGet(rest, key);
        }
      }
    }
  }

  // The pins a set of claims puts something on, by this request.
  function PinsOf(claims: seq<Claim>): set<int> {
    set c | c in claims && c.changing && c.gpio >= 0 :: c.gpio
  }

  lemma HardwareIsPins(claims: seq<Claim>, held: int -> Option<string>)
    ensures AnyOnHardware(claims, held) <==> exists g :: g in PinsOf(claims) && held(g).Some?
  {
    if AnyOnHardware(claims, held) {
      var i :| 0 <= i < |claims| && OnHardware(claims, held, i);
      assert claims[i] in claims;
    }
    if g :| g in PinsOf(claims) && held(g).Some? {
      var c :| c in claims && c.changing && c.gpio >= 0 && c.gpio == g;
      var i :| 0 <= i < |claims| && claims[i] == c;
      assert OnHardware(claims, held, i);
    }
  }

  function NothingThere(): int -> Option<string> {
    _ => None
  }

  function OnlyThere(pin: int): int -> Option<string> {
    g => if g == pin then Some("held") else None
  }

  ghost predicate SameOnEveryBoard(a: seq<Claim>, b: seq<Claim>) {
    forall held: int -> Option<string> :: AnyConflict(a, held) <==> AnyConflict(b, held)
  }

  lemma SameOnEveryBoardExactly(a: seq<Claim>, b: seq<Claim>)
    ensures SameOnEveryBoard(a, b) <==>
              (AnyClash(a) <==> AnyClash(b)) && (AnyClash(a) || PinsOf(a) == PinsOf(b))
  {
    if (AnyClash(a) <==> AnyClash(b)) && (AnyClash(a) || PinsOf(a) == PinsOf(b)) {
      forall held: int -> Option<string> ensures AnyConflict(a, held) <==> AnyConflict(b, held) {
        HardwareIsPins(a, held);
        HardwareIsPins(b, held);
      }
    } else if AnyClash(a) != AnyClash(b) {
      HardwareIsPins(a, NothingThere());
      HardwareIsPins(b, NothingThere());
      assert AnyConflict(a, NothingThere()) != AnyConflict(b, NothingThere());
    } else {
      var pin :| (pin in PinsOf(a)) != (pin in PinsOf(b));
      HardwareIsPins(a, OnlyThere(pin));
      HardwareIsPins(b, OnlyThere(pin));
      assert AnyConflict(a, OnlyThere(pin)) != AnyConflict(b, OnlyThere(pin));
    }
  }

  // On every board, accepted means sound and sound means accepted.
  ghost predicate RightOnEveryBoard(t: seq<Setting>, o: seq<Pair>, before: seq<Value>, after: seq<Value>)
    requires |before| == |t| == |after|
  {
    forall held: int -> Option<string> ::
      !AnyConflict(Claims(t, o, before, |t|), held) <==> NamedPinsSound(t, o, after, held)
  }

  /** For any request, whatever it names how often: the check is right on every
      board if and only if the claims it weighs and those of the last values both
      clash, or neither do and they put something on the same pins. */
  lemma PinCheckIsRightExactly(t: seq<Setting>, o: seq<Pair>, before: seq<Value>, after: seq<Value>)
    requires TableOk(t) && FirstError(t, o) == Ok && AllWanted(t, o, before, after)
    ensures var weighed, last := Claims(t, o, before, |t|), Claims(t, LastOnly(o), before, |t|);
            RightOnEveryBoard(t, o, before, after) <==>
              (AnyClash(weighed) <==> AnyClash(last)) && (AnyClash(weighed) || PinsOf(weighed) == PinsOf(last))
  {
    var weighed, last := Claims(t, o, before, |t|), Claims(t, LastOnly(o), before, |t|);
    forall held: int -> Option<string>
      ensures NamedPinsSound(t, o, after, held) <==> !AnyConflict(last, held)
    {
      LastDecides(t, o, before, after, held);
    }
    SameOnEveryBoardExactly(weighed, last);
    assert RightOnEveryBoard(t, o, before, after) <==> SameOnEveryBoard(weighed, last);
  }

  lemma LastDecides(t: seq<Setting>, o: seq<Pair>, before: seq<Value>, after: seq<Value>, held: int -> Option<string>)
    requires TableOk(t) && FirstError(t, o) == Ok && AllWanted(t, o, before, after)
    ensures NamedPinsSound(t, o, after, held) <==> !AnyConflict(Claims(t, LastOnly(o), before, |t|), held)
  {
    var q := LastOnly(o);
    forall key: string
      ensures Get(q, key) == Last(q, key) == Last(o, key) && (Get(q, key).Some? <==> Get(o, key).Some?)
    {
      LastOnlyIs(o, key);
      LastIsIn(o, key);
    }
    LastOnlyIs(o, "");
    assert FirstError(t, q) == Ok && AllWanted(t, q, before, after) && PinKeysAgree(t, q);
    PinCheckIsExact(t, q, before, after, held);
  }

  // ---- where it promises nothing ----

  function Pin(key: string, visible: Option<ShowIf>): Setting {
    Setting(key, Kind.Int, -1, 54, -1, "", 0, [], false, true, false, visible)
  }

  // Pins a and b, and a mode that shows b.
  function PinTable(): (t: seq<Setting>)
    ensures |t| == 3
  {
    [Pin("a", None), Pin("b", Some(ShowIf("mode", 1))),
     Setting("mode", Kind.Int, 0, 1, 0, "", 0, [], false, false, false, None)]
  }

  lemma PinTableIsOk()
    ensures TableOk(PinTable())
    ensures FindIndex(PinTable(), "a") == 0 && FindIndex(PinTable(), "b") == 1 && FindIndex(PinTable(), "mode") == 2
  {
    var t := PinTable();
    assert "a" != "b" && "a" != "mode" && "b" != "mode";
    assert t[1..][0] == t[1] && t[1..][1..][0] == t[2];
    assert FindIndex(t[1..][1..], "mode") == 0 && FindIndex(t[1..], "mode") == 1;
    assert FindIndex(t[1..], "b") == 0;
    assert PinRows(t, 1) == 1 && PinRows(t, 2) == 2 && PinRows(t, 3) == 2;
    assert RowOk(t, 0) && RowOk(t, 1) && RowOk(t, 2);
    assert RowsOk(t, 0) && RowsOk(t, 1) && RowsOk(t, 2) && RowsOk(t, 3);
  }

  /** A request that only shows a pin can reveal a clash that was stored: neither
      claim is being made now. */
  lemma ShowingRevealsAClash(held: int -> Option<string>)
    ensures exists t: seq<Setting>, o: seq<Pair>, before: seq<Value>, after: seq<Value> ::
              && TableOk(t) && NoRepeats(o) && FirstError(t, o) == Ok && AllWanted(t, o, before, after)
              && !AnyConflict(Claims(t, o, before, |t|), held)
              && |t| == 3 && t[0].pin && t[1].pin && Visible(t, after, 0) && Visible(t, after, 1)
              && after[0] == after[1] == Number(5) && !SharedBusLine(t[0].key, t[1].key)
  {
    var t, o := PinTable(), [Pair("mode", Num(1))];
    var before, after := [Number(5), Number(5), Number(0)], [Number(5), Number(5), Number(1)];
    PinTableIsOk();
    assert o[1..] == [];
    AbsentKey(o, "a");
    AbsentKey(o, "b");
    assert Last(o, "mode") == Some(Num(1));
    assert FirstError(t, []) == Ok;
    assert NoRepeats(o) by {
      forall key: string ensures Count(o, key) <= 1 {
        assert Count(o[1..], key) == 0;
      }
    }
    var claims := Claims(t, o, before, 3);
    assert claims == Claims(t, o, before, 2);
    assert Claims(t, o, before, 1) == [Claim("a", 5, false)];
    assert claims == [Claim("a", 5, false), Claim("b", 5, false)];
    OnlyChangesAreRefused(claims, held);
    assert AllWanted(t, o, before, after);
  }

  /** A pin named twice is weighed by its first value and set to its last. */
  lemma PinNamedTwiceEscapes(held: int -> Option<string>)
    requires held(7) == None
    ensures exists t: seq<Setting>, o: seq<Pair>, before: seq<Value>, after: seq<Value> ::
              && TableOk(t) && FirstError(t, o) == Ok && AllWanted(t, o, before, after)
              && !AnyConflict(Claims(t, o, before, |t|), held)
              && |t| == 3 && t[0].pin && t[1].pin && Visible(t, after, 0) && Visible(t, after, 1)
              && Get(o, t[0].key).Some? && after[0] == after[1] && !SharedBusLine(t[0].key, t[1].key)
  {
    var t, o := PinTable(), [Pair("a", Num(7)), Pair("a", Num(5))];
    var before, after := [Number(9), Number(5), Number(1)], [Number(5), Number(5), Number(1)];
    PinTableIsOk();
    assert o[1..] == [Pair("a", Num(5))] && o[1..][1..] == [];
    assert Get(o, "a") == Some(Num(7)) && Last(o[1..], "a") == Some(Num(5));
    AbsentKey(o, "b");
    AbsentKey(o, "mode");
    assert FirstError(t, o[1..][1..]) == Ok && FirstError(t, o[1..]) == Ok;
    var claims := Claims(t, o, before, 3);
    assert claims == Claims(t, o, before, 2);
    assert Claims(t, o, before, 1) == [Claim("a", 7, true)];
    assert claims == [Claim("a", 7, true), Claim("b", 5, false)];
    assert AllWanted(t, o, before, after);
  }

  // Both pins named twice, the second time the other way round.
  function SwappedBody(): (o: seq<Pair>)
    ensures |o| == 5
  {
    [Pair("a", Num(7)), Pair("a", Num(5)), Pair("b", Num(5)), Pair("b", Num(7)), Pair("mode", Num(1))]
  }

  // What is left of it at the last values.
  function Swapped(): (o: seq<Pair>)
    ensures |o| == 3
  {
    [Pair("a", Num(5)), Pair("b", Num(7)), Pair("mode", Num(1))]
  }

  lemma SwappedBodyReads()
    ensures var o := SwappedBody();
            Get(o, "a") == Some(Num(7)) && Get(o, "b") == Some(Num(5)) && Get(o, "mode") == Some(Num(1))
  {
    var o := SwappedBody();
    var o1, o2, o3, o4 := o[1..], o[2..], o[3..], o[4..];
    assert o1[1..] == o2 && o2[1..] == o3 && o3[1..] == o4;
    assert Get(o2, "b") == Some(Num(5)) && Get(o1, "b") == Some(Num(5));
    assert Get(o4, "mode") == Some(Num(1)) && Get(o3, "mode") == Some(Num(1)) && Get(o2, "mode") == Some(Num(1));
  }

  lemma SwappedBodyLasts()
    ensures LastOnly(SwappedBody()) == Swapped()
  {
    var o := SwappedBody();
    var o1, o2, o3, o4 := o[1..], o[2..], o[3..], o[4..];
    assert o1[1..] == o2 && o2[1..] == o3 && o3[1..] == o4 && o4[1..] == [];
    assert Last(o4, "a") == None && Last(o3, "a") == None && Last(o2, "a") == None && Last(o1, "a").Some?;
    assert Last(o4, "b") == None && Last(o3, "b").Some?;
    assert LastOnly(o4) == [o[4]] && LastOnly(o3) == [o[3], o[4]] && LastOnly(o2) == [o[3], o[4]];
    assert LastOnly(o1) == [o[1], o[3], o[4]];
  }

  lemma SwappedReads()
    ensures var q := Swapped();
            Get(q, "a") == Some(Num(5)) && Get(q, "b") == Some(Num(7)) && Get(q, "mode") == Some(Num(1))
  {
    var q := Swapped();
    assert q[1..][0] == q[1] && q[1..][1..][0] == q[2];
  }

  lemma SwappedBodyIsWellTyped()
    ensures FirstError(PinTable(), SwappedBody()) == Ok
  {
    var t, o := PinTable(), SwappedBody();
    PinTableIsOk();
    assert forall i | 0 <= i < |o| :: ItemError(t, o[i]) == Ok;
    var o1, o2, o3 := o[1..], o[2..], o[3..];
    assert o1[1..] == o2 && o2[1..] == o3 && o3[1..] == o[4..] && o[4..][1..] == [];
    assert FirstError(t, o[4..]) == Ok && FirstError(t, o3) == Ok && FirstError(t, o2) == Ok;
  }

  lemma BothClaimed(o: seq<Pair>, before: seq<Value>, x: int, y: int)
    requires |before| == 3 && 0 <= x && 0 <= y && x != y
    requires Get(o, "a") == Some(Num(x)) && Get(o, "b") == Some(Num(y)) && Get(o, "mode") == Some(Num(1))
    ensures var claims := Claims(PinTable(), o, before, 3); PinsOf(claims) == {x, y} && !AnyClash(claims)
  {
    var t := PinTable();
    PinTableIsOk();
    assert Claims(t, o, before, 1) == [Claim("a", x, true)];
    assert Claims(t, o, before, 2) == [Claim("a", x, true), Claim("b", y, true)];
    var claims := Claims(t, o, before, 3);
    assert claims == [Claim("a", x, true), Claim("b", y, true)];
    assert claims[0] in claims && claims[1] in claims;
  }

  /** That no key reads two ways is enough and not needed: a request that swaps
      two pins is weighed rightly whatever is stored and on every board. */
  lemma SwappedPinsAreWeighedRightly(before: seq<Value>, after: seq<Value>)
    requires AllWanted(PinTable(), SwappedBody(), before, after)
    ensures !PinKeysAgree(PinTable(), SwappedBody())
    ensures RightOnEveryBoard(PinTable(), SwappedBody(), before, after)
  {
    var t, o := PinTable(), SwappedBody();
    PinTableIsOk();
    SwappedBodyReads();
    SwappedBodyLasts();
    SwappedReads();
    SwappedBodyIsWellTyped();
    LastOnlyIs(o, "a");
    assert !Agrees(o, t[0].key);
    BothClaimed(o, before, 7, 5);
    BothClaimed(Swapped(), before, 5, 7);
    PinCheckIsRightExactly(t, o, before, after);
  }
}
