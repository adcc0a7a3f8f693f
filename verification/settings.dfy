// Settings, device profiles over them, and the API calls that change them,
// without any cache: what is in effect is looked up. Models
// components/kvm_config/kvm_settings.c and kvm_profiles.c.

module DeviceSettings {
  import opened Options

  datatype Kind = Bool | Int | Enum | Str

  // A setting that counts only while another has a value.
  datatype ShowIf = ShowIf(key: string, eq: int)

  datatype Setting = Setting(key: string, kind: Kind, min: int, max: int, def: int, defStr: string, maxLen: nat,
                             choices: seq<string>, reboot: bool, pin: bool, perProfile: bool,
                             visible: Option<ShowIf>)

  datatype Value = Number(n: int) | Text(s: string)

  // Parsed JSON. A number stands for its 32-bit integer part; an object keeps
  // its members in order and may name one twice.
  datatype Json =
    | Null
    | Flag(b: bool)
    | Num(n: int)
    | Str(s: string)
    | List(items: seq<Json>)
    | Object(members: seq<Pair>)

  datatype Pair = Pair(key: string, value: Json)

  datatype Err = Ok | InvalidArg | InvalidSize | NotFound | NotAllowed | NoMem

  const MAX_PROFILES := 8
  const MAX_PIN_CLAIMS := 32
  const NAME_LEN := 31

  // ---- the table ----

  predicate Numeric(d: Setting) {
    d.kind != Kind.Str
  }

  function Least(d: Setting): int {
    if d.kind == Bool then 0 else d.min
  }

  function Greatest(d: Setting): int {
    if d.kind == Bool then 1 else d.max
  }

  predicate InRange(d: Setting, v: Value) {
    if Numeric(d) then v.Number? && Least(d) <= v.n <= Greatest(d) else v.Text? && |v.s| <= d.maxLen
  }

  // A number, or a truth value as 1 or 0, within what the table says.
  predicate NumberFits(d: Setting, n: int) {
    match d.kind
    case Bool => n == 0 || n == 1
    case Int => d.min <= n <= d.max
    case Enum => d.min <= n <= d.max
    case Str => false
  }

  predicate TextFits(d: Setting, s: string) {
    d.kind == Kind.Str && |s| <= d.maxLen
  }

  /** What is in range is what the table's row says, kind by kind. */
  lemma RangeIsTheRows(d: Setting, v: Value)
    ensures InRange(d, v) <==> match v { case Number(n) => NumberFits(d, n) case Text(s) => TextFits(d, s) }
  {
  }

  function DefaultOf(d: Setting): Value {
    if Numeric(d) then Number(d.def) else Text(d.defStr)
  }

  function FindIndex(t: seq<Setting>, key: string): (i: int)
    ensures -1 <= i < |t|
    ensures i >= 0 ==> t[i].key == key
    ensures i < 0 ==> forall k | 0 <= k < |t| :: t[k].key != key
  {
    if t == [] then -1
    else if t[0].key == key then 0
    else
      var i := FindIndex(t[1..], key);
      if i < 0 then -1 else i + 1
  }

  predicate TableOk(t: seq<Setting>) {
    RowsOk(t, |t|) && PinRows(t, |t|) <= MAX_PIN_CLAIMS
  }

  predicate RowsOk(t: seq<Setting>, n: nat)
    requires n <= |t|
  {
    n > 0 ==> RowOk(t, n - 1) && RowsOk(t, n - 1)
  }

  predicate RowOk(t: seq<Setting>, i: nat)
    requires i < |t|
  {
    && FindIndex(t, t[i].key) == i
    && InRange(t[i], DefaultOf(t[i]))
    && (t[i].kind == Enum && t[i].choices != [] ==> t[i].max < |t[i].choices|)
    && (t[i].pin ==> Numeric(t[i]))
    && (t[i].visible.Some? ==>
          var k := FindIndex(t, t[i].visible.value.key); k >= 0 ==> Numeric(t[k]))
  }

  lemma {:induction false} EveryRowIsOk(t: seq<Setting>, n: nat)
    requires n <= |t| && RowsOk(t, n)
    ensures forall i | 0 <= i < n :: RowOk(t, i)
  {
    if n > 0 {
      EveryRowIsOk(t, n - 1);
    }
  }

  lemma KeysDiffer(t: seq<Setting>, i: nat, j: nat)
    requires TableOk(t) && i < |t| && j < |t| && i != j
    ensures t[i].key != t[j].key
  {
    EveryRowIsOk(t, |t|);
    assert RowOk(t, i) && RowOk(t, j);
  }

  function PinRows(t: seq<Setting>, n: nat): nat
    requires n <= |t|
  {
    if n == 0 then 0 else PinRows(t, n - 1) + if t[n - 1].pin then 1 else 0
  }

  // ---- objects ----

  // The first member so named.
  function Get(o: seq<Pair>, key: string): Option<Json> {
    if o == [] then None else if o[0].key == key then Some(o[0].value) else Get(o[1..], key)
  }

  function GetIn(j: Json, key: string): Option<Json> {
    if j.Object? then Get(j.members, key) else None
  }

  // Without the first member so named.
  function Drop(o: seq<Pair>, key: string): seq<Pair> {
    if o == [] then [] else if o[0].key == key then o[1..] else [o[0]] + Drop(o[1..], key)
  }

  function Store(o: seq<Pair>, key: string, j: Json): seq<Pair> {
    Drop(o, key) + [Pair(key, j)]
  }

  function Count(o: seq<Pair>, key: string): nat {
    if o == [] then 0 else (if o[0].key == key then 1 else 0) + Count(o[1..], key)
  }

  ghost predicate NoRepeats(o: seq<Pair>) {
    forall key: string :: Count(o, key) <= 1
  }

  lemma {:induction false} CountOfTwo(a: seq<Pair>, b: seq<Pair>, key: string)
    ensures Count(a + b, key) == Count(a, key) + Count(b, key)
  {
    if a == [] {
      assert a + b == b;
    } else {
      assert (a + b)[1..] == a[1..] + b;
      CountOfTwo(a[1..], b, key);
    }
  }

  lemma {:induction false} GetOfTwo(a: seq<Pair>, b: seq<Pair>, key: string)
    ensures Get(a + b, key) == if Get(a, key).Some? then Get(a, key) else Get(b, key)
  {
    if a == [] {
      assert a + b == b;
    } else {
      assert (a + b)[1..] == a[1..] + b;
      GetOfTwo(a[1..], b, key);
    }
  }

  lemma {:induction false} AbsentKey(o: seq<Pair>, key: string)
    requires forall p | p in o :: p.key != key
    ensures Get(o, key) == None && Last(o, key) == None
  {
    if o != [] {
      assert o[0] in o;
      AbsentKey(o[1..], key);
    }
  }

  lemma {:induction false} CountIsGet(o: seq<Pair>, key: string)
    ensures Count(o, key) == 0 <==> Get(o, key) == None
  {
    if o != [] {
      CountIsGet(o[1..], key);
    }
  }

  lemma {:induction false} CountOfDrop(o: seq<Pair>, key: string, k: string)
    ensures Count(Drop(o, key), k) == if k == key && Count(o, k) > 0 then Count(o, k) - 1 else Count(o, k)
  {
    if o != [] && o[0].key != key {
      CountOfDrop(o[1..], key, k);
      assert ([o[0]] + Drop(o[1..], key))[1..] == Drop(o[1..], key);
    }
  }

  lemma {:induction false} GetOfDrop(o: seq<Pair>, key: string, k: string)
    ensures k != key ==> Get(Drop(o, key), k) == Get(o, k)
    ensures k == key && Count(o, key) <= 1 ==> Get(Drop(o, key), k) == None
  {
    if k == key {
      CountOfDrop(o, key, key);
      CountIsGet(Drop(o, key), key);
    } else if o != [] && o[0].key != key {
      GetOfDrop(o[1..], key, k);
      assert ([o[0]] + Drop(o[1..], key))[1..] == Drop(o[1..], key);
    }
  }

  lemma StoreKeepsOthers(o: seq<Pair>, key: string, j: Json, k: string)
    ensures k != key ==> Get(Store(o, key, j), k) == Get(o, k)
    ensures Count(Store(o, key, j), k) == if k == key && Count(o, k) == 0 then 1 else Count(o, k)
  {
    GetOfTwo(Drop(o, key), [Pair(key, j)], k);
    GetOfDrop(o, key, k);
    CountOfTwo(Drop(o, key), [Pair(key, j)], k);
    CountOfDrop(o, key, k);
    assert [Pair(key, j)][1..] == [];
  }

  /** Storing a value makes it the one looked up, whatever the value, exactly
      when the object does not name the key twice. */
  lemma StoredValueIsLookedUp(o: seq<Pair>, key: string)
    ensures (forall j :: Get(Store(o, key, j), key) == Some(j)) <==> Count(o, key) <= 1
  {
    CountOfDrop(o, key, key);
    CountIsGet(Drop(o, key), key);
    forall j ensures Get(Store(o, key, j), key) ==
                       if Count(o, key) <= 1 then Some(j) else Get(Drop(o, key), key)
    {
      GetOfTwo(Drop(o, key), [Pair(key, j)], key);
    }
    if Count(o, key) > 1 {
      var hidden := Get(Drop(o, key), key);
      var other := if hidden == Some(Null) then Flag(true) else Null;
      assert Get(Store(o, key, other), key) == hidden;
    }
  }

  // ---- values of a profile ----

  // The value a profile keeps for d, when it fits as it is stored.
  predicate StoredOk(d: Setting, j: Json) {
    if Numeric(d) then j.Num? && Least(d) <= j.n <= Greatest(d) else j.Str? && |j.s| <= d.maxLen
  }

  function ValueOf(j: Json): Value
    requires j.Num? || j.Str?
  {
    if j.Num? then Number(j.n) else Text(j.s)
  }

  function Kept(v: Value): Json {
    if v.Number? then Num(v.n) else Json.Str(v.s)
  }

  lemma KeptIsStored(d: Setting, v: Value)
    requires InRange(d, v)
    ensures StoredOk(d, Kept(v)) && ValueOf(Kept(v)) == v
  {
  }

  function ChoiceIndex(choices: seq<string>, max: int, s: string, from: nat): (c: int)
    ensures c >= 0 ==> from <= c <= max && c < |choices| && choices[c] == s
    decreases |choices| - from
  {
    if from > max || from >= |choices| then -1
    else if choices[from] == s then from
    else ChoiceIndex(choices, max, s, from + 1)
  }

  // What j is for setting d, before the check.
  function Taken(d: Setting, j: Json): Json {
    if !Numeric(d) then (if j.Str? then j else Null)
    else if j.Flag? then Num(if j.b then 1 else 0)
    else if j.Num? then j
    else if j.Str? && d.kind == Enum then
      var c := ChoiceIndex(d.choices, d.max, j.s, 0);
      if c >= 0 then Num(c) else Null
    else Null
  }

  // The value as a profile stores it; None when the key or the value is not one
  // a profile may have.
  function ProfileValue(t: seq<Setting>, key: string, j: Json): (r: Option<Json>)
    ensures r.Some? ==> var i := FindIndex(t, key); i >= 0 && t[i].perProfile && StoredOk(t[i], r.value)
  {
    var i := FindIndex(t, key);
    if i < 0 || !t[i].perProfile || !StoredOk(t[i], Taken(t[i], j)) then None else Some(Taken(t[i], j))
  }

  // What a profile may be given for setting d, and what it keeps of it.
  ghost predicate TakenAs(d: Setting, j: Json, w: Json) {
    match j
    case Flag(b) => NumberFits(d, if b then 1 else 0) && w == Num(if b then 1 else 0)
    case Num(n) => NumberFits(d, n) && w == Num(n)
    case Str(s) =>
      || (TextFits(d, s) && w == Json.Str(s))
      || (d.kind == Enum && exists c :: FirstChoice(d, s, c) && NumberFits(d, c) && w == Num(c))
    case _ => false
  }

  predicate FirstChoice(d: Setting, s: string, c: int) {
    && 0 <= c < |d.choices| && c <= d.max && d.choices[c] == s
    && forall k | 0 <= k < c :: d.choices[k] != s
  }

  lemma {:induction false} ChoiceIndexIsFirst(choices: seq<string>, max: int, s: string, from: nat, c: int)
    requires from <= c < |choices| && c <= max && choices[c] == s && forall k | from <= k < c :: choices[k] != s
    ensures ChoiceIndex(choices, max, s, from) == c
    decreases c - from
  {
    if from < c {
      ChoiceIndexIsFirst(choices, max, s, from + 1, c);
    }
  }

  lemma {:induction false} ChoiceIndexFinds(choices: seq<string>, max: int, s: string, from: nat)
    ensures var c := ChoiceIndex(choices, max, s, from);
            c >= 0 ==> forall k | from <= k < c :: choices[k] != s
    decreases |choices| - from
  {
    if from <= max && from < |choices| && choices[from] != s {
      ChoiceIndexFinds(choices, max, s, from + 1);
    }
  }

  /** A profile takes a value exactly if the key is one that may differ by profile
      and the value is of its kind and fits: a flag as 1 or 0, a number and a text
      as they are, the name of a choice as its place. */
  lemma ProfileTakesExactly(t: seq<Setting>, key: string, j: Json, w: Json)
    requires TableOk(t)
    ensures ProfileValue(t, key, j) == Some(w) <==>
              exists i :: 0 <= i < |t| && t[i].key == key && t[i].perProfile && TakenAs(t[i], j, w)
  {
    var i := FindIndex(t, key);
    forall k | 0 <= k < |t| && t[k].key == key ensures k == i {
      if k != i {
        KeysDiffer(t, i, k);
      }
    }
    if i >= 0 && j.Str? && t[i].kind == Enum {
      ChoiceIndexFinds(t[i].choices, t[i].max, j.s, 0);
      if c :| FirstChoice(t[i], j.s, c) {
        ChoiceIndexIsFirst(t[i].choices, t[i].max, j.s, 0, c);
      }
    }
  }

  // ---- merging ----

  // src checked, without its nulls; None when a value does not pass.
  function Checked(t: seq<Setting>, src: seq<Pair>): Option<seq<Pair>> {
    if src == [] then Some([])
    else
      var more := Checked(t, src[1..]);
      if src[0].value.Null? then more
      else
        var v := ProfileValue(t, src[0].key, src[0].value);
        if v.None? || more.None? then None else Some([Pair(src[0].key, v.value)] + more.value)
  }

  function DropAll(o: seq<Pair>, keys: seq<Pair>): seq<Pair>
    decreases keys
  {
    if keys == [] then o else DropAll(Drop(o, keys[0].key), keys[1..])
  }

  // src over dst: a null drops the key. None is refused.
  function Merged(t: seq<Setting>, dst: seq<Pair>, src: Json): Option<seq<Pair>> {
    if !src.Object? then None
    else
      var c := Checked(t, src.members);
      if c.None? then None else Some(DropAll(dst, src.members) + c.value)
  }

  // Each of extra put into o, the later over the earlier.
  function Overlaid(o: seq<Pair>, extra: seq<Pair>): seq<Pair>
    decreases extra
  {
    if extra == [] then o else Overlaid(Store(o, extra[0].key, extra[0].value), extra[1..])
  }

  lemma {:induction false} CountOfDropAll(o: seq<Pair>, keys: seq<Pair>, k: string)
    ensures var n := Count(keys, k);
            Count(DropAll(o, keys), k) == if Count(o, k) > n then Count(o, k) - n else 0
    decreases keys
  {
    if keys != [] {
      CountOfDrop(o, keys[0].key, k);
      CountOfDropAll(Drop(o, keys[0].key), keys[1..], k);
    }
  }

  lemma {:induction false} GetOfDropAll(o: seq<Pair>, keys: seq<Pair>, k: string)
    ensures Count(keys, k) == 0 ==> Get(DropAll(o, keys), k) == Get(o, k)
    decreases keys
  {
    if keys != [] {
      GetOfDrop(o, keys[0].key, k);
      GetOfDropAll(Drop(o, keys[0].key), keys[1..], k);
    }
  }

  // The first value of a key that is not null.
  function FirstSet(src: seq<Pair>, key: string): Option<Json> {
    if src == [] then None
    else if src[0].key == key && !src[0].value.Null? then Some(src[0].value)
    else FirstSet(src[1..], key)
  }

  function SetCount(src: seq<Pair>, key: string): nat {
    if src == [] then 0
    else (if src[0].key == key && !src[0].value.Null? then 1 else 0) + SetCount(src[1..], key)
  }

  ghost predicate SetsOnce(src: seq<Pair>) {
    forall key: string :: SetCount(src, key) <= 1
  }

  function ValueSet(t: seq<Setting>, j: Option<Json>, key: string): Option<Json> {
    if j.None? then None else ProfileValue(t, key, j.value)
  }

  lemma {:induction false} CheckedKeeps(t: seq<Setting>, src: seq<Pair>, key: string)
    requires Checked(t, src).Some?
    ensures var c := Checked(t, src).value;
            && Count(c, key) == SetCount(src, key) <= Count(src, key)
            && Get(c, key) == ValueSet(t, FirstSet(src, key), key)
            && (FirstSet(src, key).Some? ==> Get(c, key).Some?)
  {
    if src != [] {
      CheckedKeeps(t, src[1..], key);
      var c := Checked(t, src).value;
      if !src[0].value.Null? {
        assert c[1..] == Checked(t, src[1..]).value;
      }
    }
  }

  // The last value of a key that is not null.
  function LastSet(src: seq<Pair>, key: string): Option<Json> {
    if src == [] then None
    else if LastSet(src[1..], key).Some? then LastSet(src[1..], key)
    else if src[0].key == key && !src[0].value.Null? then Some(src[0].value) else None
  }

  lemma {:induction false} CheckedLast(t: seq<Setting>, src: seq<Pair>, key: string)
    requires Checked(t, src).Some?
    ensures Last(Checked(t, src).value, key) == ValueSet(t, LastSet(src, key), key)
    ensures LastSet(src, key).Some? ==> ValueSet(t, LastSet(src, key), key).Some?
  {
    if src != [] {
      CheckedLast(t, src[1..], key);
      if !src[0].value.Null? {
        assert Checked(t, src).value[1..] == Checked(t, src[1..]).value;
      }
    }
  }

  /** A merge gives a key its first value in src that is not null, drops a key
      that is only null there, and leaves the rest. */
  lemma MergeMeans(t: seq<Setting>, dst: seq<Pair>, src: Json, key: string)
    requires NoRepeats(dst) && Merged(t, dst, src).Some?
    ensures Get(Merged(t, dst, src).value, key) ==
              match FirstSet(src.members, key)
              case Some(j) => ProfileValue(t, key, j)
              case None => if Count(src.members, key) > 0 then None else Get(dst, key)
  {
    var c := Checked(t, src.members).value;
    CheckedKeeps(t, src.members, key);
    GetOfTwo(DropAll(dst, src.members), c, key);
    CountOfDropAll(dst, src.members, key);
    GetOfDropAll(dst, src.members, key);
    CountIsGet(DropAll(dst, src.members), key);
    CountIsGet(c, key);
    assert Count(dst, key) <= 1;
  }

  /** It leaves a key twice exactly when src gives it two values. */
  lemma MergeRepeats(t: seq<Setting>, dst: seq<Pair>, src: Json)
    requires NoRepeats(dst) && Merged(t, dst, src).Some?
    ensures NoRepeats(Merged(t, dst, src).value) <==> SetsOnce(src.members)
  {
    var m, c := Merged(t, dst, src).value, Checked(t, src.members).value;
    forall key: string ensures Count(dst, key) <= 1 && (Count(m, key) <= 1 <==> SetCount(src.members, key) <= 1) {
      CheckedKeeps(t, src.members, key);
      CountOfTwo(DropAll(dst, src.members), c, key);
      CountOfDropAll(dst, src.members, key);
      assert Count(dst, key) <= 1;
    }
    if SetsOnce(src.members) {
      forall key: string ensures Count(m, key) <= 1 {
        assert SetCount(src.members, key) <= 1;
      }
    } else {
      var key: string :| SetCount(src.members, key) > 1;
      assert Count(m, key) > 1;
      assert !NoRepeats(m);
    }
  }

  lemma {:induction false} OverlaidMeans(o: seq<Pair>, extra: seq<Pair>, key: string)
    requires NoRepeats(o)
    ensures NoRepeats(Overlaid(o, extra))
    ensures Get(Overlaid(o, extra), key) == if Last(extra, key).Some? then Last(extra, key) else Get(o, key)
    decreases extra
  {
    if extra != [] {
      var o' := Store(o, extra[0].key, extra[0].value);
      forall k ensures Count(o', k) <= 1 {
        StoreKeepsOthers(o, extra[0].key, extra[0].value, k);
        assert Count(o, k) <= 1;
      }
      OverlaidMeans(o', extra[1..], key);
      assert Count(o, extra[0].key) <= 1;
      StoredValueIsLookedUp(o, extra[0].key);
      StoreKeepsOthers(o, extra[0].key, extra[0].value, key);
    }
  }

  // The last member so named.
  function Last(o: seq<Pair>, key: string): Option<Json> {
    if o == [] then None
    else if Last(o[1..], key).Some? then Last(o[1..], key)
    else if o[0].key == key then Some(o[0].value) else None
  }
}
