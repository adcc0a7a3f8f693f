// Which device profile fits the attached device. Models
// components/kvm_config/profile_match.c.

module ProfileMatch {

  // "" means any in a rule, and not known in what is seen.
  datatype Rule = Rule(cecName: string, cecVendor: string, usbOs: string)

  datatype Seen = Seen(cecName: string, cecVendor: string, usbOs: string)

  function Lower(c: char): char {
    if 'A' <= c <= 'Z' then (c as int + 32) as char else c
  }

  predicate StartsWithNoCase(s: string, prefix: string) {
    |prefix| <= |s| && forall i | 0 <= i < |prefix| :: Lower(s[i]) == Lower(prefix[i])
  }

  predicate SameNoCase(a: string, b: string) {
    |a| == |b| && StartsWithNoCase(a, b)
  }

  method Same(a: string, b: string) returns (r: bool)
    ensures r <==> SameNoCase(a, b)
  {
    var i := 0;
    while i < |a| && i < |b|
      invariant i <= |a| && i <= |b|
      invariant forall k | 0 <= k < i :: Lower(a[k]) == Lower(b[k])
    {
      if Lower(a[i]) != Lower(b[i]) {
        return false;
      }
      i := i + 1;
    }
    return i == |a| && i == |b|;
  }

  method StartsWith(s: string, prefix: string) returns (r: bool)
    ensures r <==> StartsWithNoCase(s, prefix)
  {
    var i := 0;
    while i < |prefix|
      invariant i <= |prefix| && i <= |s|
      invariant forall k | 0 <= k < i :: Lower(s[k]) == Lower(prefix[k])
    {
      if i == |s| || Lower(s[i]) != Lower(prefix[i]) {
        return false;
      }
      i := i + 1;
    }
    return true;
  }

  predicate CecFits(r: Rule, s: Seen) {
    || (r.cecName != "" && s.cecName != "" && StartsWithNoCase(s.cecName, r.cecName))
    || (r.cecVendor != "" && s.cecVendor != "" && SameNoCase(s.cecVendor, r.cecVendor))
  }

  predicate OsFits(r: Rule, s: Seen) {
    s.usbOs != "" && SameNoCase(s.usbOs, r.usbOs)
  }

  predicate AsksCec(r: Rule) {
    r.cecName != "" || r.cecVendor != ""
  }

  // Every part the rule asks for fits, and it asks for something.
  predicate Fits(r: Rule, s: Seen) {
    && (AsksCec(r) ==> CecFits(r, s))
    && (r.usbOs != "" ==> OsFits(r, s))
    && (AsksCec(r) || r.usbOs != "")
  }

  // ---- what fits, letter by letter ----

  // The same letter, in either case.
  predicate Alike(a: char, b: char) {
    || a == b
    || ('A' <= a <= 'Z' && b as int == a as int + 32)
    || ('A' <= b <= 'Z' && a as int == b as int + 32)
  }

  predicate Begins(s: string, prefix: string) {
    |prefix| <= |s| && forall i | 0 <= i < |prefix| :: Alike(s[i], prefix[i])
  }

  lemma LowerIsAlike(a: char, b: char)
    ensures Lower(a) == Lower(b) <==> Alike(a, b)
  {
  }

  lemma StartsIsBegins(s: string, prefix: string)
    ensures StartsWithNoCase(s, prefix) <==> Begins(s, prefix)
  {
    forall a: char, b: char ensures Lower(a) == Lower(b) <==> Alike(a, b) {
      LowerIsAlike(a, b);
    }
  }

  // The name begins as asked, or the vendor is the one asked for; each only
  // counts if it is asked for.
  predicate CecIsAsAsked(r: Rule, s: Seen) {
    || (r.cecName != "" && Begins(s.cecName, r.cecName))
    || (r.cecVendor != "" && |s.cecVendor| == |r.cecVendor| && Begins(s.cecVendor, r.cecVendor))
  }

  predicate OsIsAsAsked(r: Rule, s: Seen) {
    |s.usbOs| == |r.usbOs| && Begins(s.usbOs, r.usbOs)
  }

  /** A rule fits exactly if it asks for something, and name or vendor, if either is
      asked for, and system, if asked for, are as asked; letters in either case. */
  lemma FitsExactly(r: Rule, s: Seen)
    ensures Fits(r, s) <==>
              && (r.cecName != "" || r.cecVendor != "" || r.usbOs != "")
              && (r.cecName != "" || r.cecVendor != "" ==> CecIsAsAsked(r, s))
              && (r.usbOs != "" ==> OsIsAsAsked(r, s))
    ensures Fits(r, s) ==>
              Score(r, s) == (if r.cecName == "" && r.cecVendor == "" then 0 else 2) + (if r.usbOs == "" then 0 else 1)
    ensures !Fits(r, s) ==> Score(r, s) == -1
  {
    StartsIsBegins(s.cecName, r.cecName);
    StartsIsBegins(s.cecVendor, r.cecVendor);
    StartsIsBegins(s.usbOs, r.usbOs);
  }

  function Score(r: Rule, s: Seen): (n: int)
    ensures n >= 0 <==> Fits(r, s)
    ensures Fits(r, s) ==> n == (if AsksCec(r) then 2 else 0) + (if r.usbOs != "" then 1 else 0)
  {
    if AsksCec(r) && !CecFits(r, s) then -1
    else
      var cec := if AsksCec(r) then 2 else 0;
      if r.usbOs != "" then
        if !OsFits(r, s) then -1 else cec + 1
      else if cec > 0 then cec else -1
  }

  method RuleScore(r: Rule, s: Seen) returns (score: int)
    ensures score == Score(r, s)
  {
    score := 0;
    if r.cecName != "" || r.cecVendor != "" {
      var nameOk := r.cecName != "" && s.cecName != "";
      if nameOk {
        nameOk := StartsWith(s.cecName, r.cecName);
      }
      var vendorOk := r.cecVendor != "" && s.cecVendor != "";
      if vendorOk {
        vendorOk := Same(s.cecVendor, r.cecVendor);
      }
      if !nameOk && !vendorOk {
        return -1;
      }
      score := score + 2;
    }
    if r.usbOs != "" {
      var osOk := s.usbOs != "";
      if osOk {
        osOk := Same(s.usbOs, r.usbOs);
      }
      if !osOk {
        return -1;
      }
      score := score + 1;
    }
    return if score > 0 then score else -1;
  }

  // The best rule that fits, the first of equals.
  predicate IsPick(rules: seq<Rule>, s: Seen, best: int) {
    && -1 <= best < |rules|
    && (best == -1 <==> forall i | 0 <= i < |rules| :: !Fits(rules[i], s))
    && (best >= 0 ==>
          && Fits(rules[best], s)
          && (forall i | 0 <= i < |rules| :: Score(rules[i], s) <= Score(rules[best], s))
          && (forall i | 0 <= i < best :: Score(rules[i], s) < Score(rules[best], s)))
  }

  function Pick(rules: seq<Rule>, s: Seen): (best: int)
    ensures -1 <= best < |rules|
  {
    if rules == [] then -1
    else
      var n := |rules| - 1;
      var best := Pick(rules[..n], s);
      if Score(rules[n], s) > (if best < 0 then -1 else Score(rules[best], s)) then n else best
  }

  lemma {:induction false} PickIsBest(rules: seq<Rule>, s: Seen)
    ensures IsPick(rules, s, Pick(rules, s))
  {
    if rules != [] {
      var n := |rules| - 1;
      PickIsBest(rules[..n], s);
      var best := Pick(rules[..n], s);
      assert forall i | 0 <= i < n :: rules[..n][i] == rules[i];
    }
  }

  method PickRule(rules: seq<Rule>, s: Seen) returns (best: int)
    ensures best == Pick(rules, s) && IsPick(rules, s, best)
  {
    best := -1;
    var bestScore := -1;
    assert rules[..0] == [];
    for i := 0 to |rules|
      invariant best == Pick(rules[..i], s)
      invariant bestScore == if best < 0 then -1 else Score(rules[best], s)
    {
      assert rules[..i + 1][..i] == rules[..i];
      var sc := RuleScore(rules[i], s);
      if sc > bestScore {
        best := i;
        bestScore := sc;
      }
    }
    assert rules[..|rules|] == rules;
    PickIsBest(rules, s);
  }
}
