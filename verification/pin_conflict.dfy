// Two things on one pin. Models components/kvm_config/pin_conflict.c.

module PinConflict {
  import opened Options

  // One setting's claim on a pin; negative means unassigned.
  datatype Claim = Claim(key: string, gpio: int, changing: bool)

  datatype Conflict = Conflict(gpio: int, key: string, other: Option<string>, heldBy: Option<string>)

  // The lines two devices share by design.
  predicate SharedBusLine(a: string, b: string) {
    || (a == "disp_sda" && b == "rtc_sda") || (a == "rtc_sda" && b == "disp_sda")
    || (a == "disp_scl" && b == "rtc_scl") || (a == "rtc_scl" && b == "disp_scl")
  }

  /** The data lines of display and clock may be one, and so may their clock lines,
      and nothing else. */
  lemma SharedLinesAre(a: string, b: string)
    ensures SharedBusLine(a, b) <==> {a, b} == {"disp_sda", "rtc_sda"} || {a, b} == {"disp_scl", "rtc_scl"}
  {
    if {a, b} == {"disp_sda", "rtc_sda"} || {a, b} == {"disp_scl", "rtc_scl"} {
      assert a in {a, b} && b in {a, b};
      assert "disp_sda" != "rtc_sda" && "disp_scl" != "rtc_scl";
      assert "rtc_sda" in {"disp_sda", "rtc_sda"} && "rtc_scl" in {"disp_scl", "rtc_scl"};
      assert "disp_sda" in {"disp_sda", "rtc_sda"} && "disp_scl" in {"disp_scl", "rtc_scl"};
    }
  }

  lemma SharingIsMutual(a: string, b: string)
    ensures SharedBusLine(a, b) <==> SharedBusLine(b, a)
    ensures SharedBusLine(a, b) ==> a != b
  {
  }

  // The claim being made is on hardware that is always there.
  predicate OnHardware(claims: seq<Claim>, held: int -> Option<string>, i: nat)
    requires i < |claims|
  {
    claims[i].changing && claims[i].gpio >= 0 && held(claims[i].gpio).Some?
  }

  // Two claims on one pin, one of them being made now, not a shared line.
  predicate Clash(claims: seq<Claim>, i: nat, j: nat)
    requires i < |claims| && j < |claims|
  {
    && i != j
    && claims[i].gpio >= 0 && claims[i].gpio == claims[j].gpio
    && (claims[i].changing || claims[j].changing)
    && !SharedBusLine(claims[i].key, claims[j].key)
  }

  predicate AnyOnHardware(claims: seq<Claim>, held: int -> Option<string>) {
    exists i :: 0 <= i < |claims| && OnHardware(claims, held, i)
  }

  predicate AnyClash(claims: seq<Claim>) {
    exists i, j :: 0 <= i < |claims| && 0 <= j < |claims| && Clash(claims, i, j)
  }

  predicate AnyConflict(claims: seq<Claim>, held: int -> Option<string>) {
    AnyOnHardware(claims, held) || AnyClash(claims)
  }

  // What is reported is a conflict that is there, with the claim being made now
  // named first, and hardware before another setting.
  predicate Reports(c: Conflict, claims: seq<Claim>, held: int -> Option<string>) {
    if c.heldBy.Some? then
      c.other == None &&
      exists i :: 0 <= i < |claims| && OnHardware(claims, held, i)
                  && c.key == claims[i].key && c.gpio == claims[i].gpio && c.heldBy == held(c.gpio)
    else
      !AnyOnHardware(claims, held) &&
      exists i, j :: 0 <= i < |claims| && 0 <= j < |claims| && Clash(claims, i, j) && claims[i].changing
                     && c.key == claims[i].key && c.gpio == claims[i].gpio && c.other == Some(claims[j].key)
  }

  lemma ClashIsMutual(claims: seq<Claim>, i: nat, j: nat)
    requires i < |claims| && j < |claims|
    ensures Clash(claims, i, j) <==> Clash(claims, j, i)
  {
    SharingIsMutual(claims[i].key, claims[j].key);
  }

  method FindOnHardware(claims: seq<Claim>, held: int -> Option<string>) returns (c: Option<Conflict>)
    ensures c.Some? <==> AnyOnHardware(claims, held)
    ensures c.Some? ==> c.value.heldBy.Some? && Reports(c.value, claims, held)
  {
    for i := 0 to |claims|
      invariant forall k | 0 <= k < i :: !OnHardware(claims, held, k)
    {
      if !claims[i].changing || claims[i].gpio < 0 {
        continue;
      }
      var use := held(claims[i].gpio);
      if use.Some? {
        assert OnHardware(claims, held, i);
        return Some(Conflict(claims[i].gpio, claims[i].key, None, use));
      }
    }
    return None;
  }

  // The first clash of claim i with a later one.
  method FindClashWith(claims: seq<Claim>, i: nat) returns (c: Option<Conflict>, j: nat)
    requires i < |claims| && claims[i].gpio >= 0
    ensures c == None ==> forall k | i < k < |claims| :: !Clash(claims, i, k)
    ensures c.Some? ==>
              && i < j < |claims| && Clash(claims, i, j)
              && c.value.heldBy == None && c.value.gpio == claims[i].gpio
              && (if claims[j].changing
                  then c.value.key == claims[j].key && c.value.other == Some(claims[i].key)
                  else claims[i].changing && c.value.key == claims[i].key && c.value.other == Some(claims[j].key))
  {
    j := i + 1;
    while j < |claims|
      invariant i < j <= |claims|
      invariant forall k | i < k < j :: !Clash(claims, i, k)
    {
      if claims[j].gpio == claims[i].gpio && (claims[i].changing || claims[j].changing)
         && !SharedBusLine(claims[i].key, claims[j].key) {
        var mine := if claims[j].changing then j else i;
        var theirs := if mine == j then i else j;
        return Some(Conflict(claims[mine].gpio, claims[mine].key, Some(claims[theirs].key), None)), j;
      }
      j := j + 1;
    }
    return None, j;
  }

  /** A conflict is found exactly when there is one, and it is one that is there. */
  method FindConflict(claims: seq<Claim>, held: int -> Option<string>) returns (c: Option<Conflict>)
    ensures c.Some? <==> AnyConflict(claims, held)
    ensures c.Some? ==> Reports(c.value, claims, held)
  {
    c := FindOnHardware(claims, held);
    if c.Some? {
      return;
    }
    for i := 0 to |claims|
      invariant c == None
      invariant forall k, m | 0 <= k < i && k < m < |claims| :: !Clash(claims, k, m)
    {
      if claims[i].gpio < 0 {
        continue;
      }
      var found, j := FindClashWith(claims, i);
      if found.Some? {
        ClashIsMutual(claims, i, j);
        assert AnyClash(claims);
        return found;
      }
    }
    NoClashAtAll(claims);
  }

  lemma NoClashAtAll(claims: seq<Claim>)
    requires forall k, m | 0 <= k < |claims| && k < m < |claims| :: !Clash(claims, k, m)
    ensures !AnyClash(claims)
  {
    forall i, j | 0 <= i < |claims| && 0 <= j < |claims| ensures !Clash(claims, i, j) {
      if j < i {
        ClashIsMutual(claims, i, j);
      }
    }
  }

  /** A pair that is stored already does not refuse anything: what is not being
      changed cannot be the reason. */
  lemma OnlyChangesAreRefused(claims: seq<Claim>, held: int -> Option<string>)
    requires forall i | 0 <= i < |claims| :: !claims[i].changing
    ensures !AnyConflict(claims, held)
  {
  }
}
