// The task that picks the profile by itself, over the settings store. Models
// the loop of main/profile_auto.c; the wait of a second, what is attached and
// the uptime are its arguments, and a restart is its result.

module ProfileTask {
  import opened Options
  import opened ProfileMatch
  import opened DeviceSettings
  import opened DeviceProfiles
  import opened ProfileChoice
  import opened ProfileAuto
  import opened SettingsStore

  class Task {
    const store: Store
    var last: string
    var acted: string
    var still: nat
    var calmDone: bool
    var bootVals: seq<int>
    var bootProfile: nat

    ghost function A(): Auto
      reads this, store
    {
      Auto(store.M(), last, acted, still, calmDone, bootVals, bootProfile)
    }

    ghost predicate Ready()
      reads this, store
    {
      store.Sound()
    }

    // The boot values as readers see them, which a key held twice may keep from
    // what the profile says.
    ghost function Boots(): seq<int>
      reads this, store
      requires Ready()
    {
      SoundReads(store);
      BootRead(store.table, InEffect(store.values, store.over))
    }

    constructor (store: Store)
      requires store.Sound()
      ensures Ready() && this.store == store
      ensures A() == Auto(store.M(), "", "", 0, false, Boots(), store.active)
      ensures last == acted == "" && still == 0 && !calmDone && bootVals == Boots() && bootProfile == store.active
      ensures store.Agrees() ==> A() == Started(store.table, store.M())
    {
      this.store := store;
      last, acted, still, calmDone := "", "", 0, false;
      bootVals, bootProfile := [], 0;
      new;
      TakeBootValues();
      if store.Agrees() {
        BootsAgree(store);
      }
    }

    method ReadInt(key: string) returns (n: int)
      requires Ready()
      ensures AllInRange(store.table, InEffect(store.values, store.over))
      ensures n == IntRead(store.table, InEffect(store.values, store.over), key)
    {
      SoundReads(store);
      var i := FindIndex(store.table, key);
      if i < 0 || !Numeric(store.table[i]) {
        return 0;
      }
      return InEffect(store.values, store.over)[i].n;
    }

    method ReadBootValues() returns (vs: seq<int>)
      requires Ready()
      ensures vs == Boots()
    {
      vs := [];
      SoundReads(store);
      for i := 0 to |BOOT_KEYS|
        invariant |vs| == i
        invariant forall k | 0 <= k < i ::
                    vs[k] == IntRead(store.table, InEffect(store.values, store.over), BOOT_KEYS[k])
      {
        var n := ReadInt(BOOT_KEYS[i]);
        vs := vs + [n];
      }
    }

    method TakeBootValues()
      requires Ready()
      modifies this`bootVals, this`bootProfile
      ensures Ready() && bootVals == Boots() && bootProfile == store.active
    {
      bootVals := ReadBootValues();
      bootProfile := store.active;
    }

    method BootValuesMoved() returns (moved: bool)
      requires Ready()
      ensures moved <==> Boots() != bootVals
      ensures store.Agrees() ==> (moved <==> BootValues(store.table, store.M()) != bootVals)
    {
      var vs := ReadBootValues();
      if store.Agrees() {
        BootsAgree(store);
      }
      return vs != bootVals;
    }

    method AnyProfileThere() returns (any: bool)
      requires Ready()
      ensures any <==> AnyProfile(store.profiles)
    {
      for id := 1 to MAX_PROFILES + 1
        invariant forall k | 1 <= k < id :: !store.profiles[k].used
      {
        if store.profiles[id].used {
          return true;
        }
      }
      return false;
    }

    /** One second of the task, whatever readers see; where they see the profile's
        values, they still do. */
    method Second(s: Seen, up: nat) returns (restart: bool)
      requires Ready()
      modifies this, store
      ensures Ready() && Ticked(A(), restart) == Tick(Boots(), old(A()), s, up)
      ensures old(store.Agrees()) ==> store.Agrees()
    {
      ghost var a, id := A(), PickFor(store.profiles, s);
      if !calmDone && up >= CALM_UPTIME_S {
        store.UptimeOk();
        calmDone := true;
      }
      assert A() == Calmed(a, up);
      var any := AnyProfileThere();
      if !any {
        return false;
      }
      var go := Look(s);
      if !go {
        return false;
      }
      restart := Decide(up);
    }

    /** A restart: the store is read back from flash and the task starts anew. */
    method Restart()
      requires Ready()
      modifies this, store
      ensures Ready() && store.Agrees() && A() == Restarted(store.table, old(A()))
      ensures last == acted == "" && still == 0 && !calmDone && bootVals == Boots() && bootProfile == store.active
    {
      store.Boot();
      last, acted, still, calmDone := "", "", 0, false;
      TakeBootValues();
      BootsAgree(store);
    }

    // False when what is attached has just changed.
    method Look(s: Seen) returns (go: bool)
      requires Ready()
      modifies this`last, this`acted, this`still, store
      ensures Ready() && (old(store.Agrees()) ==> store.Agrees())
      ensures A() == Looked(old(A()), Fingerprint(s), PickFor(old(store.profiles), s))
      ensures go <==> Fingerprint(s) == old(last)
    {
      var fp := Fingerprint(s);
      store.NoteSeen(fp);
      assert A() == old(A()).(m := old(A()).m.(here := fp));
      if fp != last {
        last, still := fp, 0;
        return false;
      }
      still := still + 1;
      if fp != "" && still >= SETTLE_S && fp != acted {
        Settle(s, fp);
      }
      return true;
    }

    method Settle(s: Seen, fp: string)
      requires Ready()
      modifies this`acted, store
      ensures Ready() && (old(store.Agrees()) ==> store.Agrees())
      ensures var a := old(A());
              A() == a.(m := SettledTo(NewSource(a.m, fp), PickFor(a.m.profiles, s), fp), acted := fp)
    {
      acted := fp;
      var _ := store.DeviceSettled(s, fp);
    }

    method Decide(up: nat) returns (restart: bool)
      requires Ready()
      modifies this`bootVals, this`bootProfile, store`flash
      ensures Ready() && (old(store.Agrees()) ==> store.Agrees())
      ensures Ticked(A(), restart) == Decided(old(Boots()), old(A()), up) && Boots() == old(Boots())
    {
      if store.active == bootProfile {
        TakeBootValues();
      }
      var moved := BootValuesMoved();
      if still >= RESTART_STILL_S && up >= RESTART_UPTIME_S && !store.manual && moved {
        var allowed := store.RestartAllowed();
        if allowed {
          return true;
        }
        TakeBootValues();
      }
      return false;
    }
  }

  lemma SoundReads(store: Store)
    requires store.Sound()
    ensures AllInRange(store.table, InEffect(store.values, store.over))
  {
  }

  // Where readers see the profile's values, the boot values read are its own.
  lemma BootsAgree(store: Store)
    requires store.Agrees()
    ensures AllInRange(store.table, InEffect(store.values, store.over))
    ensures BootRead(store.table, InEffect(store.values, store.over)) == BootValues(store.table, store.M())
  {
    SoundReads(store);
    assert InEffect(store.values, store.over) == Values(store.table, store.M());
  }
}
