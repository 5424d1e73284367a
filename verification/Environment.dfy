/** A process's environment: 64 overlay slots over the built-in variables, and the save-and-restore of
    overrides around a command. */
module Environment {
  import opened Common

  const ENV_SLOTS := 64
  const KEY_MAX := 24
  const VALUE_MAX := 96
  const INPUT_MAX := 128

  /** A used slot shadows the built-in variable of its key; a deleted one hides it. */
  datatype EnvVar = EnvVar(used: bool, deleted: bool, key: string, value: string)

  function BuiltIn(key: string): Option<string> {
    match key
    case "PATH" => Some("programs")
    case "HOME" => Some("/")
    case "SHELL" => Some("rysh")
    case "USER" => Some("root")
    case "RYMOS_TARGET" => Some("x86_64-rymos")
    case "TMPDIR" => Some("pfs:tmp")
    case _ => None
  }

  predicate IsFor(v: EnvVar, key: string) {
    v.used && v.key == key
  }

  /** The first slot from `i` on used for the key. */
  function Find(env: seq<EnvVar>, key: string, i: nat): (r: nat)
    requires i <= |env|
    ensures i <= r <= |env| && (r < |env| ==> IsFor(env[r], key))
    ensures forall k :: i <= k < r ==> !IsFor(env[k], key)
    decreases |env| - i
  {
    if i == |env| || IsFor(env[i], key) then i else Find(env, key, i + 1)
  }

  function FindUnused(env: seq<EnvVar>, i: nat): (r: nat)
    requires i <= |env|
    ensures i <= r <= |env| && (r < |env| ==> !env[r].used)
    ensures forall k :: i <= k < r ==> env[k].used
    decreases |env| - i
  {
    if i == |env| || !env[i].used then i else FindUnused(env, i + 1)
  }

  /** env_lookup. */
  function Lookup(env: seq<EnvVar>, key: string): Option<string> {
    var i := Find(env, key, 0);
    if i == |env| then BuiltIn(key)
    else if env[i].deleted then None
    else Some(env[i].value)
  }

  predicate ValidKey(key: string) {
    0 < |key| <= KEY_MAX && '=' !in key && '\0' !in key
  }

  /** Used keys are valid and told apart; values have the length env_set lets through. */
  predicate EnvOk(env: seq<EnvVar>) {
    && |env| == ENV_SLOTS
    && (forall i :: 0 <= i < |env| && env[i].used ==>
          ValidKey(env[i].key) && |env[i].value| <= VALUE_MAX && (!env[i].deleted ==> env[i].value != ""))
    && (forall i, j :: 0 <= i < j < |env| && env[i].used && env[j].used ==> env[i].key != env[j].key)
  }

  /** The slot env_set_overlay writes: the key's own, else the first unused. */
  function SlotFor(env: seq<EnvVar>, key: string): (r: nat)
    ensures r <= |env|
  {
    var own := Find(env, key, 0);
    if own < |env| then own else FindUnused(env, 0)
  }

  /** env_set_overlay, when it succeeds. */
  function Overlaid(env: seq<EnvVar>, key: string, value: string, deleted: bool): seq<EnvVar>
    requires SlotFor(env, key) < |env|
  {
    env[SlotFor(env, key) := EnvVar(true, deleted, key, value)]
  }

  predicate CanOverlay(env: seq<EnvVar>, key: string, value: string) {
    ValidKey(key) && |value| <= VALUE_MAX && SlotFor(env, key) < |env|
  }

  lemma OnlySlot(env: seq<EnvVar>, key: string, i: nat)
    requires EnvOk(env) && i < |env| && IsFor(env[i], key)
    ensures Find(env, key, 0) == i
  {
  }

  lemma OverlayOk(env: seq<EnvVar>, key: string, value: string, deleted: bool)
    requires EnvOk(env) && CanOverlay(env, key, value) && (!deleted ==> value != "")
    ensures EnvOk(Overlaid(env, key, value, deleted))
  {
  }

  /** A change of one key changes the lookup of that key only. */
  lemma OverlayLookup(env: seq<EnvVar>, key: string, value: string, deleted: bool, k: string)
    requires EnvOk(env) && CanOverlay(env, key, value) && (!deleted ==> value != "")
    ensures var env' := Overlaid(env, key, value, deleted);
      Lookup(env', k) == if k == key then (if deleted then None else Some(value)) else Lookup(env, k)
  {
    var env', slot := Overlaid(env, key, value, deleted), SlotFor(env, key);
    OverlayOk(env, key, value, deleted);
    if k == key {
      OnlySlot(env', key, slot);
    } else {
      var i := Find(env, k, 0);
      if i < |env| {
        assert env'[i] == env[i];
        OnlySlot(env', k, i);
      } else {
        assert forall j :: 0 <= j < |env| ==> !IsFor(env'[j], k);
      }
    }
  }

  /** A key that has a slot keeps one. */
  lemma KeepsSlots(env: seq<EnvVar>, key: string, value: string, deleted: bool, k: string)
    requires CanOverlay(env, key, value)
    ensures Find(env, k, 0) < |env| ==> Find(Overlaid(env, key, value, deleted), k, 0) < |env|
    ensures Find(Overlaid(env, key, value, deleted), key, 0) < |env|
  {
    var env' := Overlaid(env, key, value, deleted);
    assert IsFor(env'[SlotFor(env, key)], key);
    if Find(env, k, 0) < |env| {
      var i := Find(env, k, 0);
      assert IsFor(env'[i], k);
    }
  }

  lemma BuiltInShort(key: string)
    ensures BuiltIn(key).Some? ==> 0 < |BuiltIn(key).value| <= VALUE_MAX
  {
  }

  lemma LookupShort(env: seq<EnvVar>, key: string)
    requires EnvOk(env)
    ensures Lookup(env, key).Some? ==> 0 < |Lookup(env, key).value| <= VALUE_MAX
  {
    BuiltInShort(key);
  }

  // ---- Overrides ----

  /** `value` None removes the variable. */
  datatype Override = Override(key: string, value: Option<string>)

  datatype Restore = Restore(key: string, was: Option<string>)

  /** env_set and env_remove as the program calls them: an empty value is refused before the overlay sees it. */
  predicate CanApply(env: seq<EnvVar>, o: Override) {
    CanOverlay(env, o.key, if o.value.Some? then o.value.value else "") && (o.value.Some? ==> o.value.value != "")
  }

  function Applied(env: seq<EnvVar>, o: Override): seq<EnvVar>
    requires CanApply(env, o)
  {
    if o.value.Some? then Overlaid(env, o.key, o.value.value, false) else Overlaid(env, o.key, "", true)
  }

  lemma AppliedLookup(env: seq<EnvVar>, o: Override, k: string)
    requires EnvOk(env) && CanApply(env, o)
    ensures EnvOk(Applied(env, o)) && Lookup(Applied(env, o), k) == if k == o.key then o.value else Lookup(env, k)
  {
    var value := if o.value.Some? then o.value.value else "";
    OverlayOk(env, o.key, value, o.value.None?);
    OverlayLookup(env, o.key, value, o.value.None?, k);
  }

  predicate SameLookup(a: seq<EnvVar>, b: seq<EnvVar>, k: string) {
    Lookup(a, k) == Lookup(b, k)
  }

  /** The two environments cannot be told apart. */
  ghost predicate SameEnv(a: seq<EnvVar>, b: seq<EnvVar>) {
    forall k :: SameLookup(a, b, k)
  }

  /** What a lookup of `k` gives after undoing `restores`, last first. */
  function Undone(env: seq<EnvVar>, restores: seq<Restore>, k: string): Option<string> {
    if restores == [] then Lookup(env, k)
    else if restores[0].key == k then restores[0].was
    else Undone(env, restores[1..], k)
  }

  /** Undoing `restores` from `env` gives back `base`, and cannot fail. */
  ghost predicate CanUndo(env: seq<EnvVar>, restores: seq<Restore>, base: seq<EnvVar>) {
    && EnvOk(env)
    && (forall i :: 0 <= i < |restores| ==> RestoreOk(env, restores[i]))
    && forall k :: UndoesTo(env, restores, base, k)
  }

  predicate RestoreOk(env: seq<EnvVar>, r: Restore) {
    ValidKey(r.key) && Find(env, r.key, 0) < |env| && (r.was.Some? ==> 0 < |r.was.value| <= VALUE_MAX)
  }

  predicate UndoesTo(env: seq<EnvVar>, restores: seq<Restore>, base: seq<EnvVar>, k: string) {
    Undone(env, restores, k) == Lookup(base, k)
  }

  lemma {:induction false} UndoneAppend(env: seq<EnvVar>, env': seq<EnvVar>, restores: seq<Restore>, r: Restore,
                                        k: string)
    requires Lookup(env, k) == if k == r.key then r.was else Lookup(env', k)
    ensures Undone(env', restores + [r], k) == Undone(env, restores, k)
  {
    if restores != [] {
      assert (restores + [r])[1..] == restores[1..] + [r];
      UndoneAppend(env, env', restores[1..], r, k);
    } else {
      assert Undone(env', [r], k) == if r.key == k then r.was else Undone(env', [r][1..], k);
    }
  }

  /** One more override: its restore record goes last. */
  lemma ApplyUndo(env: seq<EnvVar>, restores: seq<Restore>, base: seq<EnvVar>, o: Override)
    requires CanUndo(env, restores, base) && CanApply(env, o)
    ensures CanUndo(Applied(env, o), restores + [Restore(o.key, Lookup(env, o.key))], base)
  {
    var env', r := Applied(env, o), Restore(o.key, Lookup(env, o.key));
    AppliedLookup(env, o, o.key);
    LookupShort(env, o.key);
    var value := if o.value.Some? then o.value.value else "";
    forall i | 0 <= i < |restores| + 1 ensures RestoreOk(env', (restores + [r])[i]) {
      if i < |restores| {
        KeepsSlots(env, o.key, value, o.value.None?, restores[i].key);
      } else {
        KeepsSlots(env, o.key, value, o.value.None?, o.key);
      }
    }
    forall k ensures UndoesTo(env', restores + [r], base, k) {
      assert UndoesTo(env, restores, base, k);
      AppliedLookup(env, o, k);
      UndoneAppend(env, env', restores, r, k);
    }
  }

  function RestoreStep(r: Restore): Override {
    Override(r.key, r.was)
  }

  /** The last record can be undone, and what is left still leads back. */
  lemma RestoreUndo(env: seq<EnvVar>, restores: seq<Restore>, r: Restore, base: seq<EnvVar>)
    requires CanUndo(env, restores + [r], base)
    ensures CanApply(env, RestoreStep(r)) && CanUndo(Applied(env, RestoreStep(r)), restores, base)
  {
    var all := restores + [r];
    assert RestoreOk(env, all[|restores|]);
    var env' := Applied(env, RestoreStep(r));
    var value := if r.was.Some? then r.was.value else "";
    AppliedLookup(env, RestoreStep(r), r.key);
    forall i | 0 <= i < |restores| ensures RestoreOk(env', restores[i]) {
      assert RestoreOk(env, all[i]);
      KeepsSlots(env, r.key, value, r.was.None?, restores[i].key);
    }
    forall k ensures UndoesTo(env', restores, base, k) {
      assert UndoesTo(env, all, base, k);
      AppliedLookup(env, RestoreStep(r), k);
      UndoneAppend(env', env, restores, r, k);
    }
  }

  lemma NothingToUndo(env: seq<EnvVar>, base: seq<EnvVar>)
    ensures EnvOk(env) && SameEnv(env, base) ==> CanUndo(env, [], base)
    ensures CanUndo(env, [], base) ==> SameEnv(env, base)
  {
    forall k ensures UndoesTo(env, [], base, k) <==> SameLookup(env, base, k) {
    }
  }

  // ---- Slots that undoing leaves behind ----

  /** The keys that have a slot, among the first `n` slots. */
  function KeysUpTo(env: seq<EnvVar>, n: nat): set<string>
    requires n <= |env|
  {
    if n == 0 then {} else KeysUpTo(env, n - 1) + if env[n - 1].used then {env[n - 1].key} else {}
  }

  function UsedKeys(env: seq<EnvVar>): set<string> {
    KeysUpTo(env, |env|)
  }

  lemma {:induction false} KeyAt(env: seq<EnvVar>, n: nat, k: string)
    requires n <= |env|
    ensures k in KeysUpTo(env, n) <==> Find(env, k, 0) < n
  {
    if n > 0 {
      KeyAt(env, n - 1, k);
    }
  }

  lemma {:induction false} CountKeys(env: seq<EnvVar>, n: nat)
    requires EnvOk(env) && n <= |env|
    ensures |KeysUpTo(env, n)| <= n
    ensures |KeysUpTo(env, n)| == n <==> forall i :: 0 <= i < n ==> env[i].used
  {
    if n > 0 {
      CountKeys(env, n - 1);
      KeyAt(env, n - 1, env[n - 1].key);
      if env[n - 1].used {
        OnlySlot(env, env[n - 1].key, n - 1);
      }
    }
  }

  /** What env_set and env_remove ask of the override itself. */
  predicate Proper(o: Override) {
    ValidKey(o.key) && (o.value.Some? ==> 0 < |o.value.value| <= VALUE_MAX)
  }

  /** An override is refused exactly when it is improper, or its key has no slot and every slot is taken. */
  lemma AppliesIff(env: seq<EnvVar>, o: Override)
    requires EnvOk(env)
    ensures CanApply(env, o) <==> Proper(o) && (o.key in UsedKeys(env) || |UsedKeys(env)| < ENV_SLOTS)
  {
    KeyAt(env, |env|, o.key);
    CountKeys(env, |env|);
  }

  lemma OverlayKeys(env: seq<EnvVar>, key: string, value: string, deleted: bool)
    requires CanOverlay(env, key, value)
    ensures UsedKeys(Overlaid(env, key, value, deleted)) == UsedKeys(env) + {key}
  {
    var env', slot := Overlaid(env, key, value, deleted), SlotFor(env, key);
    forall k ensures k in UsedKeys(env') <==> k in UsedKeys(env) + {key} {
      KeyAt(env, |env|, k);
      KeyAt(env', |env|, k);
      KeepsSlots(env, key, value, deleted, k);
      var i := Find(env', k, 0);
      if i < |env| && i != slot {
        assert IsFor(env[i], k);
      }
    }
  }

  /** An override and its restore; one that is refused changes nothing. */
  function RoundTrip(env: seq<EnvVar>, o: Override): seq<EnvVar> {
    if !CanApply(env, o) then env
    else
      var back := RestoreStep(Restore(o.key, Lookup(env, o.key)));
      if CanApply(Applied(env, o), back) then Applied(Applied(env, o), back) else Applied(env, o)
  }

  /** Undoing is not free: the override's key keeps the slot it got. The trip uses up a slot exactly when the key had
      none. */
  lemma RoundTripUsesSlot(env: seq<EnvVar>, o: Override)
    requires EnvOk(env) && CanApply(env, o)
    ensures CanApply(Applied(env, o), RestoreStep(Restore(o.key, Lookup(env, o.key))))
    ensures EnvOk(RoundTrip(env, o)) && SameEnv(RoundTrip(env, o), env)
    ensures UsedKeys(RoundTrip(env, o)) == UsedKeys(env) + {o.key}
    ensures |UsedKeys(RoundTrip(env, o))| == |UsedKeys(env)| + 1 <==> Find(env, o.key, 0) == |env|
    ensures |UsedKeys(RoundTrip(env, o))| == |UsedKeys(env)| <==> Find(env, o.key, 0) < |env|
  {
    hide CanUndo, SameEnv, EnvOk, Lookup, UsedKeys, Overlaid, CanOverlay;
    var back := Restore(o.key, Lookup(env, o.key));
    SameItself(env);
    ApplyUndo(env, [], env, o);
    assert [] + [back] == [back];
    RestoreUndo(Applied(env, o), [], back, env);
    NothingToUndo(RoundTrip(env, o), env);
    OverlayKeys(env, o.key, if o.value.Some? then o.value.value else "", o.value.None?);
    OverlayKeys(Applied(env, o), o.key, if back.was.Some? then back.was.value else "", back.was.None?);
    KeyUsed(env, o.key);
    assert o.key in UsedKeys(env) ==> UsedKeys(env) + {o.key} == UsedKeys(env);
  }

  lemma KeyUsed(env: seq<EnvVar>, key: string)
    ensures key in UsedKeys(env) <==> Find(env, key, 0) < |env|
  {
    KeyAt(env, |env|, key);
  }

  function RoundTrips(env: seq<EnvVar>, os: seq<Override>): seq<EnvVar>
    decreases |os|
  {
    if os == [] then env else RoundTrips(RoundTrip(env, os[0]), os[1..])
  }

  function KeysOf(os: seq<Override>): set<string> {
    if os == [] then {} else {os[0].key} + KeysOf(os[1..])
  }

  lemma SameEnvChain(a: seq<EnvVar>, b: seq<EnvVar>, c: seq<EnvVar>)
    requires SameEnv(a, b) && SameEnv(b, c)
    ensures SameEnv(a, c)
  {
    forall k ensures SameLookup(a, c, k) {
      assert SameLookup(a, b, k) && SameLookup(b, c, k);
    }
  }

  /** Any number of round trips: no lookup can tell, and while there is room every key that came by keeps its slot. */
  lemma {:induction false} RoundTripsUseSlots(env: seq<EnvVar>, os: seq<Override>)
    requires EnvOk(env) && forall o :: o in os ==> Proper(o)
    ensures EnvOk(RoundTrips(env, os)) && SameEnv(RoundTrips(env, os), env)
    ensures |UsedKeys(env) + KeysOf(os)| <= ENV_SLOTS ==> UsedKeys(RoundTrips(env, os)) == UsedKeys(env) + KeysOf(os)
    decreases |os|
  {
    if os == [] {
      SameItself(env);
    } else {
      var env1 := RoundTrip(env, os[0]);
      AppliesIff(env, os[0]);
      if CanApply(env, os[0]) {
        RoundTripUsesSlot(env, os[0]);
      } else {
        SameItself(env);
      }
      RoundTripsUseSlots(env1, os[1..]);
      SameEnvChain(RoundTrips(env, os), env1, env);
      RoomFor(UsedKeys(env), os[0].key, KeysOf(os[1..]));
      assert os[0].key in UsedKeys(env) + KeysOf(os);
    }
  }

  lemma RoomFor(used: set<string>, key: string, more: set<string>)
    ensures used + {key} + more == used + ({key} + more)
    ensures key !in used ==> |used| < |used + ({key} + more)|
  {
    var all := used + ({key} + more);
    if key !in used {
      assert used < all;
      Smaller(used, all);
    }
  }

  lemma {:induction false} Smaller(a: set<string>, b: set<string>)
    requires a < b
    ensures |a| < |b|
  {
    var x :| x in b && x !in a;
    if a != {} {
      var y :| y in a;
      Smaller(a - {y}, b - {y});
    }
  }

  /** After as many round trips with new keys as there were slots left, every override of yet another key is refused,
      although the environment looks as it did. */
  lemma RoundTripsExhaust(env: seq<EnvVar>, os: seq<Override>, o: Override)
    requires EnvOk(env) && (forall p :: p in os ==> Proper(p))
    requires UsedKeys(env) !! KeysOf(os) && |KeysOf(os)| == ENV_SLOTS - |UsedKeys(env)|
    requires Proper(o) && o.key !in UsedKeys(env) + KeysOf(os)
    ensures SameEnv(RoundTrips(env, os), env) && !CanApply(RoundTrips(env, os), o)
    ensures os != [] ==> CanApply(env, o)
  {
    RoundTripsUseSlots(env, os);
    AppliesIff(RoundTrips(env, os), o);
    AppliesIff(env, o);
    KeysCount(os);
  }

  lemma {:induction false} KeysCount(os: seq<Override>)
    ensures os != [] ==> |KeysOf(os)| > 0
  {
    if os != [] {
      assert os[0].key in KeysOf(os);
    }
  }

  lemma SameItself(env: seq<EnvVar>)
    requires EnvOk(env)
    ensures SameEnv(env, env) && CanUndo(env, [], env)
  {
    assert SameEnv(env, env);
    NothingToUndo(env, env);
  }

  /** Each override can be applied after those before it. */
  predicate AllApply(env: seq<EnvVar>, os: seq<Override>)
    decreases |os|
  {
    os != [] ==> CanApply(env, os[0]) && AllApply(Applied(env, os[0]), os[1..])
  }

  lemma ApplyNext(env: seq<EnvVar>, os: seq<Override>, i: nat)
    requires i < |os|
    ensures AllApply(env, os[i..]) <==> CanApply(env, os[i]) && AllApply(Applied(env, os[i]), os[i + 1..])
  {
    assert os[i..][0] == os[i] && os[i..][1..] == os[i + 1..];
  }

  lemma NothingLeft(env: seq<EnvVar>, os: seq<Override>)
    ensures AllApply(env, os[|os|..])
  {
  }

  lemma UsedBound(env: seq<EnvVar>)
    requires EnvOk(env)
    ensures |UsedKeys(env)| <= ENV_SLOTS
  {
    CountKeys(env, |env|);
  }

  lemma KeysJoin(used: set<string>, key: string, more: set<string>)
    ensures (used + {key}) + more == used + ({key} + more)
    ensures |used + {key}| <= |used + ({key} + more)|
    ensures key in used ==> used + {key} == used
    ensures key !in used ==> |used + {key}| == |used| + 1
  {
    var a, b := used + {key}, used + ({key} + more);
    assert a + more == b;
    if a != b {
      Smaller(a, b);
    }
  }

  /** Overrides can be applied one after the other exactly if each is proper and the slots are enough for all their keys
      beside those in use. */
  lemma {:induction false} AllApplyIff(env: seq<EnvVar>, os: seq<Override>)
    requires EnvOk(env)
    ensures AllApply(env, os) <==> (forall o :: o in os ==> Proper(o)) && |UsedKeys(env) + KeysOf(os)| <= ENV_SLOTS
    decreases |os|
  {
    hide CanApply, EnvOk, UsedKeys, Applied, Proper;
    UsedBound(env);
    if os == [] {
      assert UsedKeys(env) + {} == UsedKeys(env);
    } else {
      var o := os[0];
      AppliesIff(env, o);
      KeysJoin(UsedKeys(env), o.key, KeysOf(os[1..]));
      if CanApply(env, o) {
        AppliedKeys(env, o);
        AllApplyIff(Applied(env, o), os[1..]);
        assert forall p :: p in os <==> p == o || p in os[1..];
      }
    }
  }

  lemma AppliedKeys(env: seq<EnvVar>, o: Override)
    requires EnvOk(env) && CanApply(env, o)
    ensures EnvOk(Applied(env, o)) && UsedKeys(Applied(env, o)) == UsedKeys(env) + {o.key}
  {
    OverlayOk(env, o.key, if o.value.Some? then o.value.value else "", o.value.None?);
    OverlayKeys(env, o.key, if o.value.Some? then o.value.value else "", o.value.None?);
  }

  /** The last of the first `n` overrides of each key is what a lookup gives; the other keys read as they did. */
  ghost predicate Shows(env: seq<EnvVar>, base: seq<EnvVar>, overrides: seq<Override>, n: nat)
    requires n <= |overrides|
  {
    && (forall j :: 0 <= j < n && LastOf(overrides, j, n) ==> Lookup(env, overrides[j].key) == overrides[j].value)
    && (forall k :: Untouched(overrides, n, k) ==> SameLookup(env, base, k))
  }

  predicate Untouched(overrides: seq<Override>, n: nat, k: string)
    requires n <= |overrides|
  {
    forall j :: 0 <= j < n ==> overrides[j].key != k
  }

  predicate LastOf(overrides: seq<Override>, j: nat, n: nat)
    requires j < n <= |overrides|
  {
    forall k :: j < k < n ==> overrides[k].key != overrides[j].key
  }

  lemma NothingShown(env: seq<EnvVar>, overrides: seq<Override>)
    ensures Shows(env, env, overrides, 0)
  {
  }

  lemma ShowsNext(env: seq<EnvVar>, base: seq<EnvVar>, overrides: seq<Override>, i: nat)
    requires EnvOk(env) && i < |overrides| && Shows(env, base, overrides, i) && CanApply(env, overrides[i])
    ensures Shows(Applied(env, overrides[i]), base, overrides, i + 1)
  {
    forall k | Untouched(overrides, i + 1, k) ensures SameLookup(Applied(env, overrides[i]), base, k) {
      AppliedLookup(env, overrides[i], k);
      assert Untouched(overrides, i, k);
    }
    forall j | 0 <= j < i + 1 && LastOf(overrides, j, i + 1)
      ensures Lookup(Applied(env, overrides[i]), overrides[j].key) == overrides[j].value
    {
      AppliedLookup(env, overrides[i], overrides[j].key);
      if j < i {
        assert overrides[i].key != overrides[j].key;
        assert LastOf(overrides, j, i);
      }
    }
  }

  class ProcessEnv {
    const env: array<EnvVar>

    constructor ()
      ensures Valid() && fresh(env)
    {
      env := new EnvVar[ENV_SLOTS](i => EnvVar(false, false, "", ""));
    }

    predicate Valid()
      reads this, env
    {
      EnvOk(env[..])
    }

    /** env_get: None also for keys that no variable can have. */
    method Get(key: string) returns (r: Option<string>)
      requires Valid()
      ensures r == if 0 < |key| <= INPUT_MAX then Lookup(env[..], key) else None
    {
      if |key| == 0 || |key| > INPUT_MAX {
        return None;
      }
      for i := 0 to ENV_SLOTS
        invariant Find(env[..], key, 0) == Find(env[..], key, i)
      {
        if env[i].used && env[i].key == key {
          return if env[i].deleted then None else Some(env[i].value);
        }
      }
      return BuiltIn(key);
    }

    /** env_set_overlay: one pass that remembers the first unused slot. */
    method SetOverlay(key: string, value: string, deleted: bool) returns (ok: bool)
      requires Valid() && (!deleted ==> value != "")
      modifies env
      ensures Valid() && ok == CanOverlay(old(env[..]), key, value)
      ensures env[..] == if ok then Overlaid(old(env[..]), key, value, deleted) else old(env[..])
    {
      if |key| == 0 || |key| > KEY_MAX || |value| > VALUE_MAX || '=' in key || '\0' in key {
        return false;
      }
      var slot := ENV_SLOTS;
      for i := 0 to ENV_SLOTS
        invariant Find(env[..], key, 0) == Find(env[..], key, i)
        invariant 0 <= slot <= ENV_SLOTS
        invariant if slot == ENV_SLOTS then FindUnused(env[..], 0) == FindUnused(env[..], i)
          else FindUnused(env[..], 0) == slot
      {
        if env[i].used && env[i].key == key {
          slot := i;
          break;
        }
        if slot == ENV_SLOTS && !env[i].used {
          slot := i;
        }
      }
      if slot == ENV_SLOTS {
        return false;
      }
      OverlayOk(env[..], key, value, deleted);
      env[slot] := EnvVar(true, deleted, key, value);
      assert env[..] == Overlaid(old(env[..]), key, value, deleted);
      return true;
    }

    /** env_set or env_remove. */
    method Apply(o: Override) returns (ok: bool)
      requires Valid()
      modifies env
      ensures Valid() && ok == CanApply(old(env[..]), o)
      ensures env[..] == if ok then Applied(old(env[..]), o) else old(env[..])
    {
      if |o.key| == 0 || |o.key| > INPUT_MAX {
        return false;
      }
      match o.value
      case Some(value) =>
        if |value| == 0 || |value| > INPUT_MAX {
          return false;
        }
        ok := SetOverlay(o.key, value, false);
      case None =>
        ok := SetOverlay(o.key, "", true);
    }

    /** restore_env, last record first. */
    method RestoreAll(restores: seq<Restore>, ghost base: seq<EnvVar>)
      requires Valid() && CanUndo(env[..], restores, base)
      modifies env
      ensures Valid() && SameEnv(env[..], base)
    {
      var i := |restores|;
      assert restores[..i] == restores;
      while i > 0
        invariant 0 <= i <= |restores| && CanUndo(env[..], restores[..i], base)
      {
        i := i - 1;
        assert restores[..i + 1] == restores[..i] + [restores[i]];
        RestoreUndo(env[..], restores[..i], restores[i], base);
        var ok := Apply(RestoreStep(restores[i]));
      }
      NothingToUndo(env[..], base);
    }

    /** apply_env_overrides: on failure the environment reads as before, on success it shows the overrides and
        the records lead back. */
    method ApplyAll(overrides: seq<Override>) returns (r: Option<seq<Restore>>)
      requires Valid()
      modifies env
      ensures Valid()
      ensures r.Some? <==> AllApply(old(env[..]), overrides)
      ensures r.None? ==> SameEnv(env[..], old(env[..]))
      ensures r.Some? ==>
        CanUndo(env[..], r.value, old(env[..])) && Shows(env[..], old(env[..]), overrides, |overrides|)
    {
      hide CanUndo, SameEnv, EnvOk, Shows, Lookup, AllApply;
      ghost var base := env[..];
      var restores := [];
      SameItself(base);
      NothingShown(base, overrides);
      assert overrides[0..] == overrides;
      for i := 0 to |overrides|
        invariant Valid() && CanUndo(env[..], restores, base) && Shows(env[..], base, overrides, i)
        invariant AllApply(base, overrides) <==> AllApply(env[..], overrides[i..])
      {
        ghost var before := env[..];
        ApplyNext(before, overrides, i);
        var current := Get(overrides[i].key);
        var ok := Apply(overrides[i]);
        if !ok {
          RestoreAll(restores, base);
          return None;
        }
        ApplyUndo(before, restores, base, overrides[i]);
        ShowsNext(before, base, overrides, i);
        restores := restores + [Restore(overrides[i].key, current)];
      }
      NothingLeft(env[..], overrides);
      return Some(restores);
    }
  }
}
