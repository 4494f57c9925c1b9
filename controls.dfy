/** The keyboard controls of src/controls.ts: a record of held keys set by
    key events, and the per-frame turn of the aircraft. */
module Controls {

  /** The fixed turn per frame, in radians. */
  const TurnStep: real := 0.02

  /** The two rotation components of the aircraft's transform (a three.js
      group) that the controls change. */
  class Airplane {
    var rotationX: real
    var rotationZ: real

    /** A new group is level: its rotation starts at zero. */
    constructor ()
      ensures rotationX == 0.0 && rotationZ == 0.0
    {
      rotationX := 0.0;
      rotationZ := 0.0;
    }
  }

  /** `keys[k]` is truthy: a key never pressed is absent, which reads as
      `undefined`. */
  predicate Held(keys: map<string, bool>, k: string): (h: bool)
    ensures k !in keys ==> !h
    ensures k in keys ==> h == keys[k]
  {
    k in keys && keys[k]
  }

  /** The change of `rotation.z` in one frame: up by a step for `a`, down
      by a step for `d`. */
  function RollDelta(keys: map<string, bool>): (d: real)
    ensures Held(keys, "a") && !Held(keys, "d") ==> d == TurnStep
    ensures !Held(keys, "a") && Held(keys, "d") ==> d == -TurnStep
    ensures Held(keys, "a") == Held(keys, "d") ==> d == 0.0
    ensures -TurnStep <= d <= TurnStep
  {
    (if Held(keys, "a") then TurnStep else 0.0) - (if Held(keys, "d") then TurnStep else 0.0)
  }

  /** The change of `rotation.x` in one frame: down by a step for `w`, up
      by a step for `s`. */
  function PitchDelta(keys: map<string, bool>): (d: real)
    ensures Held(keys, "w") && !Held(keys, "s") ==> d == -TurnStep
    ensures !Held(keys, "w") && Held(keys, "s") ==> d == TurnStep
    ensures Held(keys, "w") == Held(keys, "s") ==> d == 0.0
    ensures -TurnStep <= d <= TurnStep
  {
    (if Held(keys, "s") then TurnStep else 0.0) - (if Held(keys, "w") then TurnStep else 0.0)
  }

  /** Setting any key other than `w` and `s` leaves the pitch change as it
      is, and setting any key other than `a` and `d` leaves the roll change
      as it is: roll keys only roll and pitch keys only pitch. */
  lemma KeysAreSeparate(keys: map<string, bool>, k: string, down: bool)
    ensures k != "w" && k != "s" ==> PitchDelta(keys[k := down]) == PitchDelta(keys)
    ensures k != "a" && k != "d" ==> RollDelta(keys[k := down]) == RollDelta(keys)
  {
  }

  /** `rotation.z` after one frame per key state of `history`. */
  function RollAfter(z: real, history: seq<map<string, bool>>): real
    decreases |history|
  {
    if history == [] then z else RollAfter(z + RollDelta(history[0]), history[1..])
  }

  /** `rotation.x` after one frame per key state of `history`. */
  function PitchAfter(x: real, history: seq<map<string, bool>>): real
    decreases |history|
  {
    if history == [] then x else PitchAfter(x + PitchDelta(history[0]), history[1..])
  }

  /** Over n frames, whatever keys are held, each rotation moves by at most
      n steps. */
  lemma {:induction false} TurnIsBounded(x: real, z: real, history: seq<map<string, bool>>)
    ensures -TurnStep * |history| as real <= RollAfter(z, history) - z <= TurnStep * |history| as real
    ensures -TurnStep * |history| as real <= PitchAfter(x, history) - x <= TurnStep * |history| as real
    decreases |history|
  {
    if history != [] {
      TurnIsBounded(x + PitchDelta(history[0]), z + RollDelta(history[0]), history[1..]);
    }
  }

  /** Frames in which `a` and `d` are both held or both released never
      change the roll. */
  lemma {:induction false} BalancedRollKeepsRoll(z: real, history: seq<map<string, bool>>)
    requires forall i :: 0 <= i < |history| ==> Held(history[i], "a") == Held(history[i], "d")
    ensures RollAfter(z, history) == z
    decreases |history|
  {
    if history != [] {
      BalancedRollKeepsRoll(z, history[1..]);
    }
  }

  /** Frames in which `w` and `s` are both held or both released never
      change the pitch. */
  lemma {:induction false} BalancedPitchKeepsPitch(x: real, history: seq<map<string, bool>>)
    requires forall i :: 0 <= i < |history| ==> Held(history[i], "w") == Held(history[i], "s")
    ensures PitchAfter(x, history) == x
    decreases |history|
  {
    if history != [] {
      BalancedPitchKeepsPitch(x, history[1..]);
    }
  }

  /** With no key held, whether never pressed or released again, no frame
      turns the aircraft. */
  lemma IdleKeepsAttitude(x: real, z: real, history: seq<map<string, bool>>)
    requires forall i, k :: 0 <= i < |history| ==> !Held(history[i], k)
    ensures RollAfter(z, history) == z && PitchAfter(x, history) == x
  {
    forall i | 0 <= i < |history|
      ensures Held(history[i], "a") == Held(history[i], "d")
      ensures Held(history[i], "w") == Held(history[i], "s")
    {
      assert !Held(history[i], "a") && !Held(history[i], "d");
      assert !Held(history[i], "w") && !Held(history[i], "s");
    }
    BalancedRollKeepsRoll(z, history);
    BalancedPitchKeepsPitch(x, history);
  }

  /** Releasing a key after pressing it leaves it not held, although the
      record keeps the key. */
  lemma PressThenReleaseIsIdle(keys: map<string, bool>, k: string)
    ensures !Held(keys[k := true][k := false], k)
    ensures k in keys[k := true][k := false]
  {
  }

  /** The closure returned by `createControls`: the held-key record and the
      aircraft it turns. */
  class FlightControls {
    const airplane: Airplane
    var keys: map<string, bool>

    constructor (airplane: Airplane)
      ensures this.airplane == airplane && keys == map[]
    {
      this.airplane := airplane;
      keys := map[];
    }

    /** The `keydown` handler: `keys[e.key] = true`. */
    method KeyDown(key: string)
      modifies this`keys
      ensures keys == old(keys)[key := true]
      ensures Held(keys, key)
      ensures forall k :: k != key ==> Held(keys, k) == Held(old(keys), k)
    {
      keys := keys[key := true];
    }

    /** The `keyup` handler: `keys[e.key] = false`. */
    method KeyUp(key: string)
      modifies this`keys
      ensures keys == old(keys)[key := false]
      ensures !Held(keys, key)
      ensures forall k :: k != key ==> Held(keys, k) == Held(old(keys), k)
    {
      keys := keys[key := false];
    }

    /** `update()` without the forward motion: turns the aircraft by the
        held keys, in the source's order a, d, w, s. */
    method Update()
      modifies airplane
      ensures airplane.rotationZ == old(airplane.rotationZ) + RollDelta(keys)
      ensures airplane.rotationX == old(airplane.rotationX) + PitchDelta(keys)
    {
      if Held(keys, "a") { airplane.rotationZ := airplane.rotationZ + TurnStep; }
      if Held(keys, "d") { airplane.rotationZ := airplane.rotationZ - TurnStep; }
      if Held(keys, "w") { airplane.rotationX := airplane.rotationX - TurnStep; }
      if Held(keys, "s") { airplane.rotationX := airplane.rotationX + TurnStep; }
    }
  }
}
