/** The random light selector of the MQTT light controller
    (SimpleLightController): on every button event it switches all lights off
    and then switches on one light picked at random, retrying a bounded number
    of times when the pick lands on an unassigned slot. */
module LightController {
  import opened UnityRandom

  /** A slot of the `directionalLights` array: None is a null reference,
      Some(e) a Light whose `enabled` flag is e. */
  type Slot = Option<bool>

  /** The retry bound of the selection loop. */
  const MaxAttempts := 10

  /** Every assigned light switched off, unassigned slots left as they are. */
  function AllOff(slots: seq<Slot>): (r: seq<Slot>)
    ensures |r| == |slots|
    ensures forall i :: 0 <= i < |r| ==> (r[i] == None <==> slots[i] == None)
    ensures forall i :: 0 <= i < |r| ==> r[i] != Some(true)
  {
    seq(|slots|, i requires 0 <= i < |slots| => if slots[i] == None then None else Some(false))
  }

  /** Every assigned light off except the one at `k`, which is on. */
  function OnlyOn(slots: seq<Slot>, k: nat): (r: seq<Slot>)
    requires k < |slots| && slots[k] != None
    ensures |r| == |slots|
    ensures forall i :: 0 <= i < |r| ==> (r[i] == None <==> slots[i] == None)
    ensures forall i :: 0 <= i < |r| ==> (r[i] == Some(true) <==> i == k)
  {
    seq(|slots|, i requires 0 <= i < |slots| => if slots[i] == None then None else Some(i == k))
  }

  /** The index picked by the draw numbered `t` (from 0) of the oracle. */
  function Draw(slots: seq<Slot>, rng: Oracle, t: nat): (r: nat)
    requires |slots| > 0
    ensures r < |slots|
  {
    Range(Skip(rng, t), 0, |slots|)
  }

  /** The draw loop of ActivateRandomLight from its attempt numbered
      `attempts` (from 1) on: the index it stops at and the number of draws it
      has made then. It stops at the first draw that hits an assigned light, or
      when the attempts run out. */
  function SelectFrom(slots: seq<Slot>, rng: Oracle, attempts: nat): (r: (nat, nat))
    requires |slots| > 0 && 1 <= attempts <= MaxAttempts
    ensures r.0 < |slots| && attempts <= r.1 <= MaxAttempts
    ensures r.0 == Draw(slots, rng, r.1 - 1)
    ensures slots[r.0] == None ==> r.1 == MaxAttempts
    ensures forall t :: attempts - 1 <= t < r.1 - 1 ==> slots[Draw(slots, rng, t)] == None
    decreases MaxAttempts - attempts
  {
    var index := Draw(slots, rng, attempts - 1);
    if slots[index] != None || attempts == MaxAttempts then (index, attempts)
    else SelectFrom(slots, rng, attempts + 1)
  }

  /** The whole draw loop: at most ten draws, every draw before the last one
      hit an unassigned slot. */
  function SelectLight(slots: seq<Slot>, rng: Oracle): (r: (nat, nat))
    requires |slots| > 0
    ensures r.0 < |slots| && 1 <= r.1 <= MaxAttempts
    ensures r.0 == Draw(slots, rng, r.1 - 1)
    ensures slots[r.0] == None ==> r.1 == MaxAttempts
    ensures forall t :: 0 <= t < r.1 - 1 ==> slots[Draw(slots, rng, t)] == None
  {
    SelectFrom(slots, rng, 1)
  }

  /** The observable state of the controller. */
  datatype Lights = Lights(slots: seq<Slot>, rng: Oracle, currentLightIndex: int)

  /** ActivateRandomLight on a non-null array. */
  function Activate(s: Lights): Lights
  {
    if |s.slots| == 0 then s
    else
      var (k, used) := SelectLight(s.slots, s.rng);
      if s.slots[k] != None then Lights(OnlyOn(s.slots, k), Skip(s.rng, used), k)
      else Lights(AllOff(s.slots), Skip(s.rng, used), s.currentLightIndex)
  }

  /** An empty array leaves everything as it was. */
  lemma ActivateEmpty(s: Lights)
    requires s.slots == []
    ensures Activate(s) == s
  {
  }

  /** Afterwards at most one light is on, the unassigned slots are still
      unassigned, and at most ten draws were made. */
  lemma ActivateAtMostOne(s: Lights)
    requires s.slots != []
    ensures |Activate(s).slots| == |s.slots|
    ensures forall i :: 0 <= i < |s.slots| ==> (Activate(s).slots[i] == None <==> s.slots[i] == None)
    ensures forall i, j :: 0 <= i < j < |s.slots| ==> !(Activate(s).slots[i] == Some(true) && Activate(s).slots[j] == Some(true))
    ensures exists used :: 1 <= used <= MaxAttempts && Activate(s).rng == Skip(s.rng, used)
  {
    var (k, used) := SelectLight(s.slots, s.rng);
    assert Activate(s).rng == Skip(s.rng, used);
  }

  /** When a draw hits an assigned light, that light is the only one on and it
      becomes the current light; the draws before it all hit unassigned slots. */
  lemma ActivateSuccess(s: Lights)
    requires s.slots != []
    requires s.slots[SelectLight(s.slots, s.rng).0] != None
    ensures var k := SelectLight(s.slots, s.rng).0;
            Activate(s).currentLightIndex == k &&
            Activate(s).slots[k] == Some(true) &&
            forall i :: 0 <= i < |s.slots| && i != k ==> Activate(s).slots[i] != Some(true)
  {
  }

  /** When all ten draws hit unassigned slots, every light stays off and the
      current index keeps its previous value. */
  lemma ActivateFailure(s: Lights)
    requires s.slots != []
    requires s.slots[SelectLight(s.slots, s.rng).0] == None
    ensures Activate(s).currentLightIndex == s.currentLightIndex
    ensures Activate(s).slots == AllOff(s.slots)
    ensures Activate(s).rng == Skip(s.rng, MaxAttempts)
    ensures forall t :: 0 <= t < MaxAttempts ==> s.slots[Draw(s.slots, s.rng, t)] == None
  {
    var (k, used) := SelectLight(s.slots, s.rng);
    assert used == MaxAttempts;
  }

  /** A failure can only happen when no light is assigned at the positions the
      ten draws picked; with a single slot that is assigned the first draw wins. */
  lemma SingleAssignedSlotWins(s: Lights)
    requires |s.slots| == 1 && s.slots[0] != None
    ensures Activate(s).currentLightIndex == 0
    ensures Activate(s).slots == [Some(true)]
    ensures Activate(s).rng == Advance(s.rng)
  {
    assert SelectLight(s.slots, s.rng) == (0, 1);
  }

  /** Switching on light `k` once all are off leaves exactly `k` on. */
  lemma SwitchOnOnly(slots: seq<Slot>, k: nat)
    requires k < |slots| && slots[k] != None
    ensures AllOff(slots)[k := Some(true)] == OnlyOn(slots, k)
  {
    var on := AllOff(slots)[k := Some(true)];
    forall i | 0 <= i < |slots|
      ensures on[i] == OnlyOn(slots, k)[i]
    {
    }
  }

  lemma ActivateFound(s: Lights, k: nat, used: nat)
    requires s.slots != [] && SelectLight(s.slots, s.rng) == (k, used) && s.slots[k] != None
    ensures Activate(s) == Lights(OnlyOn(s.slots, k), Skip(s.rng, used), k)
  {
  }

  lemma ActivateNotFound(s: Lights, k: nat, used: nat)
    requires s.slots != [] && SelectLight(s.slots, s.rng) == (k, used) && s.slots[k] == None
    ensures Activate(s) == Lights(AllOff(s.slots), Skip(s.rng, used), s.currentLightIndex)
  {
  }

  /** One more draw moves the oracle one step further. */
  lemma {:induction false} SkipStep(rng: Oracle, k: nat)
    ensures Skip(rng, k + 1) == Advance(Skip(rng, k))
    decreases k
  {
    if k > 0 {
      SkipStep(Advance(rng), k - 1);
    }
  }

  /** A draw that hits an unassigned slot hands over to the next attempt. */
  lemma SelectMiss(slots: seq<Slot>, rng: Oracle, attempts: nat)
    requires |slots| > 0 && 1 <= attempts < MaxAttempts
    requires slots[Draw(slots, rng, attempts - 1)] == None
    ensures SelectFrom(slots, rng, attempts) == SelectFrom(slots, rng, attempts + 1)
  {
  }

  class SimpleLightController {
    var directionalLights: array?<Option<bool>>
    var currentLightIndex: int
    var rng: Oracle

    /** The component as Awake leaves it: every light switched off, no current
        light yet. */
    constructor (lights: array?<Option<bool>>, random: Oracle)
      modifies lights
      ensures directionalLights == lights && currentLightIndex == -1 && rng == random
      ensures lights != null ==> lights[..] == AllOff(old(lights[..]))
    {
      directionalLights := lights;
      currentLightIndex := -1;
      rng := random;
      new;
      TurnOffAllLights();
    }

    /** Disables every assigned light; a null array is left alone. */
    method TurnOffAllLights()
      modifies directionalLights
      ensures directionalLights != null ==> directionalLights[..] == AllOff(old(directionalLights[..]))
    {
      if directionalLights == null {
        return;
      }
      var lights := directionalLights;
      for i := 0 to lights.Length
        invariant forall j :: 0 <= j < i ==> lights[j] == AllOff(old(lights[..]))[j]
        invariant forall j :: i <= j < lights.Length ==> lights[j] == old(lights[j])
      {
        if lights[i] != None {
          lights[i] := Some(false);
        }
      }
    }

    /** The draw loop of ActivateRandomLight over lights that are all off:
        the index it stops at, the number of draws, and the oracle after
        them. */
    method DrawLight(lights: array<Option<bool>>, ghost slots: seq<Slot>) returns (newIndex: nat, attempts: nat)
      requires lights.Length > 0 && lights[..] == AllOff(slots)
      modifies this`rng
      ensures (newIndex, attempts) == SelectLight(slots, old(rng))
      ensures rng == Skip(old(rng), attempts)
    {
      newIndex := Range(rng, 0, lights.Length);
      rng := Advance(rng);
      attempts := 1;
      while lights[newIndex] == None && attempts < MaxAttempts
        invariant 1 <= attempts <= MaxAttempts && newIndex < lights.Length
        invariant newIndex == Draw(slots, old(rng), attempts - 1)
        invariant rng == Skip(old(rng), attempts)
        invariant SelectFrom(slots, old(rng), attempts) == SelectLight(slots, old(rng))
        decreases MaxAttempts - attempts
      {
        assert slots[newIndex] == None by {
          assert lights[newIndex] == AllOff(slots)[newIndex];
        }
        SelectMiss(slots, old(rng), attempts);
        SkipStep(old(rng), attempts);
        newIndex := Range(rng, 0, lights.Length);
        rng := Advance(rng);
        attempts := attempts + 1;
      }
      assert lights[newIndex] == AllOff(slots)[newIndex];
    }

    /** Switches every light off, then draws indices until one hits an
        assigned light or ten draws were made, and switches that light on. */
    method ActivateRandomLight()
      modifies this`rng, this`currentLightIndex, directionalLights
      ensures directionalLights == old(directionalLights)
      ensures old(directionalLights) == null ==>
                rng == old(rng) && currentLightIndex == old(currentLightIndex)
      ensures old(directionalLights) != null ==>
                Lights(directionalLights[..], rng, currentLightIndex)
                == Activate(Lights(old(directionalLights[..]), old(rng), old(currentLightIndex)))
    {
      if directionalLights == null || directionalLights.Length == 0 {
        return;
      }
      TurnOffAllLights();
      var lights := directionalLights;
      ghost var slots := old(lights[..]);
      assert lights[..] == AllOff(slots);
      var newIndex, attempts := DrawLight(lights, slots);
      ghost var before := Lights(slots, old(rng), old(currentLightIndex));
      if lights[newIndex] != None {
        ActivateFound(before, newIndex, attempts);
        currentLightIndex := newIndex;
        lights[currentLightIndex] := Some(true);
        SwitchOnOnly(slots, newIndex);
      } else {
        ActivateNotFound(before, newIndex, attempts);
      }
    }
  }
}
