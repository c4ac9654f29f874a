/**
 * The Switch Network puzzle of src/components/puzzles/SwitchNetworkPuzzle.tsx: six switches,
 * each with a fixed list of switches it turns off when it is turned on.
 */
module SwitchNetwork {
  import opened Common

  datatype SwitchState = SwitchState(id: int, name: string, isOn: bool, turnsOff: seq<int>)

  /** The table the component mounts with: all off. */
  const InitialSwitches: seq<SwitchState> := [
    SwitchState(1, "Main Power", false, [2, 4]),
    SwitchState(2, "Auxiliary", false, [3, 5]),
    SwitchState(3, "Security", false, [1, 6]),
    SwitchState(4, "Backup", false, [5]),
    SwitchState(5, "Emergency", false, [1, 3]),
    SwitchState(6, "Override", false, [2, 4])
  ]

  /** `switches.find(s => s.id === switchId)`: the first switch carrying that id. */
  function Find(switches: seq<SwitchState>, switchId: int): (r: Option<SwitchState>)
    ensures r.None? <==> forall i :: 0 <= i < |switches| ==> switches[i].id != switchId
    ensures r.Some? ==> exists i :: 0 <= i < |switches| && switches[i] == r.value && r.value.id == switchId
  {
    if switches == [] then None
    else if switches[0].id == switchId then Some(switches[0])
    else
      var r := Find(switches[1..], switchId);
      assert r.Some? ==> exists i :: 0 <= i < |switches[1..]| && switches[1..][i] == r.value;
      r
  }

  /** The callback of `switches.map` in `toggleSwitch`, applied to one switch `s`. */
  function ToggledEntry(switchId: int, switches: seq<SwitchState>, s: SwitchState): (r: SwitchState)
    ensures r.id == s.id && r.name == s.name && r.turnsOff == s.turnsOff
    ensures r.isOn && !s.isOn ==> s.id == switchId
    ensures r != s && s.id != switchId ==>
      !r.isOn && Find(switches, switchId).Some? && s.id in Find(switches, switchId).value.turnsOff
  {
    if s.id == switchId then s.(isOn := !s.isOn)
    else
      var toggled := Find(switches, switchId);
      if toggled.Some? && !toggled.value.isOn && s.id in toggled.value.turnsOff then s.(isOn := false)
      else s
  }

  /** Same ids, names and `turnsOff` lists in the same order: only `isOn` may differ. */
  predicate SameWiring(a: seq<SwitchState>, b: seq<SwitchState>) {
    && |a| == |b|
    && forall i :: 0 <= i < |a| ==>
         a[i].id == b[i].id && a[i].name == b[i].name && a[i].turnsOff == b[i].turnsOff
  }

  /** `toggleSwitch`: the same switches in the same order, each mapped by `ToggledEntry`. */
  function ToggleSwitch(switchId: int, switches: seq<SwitchState>): (r: seq<SwitchState>)
    ensures SameWiring(switches, r)
    ensures forall i :: 0 <= i < |r| ==> r[i] == ToggledEntry(switchId, switches, switches[i])
  {
    seq(|switches|, i requires 0 <= i < |switches| => ToggledEntry(switchId, switches, switches[i]))
  }

  /** Every switch carrying the toggled id flips. */
  lemma ToggleFlipsTarget(switchId: int, switches: seq<SwitchState>, i: int)
    requires 0 <= i < |switches| && switches[i].id == switchId
    ensures ToggleSwitch(switchId, switches)[i].isOn == !switches[i].isOn
  {
  }

  /** Turning a switch on (it was off) turns off every other switch in its list. */
  lemma TurningOnForcesListOff(switchId: int, switches: seq<SwitchState>, t: SwitchState, i: int)
    requires Find(switches, switchId) == Some(t) && !t.isOn
    requires 0 <= i < |switches| && switches[i].id != switchId && switches[i].id in t.turnsOff
    ensures !ToggleSwitch(switchId, switches)[i].isOn
  {
  }

  /** Turning a switch off (it was on) changes no other switch. */
  lemma TurningOffChangesOnlyTarget(switchId: int, switches: seq<SwitchState>, t: SwitchState, i: int)
    requires Find(switches, switchId) == Some(t) && t.isOn
    requires 0 <= i < |switches| && switches[i].id != switchId
    ensures ToggleSwitch(switchId, switches)[i] == switches[i]
  {
  }

  /** A switch that is neither the target nor in the target's list never changes. */
  lemma OutsideListUnchanged(switchId: int, switches: seq<SwitchState>, i: int)
    requires 0 <= i < |switches| && switches[i].id != switchId
    requires Find(switches, switchId).None? || switches[i].id !in Find(switches, switchId).value.turnsOff
    ensures ToggleSwitch(switchId, switches)[i] == switches[i]
  {
  }

  /** `switches.every(sw => sw.isOn)`: the win test. */
  predicate AllOn(switches: seq<SwitchState>) {
    forall i :: 0 <= i < |switches| ==> switches[i].isOn
  }

  /** `switches.filter(sw => sw.isOn).length`. */
  function OnCount(switches: seq<SwitchState>): (n: nat)
    ensures n <= |switches|
    ensures n == |switches| <==> AllOn(switches)
  {
    if switches == [] then 0
    else (if switches[0].isOn then 1 else 0) + OnCount(switches[1..])
  }

  function Ids(switches: seq<SwitchState>): (r: seq<int>)
    ensures |r| == |switches| && forall i :: 0 <= i < |r| ==> r[i] == switches[i].id
  {
    seq(|switches|, i requires 0 <= i < |switches| => switches[i].id)
  }

  /** Every list is non-empty, leaves out its owner and names only switches of the table. */
  predicate WellWired(switches: seq<SwitchState>) {
    forall i :: 0 <= i < |switches| ==>
      && switches[i].turnsOff != []
      && switches[i].id !in switches[i].turnsOff
      && forall x :: x in switches[i].turnsOff ==> x in Ids(switches)
  }

  lemma InitialWellWired()
    ensures WellWired(InitialSwitches)
    ensures !AllOn(InitialSwitches)
  {
    assert Ids(InitialSwitches) == [1, 2, 3, 4, 5, 6];
    assert !InitialSwitches[0].isOn;
  }

  lemma {:induction false} SameWiringKeepsWellWired(a: seq<SwitchState>, b: seq<SwitchState>)
    requires SameWiring(a, b) && WellWired(a)
    ensures WellWired(b)
  {
    assert Ids(a) == Ids(b);
  }

  /** Toggling an id no switch carries changes nothing. */
  lemma ToggleUnknownIsNoOp(switchId: int, switches: seq<SwitchState>)
    requires switchId !in Ids(switches)
    ensures ToggleSwitch(switchId, switches) == switches
  {
    var r := ToggleSwitch(switchId, switches);
    forall i | 0 <= i < |switches| ensures r[i] == switches[i] {
      assert Ids(switches)[i] == switches[i].id;
    }
  }

  /** On a well-wired table, toggling an existing switch always leaves some switch off. */
  lemma ToggleLeavesSomeOff(switchId: int, switches: seq<SwitchState>)
    requires WellWired(switches)
    requires switchId in Ids(switches)
    ensures !AllOn(ToggleSwitch(switchId, switches))
  {
    var r := ToggleSwitch(switchId, switches);
    var k :| 0 <= k < |switches| && Ids(switches)[k] == switchId;
    var t := Find(switches, switchId).value;
    var i :| 0 <= i < |switches| && switches[i] == t;
    if t.isOn {
      ToggleFlipsTarget(switchId, switches, i);
    } else {
      var x := t.turnsOff[0];
      assert x in t.turnsOff;
      var j :| 0 <= j < |switches| && Ids(switches)[j] == x;
      TurningOnForcesListOff(switchId, switches, t, j);
    }
  }

  /** A toggle keeps the mounted wiring and, from a losing table, leads to a losing table. */
  lemma ToggleKeepsLosing(switchId: int, switches: seq<SwitchState>)
    requires SameWiring(InitialSwitches, switches)
    requires !AllOn(switches)
    ensures SameWiring(InitialSwitches, ToggleSwitch(switchId, switches))
    ensures !AllOn(ToggleSwitch(switchId, switches))
  {
    InitialWellWired();
    SameWiringKeepsWellWired(InitialSwitches, switches);
    if switchId in Ids(switches) {
      ToggleLeavesSomeOff(switchId, switches);
    } else {
      ToggleUnknownIsNoOp(switchId, switches);
    }
  }

  /** The table after mounting and toggling the given ids in order. */
  function Replay(toggles: seq<int>): (r: seq<SwitchState>)
    ensures SameWiring(InitialSwitches, r)
  {
    if toggles == [] then InitialSwitches
    else ToggleSwitch(toggles[|toggles| - 1], Replay(toggles[..|toggles| - 1]))
  }

  /**
   * No sequence of toggles turns all six switches on: the success branch of the
   * win check can never be taken from the mounted table.
   */
  lemma {:induction false} AllOnUnreachable(toggles: seq<int>)
    ensures SameWiring(InitialSwitches, Replay(toggles))
    ensures !AllOn(Replay(toggles))
  {
    if toggles == [] {
      InitialWellWired();
    } else {
      AllOnUnreachable(toggles[..|toggles| - 1]);
      ToggleKeepsLosing(toggles[|toggles| - 1], Replay(toggles[..|toggles| - 1]));
    }
  }

  /** The status line of the component. */
  datatype Status =
    | Instructions            // the text the component mounts with
    | Success                 // "SUCCESS! All systems online! ..."
    | Active(onCount: nat)    // "<onCount>/6 switches active. ..."
    | OrderTip                // "Strategy tip: Consider the order! ..."
    | LeastControlHint        // "Hint: Try turning on switches that don't control many others first!"
    | AdvancedHint            // "Advanced hint: Start with switches 4 and 6, ..."

  /** How explicit a hint is; the success text and the mount text rank 0. */
  function Explicitness(s: Status): nat {
    match s
    case Active(_) => 1
    case OrderTip => 2
    case LeastControlHint => 3
    case AdvancedHint => 4
    case _ => 0
  }

  /** The hint for a losing table after `attempts` toggles (attempts at most 3, 6, 10, then beyond). */
  function Hint(attempts: nat, onCount: nat): (h: Status)
    ensures h != Success && h != Instructions && 1 <= Explicitness(h)
    ensures h.Active? <==> attempts <= 3
    ensures h.Active? ==> h.onCount == onCount
  {
    if attempts <= 3 then Active(onCount)
    else if attempts <= 6 then OrderTip
    else if attempts <= 10 then LeastControlHint
    else AdvancedHint
  }

  /** Hints never become less explicit as attempts grow. */
  lemma HintsNeverRegress(a: nat, b: nat, m: nat, n: nat)
    requires 0 < a <= b
    ensures 1 <= Explicitness(Hint(a, m)) <= Explicitness(Hint(b, n))
  {
  }

  /** The status the win-check effect leaves: success first, else a hint once attempts > 0. */
  function StatusAfter(switches: seq<SwitchState>, attempts: nat, previous: Status): (s: Status)
    ensures AllOn(switches) ==> s == Success
    ensures !AllOn(switches) && attempts > 0 ==> s == Hint(attempts, OnCount(switches)) && s != Success
    ensures !AllOn(switches) && attempts == 0 ==> s == previous
    ensures s == Success <==> AllOn(switches) || (attempts == 0 && previous == Success)
    ensures !AllOn(switches) && attempts > 0 ==> 1 <= Explicitness(s)
    ensures s.Active? && !previous.Active? ==> s.onCount < |switches|
  {
    if AllOn(switches) then Success
    else if attempts > 0 then Hint(attempts, OnCount(switches))
    else previous
  }

  class SwitchNetworkPuzzle {
    var switches: seq<SwitchState>
    var attempts: nat
    var message: Status
    /** Number of `onComplete` timers the success branch has started. */
    var completionsScheduled: nat
    /** The toggles made since mounting, oldest first. */
    ghost var history: seq<int>

    ghost predicate Valid()
      reads this
    {
      && switches == Replay(history)
      && SameWiring(InitialSwitches, switches)
      && !AllOn(switches)
      && attempts == |history|
      && message != Success
      && completionsScheduled == 0
    }

    constructor ()
      ensures Valid()
      ensures switches == InitialSwitches && attempts == 0 && message == Instructions
    {
      switches := InitialSwitches;
      attempts := 0;
      message := Instructions;
      completionsScheduled := 0;
      history := [];
      InitialWellWired();
    }

    /**
     * `handleSwitchToggle` followed by the win-check effect it triggers. Valid() records
     * that the effect never reaches its success branch, so no completion is ever scheduled.
     */
    method HandleSwitchToggle(switchId: int)
      requires Valid()
      modifies this
      ensures Valid()
      ensures switches == ToggleSwitch(switchId, old(switches))
      ensures attempts == old(attempts) + 1
      ensures message == StatusAfter(switches, attempts, old(message))
      ensures history == old(history) + [switchId]
    {
      ToggleKeepsLosing(switchId, switches);
      switches := ToggleSwitch(switchId, switches);
      attempts := attempts + 1;
      history := history + [switchId];
      assert history[..|history| - 1] == old(history);
      if AllOn(switches) {
        // The source shows the success text and schedules onComplete here;
        // ToggleKeepsLosing shows this branch is never taken.
        assert false;
      } else if attempts > 0 {
        message := Hint(attempts, OnCount(switches));
      }
    }
  }
}
