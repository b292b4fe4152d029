/**
 * ModbusPlc of plc/plc.go as a class: the I/O snapshots are fixed-size arrays
 * updated in place, and every method is proved to move the object's state
 * exactly as the matching PlcModel function does.
 */
module Plc {
  import opened Wrappers
  import opened Codec
  import opened PinMap
  import opened PlcModel

  class ModbusPlc {
    var address: string
    var connected: bool  // handler != nil
    var isHealthy: bool
    const hasValidMappings: bool
    const inputMap: map<int, int>
    const coilMap: map<int, int>
    const inputs: array<bool>
    const registers: array<bv16>
    const coils: array<bool>
    const oldInputs: array<bool>
    const oldRegisters: array<bv16>
    const oldCoils: array<bool>
    var cycleCounter: int
    var matchResetCycles: int
    var notifyCount: nat  // calls to ioChangeNotifier.Notify

    /** The arrays have their enumeration's size, are distinct, and the counters are in range. */
    ghost predicate Valid()
      reads this
    {
      && inputs.Length == InputCount && oldInputs.Length == InputCount
      && registers.Length == RegisterCount && oldRegisters.Length == RegisterCount
      && coils.Length == CoilCount && oldCoils.Length == CoilCount
      && inputs != oldInputs && inputs != coils && inputs != oldCoils
      && oldInputs != coils && oldInputs != oldCoils && coils != oldCoils
      && registers != oldRegisters
      && 0 <= cycleCounter < CycleCounterMax
      && 0 <= matchResetCycles <= 6
    }

    /** The object's fields as a PlcModel state. */
    ghost function State(): PlcState
      reads this, inputs, registers, coils, oldInputs, oldRegisters, oldCoils
    {
      PlcState(
        address, connected, isHealthy, hasValidMappings, inputMap, coilMap,
        inputs[..], registers[..], coils[..], oldInputs[..], oldRegisters[..], oldCoils[..],
        cycleCounter, matchResetCycles, notifyCount)
    }

    /** NewModbusPlcWithMaps; `None` plays the part of a nil map. */
    constructor WithMaps(inputMapArg: Option<map<int, int>>, coilMapArg: Option<map<int, int>>)
      ensures Valid() && State() == New(inputMapArg, coilMapArg)
      ensures fresh(inputs) && fresh(registers) && fresh(coils)
      ensures fresh(oldInputs) && fresh(oldRegisters) && fresh(oldCoils)
    {
      var im, cm;
      if inputMapArg.None? {
        im := DefaultMap(InputCount);
      } else {
        im := inputMapArg.value;
      }
      if coilMapArg.None? {
        cm := DefaultMap(CoilCount);
      } else {
        cm := coilMapArg.value;
      }
      address := "";
      connected := false;
      isHealthy := false;
      inputMap := im;
      coilMap := cm;
      hasValidMappings := HasValidMappings(im, cm);
      inputs := new bool[InputCount](_ => false);
      registers := new bv16[RegisterCount](_ => 0);
      coils := new bool[CoilCount](_ => false);
      oldInputs := new bool[InputCount](_ => false);
      oldRegisters := new bv16[RegisterCount](_ => 0);
      oldCoils := new bool[CoilCount](_ => false);
      cycleCounter := 0;
      matchResetCycles := 0;
      notifyCount := 0;
      new;
      assert inputs[..] == seq(InputCount, _ => false) && oldInputs[..] == seq(InputCount, _ => false);
      assert registers[..] == seq(RegisterCount, _ => 0) && oldRegisters[..] == seq(RegisterCount, _ => 0);
      assert coils[..] == seq(CoilCount, _ => false) && oldCoils[..] == seq(CoilCount, _ => false);
    }

    /** getInputPin without its panics: the pin of a logical input, if the map gives a valid one. */
    function InputPinOf(id: int): (pin: Option<int>)
      ensures pin.Some? <==> id in inputMap && 0 <= inputMap[id] < InputCount
      ensures pin.Some? ==> pin.value == inputMap[id]
    {
      LookupPin(inputMap, id, InputCount)
    }

    /** getCoilPin without its panics. */
    function CoilPinOf(id: int): (pin: Option<int>)
      ensures pin.Some? <==> id in coilMap && 0 <= coilMap[id] < CoilCount
      ensures pin.Some? ==> pin.value == coilMap[id]
    {
      LookupPin(coilMap, id, CoilCount)
    }

    method SetAddress(newAddress: string)
      requires Valid()
      modifies this
      ensures Valid() && State() == PlcModel.SetAddress(old(State()), newAddress)
    {
      address := newAddress;
      connected := false;
    }

    function IsEnabled(): (enabled: bool)
      reads this
      ensures enabled <==> address != ""
    {
      address != ""
    }

    /** IsHealthy: the model's verdict on the current state. */
    function IsHealthy(): (healthy: bool)
      reads this, inputs, registers, coils, oldInputs, oldRegisters, oldCoils
      ensures healthy == PlcModel.IsHealthy(State())
    {
      isHealthy && hasValidMappings
    }

    function GetFieldEStop(): (active: bool)
      reads this, inputs, registers, coils, oldInputs, oldRegisters, oldCoils
      requires Valid() && InputPin(State(), FieldEStop).Some?
      ensures active == PlcModel.GetFieldEStop(State())
    {
      !inputs[InputPinOf(FieldEStop).value]
    }

    /** The three station readings of `ids`, negated when `activeLow`. */
    function StationsOf(ids: seq<int>, activeLow: bool): (r: seq<bool>)
      reads this, inputs, registers, coils, oldInputs, oldRegisters, oldCoils
      requires Valid() && |ids| == 3 && InputsResolve(State(), ids)
      ensures r == Stations(State(), ids, activeLow)
    {
      var v0, v1, v2 := inputs[InputPinOf(ids[0]).value], inputs[InputPinOf(ids[1]).value], inputs[InputPinOf(ids[2]).value];
      if activeLow then [!v0, !v1, !v2] else [v0, v1, v2]
    }

    function GetTeamEStops(): (stops: (seq<bool>, seq<bool>))
      reads this, inputs, registers, coils, oldInputs, oldRegisters, oldCoils
      requires Valid() && InputsResolve(State(), RedEStopInputs) && InputsResolve(State(), BlueEStopInputs)
      ensures stops == PlcModel.GetTeamEStops(State())
    {
      (StationsOf(RedEStopInputs, true), StationsOf(BlueEStopInputs, true))
    }

    function GetTeamAStops(): (stops: (seq<bool>, seq<bool>))
      reads this, inputs, registers, coils, oldInputs, oldRegisters, oldCoils
      requires Valid() && InputsResolve(State(), RedAStopInputs) && InputsResolve(State(), BlueAStopInputs)
      ensures stops == PlcModel.GetTeamAStops(State())
    {
      (StationsOf(RedAStopInputs, true), StationsOf(BlueAStopInputs, true))
    }

    function GetEthernetConnected(): (links: (seq<bool>, seq<bool>))
      reads this, inputs, registers, coils, oldInputs, oldRegisters, oldCoils
      requires Valid() && InputsResolve(State(), RedConnectedInputs) && InputsResolve(State(), BlueConnectedInputs)
      ensures links == PlcModel.GetEthernetConnected(State())
    {
      (StationsOf(RedConnectedInputs, false), StationsOf(BlueConnectedInputs, false))
    }

    function GetArmorBlockStatuses(): (statuses: seq<bool>)
      reads this, inputs, registers, coils, oldInputs, oldRegisters, oldCoils
      requires Valid()
      ensures statuses == PlcModel.GetArmorBlockStatuses(State())
    {
      var w := registers[FieldIoConnection];
      [RegisterBit(w, 0), RegisterBit(w, 1), RegisterBit(w, 2), RegisterBit(w, 3)]
    }

    function GetCycleState(max: int, index: int, duration: int): (on: bool)
      reads this
      requires duration != 0 && max != 0
      ensures on == PlcModel.GetCycleState(cycleCounter, max, index, duration)
    {
      GoRem(GoQuo(cycleCounter, duration), max) == index
    }

    /** Writes one logical coil through the coil map. */
    method SetCoil(c: int, value: bool)
      requires Valid() && CoilPin(State(), c).Some?
      modifies coils
      ensures Valid() && State() == PlcModel.SetCoil(old(State()), c, value)
    {
      coils[CoilPinOf(c).value] := value;
    }

    method ResetMatch()
      requires Valid() && CoilPin(State(), MatchReset).Some?
      modifies this, coils, registers
      ensures Valid() && State() == PlcModel.ResetMatch(old(State()))
    {
      coils[CoilPinOf(MatchReset).value] := true;
      matchResetCycles := 0;
      var i := 1;
      while i < RegisterCount
        modifies registers
        invariant 1 <= i <= RegisterCount
        invariant registers[0] == old(registers[0])
        invariant forall k :: 1 <= k < i ==> registers[k] == 0
      {
        registers[i] := 0;
        i := i + 1;
      }
      assert registers[..] == [old(registers[0]), 0, 0];
    }

    method SetStackLights(red: bool, blue: bool, orange: bool, green: bool)
      requires Valid() && CoilsResolve(State(), StackLightCoils)
      modifies coils
      ensures Valid() && State() == PlcModel.SetStackLights(old(State()), red, blue, orange, green)
    {
      ghost var s := State();
      assert CoilPin(s, StackLightCoils[0]).Some? && CoilPin(s, StackLightCoils[1]).Some?;
      assert CoilPin(s, StackLightCoils[2]).Some? && CoilPin(s, StackLightCoils[3]).Some?;
      SetCoil(StackLightRed, red);
      SetCoil(StackLightBlue, blue);
      SetCoil(StackLightOrange, orange);
      SetCoil(StackLightGreen, green);
      SetFourCoils(s, StackLightCoils, [red, blue, orange, green]);
    }

    method SetStackBuzzer(state: bool)
      requires Valid() && CoilPin(State(), StackLightBuzzer).Some?
      modifies coils
      ensures Valid() && State() == PlcModel.SetCoil(old(State()), StackLightBuzzer, state)
    {
      SetCoil(StackLightBuzzer, state);
    }

    method SetFieldResetLight(state: bool)
      requires Valid() && CoilPin(State(), FieldResetLight).Some?
      modifies coils
      ensures Valid() && State() == PlcModel.SetCoil(old(State()), FieldResetLight, state)
    {
      SetCoil(FieldResetLight, state);
    }

    method SetTrussLights(redLights: seq<bool>, blueLights: seq<bool>)
      requires Valid() && |redLights| == 3 && |blueLights| == 3
      requires CoilsResolve(State(), RedTrussCoils) && CoilsResolve(State(), BlueTrussCoils)
      modifies coils
      ensures Valid() && State() == PlcModel.SetTrussLights(old(State()), redLights, blueLights)
    {
      ghost var s := State();
      assert CoilPin(s, RedTrussCoils[0]).Some? && CoilPin(s, RedTrussCoils[1]).Some? && CoilPin(s, RedTrussCoils[2]).Some?;
      assert CoilPin(s, BlueTrussCoils[0]).Some? && CoilPin(s, BlueTrussCoils[1]).Some? && CoilPin(s, BlueTrussCoils[2]).Some?;
      SetCoil(RedTrussLightOuter, redLights[0]);
      SetCoil(RedTrussLightMiddle, redLights[1]);
      SetCoil(RedTrussLightInner, redLights[2]);
      ghost var m := State();
      SetThreeCoils(s, RedTrussCoils, redLights);
      SetCoil(BlueTrussLightOuter, blueLights[0]);
      SetCoil(BlueTrussLightMiddle, blueLights[1]);
      SetCoil(BlueTrussLightInner, blueLights[2]);
      SetThreeCoils(m, BlueTrussCoils, blueLights);
    }

    /**
     * writeCoils against a controller that accepts the write when `accepted`:
     * returns the bytes sent and whether the write succeeded.
     */
    method WriteCoils(accepted: bool) returns (success: bool, payload: seq<bv8>)
      requires Valid() && WriteCoilsSafe(State(), accepted)
      modifies this, coils
      ensures success == accepted
      ensures payload == WritePayload(old(State()))
      ensures Valid() && State() == PlcModel.WriteCoils(old(State()), accepted)
    {
      coils[CoilPinOf(Heartbeat).value] := true;
      payload := BoolToByte(coils[..]);
      if !accepted {
        return false, payload;
      }
      if matchResetCycles > 5 {
        coils[CoilPinOf(MatchReset).value] := false;
      } else {
        matchResetCycles := matchResetCycles + 1;
      }
      success := true;
    }

    /** readInputs: takes the reply's bits when it holds one per input. */
    method ReadInputs(reply: Reply) returns (ok: bool)
      requires Valid()
      modifies inputs
      ensures ok == InputsReplyOk(reply)
      ensures Valid()
      ensures State() == if ok then old(State()).(inputs := UnpackBits(reply.data, InputCount)) else old(State())
    {
      if reply.Failed? || |reply.data| * 8 < InputCount {
        return false;
      }
      var bools := ByteToBool(reply.data, InputCount);
      forall i | 0 <= i < InputCount {
        inputs[i] := bools[i];
      }
      assert inputs[..] == bools;
      ok := true;
    }

    /** readRegisters: takes the reply's words when it holds one per register. */
    method ReadRegisters(reply: Reply) returns (ok: bool)
      requires Valid()
      modifies registers
      ensures ok == RegistersReplyOk(reply)
      ensures Valid()
      ensures State() == if ok then old(State()).(registers := DecodeWords(reply.data, RegisterCount)) else old(State())
    {
      if reply.Failed? || |reply.data| / 2 < RegisterCount {
        return false;
      }
      var words := ByteToUint(reply.data, RegisterCount);
      forall i | 0 <= i < RegisterCount {
        registers[i] := words[i];
      }
      assert registers[..] == words;
      ok := true;
    }

    /** The exchange of update when connected: write, read inputs, read registers, stop at the first failure. */
    method Exchange(io: CycleIo)
      requires Valid() && connected && WriteCoilsSafe(State(), io.writeOk)
      modifies this, coils, inputs, registers
      ensures Valid() && State() == PlcModel.Exchange(old(State()), io)
    {
      var healthy, _ := WriteCoils(io.writeOk);
      if healthy {
        healthy := ReadInputs(io.inputs);
      }
      if healthy {
        healthy := ReadRegisters(io.registers);
      }
      if !healthy {
        connected := false;
      }
      isHealthy := healthy;
    }

    /** Copies the snapshot into the old copies, as after a notification. */
    method CopyToOld()
      requires Valid()
      modifies oldInputs, oldRegisters, oldCoils
      ensures Valid()
      ensures State() == old(State()).(oldInputs := inputs[..], oldRegisters := registers[..], oldCoils := coils[..])
    {
      forall i | 0 <= i < InputCount {
        oldInputs[i] := inputs[i];
      }
      forall i | 0 <= i < RegisterCount {
        oldRegisters[i] := registers[i];
      }
      forall i | 0 <= i < CoilCount {
        oldCoils[i] := coils[i];
      }
      assert oldInputs[..] == inputs[..];
      assert oldRegisters[..] == registers[..];
      assert oldCoils[..] == coils[..];
    }

    /** The first part of update: the exchange when connected, then the cycle counter advance and wrap. */
    method Advance(io: CycleIo)
      requires Valid() && UpdateSafe(State(), io)
      modifies this, inputs, registers, coils
      ensures Valid() && State() == PlcModel.Advance(old(State()), io)
    {
      if connected {
        Exchange(io);
      }
      cycleCounter := cycleCounter + 1;
      if cycleCounter == CycleCounterMax {
        cycleCounter := 0;
      }
    }

    /** The last part of update: notify and take new copies when anything changed. */
    method Publish()
      requires Valid()
      modifies this, oldInputs, oldRegisters, oldCoils
      ensures Valid() && State() == PlcModel.Publish(old(State()))
    {
      if inputs[..] != oldInputs[..] || registers[..] != oldRegisters[..] || coils[..] != oldCoils[..] {
        notifyCount := notifyCount + 1;
        CopyToOld();
      }
    }

    /** update: the exchange when connected, the cycle counter, and the change notification. */
    method Update(io: CycleIo)
      requires Valid() && UpdateSafe(State(), io)
      modifies this, inputs, registers, coils, oldInputs, oldRegisters, oldCoils
      ensures Valid() && State() == PlcModel.Update(old(State()), io)
    {
      Advance(io);
      Publish();
    }

    /** One iteration of Run, with `conn` the outcome of connect() if it is attempted. */
    method RunStep(conn: ConnectResult, io: CycleIo)
      requires Valid() && RunStepSafe(State(), conn, io)
      modifies this, inputs, registers, coils, oldInputs, oldRegisters, oldCoils
      ensures Valid() && State() == PlcModel.RunStep(old(State()), conn, io)
    {
      if !connected {
        if !IsEnabled() {
          isHealthy := false;
        } else if conn.ConnectFailed? {
          isHealthy := false;
          return;
        } else {
          connected := true;
          var _, _ := WriteCoils(conn.initialWriteOk);
        }
      }
      Update(io);
    }
  }

  /** Four SetCoil steps in a row are SetCoils over the four ids. */
  lemma SetFourCoils(s: PlcState, ids: seq<int>, values: seq<bool>)
    requires WellFormed(s) && |ids| == 4 && |values| == 4 && CoilsResolve(s, ids)
    ensures SetCoils(s, ids, values) ==
      SetCoil(SetCoil(SetCoil(SetCoil(s, ids[0], values[0]), ids[1], values[1]), ids[2], values[2]), ids[3], values[3])
  {
    var s1 := SetCoil(s, ids[0], values[0]);
    SetThreeCoils(s1, ids[1..], values[1..]);
  }

  /** Three SetCoil steps in a row are SetCoils over the three ids. */
  lemma SetThreeCoils(s: PlcState, ids: seq<int>, values: seq<bool>)
    requires WellFormed(s) && |ids| == 3 && |values| == 3 && CoilsResolve(s, ids)
    ensures SetCoils(s, ids, values) ==
      SetCoil(SetCoil(SetCoil(s, ids[0], values[0]), ids[1], values[1]), ids[2], values[2])
  {
    var s1 := SetCoil(s, ids[0], values[0]);
    var s2 := SetCoil(s1, ids[1], values[1]);
    var s3 := SetCoil(s2, ids[2], values[2]);
    assert SetCoils(s3, ids[1..][1..][1..], values[1..][1..][1..]) == s3;
    assert SetCoils(s2, ids[1..][1..], values[1..][1..]) == s3;
    assert SetCoils(s1, ids[1..], values[1..]) == s3;
  }
}
