/**
 * The field PLC engine of plc/plc.go as a state machine over values: one
 * function per operation of ModbusPlc, each from the old state to the new one,
 * and the properties the engine promises, proved about those functions.
 * The class Plc.ModbusPlc is proved to follow these functions.
 *
 * The Modbus client is an oracle: every call either fails or returns a byte
 * string that may be shorter than asked for.
 */
module PlcModel {
  import opened Wrappers
  import opened Codec
  import opened PinMap

  /** The result of one Modbus read: a transport error, or the response bytes. */
  datatype Reply = Failed | Bytes(data: seq<bv8>)

  /** What the controller answers during one update: the coil write, then the two reads. */
  datatype CycleIo = CycleIo(writeOk: bool, inputs: Reply, registers: Reply)

  /** The outcome of connect(): a socket error, or a session whose forced first coil write succeeded or not. */
  datatype ConnectResult = ConnectFailed | ConnectOk(initialWriteOk: bool)

  /** The fields of ModbusPlc; `connected` stands for `handler != nil`, `notifyCount` counts Notify calls. */
  datatype PlcState = PlcState(
    address: string,
    connected: bool,
    isHealthy: bool,
    hasValidMappings: bool,
    inputMap: map<int, int>,
    coilMap: map<int, int>,
    inputs: seq<bool>,
    registers: seq<bv16>,
    coils: seq<bool>,
    oldInputs: seq<bool>,
    oldRegisters: seq<bv16>,
    oldCoils: seq<bool>,
    cycleCounter: int,
    matchResetCycles: int,
    notifyCount: nat)

  /** Array sizes fixed by the enumerations, and the ranges the two counters keep. */
  predicate WellFormed(s: PlcState) {
    && |s.inputs| == InputCount && |s.oldInputs| == InputCount
    && |s.registers| == RegisterCount && |s.oldRegisters| == RegisterCount
    && |s.coils| == CoilCount && |s.oldCoils| == CoilCount
    && 0 <= s.cycleCounter < CycleCounterMax
    && 0 <= s.matchResetCycles <= 6
  }

  function InputPin(s: PlcState, id: int): Option<int> {
    LookupPin(s.inputMap, id, InputCount)
  }

  function CoilPin(s: PlcState, id: int): Option<int> {
    LookupPin(s.coilMap, id, CoilCount)
  }

  // ---------------------------------------------------------------------------
  // Construction, configuration and health

  /** NewModbusPlcWithMaps: a missing (nil) map becomes the 1:1 map; all I/O starts zero. */
  function New(inputMap: Option<map<int, int>>, coilMap: Option<map<int, int>>): (s: PlcState)
    ensures WellFormed(s)
    ensures s.inputMap == inputMap.GetOr(IdentityMap(InputCount))
    ensures s.coilMap == coilMap.GetOr(IdentityMap(CoilCount))
    ensures s.hasValidMappings <==> |s.inputMap| == InputCount && |s.coilMap| == CoilCount
    ensures !s.connected && !s.isHealthy && s.address == ""
  {
    var im := inputMap.GetOr(IdentityMap(InputCount));
    var cm := coilMap.GetOr(IdentityMap(CoilCount));
    PlcState(
      address := "", connected := false, isHealthy := false,
      hasValidMappings := HasValidMappings(im, cm),
      inputMap := im, coilMap := cm,
      inputs := seq(InputCount, _ => false), registers := seq(RegisterCount, _ => 0),
      coils := seq(CoilCount, _ => false), oldInputs := seq(InputCount, _ => false),
      oldRegisters := seq(RegisterCount, _ => 0), oldCoils := seq(CoilCount, _ => false),
      cycleCounter := 0, matchResetCycles := 0, notifyCount := 0)
  }

  /** SetAddress: stores the address and drops any live connection. */
  function SetAddress(s: PlcState, address: string): (r: PlcState)
    ensures r.address == address && !r.connected
    ensures r.(address := s.address, connected := s.connected) == s
  {
    s.(address := address, connected := false)
  }

  predicate IsEnabled(s: PlcState) {
    s.address != ""
  }

  /** IsHealthy: the last exchange succeeded and the maps passed the size check. */
  function IsHealthy(s: PlcState): (healthy: bool)
    ensures healthy ==> s.hasValidMappings
    ensures healthy ==> s.isHealthy
    ensures s.isHealthy && s.hasValidMappings ==> healthy
  {
    s.isHealthy && s.hasValidMappings
  }

  // ---------------------------------------------------------------------------
  // Getters (inputs are active-low: a stop is active when its input reads false)

  const RedEStopInputs := [Red1EStop, Red2EStop, Red3EStop]
  const BlueEStopInputs := [Blue1EStop, Blue2EStop, Blue3EStop]
  const RedAStopInputs := [Red1AStop, Red2AStop, Red3AStop]
  const BlueAStopInputs := [Blue1AStop, Blue2AStop, Blue3AStop]
  const RedConnectedInputs := [RedConnected1, RedConnected2, RedConnected3]
  const BlueConnectedInputs := [BlueConnected1, BlueConnected2, BlueConnected3]

  /** Every logical input in `ids` resolves to a pin. */
  predicate InputsResolve(s: PlcState, ids: seq<int>) {
    forall k :: 0 <= k < |ids| ==> InputPin(s, ids[k]).Some?
  }

  /** The value read at the pin of logical input `id`. */
  function ReadInput(s: PlcState, id: int): bool
    requires WellFormed(s) && InputPin(s, id).Some?
  {
    s.inputs[InputPin(s, id).value]
  }

  /** One station-indexed reading per logical input in `ids`, negated when `activeLow`. */
  function Stations(s: PlcState, ids: seq<int>, activeLow: bool): (r: seq<bool>)
    requires WellFormed(s) && |ids| == 3 && InputsResolve(s, ids)
    ensures |r| == 3
    ensures forall k :: 0 <= k < 3 ==> r[k] == (ReadInput(s, ids[k]) != activeLow)
  {
    var v0, v1, v2 := ReadInput(s, ids[0]), ReadInput(s, ids[1]), ReadInput(s, ids[2]);
    if activeLow then [!v0, !v1, !v2] else [v0, v1, v2]
  }

  /** GetFieldEStop: true when the field E-stop input reads false. */
  function GetFieldEStop(s: PlcState): (active: bool)
    requires WellFormed(s) && InputPin(s, FieldEStop).Some?
    ensures active <==> !s.inputs[InputPin(s, FieldEStop).value]
  {
    !ReadInput(s, FieldEStop)
  }

  /** GetTeamEStops: per station, true when that station's E-stop input reads false. */
  function GetTeamEStops(s: PlcState): (stops: (seq<bool>, seq<bool>))
    requires WellFormed(s) && InputsResolve(s, RedEStopInputs) && InputsResolve(s, BlueEStopInputs)
    ensures |stops.0| == 3 && |stops.1| == 3
    ensures forall k :: 0 <= k < 3 ==> stops.0[k] == !ReadInput(s, RedEStopInputs[k])
    ensures forall k :: 0 <= k < 3 ==> stops.1[k] == !ReadInput(s, BlueEStopInputs[k])
  {
    (Stations(s, RedEStopInputs, true), Stations(s, BlueEStopInputs, true))
  }

  /** GetTeamAStops: per station, true when that station's A-stop input reads false. */
  function GetTeamAStops(s: PlcState): (stops: (seq<bool>, seq<bool>))
    requires WellFormed(s) && InputsResolve(s, RedAStopInputs) && InputsResolve(s, BlueAStopInputs)
    ensures |stops.0| == 3 && |stops.1| == 3
    ensures forall k :: 0 <= k < 3 ==> stops.0[k] == !ReadInput(s, RedAStopInputs[k])
    ensures forall k :: 0 <= k < 3 ==> stops.1[k] == !ReadInput(s, BlueAStopInputs[k])
  {
    (Stations(s, RedAStopInputs, true), Stations(s, BlueAStopInputs, true))
  }

  /** GetEthernetConnected: per station, the link-present input as read (active-high). */
  function GetEthernetConnected(s: PlcState): (links: (seq<bool>, seq<bool>))
    requires WellFormed(s) && InputsResolve(s, RedConnectedInputs) && InputsResolve(s, BlueConnectedInputs)
    ensures |links.0| == 3 && |links.1| == 3
    ensures forall k :: 0 <= k < 3 ==> links.0[k] == ReadInput(s, RedConnectedInputs[k])
    ensures forall k :: 0 <= k < 3 ==> links.1[k] == ReadInput(s, BlueConnectedInputs[k])
  {
    (Stations(s, RedConnectedInputs, false), Stations(s, BlueConnectedInputs, false))
  }

  /** Bit i of a register, `w & (1 << i) > 0`. */
  function RegisterBit(w: bv16, i: nat): bool
    requires i < 16
  {
    w & (1 << (i as bv16)) != 0
  }

  /** The bit test of GetArmorBlockStatuses: block i is connected when bit i of fieldIoConnection is set. */
  function GetArmorBlockStatuses(s: PlcState): (statuses: seq<bool>)
    requires WellFormed(s)
    ensures |statuses| == ArmorBlockCount
  {
    seq(ArmorBlockCount, i requires 0 <= i < ArmorBlockCount => RegisterBit(s.registers[FieldIoConnection], i))
  }

  // ---------------------------------------------------------------------------
  // GetCycleState, with Go's truncating integer division

  function Abs(x: int): nat {
    if x < 0 then -x else x
  }

  /** Go's `a / b`: the quotient truncated toward zero. */
  function GoQuo(a: int, b: int): (q: int)
    requires b != 0
    ensures Abs(q) == Abs(a) / Abs(b)
    ensures q != 0 ==> ((q < 0) <==> ((a < 0) != (b < 0)))
  {
    var m: int := NatQuo(Abs(a), Abs(b));
    if (a < 0) == (b < 0) then m else -m
  }

  /** The quotient of naturals, itself natural. */
  function NatQuo(x: nat, y: nat): nat
    requires y > 0
  {
    x / y
  }

  /** Go's `a % b`: the remainder that goes with GoQuo, taking the sign of a. */
  function GoRem(a: int, b: int): (r: int)
    requires b != 0
    ensures a == GoQuo(a, b) * b + r
    ensures Abs(r) < Abs(b)
    ensures r != 0 ==> ((r < 0) <==> (a < 0))
  {
    var r := Abs(a) % Abs(b);
    if a < 0 then -r else r
  }

  /** GetCycleState: `cycleCounter / duration % max == index`; a zero divisor panics in the source. */
  predicate GetCycleState(counter: int, max: int, index: int, duration: int)
    requires duration != 0 && max != 0
  {
    GoRem(GoQuo(counter, duration), max) == index
  }

  // ---------------------------------------------------------------------------
  // Setters

  /** Writes one logical coil through the coil map. */
  function SetCoil(s: PlcState, c: int, value: bool): (r: PlcState)
    requires WellFormed(s) && CoilPin(s, c).Some?
    ensures WellFormed(r)
    ensures r.coils[CoilPin(s, c).value] == value
    ensures forall p :: 0 <= p < CoilCount && p != CoilPin(s, c).value ==> r.coils[p] == s.coils[p]
    ensures r.(coils := s.coils) == s
  {
    s.(coils := s.coils[CoilPin(s, c).value := value])
  }

  /** Every logical coil in `ids` resolves to a pin. */
  predicate CoilsResolve(s: PlcState, ids: seq<int>) {
    forall k :: 0 <= k < |ids| ==> CoilPin(s, ids[k]).Some?
  }

  const StackLightCoils := [StackLightRed, StackLightBlue, StackLightOrange, StackLightGreen]
  const RedTrussCoils := [RedTrussLightOuter, RedTrussLightMiddle, RedTrussLightInner]
  const BlueTrussCoils := [BlueTrussLightOuter, BlueTrussLightMiddle, BlueTrussLightInner]

  /** Writes values[k] to logical coil ids[k], in order (a later write to a shared pin wins). */
  function SetCoils(s: PlcState, ids: seq<int>, values: seq<bool>): (r: PlcState)
    requires WellFormed(s) && |ids| == |values| && CoilsResolve(s, ids)
    ensures WellFormed(r) && r.(coils := s.coils) == s
    decreases |ids|
  {
    if ids == [] then s
    else SetCoils(SetCoil(s, ids[0], values[0]), ids[1..], values[1..])
  }

  /** Pin p is the pin of one of the logical coils in `ids`. */
  predicate PinAmong(s: PlcState, ids: seq<int>, p: int) {
    exists k :: 0 <= k < |ids| && CoilPin(s, ids[k]) == Some(p)
  }

  /** The logical coils in `ids` go to pairwise different pins. */
  predicate DistinctCoilPins(s: PlcState, ids: seq<int>) {
    forall a, b :: 0 <= a < b < |ids| ==> CoilPin(s, ids[a]) != CoilPin(s, ids[b])
  }

  /**
   * Writing coils whose pins differ: each coil's pin holds its value, and
   * every pin none of them maps to keeps its old value.
   */
  lemma {:induction false} SetCoilsEffect(s: PlcState, ids: seq<int>, values: seq<bool>)
    requires WellFormed(s) && |ids| == |values| && CoilsResolve(s, ids) && DistinctCoilPins(s, ids)
    ensures var r := SetCoils(s, ids, values);
      && (forall k :: 0 <= k < |ids| ==> r.coils[CoilPin(s, ids[k]).value] == values[k])
      && (forall p :: 0 <= p < CoilCount && !PinAmong(s, ids, p) ==> r.coils[p] == s.coils[p])
    decreases |ids|
  {
    if ids != [] {
      var s1 := SetCoil(s, ids[0], values[0]);
      var tail, rest := ids[1..], values[1..];
      assert s1.coilMap == s.coilMap;
      assert CoilsResolve(s1, tail) by {
        forall j | 0 <= j < |tail| ensures CoilPin(s1, tail[j]).Some? {
          assert tail[j] == ids[j + 1];
        }
      }
      assert DistinctCoilPins(s1, tail) by {
        forall a, b | 0 <= a < b < |tail| ensures CoilPin(s1, tail[a]) != CoilPin(s1, tail[b]) {
          assert tail[a] == ids[a + 1] && tail[b] == ids[b + 1];
        }
      }
      SetCoilsEffect(s1, tail, rest);
      var r := SetCoils(s, ids, values);
      assert r == SetCoils(s1, tail, rest);
      var p0 := CoilPin(s, ids[0]).value;
      assert !PinAmong(s1, tail, p0) by {
        forall j | 0 <= j < |tail| ensures CoilPin(s1, tail[j]) != Some(p0) {
          assert tail[j] == ids[j + 1];
        }
      }
      forall k | 0 <= k < |ids| ensures r.coils[CoilPin(s, ids[k]).value] == values[k] {
        if k > 0 {
          assert tail[k - 1] == ids[k] && rest[k - 1] == values[k];
        }
      }
      forall p | 0 <= p < CoilCount && !PinAmong(s, ids, p) ensures r.coils[p] == s.coils[p] {
        assert p != p0;
        assert !PinAmong(s1, tail, p) by {
          forall j | 0 <= j < |tail| ensures CoilPin(s1, tail[j]) != Some(p) {
            assert tail[j] == ids[j + 1];
          }
        }
      }
    }
  }

  /** SetStackLights: red, blue, orange, green, in that order. */
  function SetStackLights(s: PlcState, red: bool, blue: bool, orange: bool, green: bool): (r: PlcState)
    requires WellFormed(s) && CoilsResolve(s, StackLightCoils)
    ensures WellFormed(r) && r.(coils := s.coils) == s
  {
    SetCoils(s, StackLightCoils, [red, blue, orange, green])
  }

  /** SetTrussLights: outer, middle, inner for red, then for blue. */
  function SetTrussLights(s: PlcState, redLights: seq<bool>, blueLights: seq<bool>): (r: PlcState)
    requires WellFormed(s) && |redLights| == 3 && |blueLights| == 3
    requires CoilsResolve(s, RedTrussCoils) && CoilsResolve(s, BlueTrussCoils)
    ensures WellFormed(r) && r.(coils := s.coils) == s
  {
    SetCoils(SetCoils(s, RedTrussCoils, redLights), BlueTrussCoils, blueLights)
  }

  /**
   * With the four stack-light coils on different pins, each light's pin holds
   * its argument and every other pin keeps its value.
   */
  lemma StackLightsEffect(s: PlcState, red: bool, blue: bool, orange: bool, green: bool)
    requires WellFormed(s) && CoilsResolve(s, StackLightCoils) && DistinctCoilPins(s, StackLightCoils)
    ensures var r := SetStackLights(s, red, blue, orange, green);
      && (forall k :: 0 <= k < 4 ==> r.coils[CoilPin(s, StackLightCoils[k]).value] == [red, blue, orange, green][k])
      && (forall p :: 0 <= p < CoilCount && !PinAmong(s, StackLightCoils, p) ==> r.coils[p] == s.coils[p])
  {
    SetCoilsEffect(s, StackLightCoils, [red, blue, orange, green]);
  }

  /**
   * With the six truss-light coils on different pins, the red outer, middle and
   * inner pins hold redLights, the blue ones blueLights, and every other pin keeps its value.
   */
  lemma TrussLightsEffect(s: PlcState, redLights: seq<bool>, blueLights: seq<bool>)
    requires WellFormed(s) && |redLights| == 3 && |blueLights| == 3
    requires CoilsResolve(s, RedTrussCoils) && CoilsResolve(s, BlueTrussCoils)
    requires DistinctCoilPins(s, RedTrussCoils + BlueTrussCoils)
    ensures var r := SetTrussLights(s, redLights, blueLights);
      && (forall k :: 0 <= k < 3 ==> r.coils[CoilPin(s, RedTrussCoils[k]).value] == redLights[k])
      && (forall k :: 0 <= k < 3 ==> r.coils[CoilPin(s, BlueTrussCoils[k]).value] == blueLights[k])
      && (forall p :: 0 <= p < CoilCount && !PinAmong(s, RedTrussCoils + BlueTrussCoils, p) ==> r.coils[p] == s.coils[p])
  {
    var all := RedTrussCoils + BlueTrussCoils;
    assert forall k :: 0 <= k < 3 ==> all[k] == RedTrussCoils[k] && all[k + 3] == BlueTrussCoils[k];
    assert DistinctCoilPins(s, RedTrussCoils);
    assert DistinctCoilPins(s, BlueTrussCoils) by {
      forall a, b | 0 <= a < b < 3 ensures CoilPin(s, BlueTrussCoils[a]) != CoilPin(s, BlueTrussCoils[b]) {
        assert CoilPin(s, all[a + 3]) != CoilPin(s, all[b + 3]);
      }
    }
    SetCoilsEffect(s, RedTrussCoils, redLights);
    var m := SetCoils(s, RedTrussCoils, redLights);
    assert m.coilMap == s.coilMap;
    SetCoilsEffect(m, BlueTrussCoils, blueLights);
    var r := SetTrussLights(s, redLights, blueLights);
    forall k | 0 <= k < 3 ensures r.coils[CoilPin(s, RedTrussCoils[k]).value] == redLights[k] {
      var p := CoilPin(s, RedTrussCoils[k]).value;
      assert !PinAmong(m, BlueTrussCoils, p) by {
        forall j | 0 <= j < 3 ensures CoilPin(m, BlueTrussCoils[j]) != Some(p) {
          assert CoilPin(s, all[k]) != CoilPin(s, all[j + 3]);
        }
      }
    }
    forall p | 0 <= p < CoilCount && !PinAmong(s, all, p) ensures r.coils[p] == s.coils[p] {
      assert !PinAmong(s, RedTrussCoils, p) by {
        forall j | 0 <= j < 3 ensures CoilPin(s, RedTrussCoils[j]) != Some(p) {
          assert all[j] == RedTrussCoils[j];
        }
      }
      assert !PinAmong(m, BlueTrussCoils, p) by {
        forall j | 0 <= j < 3 ensures CoilPin(m, BlueTrussCoils[j]) != Some(p) {
          assert all[j + 3] == BlueTrussCoils[j];
        }
      }
    }
  }

  /** The default 1:1 coil map puts the stack lights and the six truss lights on different pins. */
  lemma DefaultLightPinsDistinct(s: PlcState)
    requires s.coilMap == IdentityMap(CoilCount)
    ensures CoilsResolve(s, StackLightCoils) && DistinctCoilPins(s, StackLightCoils)
    ensures CoilsResolve(s, RedTrussCoils) && CoilsResolve(s, BlueTrussCoils)
    ensures DistinctCoilPins(s, RedTrussCoils + BlueTrussCoils)
  {
    forall id | 0 <= id < CoilCount ensures CoilPin(s, id) == Some(id) {
      IdentityLookup(CoilCount, id);
    }
  }

  /** ResetMatch: raise the match-reset coil, restart its pulse count, clear registers 1 and 2. */
  function ResetMatch(s: PlcState): (r: PlcState)
    requires WellFormed(s) && CoilPin(s, MatchReset).Some?
    ensures WellFormed(r)
  {
    s.(coils := s.coils[CoilPin(s, MatchReset).value := true],
       matchResetCycles := 0,
       registers := [s.registers[FieldIoConnection], 0, 0])
  }

  // ---------------------------------------------------------------------------
  // One exchange with the controller

  /** writeCoils never panics: the heartbeat resolves, and so does the reset coil when it is cleared. */
  predicate WriteCoilsSafe(s: PlcState, ok: bool) {
    CoilPin(s, Heartbeat).Some? && (ok && s.matchResetCycles > 5 ==> CoilPin(s, MatchReset).Some?)
  }

  /** The coils with the heartbeat raised, as writeCoils sets them before sending. */
  function WithHeartbeat(s: PlcState): (r: PlcState)
    requires WellFormed(s) && CoilPin(s, Heartbeat).Some?
    ensures WellFormed(r)
  {
    s.(coils := s.coils[CoilPin(s, Heartbeat).value := true])
  }

  /** The bytes writeCoils sends with Write Multiple Coils. */
  function WritePayload(s: PlcState): (bytes: seq<bv8>)
    requires WellFormed(s) && CoilPin(s, Heartbeat).Some?
    ensures |bytes| == 2
  {
    PackBits(WithHeartbeat(s).coils)
  }

  /**
   * writeCoils: raise the heartbeat and send all coils; after a successful write
   * either end the match-reset pulse (more than five writes since the reset) or count it.
   */
  function WriteCoils(s: PlcState, ok: bool): (r: PlcState)
    requires WellFormed(s) && WriteCoilsSafe(s, ok)
    ensures WellFormed(r) && SameConfig(s, r) && SameNotified(s, r)
  {
    var h := WithHeartbeat(s);
    if !ok then h
    else if h.matchResetCycles > 5 then h.(coils := h.coils[CoilPin(s, MatchReset).value := false])
    else h.(matchResetCycles := h.matchResetCycles + 1)
  }

  /** readInputs accepts a reply that holds at least one bit per input. */
  predicate InputsReplyOk(reply: Reply) {
    reply.Bytes? && |reply.data| * 8 >= InputCount
  }

  /** readRegisters accepts a reply that holds at least one word per register. */
  predicate RegistersReplyOk(reply: Reply) {
    reply.Bytes? && |reply.data| / 2 >= RegisterCount
  }

  /** The three operations of a cycle all succeed. */
  predicate CycleSucceeds(io: CycleIo) {
    io.writeOk && InputsReplyOk(io.inputs) && RegistersReplyOk(io.registers)
  }

  /** resetConnection after a failure, and the failed health flag. */
  function Disconnect(s: PlcState): PlcState {
    s.(connected := false, isHealthy := false)
  }

  /** The exchange of a connected update: write, read inputs, read registers, stopping at the first failure. */
  function Exchange(s: PlcState, io: CycleIo): (r: PlcState)
    requires WellFormed(s) && WriteCoilsSafe(s, io.writeOk)
    ensures WellFormed(r) && SameConfig(s, r) && SameNotified(s, r)
  {
    var w := WriteCoils(s, io.writeOk);
    if !io.writeOk || !InputsReplyOk(io.inputs) then Disconnect(w)
    else
      var i := w.(inputs := UnpackBits(io.inputs.data, InputCount));
      if !RegistersReplyOk(io.registers) then Disconnect(i)
      else i.(registers := DecodeWords(io.registers.data, RegisterCount), isHealthy := true)
  }

  /** The cycle counter advance: increment, wrapping to 0 at cycleCounterMax. */
  function NextCycle(n: int): (next: int)
    ensures 0 <= n < CycleCounterMax ==> 0 <= next < CycleCounterMax && next == (n + 1) % CycleCounterMax
  {
    if n + 1 == CycleCounterMax then 0 else n + 1
  }

  /** Anything differs from the copies taken at the last notification. */
  predicate Changed(s: PlcState) {
    s.inputs != s.oldInputs || s.registers != s.oldRegisters || s.coils != s.oldCoils
  }

  /** Notify once and take new copies when anything changed. */
  function Publish(s: PlcState): (r: PlcState)
    ensures r.oldInputs == r.inputs && r.oldRegisters == r.registers && r.oldCoils == r.coils
    ensures r.notifyCount == s.notifyCount + 1 <==> Changed(s)
    ensures r.notifyCount == s.notifyCount || r.notifyCount == s.notifyCount + 1
    ensures r.(oldInputs := s.oldInputs, oldRegisters := s.oldRegisters, oldCoils := s.oldCoils, notifyCount := s.notifyCount) == s
  {
    if Changed(s) then
      s.(notifyCount := s.notifyCount + 1, oldInputs := s.inputs, oldRegisters := s.registers, oldCoils := s.coils)
    else s
  }

  /** The exchange of `update` is safe to run. */
  predicate UpdateSafe(s: PlcState, io: CycleIo) {
    s.connected ==> WriteCoilsSafe(s, io.writeOk)
  }

  /** The configuration fields, which only the constructor and SetAddress write. */
  predicate SameConfig(s: PlcState, r: PlcState) {
    r.address == s.address && r.hasValidMappings == s.hasValidMappings
    && r.inputMap == s.inputMap && r.coilMap == s.coilMap
  }

  /** The copies of the last notification and the notification count. */
  predicate SameNotified(s: PlcState, r: PlcState) {
    r.oldInputs == s.oldInputs && r.oldRegisters == s.oldRegisters && r.oldCoils == s.oldCoils
    && r.notifyCount == s.notifyCount
  }

  /** The first part of update: the exchange when connected, then the cycle counter advance. */
  function Advance(s: PlcState, io: CycleIo): (e: PlcState)
    requires WellFormed(s) && UpdateSafe(s, io)
    ensures WellFormed(e) && SameConfig(s, e) && SameNotified(s, e)
    ensures e.cycleCounter == NextCycle(s.cycleCounter)
  {
    var e := if s.connected then Exchange(s, io) else s;
    e.(cycleCounter := NextCycle(e.cycleCounter))
  }

  /** update: exchange when connected, advance the cycle counter, notify on change. */
  function Update(s: PlcState, io: CycleIo): (r: PlcState)
    requires WellFormed(s) && UpdateSafe(s, io)
    ensures WellFormed(r) && SameConfig(s, r)
  {
    Publish(Advance(s, io))
  }

  /** One iteration of Run never panics. */
  predicate RunStepSafe(s: PlcState, conn: ConnectResult, io: CycleIo)
    requires WellFormed(s)
  {
    if s.connected then WriteCoilsSafe(s, io.writeOk)
    else if !IsEnabled(s) then true
    else match conn
      case ConnectFailed => true
      case ConnectOk(w) =>
        WriteCoilsSafe(s, w) && WriteCoilsSafe(WriteCoils(s.(connected := true), w), io.writeOk)
  }

  /**
   * One iteration of Run, without the sleeps: with no handler, a disabled PLC
   * is marked unhealthy and still updated; an enabled one connects, and a failed
   * connect marks it unhealthy and skips the update; a successful connect forces
   * one coil write, whose result is ignored, before the update.
   */
  function RunStep(s: PlcState, conn: ConnectResult, io: CycleIo): (r: PlcState)
    requires WellFormed(s) && RunStepSafe(s, conn, io)
    ensures WellFormed(r) && SameConfig(s, r)
  {
    if s.connected then Update(s, io)
    else if !IsEnabled(s) then Update(s.(isHealthy := false), io)
    else match conn
      case ConnectFailed => s.(isHealthy := false)
      case ConnectOk(w) => Update(WriteCoils(s.(connected := true), w), io)
  }
}
