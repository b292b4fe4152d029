/**
 * Logical addresses of the field PLC and the maps from them to physical pins
 * (plc/plc.go). Inputs, registers and coils are Go `int` enumerations, so a
 * logical id is an `int` and a pin map is a `map<int, int>`.
 */
module PinMap {
  import opened Wrappers

  // Connection parameters and loop timing.
  const ModbusPort := 502
  const PlcLoopPeriodMs := 100
  const PlcRetryIntervalSec := 3
  const CycleCounterMax := 100

  // Discrete inputs.
  const FieldEStop := 0
  const Red1EStop := 1
  const Red1AStop := 2
  const Red2EStop := 3
  const Red2AStop := 4
  const Red3EStop := 5
  const Red3AStop := 6
  const Blue1EStop := 7
  const Blue1AStop := 8
  const Blue2EStop := 9
  const Blue2AStop := 10
  const Blue3EStop := 11
  const Blue3AStop := 12
  const RedConnected1 := 13
  const RedConnected2 := 14
  const RedConnected3 := 15
  const BlueConnected1 := 16
  const BlueConnected2 := 17
  const BlueConnected3 := 18
  const InputCount := 19

  // 16-bit registers.
  const FieldIoConnection := 0
  const RedProcessor := 1
  const BlueProcessor := 2
  const RegisterCount := 3

  // Coils.
  const Heartbeat := 0
  const MatchReset := 1
  const StackLightGreen := 2
  const StackLightOrange := 3
  const StackLightRed := 4
  const StackLightBlue := 5
  const StackLightBuzzer := 6
  const FieldResetLight := 7
  const RedTrussLightOuter := 8
  const RedTrussLightMiddle := 9
  const RedTrussLightInner := 10
  const BlueTrussLightOuter := 11
  const BlueTrussLightMiddle := 12
  const BlueTrussLightInner := 13
  const CoilCount := 14

  // Bits of the fieldIoConnection register.
  const RedDs := 0
  const BlueDs := 1
  const RedIoLink := 2
  const BlueIoLink := 3
  const ArmorBlockCount := 4

  /** The default 1:1 map: logical id i is pin i, for every i in [0, count). */
  function IdentityMap(count: nat): (m: map<int, int>)
    ensures forall i :: 0 <= i < count ==> i in m && m[i] == i
    ensures forall i :: i in m ==> 0 <= i < count
  {
    map i | 0 <= i < count && IsId(i, count) :: i
  }

  /** i is one of the logical ids 0 .. count-1. */
  predicate IsId(i: int, count: nat) {
    0 <= i < count
  }

  /**
   * getInputPin / getCoilPin: the pin of a logical id. None stands for the
   * panic of the source: the id is unmapped, or its pin is outside [0, count).
   */
  function LookupPin(m: map<int, int>, id: int, count: int): (pin: Option<int>)
    ensures pin.Some? <==> id in m && 0 <= m[id] < count
    ensures pin.Some? ==> pin.value == m[id] && 0 <= pin.value < count
  {
    if id !in m then None
    else if m[id] < 0 || m[id] >= count then None
    else Some(m[id])
  }

  /** The size check the source calls a valid mapping. */
  predicate HasValidMappings(inputMap: map<int, int>, coilMap: map<int, int>) {
    |inputMap| == InputCount && |coilMap| == CoilCount
  }

  /** A map that resolves every logical id in [0, count) to its own pin, one pin per id. */
  ghost predicate Bijective(m: map<int, int>, count: nat) {
    && (forall id :: 0 <= id < count ==> LookupPin(m, id, count).Some?)
    && (forall a, b :: 0 <= a < count && 0 <= b < count && a != b ==> LookupPin(m, a, count) != LookupPin(m, b, count))
    && (forall pin :: 0 <= pin < count ==> Reaches(m, count, pin))
  }

  /** Some logical id in [0, count) resolves to `pin`. */
  ghost predicate Reaches(m: map<int, int>, count: nat, pin: int) {
    exists id :: 0 <= id < count && LookupPin(m, id, count) == Some(pin)
  }

  /** The default-map loop of NewModbusPlcWithMaps. */
  method DefaultMap(count: nat) returns (m: map<int, int>)
    ensures m == IdentityMap(count)
  {
    m := map[];
    var i := 0;
    while i < count
      invariant 0 <= i <= count
      invariant m == IdentityMap(i)
    {
      m := m[i := i];
      i := i + 1;
      assert m == IdentityMap(i);
    }
  }

  /** The default map has exactly `count` entries. */
  lemma {:induction false} IdentityMapSize(count: nat)
    ensures |IdentityMap(count)| == count
  {
    if count > 0 {
      IdentityMapSize(count - 1);
      assert IdentityMap(count) == IdentityMap(count - 1)[count - 1 := count - 1];
    }
  }

  /** Default maps pass the size check. */
  lemma DefaultMapsAreValid()
    ensures HasValidMappings(IdentityMap(InputCount), IdentityMap(CoilCount))
  {
    IdentityMapSize(InputCount);
    IdentityMapSize(CoilCount);
  }

  /** The default map resolves exactly the ids in [0, count), each to itself. */
  lemma IdentityLookup(count: nat, id: int)
    ensures LookupPin(IdentityMap(count), id, count) == if 0 <= id < count then Some(id) else None
  {
  }

  /** The default map is a bijection onto [0, count). */
  lemma IdentityIsBijective(count: nat)
    ensures Bijective(IdentityMap(count), count)
  {
    forall pin | 0 <= pin < count
      ensures Reaches(IdentityMap(count), count, pin)
    {
      IdentityLookup(count, pin);
    }
    forall a, b | 0 <= a < count && 0 <= b < count && a != b
      ensures LookupPin(IdentityMap(count), a, count) != LookupPin(IdentityMap(count), b, count)
    {
      IdentityLookup(count, a);
      IdentityLookup(count, b);
    }
  }

  /**
   * The size check does not guarantee that lookups succeed: a map with the
   * right number of entries can still send a logical input to a pin out of range.
   */
  lemma SizeCheckAdmitsBadPin()
    ensures var m := IdentityMap(InputCount)[Blue3AStop := InputCount];
      |m| == InputCount && LookupPin(m, Blue3AStop, InputCount) == None
  {
    var m := IdentityMap(InputCount)[Blue3AStop := InputCount];
    IdentityMapSize(InputCount);
    assert m.Keys == IdentityMap(InputCount).Keys;
  }
}
