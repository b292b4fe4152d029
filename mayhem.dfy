/**
 * The Mayhem field PLC of plc/mayhem_plc.go: its own pin tables and an E-stop
 * read that folds the field E-stop buttons of stations 1 and 2 into the team
 * E-stops. Go embedding has no virtual dispatch, so every ModbusPlc method
 * keeps using the base lookup; only MayhemTeamEStops uses MayhemInputPin.
 */
module Mayhem {
  import opened Wrappers
  import opened PinMap
  import opened PlcModel
  import Plc

  // The Mayhem field E-stop inputs. Their numbers are those of Blue2EStop ..
  // Blue3AStop, so they resolve to those inputs' pins.
  const FieldRed1Estop := 9
  const FieldRed2Estop := 10
  const FieldBlue1Estop := 11
  const FieldBlue2Estop := 12

  /** MayhemPlc.getInputPin: an explicit table, falling back to the base lookup for any other id. */
  function MayhemInputPin(baseMap: map<int, int>, id: int): Option<int> {
    if id == FieldEStop then Some(0)
    else if id == Red1EStop then Some(1)
    else if id == Red1AStop then Some(2)
    else if id == Red2EStop then Some(3)
    else if id == Red2AStop then Some(4)
    else if id == Red3EStop then Some(5)
    else if id == Red3AStop then Some(6)
    else if id == Blue1EStop then Some(7)
    else if id == Blue1AStop then Some(8)
    else if id == Blue2EStop then Some(9)
    else if id == Blue2AStop then Some(10)
    else if id == Blue3EStop then Some(11)
    else if id == Blue3AStop then Some(12)
    else if id == RedConnected1 then Some(13)
    else if id == RedConnected2 then Some(14)
    else if id == RedConnected3 then Some(15)
    else if id == BlueConnected1 then Some(16)
    else if id == BlueConnected2 then Some(17)
    else if id == BlueConnected3 then Some(18)
    else LookupPin(baseMap, id, InputCount)
  }

  /** MayhemPlc.getCoilPin: an explicit table, falling back to the base lookup for any other id. */
  function MayhemCoilPin(baseMap: map<int, int>, id: int): Option<int> {
    if id == Heartbeat then Some(0)
    else if id == MatchReset then Some(1)
    else if id == StackLightGreen then Some(2)
    else if id == StackLightOrange then Some(3)
    else if id == StackLightRed then Some(4)
    else if id == StackLightBlue then Some(5)
    else if id == StackLightBuzzer then Some(6)
    else if id == FieldResetLight then Some(7)
    else if id == RedTrussLightOuter then Some(8)
    else if id == RedTrussLightMiddle then Some(9)
    else if id == RedTrussLightInner then Some(10)
    else if id == BlueTrussLightOuter then Some(11)
    else if id == BlueTrussLightMiddle then Some(12)
    else if id == BlueTrussLightInner then Some(13)
    else LookupPin(baseMap, id, CoilCount)
  }

  /** The input table sends every logical input to the pin of its own number; other ids go to the base lookup. */
  lemma MayhemInputPinIsOrdinal(baseMap: map<int, int>, id: int)
    ensures MayhemInputPin(baseMap, id) == if 0 <= id < InputCount then Some(id) else LookupPin(baseMap, id, InputCount)
  {
  }

  /** The coil table sends every logical coil to the pin of its own number; other ids go to the base lookup. */
  lemma MayhemCoilPinIsOrdinal(baseMap: map<int, int>, id: int)
    ensures MayhemCoilPin(baseMap, id) == if 0 <= id < CoilCount then Some(id) else LookupPin(baseMap, id, CoilCount)
  {
  }

  /** The input table is a bijection on [0, InputCount): distinct inputs get distinct pins, and every pin is used. */
  lemma MayhemInputsBijective(baseMap: map<int, int>)
    ensures forall a, b :: 0 <= a < InputCount && 0 <= b < InputCount ==>
      (MayhemInputPin(baseMap, a) == MayhemInputPin(baseMap, b) <==> a == b)
    ensures forall pin :: 0 <= pin < InputCount ==> MayhemInputPin(baseMap, pin) == Some(pin)
  {
    forall id | 0 <= id < InputCount ensures MayhemInputPin(baseMap, id) == Some(id) {
      MayhemInputPinIsOrdinal(baseMap, id);
    }
  }

  /** The coil table is a bijection on [0, CoilCount). */
  lemma MayhemCoilsBijective(baseMap: map<int, int>)
    ensures forall a, b :: 0 <= a < CoilCount && 0 <= b < CoilCount ==>
      (MayhemCoilPin(baseMap, a) == MayhemCoilPin(baseMap, b) <==> a == b)
    ensures forall pin :: 0 <= pin < CoilCount ==> MayhemCoilPin(baseMap, pin) == Some(pin)
  {
    forall id | 0 <= id < CoilCount ensures MayhemCoilPin(baseMap, id) == Some(id) {
      MayhemCoilPinIsOrdinal(baseMap, id);
    }
  }

  /**
   * The four field E-stop ids are the numbers of Blue2EStop, Blue2AStop,
   * Blue3EStop and Blue3AStop, and the table sends them to pins 9 to 12
   * through those inputs' cases, never reaching the fallback.
   */
  lemma FieldEStopsAliasBlueInputs(baseMap: map<int, int>)
    ensures FieldRed1Estop == Blue2EStop && FieldRed2Estop == Blue2AStop
    ensures FieldBlue1Estop == Blue3EStop && FieldBlue2Estop == Blue3AStop
    ensures MayhemInputPin(baseMap, FieldRed1Estop) == Some(9)
    ensures MayhemInputPin(baseMap, FieldRed2Estop) == Some(10)
    ensures MayhemInputPin(baseMap, FieldBlue1Estop) == Some(11)
    ensures MayhemInputPin(baseMap, FieldBlue2Estop) == Some(12)
  {
  }

  /** The base E-stops resolve through the base map (the source would panic otherwise). */
  predicate TeamEStopsSafe(s: PlcState) {
    WellFormed(s) && InputsResolve(s, RedEStopInputs) && InputsResolve(s, BlueEStopInputs)
  }

  /** The pin the Mayhem table gives a field E-stop id (always 9 to 12). */
  function FieldEStopPin(baseMap: map<int, int>, id: int): (pin: int)
    requires id == FieldRed1Estop || id == FieldRed2Estop || id == FieldBlue1Estop || id == FieldBlue2Estop
    ensures 0 <= pin < InputCount && MayhemInputPin(baseMap, id) == Some(pin)
  {
    MayhemInputPin(baseMap, id).value
  }

  /**
   * MayhemPlc.GetTeamEStops: the base E-stops, with stations 1 and 2 of each
   * alliance also stopped when their field E-stop input reads false.
   */
  function MayhemTeamEStops(s: PlcState): (stops: (seq<bool>, seq<bool>))
    requires TeamEStopsSafe(s)
    ensures |stops.0| == 3 && |stops.1| == 3
  {
    var (red, blue) := GetTeamEStops(s);
    var red1 := red[0] || !s.inputs[FieldEStopPin(s.inputMap, FieldRed1Estop)];
    var blue1 := blue[0] || !s.inputs[FieldEStopPin(s.inputMap, FieldBlue1Estop)];
    var red2 := red[1] || !s.inputs[FieldEStopPin(s.inputMap, FieldRed2Estop)];
    var blue2 := blue[1] || !s.inputs[FieldEStopPin(s.inputMap, FieldBlue2Estop)];
    ([red1, red2, red[2]], [blue1, blue2, blue[2]])
  }

  /**
   * Stations 1 and 2 are the base reading OR the field E-stop pin reading
   * false (pins 9 and 10 for red, 11 and 12 for blue); station 3 is the base reading.
   */
  lemma MayhemTeamEStopsEntries(s: PlcState)
    requires TeamEStopsSafe(s)
    ensures var (red, blue) := MayhemTeamEStops(s); var (baseRed, baseBlue) := GetTeamEStops(s);
      && red[0] == (baseRed[0] || !s.inputs[9]) && red[1] == (baseRed[1] || !s.inputs[10])
      && blue[0] == (baseBlue[0] || !s.inputs[11]) && blue[1] == (baseBlue[1] || !s.inputs[12])
      && red[2] == baseRed[2] && blue[2] == baseBlue[2]
  {
    FieldEStopsAliasBlueInputs(s.inputMap);
  }

  /** The Mayhem read only adds stops: every station stopped by the base read is stopped here too. */
  lemma MayhemTeamEStopsOnlyAdd(s: PlcState, k: int)
    requires TeamEStopsSafe(s) && 0 <= k < 3
    ensures GetTeamEStops(s).0[k] ==> MayhemTeamEStops(s).0[k]
    ensures GetTeamEStops(s).1[k] ==> MayhemTeamEStops(s).1[k]
  {
  }

  /**
   * With the default base map, pin 9 is Blue2EStop's, so pressing blue
   * station 2's E-stop also reports an E-stop at red station 1.
   */
  lemma Blue2EStopAlsoStopsRed1(s: PlcState)
    requires TeamEStopsSafe(s) && s.inputMap == IdentityMap(InputCount)
    requires GetTeamEStops(s).1[1]
    ensures MayhemTeamEStops(s).0[0] && MayhemTeamEStops(s).1[1]
  {
    IdentityLookup(InputCount, Blue2EStop);
    MayhemTeamEStopsEntries(s);
  }

  /** MayhemPlc: a ModbusPlc with default maps, read through the Mayhem tables where the source does. */
  class MayhemPlc {
    const plc: Plc.ModbusPlc

    /** NewMayhemPlc: wraps NewModbusPlc, whose default maps pass the size check. */
    constructor ()
      ensures plc.Valid() && plc.State() == New(None, None) && plc.State().hasValidMappings
      ensures fresh(plc) && fresh(plc.inputs) && fresh(plc.registers) && fresh(plc.coils)
      ensures fresh(plc.oldInputs) && fresh(plc.oldRegisters) && fresh(plc.oldCoils)
    {
      plc := new Plc.ModbusPlc.WithMaps(None, None);
      DefaultMapsAreValid();
    }

    /** GetTeamEStops of the Mayhem device, read from the wrapped PLC's inputs. */
    function GetTeamEStops(): (stops: (seq<bool>, seq<bool>))
      reads plc, plc.inputs, plc.registers, plc.coils, plc.oldInputs, plc.oldRegisters, plc.oldCoils
      requires plc.Valid() && TeamEStopsSafe(plc.State())
      ensures stops == MayhemTeamEStops(plc.State())
    {
      var (red, blue) := plc.GetTeamEStops();
      ([red[0] || !plc.inputs[FieldEStopPin(plc.inputMap, FieldRed1Estop)], red[1] || !plc.inputs[FieldEStopPin(plc.inputMap, FieldRed2Estop)], red[2]],
       [blue[0] || !plc.inputs[FieldEStopPin(plc.inputMap, FieldBlue1Estop)], blue[1] || !plc.inputs[FieldEStopPin(plc.inputMap, FieldBlue2Estop)], blue[2]])
    }
  }
}
