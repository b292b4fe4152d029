/** What the field PLC engine promises, proved about the state machine of PlcModel. */
module PlcProperties {
  import opened Wrappers
  import opened Codec
  import opened PinMap
  import opened PlcModel

  // ---------------------------------------------------------------------------
  // Construction and health

  /** NewModbusPlc (nil maps) gets the 1:1 maps, which pass the size check. */
  lemma DefaultPlcHasValidMappings()
    ensures var s := New(None, None);
      && s.inputMap == IdentityMap(InputCount) && s.coilMap == IdentityMap(CoilCount)
      && s.hasValidMappings
  {
    DefaultMapsAreValid();
  }

  /** Every logical input of the default map resolves to the pin of the same number. */
  lemma DefaultInputsResolve(id: int)
    requires 0 <= id < InputCount
    ensures InputPin(New(None, None), id) == Some(id)
  {
    IdentityLookup(InputCount, id);
  }

  /** Inputs are active-low: with every input pin reading false, every stop reads active. */
  lemma AllLowInputsReadAsStops(s: PlcState)
    requires WellFormed(s) && forall p :: 0 <= p < InputCount ==> !s.inputs[p]
    requires InputPin(s, FieldEStop).Some?
    requires InputsResolve(s, RedEStopInputs) && InputsResolve(s, BlueEStopInputs)
    requires InputsResolve(s, RedAStopInputs) && InputsResolve(s, BlueAStopInputs)
    ensures GetFieldEStop(s)
    ensures GetTeamEStops(s) == ([true, true, true], [true, true, true])
    ensures GetTeamAStops(s) == ([true, true, true], [true, true, true])
  {
  }

  /**
   * A fresh PLC holds all inputs false, so before the first successful read
   * every E-stop and A-stop reads active.
   */
  lemma FreshPlcReportsStopsActive()
    ensures var s := New(None, None);
      && InputPin(s, FieldEStop).Some? && GetFieldEStop(s)
      && InputsResolve(s, RedEStopInputs) && InputsResolve(s, BlueEStopInputs)
      && GetTeamEStops(s) == ([true, true, true], [true, true, true])
      && InputsResolve(s, RedAStopInputs) && InputsResolve(s, BlueAStopInputs)
      && GetTeamAStops(s) == ([true, true, true], [true, true, true])
  {
    var s := New(None, None);
    forall id | 0 <= id < InputCount ensures InputPin(s, id).Some? {
      DefaultInputsResolve(id);
    }
    AllLowInputsReadAsStops(s);
  }

  /** No iteration of Run touches the pin maps or their validity flag. */
  lemma RunStepKeepsMappings(s: PlcState, conn: ConnectResult, io: CycleIo)
    requires WellFormed(s) && RunStepSafe(s, conn, io)
    ensures var r := RunStep(s, conn, io);
      r.inputMap == s.inputMap && r.coilMap == s.coilMap && r.hasValidMappings == s.hasValidMappings
  {
    if !s.connected && IsEnabled(s) && conn.ConnectOk? {
      var c := WriteCoils(s.(connected := true), conn.initialWriteOk);
      assert SameConfig(c, RunStep(s, conn, io));
    }
  }

  /** With maps that fail the size check the PLC is never healthy, whatever the controller does. */
  lemma InvalidMappingsNeverHealthy(s: PlcState, conn: ConnectResult, io: CycleIo)
    requires WellFormed(s) && RunStepSafe(s, conn, io) && !s.hasValidMappings
    ensures !IsHealthy(RunStep(s, conn, io))
  {
    RunStepKeepsMappings(s, conn, io);
  }

  // ---------------------------------------------------------------------------
  // Match reset and the coil write

  /**
   * ResetMatch raises the reset coil, restarts the pulse count and zeroes
   * registers 1 and 2, keeping fieldIoConnection, the inputs and every other coil.
   */
  lemma ResetMatchEffect(s: PlcState)
    requires WellFormed(s) && CoilPin(s, MatchReset).Some?
    ensures var r := ResetMatch(s); var p := CoilPin(s, MatchReset).value;
      && r.coils[p] && r.matchResetCycles == 0
      && r.registers[FieldIoConnection] == s.registers[FieldIoConnection]
      && r.registers[RedProcessor] == 0 && r.registers[BlueProcessor] == 0
      && (forall q :: 0 <= q < CoilCount && q != p ==> r.coils[q] == s.coils[q])
      && r.(coils := s.coils, registers := s.registers, matchResetCycles := s.matchResetCycles) == s
  {
  }

  /** The coil bytes sent carry the heartbeat bit set and every other coil as it stands. */
  lemma WritePayloadCarriesHeartbeat(s: PlcState)
    requires WellFormed(s) && CoilPin(s, Heartbeat).Some?
    ensures var sent := UnpackBits(WritePayload(s), CoilCount); var hb := CoilPin(s, Heartbeat).value;
      && sent[hb]
      && forall q :: 0 <= q < CoilCount && q != hb ==> sent[q] == s.coils[q]
  {
    PackUnpackRoundTrip(WithHeartbeat(s).coils);
  }

  /** A failed write still raises the heartbeat coil and changes nothing else. */
  lemma FailedWriteOnlyRaisesHeartbeat(s: PlcState)
    requires WellFormed(s) && WriteCoilsSafe(s, false)
    ensures var r := WriteCoils(s, false); var hb := CoilPin(s, Heartbeat).value;
      && r.coils[hb]
      && (forall q :: 0 <= q < CoilCount && q != hb ==> r.coils[q] == s.coils[q])
      && r.(coils := s.coils) == s
  {
  }

  /**
   * A successful write either ends the reset pulse (more than five writes since
   * the reset: the reset coil drops, the count stays) or counts one more write.
   */
  lemma SuccessfulWritePulse(s: PlcState)
    requires WellFormed(s) && WriteCoilsSafe(s, true) && CoilPin(s, MatchReset).Some?
    requires CoilPin(s, Heartbeat) != CoilPin(s, MatchReset)
    ensures var r := WriteCoils(s, true); var rp := CoilPin(s, MatchReset).value;
      && (s.matchResetCycles > 5 ==> !r.coils[rp] && r.matchResetCycles == s.matchResetCycles)
      && (s.matchResetCycles <= 5 ==> r.coils[rp] == s.coils[rp] && r.matchResetCycles == s.matchResetCycles + 1)
  {
  }

  /** Both coils the pulse logic touches resolve, to different pins. */
  predicate PulsePins(s: PlcState) {
    CoilPin(s, Heartbeat).Some? && CoilPin(s, MatchReset).Some? && CoilPin(s, Heartbeat) != CoilPin(s, MatchReset)
  }

  /** The state after k successful coil writes. */
  function SuccessfulWrites(s: PlcState, k: nat): (r: PlcState)
    requires WellFormed(s) && PulsePins(s)
    ensures WellFormed(r) && r.coilMap == s.coilMap
    decreases k
  {
    if k == 0 then s else WriteCoils(SuccessfulWrites(s, k - 1), true)
  }

  /** From a match reset, the reset coil stays raised for exactly seven successful writes. */
  lemma {:induction false} MatchResetPulse(s: PlcState, k: nat)
    requires WellFormed(s) && PulsePins(s)
    requires s.matchResetCycles == 0 && s.coils[CoilPin(s, MatchReset).value]
    requires k <= 7
    ensures var r := SuccessfulWrites(s, k);
      && r.coils[CoilPin(s, MatchReset).value] == (k < 7)
      && r.matchResetCycles == (if k < 7 then k else 6)
  {
    if k > 0 {
      MatchResetPulse(s, k - 1);
    }
  }

  /**
   * After ResetMatch the reset bit goes out set in the next seven successful
   * coil writes and clear in the eighth (k counts the writes already made).
   */
  lemma MatchResetSentSevenTimes(s: PlcState, k: nat)
    requires WellFormed(s) && PulsePins(s)
    requires k <= 7
    ensures var before := SuccessfulWrites(ResetMatch(s), k);
      UnpackBits(WritePayload(before), CoilCount)[CoilPin(s, MatchReset).value] == (k < 7)
  {
    var reset := ResetMatch(s);
    MatchResetPulse(reset, k);
    WritePayloadCarriesHeartbeat(SuccessfulWrites(reset, k));
  }

  // ---------------------------------------------------------------------------
  // update

  /**
   * With a handler, update is healthy exactly when write, read-inputs and
   * read-registers all succeed, and a failure drops the handler; without one,
   * the health flag is left as it was.
   */
  lemma UpdateHealth(s: PlcState, io: CycleIo)
    requires WellFormed(s) && UpdateSafe(s, io)
    ensures var r := Update(s, io);
      && (s.connected ==> r.isHealthy == CycleSucceeds(io) && r.connected == CycleSucceeds(io))
      && (!s.connected ==> r.isHealthy == s.isHealthy && !r.connected)
  {
  }

  /** The reads run only after a successful write, registers only after inputs; each replaces its snapshot. */
  lemma UpdateStopsAtFirstFailure(s: PlcState, io: CycleIo)
    requires WellFormed(s) && UpdateSafe(s, io) && s.connected
    ensures var r := Update(s, io);
      && (!io.writeOk || !InputsReplyOk(io.inputs) ==> r.inputs == s.inputs && r.registers == s.registers)
      && (io.writeOk && InputsReplyOk(io.inputs) ==> r.inputs == UnpackBits(io.inputs.data, InputCount))
      && (io.writeOk && InputsReplyOk(io.inputs) && !RegistersReplyOk(io.registers) ==> r.registers == s.registers)
      && (CycleSucceeds(io) ==> r.registers == DecodeWords(io.registers.data, RegisterCount))
  {
  }

  /**
   * The coils and the reset-pulse count after an update are those the coil
   * write left, whether or not the reads after it fail; without a handler
   * neither changes.
   */
  lemma UpdateCoilsFollowWrite(s: PlcState, io: CycleIo)
    requires WellFormed(s) && UpdateSafe(s, io)
    ensures var r := Update(s, io);
      && (s.connected ==> r.coils == WriteCoils(s, io.writeOk).coils
                          && r.matchResetCycles == WriteCoils(s, io.writeOk).matchResetCycles)
      && (!s.connected ==> r.coils == s.coils && r.matchResetCycles == s.matchResetCycles)
  {
  }

  /** The state after the updates `ios`, one after another (each safe: the pulse pins resolve). */
  function Updates(s: PlcState, ios: seq<CycleIo>): (r: PlcState)
    requires WellFormed(s) && PulsePins(s)
    ensures WellFormed(r) && r.coilMap == s.coilMap
    decreases |ios|
  {
    if ios == [] then s
    else
      var before := Updates(s, ios[..|ios| - 1]);
      assert PulsePins(before) by { assert CoilPin(before, Heartbeat) == CoilPin(s, Heartbeat); }
      Update(before, ios[|ios| - 1])
  }

  /**
   * From a match reset on a connected PLC, over k <= 7 fully successful
   * updates the PLC stays connected and the reset coil stays raised for
   * exactly seven of them: the pulse as the update cycle sends it.
   */
  lemma {:induction false} UpdatesPulse(s: PlcState, ios: seq<CycleIo>)
    requires WellFormed(s) && PulsePins(s) && s.connected
    requires s.matchResetCycles == 0 && s.coils[CoilPin(s, MatchReset).value]
    requires |ios| <= 7 && forall i :: 0 <= i < |ios| ==> CycleSucceeds(ios[i])
    ensures var r := Updates(s, ios);
      && r.connected
      && r.coils[CoilPin(s, MatchReset).value] == (|ios| < 7)
      && r.matchResetCycles == (if |ios| < 7 then |ios| else 6)
    decreases |ios|
  {
    if ios != [] {
      var init := ios[..|ios| - 1];
      var io := ios[|ios| - 1];
      UpdatesPulse(s, init);
      var before := Updates(s, init);
      assert CoilPin(before, MatchReset) == CoilPin(s, MatchReset);
      assert CoilPin(before, Heartbeat) == CoilPin(s, Heartbeat);
      UpdateHealth(before, io);
      UpdateCoilsFollowWrite(before, io);
      SuccessfulWritePulse(before);
    }
  }

  /**
   * After ResetMatch on a connected PLC, the reset bit goes out set in the
   * coil writes of the next seven fully successful updates and clear in the
   * eighth (k counts the updates already made).
   */
  lemma ResetSentOverSevenUpdates(s: PlcState, ios: seq<CycleIo>)
    requires WellFormed(s) && PulsePins(s) && s.connected
    requires |ios| <= 7 && forall i :: 0 <= i < |ios| ==> CycleSucceeds(ios[i])
    ensures var before := Updates(ResetMatch(s), ios);
      UnpackBits(WritePayload(before), CoilCount)[CoilPin(s, MatchReset).value] == (|ios| < 7)
  {
    var reset := ResetMatch(s);
    assert reset.coilMap == s.coilMap;
    UpdatesPulse(reset, ios);
    WritePayloadCarriesHeartbeat(Updates(reset, ios));
  }

  /** Without a handler, update leaves the snapshot and the health flag alone. */
  lemma UpdateWithoutHandler(s: PlcState, io: CycleIo)
    requires WellFormed(s) && !s.connected
    ensures var r := Update(s, io);
      && r.inputs == s.inputs && r.registers == s.registers && r.coils == s.coils
      && r.isHealthy == s.isHealthy && r.matchResetCycles == s.matchResetCycles
  {
  }

  /** The cycle counter advances on every update, whatever the I/O did, modulo cycleCounterMax. */
  lemma UpdateAdvancesCycle(s: PlcState, io: CycleIo)
    requires WellFormed(s) && UpdateSafe(s, io)
    ensures Update(s, io).cycleCounter == (s.cycleCounter + 1) % CycleCounterMax
  {
  }

  /**
   * update notifies exactly when the snapshot after the exchange differs from the
   * copies of the last notification, and afterwards the copies equal the snapshot.
   */
  lemma UpdateNotifiesOnChange(s: PlcState, io: CycleIo)
    requires WellFormed(s) && UpdateSafe(s, io)
    ensures var r := Update(s, io);
      && r.oldInputs == r.inputs && r.oldRegisters == r.registers && r.oldCoils == r.coils
      && (r.notifyCount == s.notifyCount + 1 <==>
            (r.inputs != s.oldInputs || r.registers != s.oldRegisters || r.coils != s.oldCoils))
      && (r.notifyCount == s.notifyCount || r.notifyCount == s.notifyCount + 1)
  {
    var e := Advance(s, io);
    assert Changed(e) <==> (e.inputs != s.oldInputs || e.registers != s.oldRegisters || e.coils != s.oldCoils);
  }

  /** A second update with nothing new from the controller publishes nothing. */
  lemma QuietUpdateDoesNotNotify(s: PlcState, io: CycleIo)
    requires WellFormed(s) && !s.connected && !Changed(s)
    ensures Update(s, io).notifyCount == s.notifyCount
  {
  }

  /** Armor-block status i is bit i of the second (low) byte of the fieldIoConnection reply. */
  lemma ArmorBlocksFromWire(s: PlcState, io: CycleIo, i: nat)
    requires WellFormed(s) && UpdateSafe(s, io) && s.connected && CycleSucceeds(io)
    requires i < ArmorBlockCount
    ensures GetArmorBlockStatuses(Update(s, io))[i] == (io.registers.data[1] & BitMask(i) != 0)
  {
    var hi, lo := io.registers.data[0], io.registers.data[1];
    assert Update(s, io).registers[FieldIoConnection] == Word(hi, lo);
    assert BitMask(i) == 1 << (i as bv8);
    if i == 0 { } else if i == 1 { } else if i == 2 { } else { }
  }

  // ---------------------------------------------------------------------------
  // Run

  /** A disabled PLC is unhealthy after every iteration, yet its cycle counter still runs. */
  lemma DisabledIsUnhealthy(s: PlcState, conn: ConnectResult, io: CycleIo)
    requires WellFormed(s) && !s.connected && !IsEnabled(s)
    ensures var r := RunStep(s, conn, io);
      !IsHealthy(r) && !r.connected && r.cycleCounter == NextCycle(s.cycleCounter)
  {
  }

  /** A failed connect marks the PLC unhealthy and skips the update entirely. */
  lemma ConnectFailureSkipsUpdate(s: PlcState, io: CycleIo)
    requires WellFormed(s) && !s.connected && IsEnabled(s)
    ensures RunStep(s, ConnectFailed, io) == s.(isHealthy := false)
  {
  }

  /**
   * A successful connect: health then follows the cycle's exchange alone (the
   * forced first write's result is ignored), and with valid maps IsHealthy holds
   * exactly when all three operations succeed.
   */
  lemma ReconnectHealth(s: PlcState, w: bool, io: CycleIo)
    requires WellFormed(s) && !s.connected && IsEnabled(s) && RunStepSafe(s, ConnectOk(w), io)
    ensures var r := RunStep(s, ConnectOk(w), io);
      && r.isHealthy == CycleSucceeds(io) && r.connected == CycleSucceeds(io)
      && (IsHealthy(r) <==> CycleSucceeds(io) && s.hasValidMappings)
  {
    var c := WriteCoils(s.(connected := true), w);
    UpdateHealth(c, io);
  }

  /**
   * Three failed connects then a good one: health reads false, false, false,
   * then true, and the reconnect's update sends the heartbeat.
   */
  lemma RetryThenRecover(s: PlcState, io: CycleIo)
    requires WellFormed(s) && !s.connected && IsEnabled(s) && s.hasValidMappings && PulsePins(s)
    requires RunStepSafe(s, ConnectOk(true), io) && CycleSucceeds(io)
    ensures var s1 := RunStep(s, ConnectFailed, io);
      var s2 := RunStep(s1, ConnectFailed, io);
      var s3 := RunStep(s2, ConnectFailed, io);
      var s4 := RunStep(s3, ConnectOk(true), io);
      && !IsHealthy(s1) && !IsHealthy(s2) && !IsHealthy(s3) && IsHealthy(s4)
      && s4.coils[CoilPin(s, Heartbeat).value]
  {
    var s1 := s.(isHealthy := false);
    ConnectFailureSkipsUpdate(s, io);
    ConnectFailureSkipsUpdate(s1, io);
    assert s1.(isHealthy := false) == s1;
    assert RunStepSafe(s1, ConnectOk(true), io);
    ReconnectHealth(s1, true, io);
    var c := WriteCoils(s1.(connected := true), true);
    var hb := CoilPin(s, Heartbeat).value;
    assert c.coils[hb];
    var w := WriteCoils(c, true);
    assert w.coils[hb];
    assert Exchange(c, io).coils == w.coils;
  }

  // ---------------------------------------------------------------------------
  // GetCycleState

  /**
   * For positive max and duration, exactly one phase index in [0, max) is
   * active at a time: the one equal to (counter / duration) % max.
   */
  lemma CycleStateSelectsOnePhase(counter: int, max: int, index: int, duration: int)
    requires counter >= 0 && max > 0 && duration > 0
    ensures GetCycleState(counter, max, index, duration) <==> index == (counter / duration) % max
  {
    assert GoQuo(counter, duration) == counter / duration;
  }

  /** A negative duration makes Go's quotient negative, so the active phase index is negative too. */
  lemma CycleStateNegativeDuration()
    ensures GetCycleState(7, 2, -1, -2) && !GetCycleState(7, 2, 1, -2)
  {
    assert GoQuo(7, -2) == -3;
  }
}
