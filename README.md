# Field PLC engine and match scoring, in Dafny

This project models two cores of the arena software:

- The **field PLC engine** (`plc/plc.go`, `plc/mayhem_plc.go`).
  - It maps logical inputs and coils to physical pins.
  - It keeps the last-read inputs and registers and the coils to write.
  - Each cycle it writes the coils (with a heartbeat), reads the discrete inputs, then reads the holding registers.
  - It stretches a match reset into a short pulse, tracks health, and notifies listeners when the I/O changes.
  - The Mayhem device variant has its own pin tables, and it folds field E-stop buttons into the team E-stops.
- **Match scoring** (`game/score.go`, `game/score_summary.go`, `game/rule.go`).
  - Summarising an alliance's score.
  - Comparing two scores.
  - Deciding a match, with or without playoff tiebreakers.
  - The table of generic rules, looked up through a lazily built map.

## Layout

| file | module | contents |
|---|---|---|
| `wrappers.dfy` | `Wrappers` | `Option` |
| `codec.dfy` | `Codec` | Modbus bit and word packing (`byteToBool`, `byteToUint`, `boolToByte`), as functions with round-trip lemmas and as the source's loops |
| `pin_map.dfy` | `PinMap` | the enumerations and constants, pin lookup, default 1:1 maps, the size check |
| `plc_model.dfy` | `PlcModel` | the engine as a state machine: `PlcState` plus one function per operation |
| `plc_properties.dfy` | `PlcProperties` | what the engine promises, proved about `PlcModel` |
| `plc.dfy` | `Plc` | class `ModbusPlc` with array fields; every method is proved to move `State()` as the matching `PlcModel` function does |
| `mayhem.dfy` | `Mayhem` | the Mayhem pin tables, its E-stop read and class `MayhemPlc` |
| `score.dfy` | `GameScore` | `Score`, `ScoreSummary`, `Summary` and the `Summarize` / `Equals` loops |
| `score_summary.dfy` | `MatchOutcome` | `comparePoints`, `DetermineMatchStatus` and the lexicographic playoff order |
| `rule.dfy` | `RuleTable` | the rule table and the caching `RuleRegistry` |

How the source's constructs are represented:

- **Bytes and registers.** Bytes are `bv8` and registers `bv16`.
- **Panics become preconditions.** A Go panic is a precondition of the operation that would panic. This covers an unmapped logical pin, a mapped pin out of range, and division by zero in `GetCycleState`.
- **The Modbus client is an oracle.** Each call either fails or returns some bytes, possibly too few:
  - `Reply` is one read;
  - `CycleIo` is the answers of one update;
  - `ConnectResult` is the outcome of `connect()`.
- **The notifier is a counter.** `notifyCount` counts `Notify` calls.
- **Foul points are a parameter.** `pointValue: Foul -> int` stands for `Foul.PointValue`, whose source is not shown.

## Model

| member | source | states |
|---|---|---|
| Codec.UnpackBits | plc/plc.go:509-518 | `size` bools from any reply long enough to hold them (their values: PackUnpackRoundTrip, UnpackPackRoundTrip) |
| Codec.PackBits | plc/plc.go:528-536 | one byte per 8 bools, (n+7)/8 bytes |
| Codec.DecodeWords | plc/plc.go:520-526 | `size` words from any reply of at least 2*size bytes (their values: WordValue and the round trips) |
| Codec.EncodeWords | plc/plc.go:520-526 | the big-endian encoding, 2 bytes per word (inverse partner of DecodeWords) |
| Codec.PackByteBit | plc/plc.go:528-536 | bit k of packed byte j is bool 8j+k when it exists, else clear |
| Codec.PackUnpackRoundTrip | plc/plc.go:509-536 | unpacking the packed coils gives back exactly the coils |
| Codec.PackBitsPadding | plc/plc.go:528-536 | the padding bits beyond the last bool are zero |
| Codec.BitsDetermineByte | plc/plc.go:528-536 | a byte whose eight bits match the bools is the packed byte |
| Codec.UnpackPackRoundTrip | plc/plc.go:509-536 | packing all 8n unpacked bits gives back the n bytes |
| Codec.WordValue | plc/plc.go:522-523 | `uint16(hi)<<8 + uint16(lo)` is 256*hi + lo, no overflow |
| Codec.DecodeWordsExample | plc/plc.go:520-526 | bytes 0x12, 0x34 decode to the word 0x1234 |
| Codec.EncodeDecodeRoundTrip | plc/plc.go:520-526 | decode(encode(words)) == words |
| Codec.DecodeEncodeRoundTrip | plc/plc.go:520-526 | encode(decode(bytes)) == bytes for an even byte count |
| Codec.ByteToBool | plc/plc.go:509-518 | the loop returns UnpackBits(bytes, size) |
| Codec.ByteToUint | plc/plc.go:520-526 | the loop returns DecodeWords(bytes, size) |
| Codec.BoolToByte | plc/plc.go:528-536 | the OR-per-bit loop on a zeroed slice returns PackBits(bools) |
| PinMap.IdentityMap | plc/plc.go:158-170 | the default map sends each id in [0, count) to itself and has no other key |
| PinMap.LookupPin | plc/plc.go:196-218 | a pin exactly when the id is mapped and its pin is in [0, count), else the panic case |
| PinMap.DefaultMap | plc/plc.go:158-170 | the filling loop builds IdentityMap(count) |
| PinMap.IdentityMapSize | plc/plc.go:158-170 | the default map has exactly count entries |
| PinMap.DefaultMapsAreValid | plc/plc.go:180 | default maps pass the size check |
| PinMap.IdentityLookup | plc/plc.go:196-218 | default lookup gives id for ids in range, the panic case otherwise |
| PinMap.IdentityIsBijective | plc/plc.go:158-170 | the default map is a bijection onto [0, count) |
| PinMap.SizeCheckAdmitsBadPin | plc/plc.go:180 | a map of the right size can still send an input to pin 19 (the check is on sizes only) |
| PlcModel.New | plc/plc.go:156-192 | nil maps become 1:1 maps; all I/O zero; valid iff both map sizes are right; unconnected and unhealthy |
| PlcModel.SetAddress | plc/plc.go:220-229 | new address, connection dropped, all else unchanged |
| PlcModel.IsHealthy | plc/plc.go:236-238 | healthy iff the last exchange succeeded and the mappings are valid |
| PlcModel.GetFieldEStop | plc/plc.go:279-282 | active iff the field E-stop input reads false |
| PlcModel.GetTeamEStops | plc/plc.go:284-294 | per station, active iff that station's E-stop input reads false |
| PlcModel.GetTeamAStops | plc/plc.go:296-306 | per station, active iff that station's A-stop input reads false |
| PlcModel.GetEthernetConnected | plc/plc.go:308-320 | per station, the link input as read |
| PlcModel.GetArmorBlockStatuses | plc/plc.go:270-276 | one status per armor block (which wire bit each is: ArmorBlocksFromWire) |
| PlcModel.IsEnabled | plc/plc.go:231-234 | no ensures: enabled iff the address is non-empty; Plc.ModbusPlc.IsEnabled, DisabledIsUnhealthy and ConnectFailureSkipsUpdate state its role |
| PlcModel.GetCycleState | plc/plc.go:351-353 | no ensures: `counter / duration % max == index` with Go's operators; CycleStateSelectsOnePhase and CycleStateNegativeDuration state its meaning |
| PlcModel.GoQuo | plc/plc.go:351-353 | Go's `/`: magnitude |a|/|b|, sign negative iff the operand signs differ |
| PlcModel.GoRem | plc/plc.go:351-353 | Go's `%`: a == q*b + r, \|r\| < \|b\|, r takes the sign of a |
| PlcModel.SetCoil | plc/plc.go:342-349 | the coil's pin takes the value, every other pin and field unchanged |
| PlcModel.SetCoils | plc/plc.go:334-339 | writes coils in order; only the coils change and the state stays well-formed (values: SetCoilsEffect) |
| PlcModel.SetCoilsEffect | plc/plc.go:334-339 | a run of coil writes to different pins leaves each pin holding its value and every other pin unchanged |
| PlcModel.SetStackLights | plc/plc.go:334-339 | only the coils change, and the state stays well-formed |
| PlcModel.SetTrussLights | plc/plc.go:381-388 | only the coils change, and the state stays well-formed |
| PlcModel.StackLightsEffect | plc/plc.go:334-339 | the red, blue, orange and green pins hold the four arguments; every other pin keeps its value |
| PlcModel.TrussLightsEffect | plc/plc.go:381-388 | the red outer/middle/inner pins hold redLights, the blue ones blueLights; every other pin keeps its value |
| PlcModel.DefaultLightPinsDistinct | plc/plc.go:158-170 | under the default coil map the stack-light and truss-light coils resolve to different pins |
| PlcModel.ResetMatch | plc/plc.go:322-331 | result stays well-formed (effect in ResetMatchEffect) |
| PlcModel.WithHeartbeat | plc/plc.go:482 | keeps the state well-formed (the raised heartbeat: WritePayloadCarriesHeartbeat, FailedWriteOnlyRaisesHeartbeat) |
| PlcModel.WritePayload | plc/plc.go:480-485 | the coil bytes sent are 2 bytes |
| PlcModel.WriteCoils | plc/plc.go:480-499 | keeps configuration and the notified copies (effects in the lemmas below) |
| PlcModel.InputsReplyOk | plc/plc.go:440-455 | no ensures: a byte reply whose length times 8 covers all 19 inputs; Plc.ModbusPlc.ReadInputs and UpdateStopsAtFirstFailure state its role |
| PlcModel.RegistersReplyOk | plc/plc.go:457-478 | no ensures: a byte reply whose length halved (rounded down) covers all 3 registers; Plc.ModbusPlc.ReadRegisters and UpdateStopsAtFirstFailure state its role |
| PlcModel.Disconnect | plc/plc.go:406-411 | no ensures: drops the handler and marks unhealthy; UpdateHealth states when it happens |
| PlcModel.Exchange | plc/plc.go:414-424 | keeps configuration and the notified copies (its coils and pulse count: UpdateCoilsFollowWrite) |
| PlcModel.NextCycle | plc/plc.go:426-429 | from any counter in range, the next one is (n+1) % 100, again in range |
| PlcModel.Publish | plc/plc.go:431-437 | notifies once exactly when anything changed since the last copies, then the copies equal the snapshot; nothing else changes |
| PlcModel.Advance | plc/plc.go:414-430 | counter is NextCycle of the old one; configuration and notified copies kept |
| PlcModel.Update | plc/plc.go:414-438 | keeps configuration (its effects: the Update lemmas below) |
| PlcModel.RunStep | plc/plc.go:246-267 | keeps configuration (address, maps, validity) |
| PlcProperties.DefaultPlcHasValidMappings | plc/plc.go:149-192 | NewModbusPlc has the 1:1 maps and valid mappings |
| PlcProperties.AllLowInputsReadAsStops | plc/plc.go:279-306 | inputs are active-low: all-false inputs read as every E-stop and A-stop active |
| PlcProperties.FreshPlcReportsStopsActive | plc/plc.go:172-180 | a fresh PLC reports the field and all team E-stops and A-stops active |
| PlcProperties.RunStepKeepsMappings | plc/plc.go:246-267 | no Run iteration changes the maps or their validity |
| PlcProperties.InvalidMappingsNeverHealthy | plc/plc.go:236-238 | with invalid maps IsHealthy is false after any iteration |
| PlcProperties.ResetMatchEffect | plc/plc.go:322-331 | reset coil raised, pulse count 0, registers 1 and 2 zero, register 0, inputs and other coils kept |
| PlcProperties.WritePayloadCarriesHeartbeat | plc/plc.go:480-485 | the bytes sent carry the heartbeat set and every other coil as it stands |
| PlcProperties.FailedWriteOnlyRaisesHeartbeat | plc/plc.go:480-490 | a failed write raises the heartbeat and changes nothing else |
| PlcProperties.SuccessfulWritePulse | plc/plc.go:492-498 | after more than 5 writes the reset coil drops; otherwise the count goes up by one |
| PlcProperties.SuccessfulWrites | plc/plc.go:480-499 | k writes keep the state well-formed and the coil map |
| PlcProperties.MatchResetPulse | plc/plc.go:480-499 | after k <= 7 successful writes from a reset the reset coil is up iff k < 7 |
| PlcProperties.MatchResetSentSevenTimes | plc/plc.go:480-499 | the reset bit goes out set in exactly the seven successful writes after ResetMatch, and clear in the eighth |
| PlcProperties.UpdateHealth | plc/plc.go:414-424 | connected: healthy and still connected iff all three operations succeed; else health unchanged |
| PlcProperties.UpdateStopsAtFirstFailure | plc/plc.go:414-424 | reads only after a good write, registers only after good inputs; each success installs the decoded reply |
| PlcProperties.UpdateCoilsFollowWrite | plc/plc.go:414-424 | a connected update leaves the coils and pulse count of its coil write, even if the reads fail; without a handler both are unchanged |
| PlcProperties.Updates | plc/plc.go:246-267 | a chain of updates keeps the state well-formed and the coil map |
| PlcProperties.UpdatesPulse | plc/plc.go:414-499 | from a reset, over k <= 7 successful updates the PLC stays connected and the reset coil is up iff k < 7 |
| PlcProperties.ResetSentOverSevenUpdates | plc/plc.go:414-499 | after ResetMatch the reset bit is sent in the coil writes of exactly seven successful updates, clear in the eighth |
| PlcProperties.UpdateWithoutHandler | plc/plc.go:414-424 | without a handler the snapshot and health are untouched |
| PlcProperties.UpdateAdvancesCycle | plc/plc.go:426-429 | the counter becomes (c+1) % 100 on every update |
| PlcProperties.UpdateNotifiesOnChange | plc/plc.go:431-437 | notify exactly when the snapshot differs from the old copies; afterwards they are equal |
| PlcProperties.QuietUpdateDoesNotNotify | plc/plc.go:431-437 | nothing changed and nothing read: no notification |
| PlcProperties.ArmorBlocksFromWire | plc/plc.go:270-276 | armor-block i is bit i of the second byte of the register reply |
| PlcProperties.DisabledIsUnhealthy | plc/plc.go:248-252 | a disabled PLC is unhealthy and unconnected but its counter still advances |
| PlcProperties.ConnectFailureSkipsUpdate | plc/plc.go:253-260 | a failed connect marks unhealthy and changes nothing else (no update) |
| PlcProperties.ReconnectHealth | plc/plc.go:246-267 | after a good connect health follows the cycle alone; IsHealthy iff it succeeds and maps are valid |
| PlcProperties.RetryThenRecover | plc/plc.go:246-267 | three failed connects read unhealthy, the fourth good one healthy with the heartbeat set |
| PlcProperties.CycleStateSelectsOnePhase | plc/plc.go:351-353 | for positive max and duration, on iff index == (counter/duration) % max |
| PlcProperties.CycleStateNegativeDuration | plc/plc.go:351-353 | truncating division: counter 7, duration -2, max 2 selects phase -1, not 1 |
| Plc.ModbusPlc.WithMaps | plc/plc.go:156-192 | fresh arrays; State() == New(maps) |
| Plc.ModbusPlc.SetAddress | plc/plc.go:220-229 | State() == SetAddress(old State(), address) |
| Plc.ModbusPlc.IsEnabled | plc/plc.go:231-234 | enabled iff the address is non-empty |
| Plc.ModbusPlc.IsHealthy | plc/plc.go:236-238 | equals the model's IsHealthy of State() |
| Plc.ModbusPlc.GetFieldEStop | plc/plc.go:279-282 | equals the model's GetFieldEStop of State() |
| Plc.ModbusPlc.GetTeamEStops | plc/plc.go:284-294 | equals the model's GetTeamEStops of State() |
| Plc.ModbusPlc.GetTeamAStops | plc/plc.go:296-306 | equals the model's GetTeamAStops of State() |
| Plc.ModbusPlc.GetEthernetConnected | plc/plc.go:308-320 | equals the model's GetEthernetConnected of State() |
| Plc.ModbusPlc.GetArmorBlockStatuses | plc/plc.go:270-276 | equals the model's GetArmorBlockStatuses of State() |
| Plc.ModbusPlc.GetCycleState | plc/plc.go:351-353 | equals the model's GetCycleState of the counter |
| Plc.ModbusPlc.SetCoil | plc/plc.go:342-349 | State() == SetCoil(old State(), coil, value) |
| Plc.ModbusPlc.ResetMatch | plc/plc.go:322-331 | State() == ResetMatch(old State()), with the register-clearing loop |
| Plc.ModbusPlc.SetStackLights | plc/plc.go:334-339 | State() == SetStackLights(old State(), red, blue, orange, green), whose coil values StackLightsEffect states |
| Plc.ModbusPlc.SetStackBuzzer | plc/plc.go:342-344 | State() == SetCoil(old State(), buzzer, state) |
| Plc.ModbusPlc.SetFieldResetLight | plc/plc.go:347-349 | State() == SetCoil(old State(), field reset light, state) |
| Plc.ModbusPlc.SetTrussLights | plc/plc.go:381-388 | State() == SetTrussLights(old State(), red, blue), whose coil values TrussLightsEffect states |
| Plc.ModbusPlc.WriteCoils | plc/plc.go:480-499 | returns the controller's verdict and WritePayload; State() == WriteCoils(old State(), ok) |
| Plc.ModbusPlc.ReadInputs | plc/plc.go:440-455 | ok iff the reply holds 19 bits; then inputs = the unpacked bits, else nothing changes |
| Plc.ModbusPlc.ReadRegisters | plc/plc.go:457-478 | ok iff the reply holds 3 words; then registers = the decoded words, else nothing changes |
| Plc.ModbusPlc.InputPinOf | plc/plc.go:196-205 | a pin is found exactly when the input is mapped to a pin in 0..18, and it is the mapped pin (the panics become None) |
| Plc.ModbusPlc.CoilPinOf | plc/plc.go:209-218 | a pin is found exactly when the coil is mapped to a pin in 0..13, and it is the mapped pin (the panics become None) |
| Plc.ModbusPlc.CopyToOld | plc/plc.go:434-436 | the old copies become the current inputs, registers and coils; nothing else changes |
| Plc.ModbusPlc.Exchange | plc/plc.go:415-423 | State() == Exchange(old State(), io) |
| Plc.ModbusPlc.Advance | plc/plc.go:415-429 | State() == Advance(old State(), io) |
| Plc.ModbusPlc.Publish | plc/plc.go:431-437 | State() == Publish(old State()) |
| Plc.ModbusPlc.Update | plc/plc.go:414-438 | State() == Update(old State(), io) |
| Plc.ModbusPlc.RunStep | plc/plc.go:246-267 | State() == RunStep(old State(), conn, io) |
| Mayhem.MayhemInputPin | plc/mayhem_plc.go:27-72 | no ensures: the Mayhem input table; MayhemInputPinIsOrdinal and MayhemInputsBijective state it |
| Mayhem.MayhemCoilPin | plc/mayhem_plc.go:76-111 | no ensures: the Mayhem coil table; MayhemCoilPinIsOrdinal and MayhemCoilsBijective state it |
| Mayhem.MayhemInputPinIsOrdinal | plc/mayhem_plc.go:27-72 | every input id in [0,19) goes to its own number; other ids to the base lookup |
| Mayhem.MayhemCoilPinIsOrdinal | plc/mayhem_plc.go:76-111 | every coil id in [0,14) goes to its own number; other ids to the base lookup |
| Mayhem.MayhemInputsBijective | plc/mayhem_plc.go:27-72 | the input table is a bijection on [0,19) |
| Mayhem.MayhemCoilsBijective | plc/mayhem_plc.go:76-111 | the coil table is a bijection on [0,14) |
| Mayhem.FieldEStopsAliasBlueInputs | plc/mayhem_plc.go:7-12 | field E-stops 9-12 are Blue2EStop..Blue3AStop and resolve to pins 9-12 without the fallback |
| Mayhem.MayhemTeamEStops | plc/mayhem_plc.go:115-129 | three entries per alliance |
| Mayhem.MayhemTeamEStopsEntries | plc/mayhem_plc.go:115-129 | stations 1 and 2: base OR pin 9/10 (red), 11/12 (blue) reading false; station 3: base |
| Mayhem.MayhemTeamEStopsOnlyAdd | plc/mayhem_plc.go:115-129 | every stop in the base read is a stop in the Mayhem read |
| Mayhem.Blue2EStopAlsoStopsRed1 | plc/mayhem_plc.go:115-129 | with default maps, blue 2's E-stop also reports a stop at red station 1 |
| Mayhem.MayhemPlc.constructor | plc/mayhem_plc.go:19-23 | wraps a default-map PLC whose mappings are valid |
| Mayhem.MayhemPlc.GetTeamEStops | plc/mayhem_plc.go:115-129 | equals MayhemTeamEStops of the wrapped PLC's state |
| GameScore.LeaveValue | game/score.go:62-70 | Partial scores 3, Full 6, any other status 0 |
| GameScore.EndgameValue | game/score.go:80-88 | Partial scores 2, Full 5, any other status 0 |
| GameScore.LeaveTotal | game/score.go:61-70 | no ensures: the loop's sum of leave values; LeaveTotalByCounts, LeaveTotalBounds, PerRobotTotals and LeaveTotalAppend state it |
| GameScore.EndgameTotal | game/score.go:79-88 | no ensures: the loop's sum of endgame values; EndgameTotalByCounts, EndgameTotalBounds and PerRobotTotals state it |
| GameScore.FoulTotal | game/score.go:93-95 | no ensures: the sum of the opponent's foul values; FoulTotalAppend and OpponentFoulAdds state it |
| GameScore.MajorCount | game/score.go:96-98 | no ensures: the number of major fouls; MajorCountBounds and OpponentFoulAdds state it |
| GameScore.GamePiece1Points | game/score.go:73-74 | no ensures: 5 per auton and 6 per teleop piece, stated by SummaryBreakdown |
| GameScore.GamePiece2Points | game/score.go:75-76 | no ensures: 7 per auton and 8 per teleop piece, stated by SummaryBreakdown |
| GameScore.Summary | game/score.go:52-135 | no ensures: the closed form of Summarize; DisqualifiedScoresZero, SummaryBreakdown, OwnFoulsIgnored, OpponentFoulAdds and FixtureSummaries state it |
| GameScore.Summarize | game/score.go:52-135 | the accumulator loops return Summary(score, opponent) |
| GameScore.Equals | game/score.go:138-157 | true iff the two scores are equal in every field and every foul |
| GameScore.DisqualifiedScoresZero | game/score.go:55-58 | a disqualified alliance's summary is all zero, whatever the opponent |
| GameScore.LeaveTotalBounds | game/score.go:61-70 | 0 <= leave points <= 6 per robot |
| GameScore.EndgameTotalBounds | game/score.go:79-88 | 0 <= endgame points <= 5 per robot |
| GameScore.UnknownStatusesScoreNothing | game/score.go:61-88 | statuses other than Partial and Full add nothing |
| GameScore.PerRobotTotals | game/score.go:61-88 | the totals are the sums of the three robots' points |
| GameScore.LeaveTotalByCounts | game/score.go:61-70 | leave points are 3 per Partial plus 6 per Full among the statuses |
| GameScore.EndgameTotalByCounts | game/score.go:79-88 | endgame points are 2 per Partial plus 5 per Full among the statuses |
| GameScore.TotalsIgnoreRobotOrder | game/score.go:61-88 | reordering the robots' statuses changes neither total |
| GameScore.LeaveTotalAppend | game/score.go:61-70 | leave points add over concatenated status lists |
| GameScore.FoulTotalAppend | game/score.go:93-95 | foul points add over concatenated foul lists |
| GameScore.MajorCountBounds | game/score.go:96-98 | 0 <= major count <= number of fouls |
| GameScore.SummaryBreakdown | game/score.go:60-115 | leave in [0,18], endgame in [0,15], piece formulas 5a+6t and 7a+8t, match and score totals, foul points from the opponent, bonus 0 |
| GameScore.OwnFoulsIgnored | game/score.go:93 | an alliance's own fouls never change its summary |
| GameScore.OpponentFoulAdds | game/score.go:93-110 | one more opponent foul adds its value to foul points and score, and one major if major |
| GameScore.FixtureSummaries | game/test_helpers.go:8-41 | the two fixtures summarise to 95 and 201 match points; red's five major fouls count in blue's summary, blue has none |
| MatchOutcome.ComparePoints | game/score_summary.go:65-73 | RedWon iff r > b, BlueWon iff r < b, Tie iff r == b |
| MatchOutcome.ComparePointsAntisymmetric | game/score_summary.go:65-73 | swapping the arguments swaps the winner and keeps a tie |
| MatchOutcome.DetermineMatchStatus | game/score_summary.go:41-62 | never Scheduled or Hidden; unequal scores decide; without tiebreakers the score compare is the answer |
| MatchOutcome.LexCompare | game/score_summary.go:41-62 | the independent reference order: one of Tie, RedWon, BlueWon |
| MatchOutcome.DetermineIsLexicographic | game/score_summary.go:41-62 | with tiebreakers the result is the lexicographic order on (score, majors, auto, park) |
| MatchOutcome.LexTieIffEqual | game/score_summary.go:41-62 | keys tie iff they are equal |
| MatchOutcome.LexAntisymmetric | game/score_summary.go:41-62 | reversing the comparison swaps the result |
| MatchOutcome.LexTransitive | game/score_summary.go:41-62 | the lexicographic order is transitive |
| MatchOutcome.PlayoffTieIffAllEqual | game/score_summary.go:46-61 | a playoff tie iff all four fields are equal |
| MatchOutcome.EqualScoresTieWithoutTiebreakers | game/score_summary.go:41-62 | without tiebreakers equal scores tie |
| MatchOutcome.DetermineAntisymmetric | game/score_summary.go:41-73 | swapping the alliances swaps the winner, with or without tiebreakers |
| MatchOutcome.DetermineTransitive | game/score_summary.go:41-73 | beating is transitive |
| MatchOutcome.DetermineTotal | game/score_summary.go:41-73 | the result is always RedWon, BlueWon or Tie |
| MatchOutcome.SummarizedTiebreakIsMajorFouls | game/score_summary.go:46-61 | between summaries Summarize produced, a score tie falls to the major-foul count alone, under the reading that keeps the endgame total apart from ParkPoints |
| MatchOutcome.SummarizedTiebreakIfParkIsEndgame | game/score_summary.go:46-61 | under the other reading, where the endgame total is stored as ParkPoints, a score tie falls to the major-foul count and then to the endgame points |
| RuleTable.RuleMapOf | game/rule.go:47-55 | no ensures: the map built from a rule list, later rules overwriting; RuleMapKeys, EveryRuleUnderItsId and RuleMapSize state it |
| RuleTable.RuleById | game/rule.go:42-44 | no ensures: lookup in the built map; RuleMapContents and LookupOutsideTable state it |
| RuleTable.RuleMapKeys | game/rule.go:49-52 | the built map's keys are exactly the rules' ids |
| RuleTable.EveryRuleUnderItsId | game/rule.go:49-52 | with distinct ids each rule sits under its own id |
| RuleTable.RuleMapSize | game/rule.go:49-52 | with distinct ids the map has one entry per rule |
| RuleTable.RuleIdsAreOneToEighteen | game/rule.go:16-36 | 18 rules, ids 1..18 in order, distinct |
| RuleTable.RuleMapContents | game/rule.go:42-54 | 18 entries; each rule found by its id; a lookup succeeds iff 1 <= id <= 18 and returns that id's rule |
| RuleTable.LookupOutsideTable | game/rule.go:42-44 | ids 0 and 19 find no rule |
| RuleTable.RuleFlags | game/rule.go:18-35 | no rule grants a ranking point; the majors are 2, 3, 6, 8, 11, 13, 14, 17 |
| RuleTable.RuleRegistry.constructor | game/rule.go:39 | the map starts unbuilt |
| RuleTable.RuleRegistry.GetAllRules | game/rule.go:47-55 | returns the map of the table; the first call builds it by the loop, later calls return the cache unchanged |
| RuleTable.RuleRegistry.GetRuleById | game/rule.go:42-44 | returns the rule with that id, or None |

## Behaviour of the code worth knowing

Each point below describes what the code does where a reader might expect something else. The model follows the code in every case.

- **Match-reset pulse length.** `ResetMatch` raises the reset coil, and `writeCoils` drops it again; the comment at `plc/plc.go:492` calls this "a short pulse". The pulse is seven successful coil writes long, which at the 100 ms loop period is about 0.7 s. The count starts at 0 and rises once per successful write while it is at most 5. The coil drops on the first successful write after the count reaches 6. A failed write still sends the bit but does not advance the count (`MatchResetSentSevenTimes`, `ResetSentOverSevenUpdates`).
- **When the cycle counter advances.** `update` increments `cycleCounter` (`plc/plc.go:426-429`) after the exchange, whether or not the exchange succeeded, and also when there is no handler at all. So the phases of `GetCycleState` keep running while the controller is unreachable (`UpdateAdvancesCycle`, `DisabledIsUnhealthy`).
- **E-stop readings before the first read.** The stop inputs are active-low: the getters report a stop as active (`plc/plc.go:283`) when its input reads false. All inputs start false, so a PLC that has never read its inputs (fresh, or never enabled) reports every E-stop and A-stop as active, which is the fail-safe reading (`FreshPlcReportsStopsActive`).
- **What "valid mappings" means.** The comment at `plc/plc.go:155` says invalid mappings make `IsHealthy()` false. The check at `plc/plc.go:180` compares only the two map sizes. A map of the right size that sends an id to a pin out of range passes, and that pin panics later in `getInputPin` or `getCoilPin` (`SizeCheckAdmitsBadPin`).
- **The Mayhem variant's pin tables.** `MayhemPlc` defines its own `getInputPin` and `getCoilPin`, and the comment says they override the default mapping. Go embedding has no virtual dispatch, though. Every method promoted from `ModbusPlc` keeps calling the base lookup on the default 1:1 maps, and only `MayhemPlc.GetTeamEStops` uses the Mayhem tables.
- **Mayhem field E-stop ids.** The four Mayhem field E-stop ids are the numbers of `blue2EStop`..`blue3AStop`. The TODO at `plc/mayhem_plc.go:3-6` notes that this hardware support is provisional. As a result:
  - red station 1 also reports a stop when blue station 2's E-stop input reads false;
  - red station 2 also reports a stop when blue station 2's A-stop input reads false;
  - blue stations 1 and 2 also report a stop when blue station 3's E-stop or A-stop input reads false.

  The model keeps this aliasing (`Blue2EStopAlsoStopsRed1`).
- **Test expectations for the scoring fixtures.** The numbers expected in `game/score_test.go` do not match `game/score.go`. For example, the test expects 12 leave points and 19 match points for the first fixture, whose leave statuses Full, Partial, None give 9 leave points, and whose game pieces add 79 more. `FixtureSummaries` follows the code.
- **The summary struct and `Summarize` disagree on field names.** The `ScoreSummary` struct (`game/score_summary.go:8-24`) declares `Gamepiece1Points`, `Gamepiece2Points` and `ParkPoints`, and no `EndgamePoints`. `Summarize` (`game/score.go:73`, `:76`, `:79-90`) and its test (`game/score_test.go:24-37`) write and read `GamePiece1Points`, `GamePiece2Points` and `EndgamePoints`. As written, the package does not compile. The model takes the names `Summarize` uses: the endgame total is its own field `endgamePoints`, and `parkPoints` is never written, so the park tiebreaker (`game/score_summary.go:56`) never decides between two produced summaries (`SummarizedTiebreakIsMajorFouls`). Under the other reading, where the endgame total is stored as `ParkPoints`, a tie after the major fouls falls to the endgame points (`SummarizedTiebreakIfParkIsEndgame`).

## Left out

- **Network I/O.** The Modbus TCP client and handler (connect, the three requests, close, the one-second timeout) are network I/O. Their outcomes are the oracle parameters `Reply`, `CycleIo` and `ConnectResult`.
- **Timing.** `Run`'s infinite loop, the sleeps and `time.Until` are wall-clock behaviour. `RunStep` models one iteration's decisions.
- **The notifier.** The websocket notifier and `generateIoChangeMessage` are publish plumbing. `notifyCount` stands for the `Notify` calls.
- **SetAddress's notifier creation.** The nil check on the notifier in `SetAddress` only allocates that plumbing.
- **Name lists.** `GetInputNames`, `GetRegisterNames`, `GetCoilNames` and the names in `GetArmorBlockStatuses` come from generated `String()` methods that are not part of this model. The armor-block statuses are a sequence indexed by block number.
- **Log messages.** `log.Printf` and the panic message texts are not modelled.
- **`len == 0` branches.** The `len == 0` early returns of `readInputs` and `readRegisters` cannot be taken, because the arrays have fixed non-zero sizes.
- **`plc/arduino_plc.go`.** It is stubs returning constants, and is not part of this model.
- **`Foul.PointValue` and foul rule lookup.** `Foul.PointValue` is not part of this model, so foul points use the parameter `pointValue`. The commented-out rule lookup in `Summarize` is not modelled.
- **Rankings.** `RankingFields`, `Rankings` and their float tiebreak are not part of this model.
- **Rule descriptions.** The rules' free-text `Description` strings are omitted. Id, rule number and flags are kept.
- **Web handlers and browser UI.** `web/` and `static/js/` are HTTP, websocket and database plumbing and browser UI.
- **Score summary fields not written here.** `NumGamepiece1`, `NumGamepiece2` and the three bonus-ranking-point booleans of `ScoreSummary` are never written by `Summarize`, so they are not modelled. `autoPoints` and `parkPoints` are kept because `DetermineMatchStatus` reads them. Under the reading described in "Behaviour of the code worth knowing", `Summarize` leaves them 0.
- **Go integer overflow.** The model uses unbounded integers for the 64-bit `int` arithmetic of the scores, fouls and cycle counter. Overflow would need more than 2^63 points.
- **Go aliasing.** `GetAllRules` returns the cached map, and in Go callers could change that shared map. The model returns a value.
- PlcModel.ResetMatch: its ensures states only well-formedness; the effect is stated by `PlcProperties.ResetMatchEffect`.
- PlcModel.WriteCoils: its ensures states only the frame; the effects are stated by `FailedWriteOnlyRaisesHeartbeat`, `SuccessfulWritePulse` and `WritePayloadCarriesHeartbeat`.
- PlcModel.StackLightsEffect: the light values are stated only when the lights' coils map to different pins. When two share a pin, the later write in the source's order wins; `SetCoils` computes that, but no lemma states it.
- PlcModel.TrussLightsEffect: the same condition applies, over all six truss-light coils.
