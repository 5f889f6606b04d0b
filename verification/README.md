# Verification of the flux-purr firmware core

A Dafny model of the parts of the firmware that decide what the heater may draw from its USB-PD
source, and of three smaller components beside it:

- the supply-boundary scan (`firmware/src/heater_supply_scan.rs`), a twelve-phase state machine that
  heats a plate in two modes and records which requests the source can hold;
- the boundary table (`firmware/src/heater_supply.rs`): validity, the 11-byte point codec, the guarded
  lookup with its cold start, in-place retention and the equilibrium window;
- the buzzer player and its priority arbiter (`firmware/src/buzzer.rs`);
- the DNS-SD announcement writer (`firmware/src/mdns.rs`), against a reader of RFC 1035;
- the heat-state step (`firmware/src/thermal_response.rs`) over real numbers.

`dafny verify dfyconfig.toml` checks the whole project.

## How it is organised

Each stateful component appears twice: as a transition function on values (`ScanModel`, `Buzzer`,
`BuzzerArbitration`, the functions of `BoundaryData`, `BoundaryCodec`, `BoundaryLookup` and
`EquilibriumBand`), about which the theorems are proved, and as a class updated in place
(`ScanMachine`, `BuzzerMachine`, `BoundaryStore`, `EquilibriumBand`), each of whose methods is proved to
have exactly the effect of its function. The scan object carries the samples it has seen as a ghost
history; its validity is that it is where those samples take the model, and its update ensures the
theorems about runs.

Limits and thresholds are written out as numbers where the theorems state them: `ScanSample` says in plain
terms what a sample tells the scan, `ScanSteps` what one update does with it, `ScanReadings` where the points
come from, and the layout, window, validity and decision theorems do the same for the other components.

| theory | files |
|---|---|
| boundary table and codec | `BoundaryData`, `BitPacking`, `BoundaryCodec`, `BoundaryLookup`, `BoundaryStore`, `EquilibriumBand` |
| scan: model, invariant, whole runs | `ScanModel`, `ScanTable`, `ScanShape`, `ScanInvariant`, `ScanRuns`, `ScanPreflight`, `ScanSample`, `ScanSteps`, `ScanReadings`, `ScanBins`, `ScanProbes`, `ScanEscape`, `ScanToLookup`, `ScanMachine` |
| buzzer | `Buzzer`, `BuzzerArbitration`, `BuzzerMachine` |
| announcement | `DnsWire`, `Mdns` |
| heat step | `HeatStep` |

A *well-formed* scan has a header that satisfies the header clauses of `is_valid` with
`source_min < source_max` on the 100 mV grid, and samples with ADC readings of at most 4095 mV at times
that are multiples of 50 ms below 2^19 · 50 ms. Only the grid needs the header, and only the validity of
what is stored needs both: the range form of the envelope, the slew bound, the probe bounds, the table shape,
rapid coverage, and the no-heat and abort theorems hold for every scan that can be constructed and any
samples.

## Where a promise fails, and exactly when it holds

- *Rapid envelope.* `handle_stage_timeout` skips any stage below 3 A, a timed-out terminal probe included
  (firmware/src/heater_supply_scan.rs:950-977). The envelope is left if and only if that happens below
  2.9 A; 2900 and 2950 mA are clipped to 3 A.
- *Validity of a completed scan.* `ScanEscape.EscapeHappens` is a run that escapes and then completes with
  an invalid boundary. `ScanRuns.CompletedScanPersists` is the exact condition, on the sample that ends the
  run: it must not be a 220 C cutoff at which the last tracking point, outside a probe, has a current that
  is no stage current. Slew bound, table shape and coverage survive the escape.
- *Codec.* `is_valid` admits flat requests off the 100 mV grid and terminal requests above 25.5 V, which
  the packing cannot hold (`BoundaryCodec.OffGridIsLost`, `BoundaryCodec.HighTerminalIsLost`);
  `BoundaryCodec.RoundTrip` is the exact condition. Scan-produced tables meet it.
- *Re-encoding.* Code 30 with a derived current of exactly 3000 mA re-encodes as code 31;
  `BoundaryCodec.Reencode` is the exact condition and `BoundaryCodec.AliasHappens` exhibits it.
- *Cold start.* The fallback hands a 3 A point to queries for less than 3 A
  (firmware/src/heater_supply.rs:377-416); `BoundaryLookup.AnswerCurrent` is the exact condition.
- *Dead code.* The last reprobe branch of `rapid_warmup` is subsumed by the branch before it, and no code
  assigns `PreflightRecovery` or `TemperatureSettle` (`ScanRuns.RequestEnvelope`).

## Model

| member | source | states |
|---|---|---|
| `ScanRuns.CompletedScanPersists` | firmware/src/heater_supply_scan.rs:286-343 | Every well-formed scan that reaches `Complete` with a point did so with one update of a running scan; what it stores satisfies `is_valid` if and only if that sample was not a cutoff that made the scan retain a point of irregular current, which never happens in detailed mode; and a valid result decodes from its encoding exactly, free slots included. |
| `ScanRuns.CompletedBeforeCutoff` | firmware/src/heater_supply_scan.rs:495-534 | Every detailed scan, and every rapid scan that completes before the cutoff whether or not it escaped, stores a valid boundary that survives encoding. |
| `ScanRuns.CompletionIsValid` | firmware/src/heater_supply_scan.rs:300-304 | The same equivalence for one update from any state of the invariant. |
| `ScanRuns.RequestEnvelope` | firmware/src/heater_supply_scan.rs:162-210 | With a well-formed header and any samples, in every reachable state the request is in the source range on the 100 mV grid at a regular current (exactly 3 A in rapid mode, until an escape), or is exactly the terminal target in `TerminalProbe`, `Complete` or `Failed`, with mV·mA within the power limit and no overflow in its arithmetic; detailed mode never enters the three rapid phases, and nothing enters `PreflightRecovery` or `TemperatureSettle`. |
| `ScanRuns.RapidEnvelopeIff` | firmware/src/heater_supply_scan.rs:950-977 | Every rapid run of every scan that can be constructed stays in the source range at 3 A, or exactly at the terminal target, throughout if and only if no update meets the guard of the timed-out terminal probe below 2.9 A. |
| `ScanRuns.DetailedEnvelope` | firmware/src/heater_supply_scan.rs:783-817 | Every detailed run of every scan that can be constructed stays in the source range at a current that is a multiple of 100 mA from 2 A to 3 A. |
| `ScanRuns.EscapeLeavesEnvelope` | firmware/src/heater_supply_scan.rs:955-977 | From every state of the strict invariant the escape guard leads to a heated state outside the envelope. |
| `ScanRuns.SlewBound` | firmware/src/heater_supply_scan.rs:603-817 | In every run of every scan that can be constructed, escaped or not, an update that ends with the heater on raises the request by at most 100 mV in detailed and 500 mV in rapid mode, unless it enters `TerminalProbe`. |
| `ScanShape.RapidCoverage` | firmware/src/heater_supply_scan.rs:844-948 | Every rapid run of every scan that can be constructed, whatever its header and samples, that completes other than by the cutoff has a stored 3 A tracking point that fills a bin at or above 100 C. |
| `ScanRuns.RunKeeps` | firmware/src/heater_supply_scan.rs:286-417 | Every state of every run of every scan that can be constructed satisfies the invariant, with the envelope while no update has escaped, the grid for a well-formed header and the readings for well-formed samples; the mode and the header never change. |
| `ScanRuns.DetailedNeverEscapes` | firmware/src/heater_supply_scan.rs:783-817 | A detailed run never meets the escape guard. |
| `ScanRuns.InvStoresValid` | firmware/src/heater_supply.rs:162-209 | A table that satisfies the scan invariant, holds a point and has no stranded one is valid and packable. |
| `ScanToLookup.RapidScanServesThreeAmp` | firmware/src/heater_supply_scan.rs:489-534 | End to end: the boundary of a rapid scan completed before the cutoff survives storage, and every matching query of 3 A or more on it gets an authorised point within the query's current. |
| `ScanEscape.EscapeHappens` | firmware/src/heater_supply_scan.rs:464-493 | A concrete 60 W source and seven samples reach the terminal probe; its timeout heats outside the envelope, and one cold sample and the cutoff then complete the scan with a boundary that is not valid. |
| `ScanEscape.EscapeStoresInvalid` | firmware/src/heater_supply_scan.rs:300-304 | From every invariant state at the escape guard whose skipped-to current is not a regular stage current, a cold sample and the cutoff complete the scan with an invalid boundary. |
| `ScanEscape.CompletionHappens` | firmware/src/heater_supply_scan.rs:513-530 | The same source, confirmed in time: a well-formed rapid run without the escape that completes before the cutoff with a stored point, so the run theorems are not vacuous. |
| `ScanInvariant.UpdateKeeps` | firmware/src/heater_supply_scan.rs:286-343 | Every update keeps the invariant, the mode and the header within the slew bound, with no hypothesis on the sample; its strict form is kept by every update but the escape, and the readings by well-formed samples. |
| `ScanInvariant.AdvanceKeeps` | firmware/src/heater_supply_scan.rs:345-417 | The same for one settled observation in each of the twelve phases. |
| `ScanInvariant.SweepStepKeeps` | firmware/src/heater_supply_scan.rs:603-702 | The sweep keeps the invariant: no flat voltage is pending, the last tracking voltage never exceeds the request and the flat counter stays below five. |
| `ScanInvariant.EquilibriumStepKeeps` | firmware/src/heater_supply_scan.rs:979-1030 | The equilibrium phase keeps the invariant, including one stored equilibrium point per current. |
| `ScanInvariant.RapidWarmupStepKeeps` | firmware/src/heater_supply_scan.rs:844-914 | The rapid warm-up keeps the invariant at 3 A and, after an escape, below it. |
| `ScanInvariant.TerminalProbeStepKeeps` | firmware/src/heater_supply_scan.rs:495-534 | The terminal probe keeps the invariant; the point it stores is a power-safe terminal point. |
| `ScanInvariant.BeginSourceBoundaryRecoverySteers` | firmware/src/heater_supply_scan.rs:1078-1145 | Falling back from a failed rapid request keeps the invariant and lands on the grid within the source range. |
| `ScanInvariant.RecoveryRequestInRange` | firmware/src/heater_supply_scan.rs:1080-1106 | The fall-back voltage is on the 100 mV grid within the source range. |
| `ScanInvariant.BeginRapidVoltageReprobeSteers` | firmware/src/heater_supply_scan.rs:916-948 | A rapid reprobe keeps the invariant within the slew bound, or completes with coverage. |
| `ScanInvariant.TerminalTargetFacts` | firmware/src/heater_supply_scan.rs:464-473 | The terminal target lies above the 3 A range on the grid, below 21 V and the advertised ceiling, at a current of at least 1 A in steps of 50 mA. |
| `ScanInvariant.CutOffKeeps` | firmware/src/heater_supply_scan.rs:300-304 | The 220 C cutoff completes the scan; the table stays good exactly unless the retained point has an irregular current. |
| `ScanInvariant.StageTimeoutKeeps` | firmware/src/heater_supply_scan.rs:950-977 | A stage timeout keeps the strict invariant outside the escape, and the invariant always. |
| `ScanInvariant.NextStageSteers` | firmware/src/heater_supply_scan.rs:557-573 | Skipping a stage lands on the lowest voltage at the next current, within the invariant. |
| `ScanInvariant.FirstStageSteers` | firmware/src/heater_supply_scan.rs:440-455 | The first heated stage starts at the lowest voltage, within the invariant. |
| `ScanInvariant.BeginThreeAmpProbeSteers` | firmware/src/heater_supply_scan.rs:547-601 | Beginning a probe, or skipping it, keeps the invariant: the probe starts at the voltage it will return to. |
| `ScanInvariant.FinishNormalProbeSteers` | firmware/src/heater_supply_scan.rs:1032-1044 | A probe may end in any phase: the request stays at or above the return voltage, which the recovery then approaches. |
| `ScanInvariant.ProbeRecoveryStepSteers` | firmware/src/heater_supply_scan.rs:378-400 | Recovery steps stay on the grid between the return voltage and the present one. |
| `ScanInvariant.SourceBoundaryRecoveryStepSteers` | firmware/src/heater_supply_scan.rs:1147-1167 | Ending a boundary recovery keeps the invariant. |
| `ScanInvariant.ProbeNextVoltageSteers` | firmware/src/heater_supply_scan.rs:731-755 | Raising the request stays in range within the slew bound. |
| `ScanInvariant.BeginEquilibriumSteers` | firmware/src/heater_supply_scan.rs:783-817 | Leaving the sweep lands one step inside, or at, the last tracking voltage. |
| `ScanInvariant.HandleFlatConfirmationSteers` | firmware/src/heater_supply_scan.rs:718-729 | A confirmed flat answer keeps the invariant: the flat voltage lies above the tracking one. |
| `ScanInvariant.HandleAmbiguousConfirmationSteers` | firmware/src/heater_supply_scan.rs:704-716 | The same for a confirmed ambiguous answer. |
| `ScanInvariant.FinishThreeAmpEquilibriumSteers` | firmware/src/heater_supply_scan.rs:1008-1030 | The end of a 3 A equilibrium completes or resumes the sweep within the invariant. |
| `ScanInvariant.BeginTerminalProbeOrCompleteSteers` | firmware/src/heater_supply_scan.rs:475-493 | The terminal probe is entered exactly at its target. |
| `ScanTable.RetainPlainKeeps` | firmware/src/heater_supply.rs:434-452 | Retaining an equilibrium point in a table with room keeps at most one per current, adds no other point and leaves the tracking points and free slots alone. |
| `ScanTable.RebuildShaped` | firmware/src/heater_supply_scan.rs:1186-1199 | Rebuilding after a bin changed leaves exactly the equilibrium points and the filled bins, in order, and default free slots. |
| `ScanTable.RetainTerminalShaped` | firmware/src/heater_supply_scan.rs:519-530 | The terminal point is appended behind an otherwise unchanged table. |
| `ScanBins.BinHoldsStrongest` | firmware/src/heater_supply_scan.rs:1169-1184 | Over any run each bin is empty exactly when nothing was recorded in it, and otherwise holds a recorded observation whose request no other recorded one of that bin exceeds. |
| `ScanBins.UpdateOffers` | firmware/src/heater_supply_scan.rs:286-343 | An update changes the bins only by offering them the one 3 A observation it records; which samples those are, in which ten-degree bin and with which readings, is written out over the fields of the sample and the scan. |
| `ScanReadings.PointsAreSamples` | firmware/src/heater_supply_scan.rs:272-284 | Every point that any run has stored, binned or kept as its last tracking point is one sample of the run: its time, both codes and both millivolts are the sample's, and its request pair is the one in force when that sample arrived. |
| `ScanReadings.UpdateAdds` | firmware/src/heater_supply_scan.rs:286-343 | One update holds nothing new but the reading of its own sample under the request in force. |
| `ScanSample.GuardsMean` | firmware/src/heater_supply_scan.rs:292-341 | The guards with their limits written out: plausible readings, ten seconds of a probe, fifteen minutes of a stage, 60 C and ten degrees for a coverage probe, and the settle intervals. |
| `ScanSample.FilteredMeans` | firmware/src/heater_supply_scan.rs:259-270 | The filter moves a quarter of the way to the raw reading, rounded towards where it was, and is clamped to 16 bits. |
| `ScanSample.HoldsMeans` | firmware/src/heater_supply_scan.rs:1046-1059 | A request holds if and only if the reading is at least 95 % of what the last tracking point predicts and 90 % of what the baseline predicts, in exact arithmetic. |
| `ScanSample.AnswerMeans` | firmware/src/heater_supply_scan.rs:643-668 | Tracking is a rise of at least 80 % of the rounded-up expected step, a ramp a drift of more than 1 C, flat a rise of at most 25 %. |
| `ScanSample.ObservedUpdate` | firmware/src/heater_supply_scan.rs:333-341 | A settled observation reaches the step of its phase with the filtered temperature. |
| `ScanSample.RefusedUpdate` | firmware/src/heater_supply_scan.rs:287-335 | Any other sample meets exactly the first guard that refuses it. |
| `ScanSample.AdvanceMeans` | firmware/src/heater_supply_scan.rs:345-417 | Which step each phase takes, and that heated phases wait for the full load. |
| `ScanSteps.SweepLearns` | firmware/src/heater_supply_scan.rs:649-654 | A judged sweep sample becomes the last tracking point and is offered to its bin, and the request goes up, if and only if the reading rose by 80 % of the step; otherwise no bin and no tracking point is added. |
| `ScanSteps.SweepOpens` | firmware/src/heater_supply_scan.rs:603-610 | The first sample of a stage is a tracking observation, and the request goes up. |
| `ScanSteps.SweepRamps` | firmware/src/heater_supply_scan.rs:655-663 | A drift of more than 1 C clears the counts and goes on to the next voltage. |
| `ScanSteps.SweepCountsFlat` | firmware/src/heater_supply_scan.rs:664-701 | A rise of at most 25 % is counted and the sweep goes on, up to the second, or the fifth of a probe. |
| `ScanSteps.SweepConfirmsFlat` | firmware/src/heater_supply_scan.rs:690-729 | Then a bracketed boundary ends the sweep at its last tracking point, marked with the flat voltage. |
| `ScanSteps.SweepHoldsAmbiguous` | firmware/src/heater_supply_scan.rs:666-688 | A rise between 25 and 80 % holds the request and changes nothing else, up to the fifth, or the eighth of a probe. |
| `ScanSteps.SweepConfirmsAmbiguous` | firmware/src/heater_supply_scan.rs:676-716 | Then it is taken for flat. |
| `ScanSteps.SettlesMeans` | firmware/src/heater_supply_scan.rs:783-817 | How a sweep ends: a probe unloads, a rapid scan holds its tracking voltage, a detailed one waits 100 mV inside it, and without a tracking point the scan fails. |
| `ScanSteps.RaiseMeans` | firmware/src/heater_supply_scan.rs:731-781 | The next voltage: 100 mV in detailed mode; in rapid mode 500 mV until a request has failed, then 100 mV close below the failed one or the ceiling; nothing else changes. |
| `ScanSteps.RapidSags` | firmware/src/heater_supply_scan.rs:1078-1145 | A rapid request that sags falls back at its current to the last safe voltage at least 500 mV down, with the failure counted at 100 C or more, or fails. |
| `ScanSteps.RapidCeiling` | firmware/src/heater_supply_scan.rs:624-636 | At the ceiling a rapid sweep that holds is left to the warm-up. |
| `ScanSteps.WarmupCounts` | firmware/src/heater_supply_scan.rs:853-857 | The first warm-up sample that holds is counted and the next awaited. |
| `ScanSteps.WarmupDecides` | firmware/src/heater_supply_scan.rs:819-914 | A further one is offered to its bin and finishes at a known or held ceiling, tries higher, or waits, under conditions on the fields and the filtered temperature. |
| `ScanSteps.ReprobeMeans` | firmware/src/heater_supply_scan.rs:916-948 | The reprobe takes the failed voltage if it is at most 500 mV above, else one step, at 3 A from this observation. |
| `ScanSteps.FinishMeans` | firmware/src/heater_supply_scan.rs:464-493 | Finishing enters the terminal pair, or completes exactly when there is none. |
| `ScanSteps.TerminalSags` | firmware/src/heater_supply_scan.rs:500-516 | A terminal request that sags goes back to the ceiling of the 3 A range. |
| `ScanSteps.TerminalConfirms` | firmware/src/heater_supply_scan.rs:517-533 | The second terminal sample that holds is stored and completes the scan. |
| `ScanSteps.EquilibriumStored` | firmware/src/heater_supply_scan.rs:979-1030 | In balance the observation is stored as the equilibrium point; then a probe, the next stage, a further sweep or completion follows. |
| `ScanSteps.EquilibriumWaits` | firmware/src/heater_supply_scan.rs:992-1006 | Short of balance, warming by more than 1 C goes back to the sweep, and otherwise only the window moves. |
| `ScanSteps.ProbeMeans` | firmware/src/heater_supply_scan.rs:547-601 | A probe starts at 3 A at the present voltage in a clear ten-degree band, and otherwise the stage is skipped. |
| `ScanSteps.ProbeRecovers` | firmware/src/heater_supply_scan.rs:378-400 | Probe recovery waits for its load state, steps down by 500 mV at the return current, and resumes at the return voltage. |
| `ScanSteps.BoundaryRecovers` | firmware/src/heater_supply_scan.rs:1147-1167 | Boundary recovery waits for its load state and warms up at the fall-back voltage. |
| `ScanSteps.NewMeans` | firmware/src/heater_supply_scan.rs:162-210 | A scan exists exactly for 5.5 V <= min < max <= 21 V and at least 3 A; it starts unheated at the highest voltage with an empty table. |
| `ScanSteps.BaselineTaken` | firmware/src/heater_supply_scan.rs:359-368 | The baseline is taken unloaded under the request in force; a loaded one fails. |
| `ScanSteps.PreflightPasses` | firmware/src/heater_supply_scan.rs:419-462 | When the preflight fails, waits and starts the first stage, at 3 A in rapid and 2 A in detailed mode. |
| `ScanSteps.ProbeTimesOut` | firmware/src/heater_supply_scan.rs:305-313 | A probe of ten seconds unloads at the request it reached. |
| `ScanSteps.StageTimesOut` | firmware/src/heater_supply_scan.rs:950-977 | A stage of more than fifteen minutes fails at 3 A, and below is skipped to the next 100 mA from the lowest voltage. |
| `ScanSteps.CoverageProbes` | firmware/src/heater_supply_scan.rs:315-332 | From 60 C on every new ten-degree band of a sweep below 3 A is probed at 3 A. |
| `ScanSteps.LoadMissing` | firmware/src/heater_supply_scan.rs:346-356 | A heated phase without its full load only waits. |
| `ScanSteps.NotYet` | firmware/src/heater_supply_scan.rs:333-341 | An unconfirmed sample restarts the settle interval, and one that is too early changes only the filter. |
| `ScanSteps.CutsOff` | firmware/src/heater_supply_scan.rs:300-304 | The cutoff marks and completes the scan and stores the last tracking point unless it is a probe's. |
| `ScanSteps.Fails` | firmware/src/heater_supply_scan.rs:292-299 | A change of the WiFi state and an implausible reading fail the scan, each for its reason. |
| `ScanSteps.OutputMeans` | firmware/src/heater_supply_scan.rs:224-246 | In which phases the heater is on. |
| `ScanShape.TableShape` | firmware/src/heater_supply_scan.rs:1186-1207 | In every state of every run of every scan that can be constructed the stored tracking points are the filled bins in order, followed by the terminal point of a completed rapid scan; equilibrium points have distinct currents; free slots are default; and a running rapid scan stores nothing else. |
| `ScanShape.RetainNeverRefused` | firmware/src/heater_supply_scan.rs:1201-1207 | In every running state of every run, retaining any one point is accepted. |
| `ScanShape.RebuildNeverRefused` | firmware/src/heater_supply_scan.rs:1196-1198 | Nor does any `retain` of a rebuild meet a full table, although its result is ignored. |
| `ScanShape.UpdateShaped` | firmware/src/heater_supply_scan.rs:286-343 | Every update keeps the shape of the table and the phase, current and coverage facts it rests on, with no hypothesis on the header or the sample. |
| `ScanProbes.LiveProbeIsBrief` | firmware/src/heater_supply_scan.rs:305-313 | In any run of any detailed scan that can be constructed, a 3 A probe still live after an update began less than 10 s earlier. |
| `ScanProbes.UpdateProbeStep` | firmware/src/heater_supply_scan.rs:547-601 | One update begins a probe (at the present request, ten degrees above the last), carries it on, or ends it unloaded at the request it reached. |
| `ScanProbes.ProbeRemembersStart` | firmware/src/heater_supply_scan.rs:577-600 | From its beginning to its end a probe remembers the voltage it started from. |
| `ScanProbes.UnloadsToStart` | firmware/src/heater_supply_scan.rs:378-400 | In any detailed run, the update that ends a probe turns the heater off at the request reached or ends the scan; from then on the request never rises and falls by at most 500 mV per update while the heater is off, and the heater returns at a voltage no higher than the probe's start. |
| `ScanProbes.RecoveryUnloads` | firmware/src/heater_supply_scan.rs:1032-1044 | Every update of a recovering detailed scan lowers the request by at most 500 mV unheated, resumes at or below the return voltage, or ends the scan. |
| `ScanProbes.RecoveryProgress` | firmware/src/heater_supply_scan.rs:378-400 | An update with a settled unloaded sample ends the recovery or makes it one 500 mV step shorter. |
| `ScanProbes.RecoveryEnds` | firmware/src/heater_supply_scan.rs:378-400 | In any detailed run, after one settled unloaded sample per 500 mV step and one more, the sweep has resumed or the scan has ended. |
| `ScanProbes.SmoothBetween` | firmware/src/heater_supply_scan.rs:259-270 | The truncating quarter step lands between the previous value and the reading. |
| `ScanProbes.FilterWithinReadings` | firmware/src/heater_supply_scan.rs:259-270 | The filtered temperature of a running scan lies between the least and greatest raw readings so far. |
| `ScanProbes.AtMost55Probes` | firmware/src/heater_supply_scan.rs:314-332 | In any run of any detailed scan that can be constructed, successive 3 A probes start at least 10 C apart and rising, so there are at most 55. |
| `ScanPreflight.NoHeatBeforePreflight` | firmware/src/heater_supply_scan.rs:419-462 | No run of any scan that can be constructed enables the heater before three confirmed observations, both preflight readings above the scaled floor and the second at least 99 % of the first; if sample times do not run backwards, each is a settle interval after the last. |
| `ScanPreflight.BaselineRemembers` | firmware/src/heater_supply_scan.rs:359-368 | A settled unloaded sample becomes the baseline that the later readings are held against. |
| `ScanPreflight.FirstReadingRemembers` | firmware/src/heater_supply_scan.rs:424-461 | A reading above the floor is remembered with its baseline. |
| `ScanPreflight.SecondReadingRemembers` | firmware/src/heater_supply_scan.rs:424-455 | The heater comes on only with a second reading above the floor and within 1 % of the first. |
| `ScanPreflight.FrozenAfterAbort` | firmware/src/heater_supply_scan.rs:286-304 | From the first WiFi change, invalid sample or 220 C reading on, the heater is off and the request frozen for the rest of the run. |
| `ScanPreflight.AbortEnds` | firmware/src/heater_supply_scan.rs:292-304 | Such a sample ends the scan and leaves the request as it was. |
| `ScanPreflight.FloorMeans` | firmware/src/heater_supply_scan.rs:536-545 | The saturating and rounding floor is 90 % of the baseline scaled to the lowest source voltage. |
| `ScanPreflight.EndedIsFinal` | firmware/src/heater_supply_scan.rs:287-289 | No sequence of samples changes an ended scan. |
| `ScanMachine.SupplyScan.Create` | firmware/src/heater_supply_scan.rs:162-210 | A scan exists exactly for a header with 5.5 V <= min < max <= 21 V and at least 3 A, with an empty history. |
| `ScanMachine.SupplyScan.Update` | firmware/src/heater_supply_scan.rs:286-343 | The object is always where its recorded samples take the model, so that each update promises the run theorems outright: no heat before the preflight, off and frozen from an abort on, the table shape and coverage, the slew bound, the envelope until an escape, and the exact validity of what it completes with. |
| `ScanMachine.SupplyScan.Guard` | firmware/src/heater_supply_scan.rs:292-341 | The guard chain on the raw sample. |
| `ScanMachine.SupplyScan.Step` | firmware/src/heater_supply_scan.rs:345-417 | One settled observation, phase by phase. |
| `ScanMachine.SupplyScan.CutOffHere` | firmware/src/heater_supply_scan.rs:300-304 | The marked cutoff, the retained last point and the completed phase. |
| `ScanMachine.SupplyScan.StepTerminalProbe` | firmware/src/heater_supply_scan.rs:495-534 | The terminal probe step with its retained point. |
| `ScanMachine.SupplyScan.StepSweep` | firmware/src/heater_supply_scan.rs:603-638 | The sweep step up to the judgement of the answer. |
| `ScanMachine.SupplyScan.Judge` | firmware/src/heater_supply_scan.rs:643-701 | Tracking, ramp, flat and ambiguous answers. |
| `ScanMachine.SupplyScan.StepRapidWarmup` | firmware/src/heater_supply_scan.rs:844-914 | The rapid warm-up step. |
| `ScanMachine.SupplyScan.DecideWarmup` | firmware/src/heater_supply_scan.rs:819-913 | The warm-up decision, hot boundary included; the source's last reprobe branch cannot be reached and is omitted. |
| `ScanMachine.SupplyScan.StepEquilibrium` | firmware/src/heater_supply_scan.rs:979-1006 | The equilibrium step. |
| `ScanMachine.SupplyScan.RecoverBoundary` | firmware/src/heater_supply_scan.rs:1078-1145 | The fall-back from a failed rapid request. |
| `ScanMachine.SupplyScan.FindStrongestBelow` | firmware/src/heater_supply_scan.rs:1080-1092 | The search loop finds the last of the strongest stored points of the current below the request. |
| `ScanMachine.SupplyScan.RetainBin` | firmware/src/heater_supply_scan.rs:1169-1184 | The strongest point of the bin, and the rebuilt table. |
| `ScanMachine.SupplyScan.RetainLastTracking` | firmware/src/heater_supply_scan.rs:1201-1207 | The retained last tracking point. |
| `ScanMachine.Compact` | firmware/src/heater_supply_scan.rs:1187-1194 | The in-place compaction leaves the equilibrium points in order and the slots behind them as they were. |
| `ScanMachine.RebuildPoints` | firmware/src/heater_supply_scan.rs:1186-1199 | The compaction followed by the retained bins equals the rebuilt table. |
| `BoundaryData.TerminalPowerBound` | firmware/src/heater_supply.rs:58-64 | For every power limit a valid header may carry, the 32- and 16-bit arithmetic is exact and the derived current times the voltage stays within the limit. |
| `BoundaryData.ReplacedIndex` | firmware/src/heater_supply.rs:434-443 | The first stored equilibrium point of the same current, or the end. |
| `BoundaryData.ValidMeans` | firmware/src/heater_supply.rs:162-209 | Validity, limit by limit and in both directions, for the header and every stored point. |
| `BoundaryData.GreatestCurrent` | firmware/src/heater_supply.rs:58-64 | The derived current is exactly the greatest multiple of 50 mA within the power limit, if that is 1 A or more. |
| `BoundaryData.RetainMeans` | firmware/src/heater_supply.rs:434-452 | Retaining accepts exactly when an equilibrium point of the same current is stored or a slot is free, replaces that one or appends, and changes nothing else. |
| `BoundaryStore.SupplyBoundary.Retain` | firmware/src/heater_supply.rs:434-452 | In place: replaces the equilibrium point of the same current, else appends, else refuses; nothing else changes. |
| `BoundaryStore.SupplyBoundary.CheckValid` | firmware/src/heater_supply.rs:162-209 | The validity loop decides exactly `IsValid`. |
| `BoundaryStore.SupplyBoundary.Encode` | firmware/src/heater_supply.rs:454-504 | Refuses, with the buffer untouched, exactly when the boundary is invalid or does not fit; otherwise writes the encoding and nothing behind it. |
| `BoundaryStore.SupplyBoundary.Decode` | firmware/src/heater_supply.rs:506-574 | The decoding loop equals the decoding function. |
| `BoundaryStore.SupplyBoundary.CheckCoverage` | firmware/src/heater_supply.rs:150-160 | Some stored reading projects to 100 C or more. |
| `BoundaryStore.SupplyBoundary.SafePoint` | firmware/src/heater_supply.rs:213-361 | The selection loop over a mutable best equals the lookup function. |
| `BoundaryStore.SupplyBoundary.Qualifies` | firmware/src/heater_supply.rs:261-345 | The contract class and the windows decide exactly eligibility. |
| `BoundaryStore.SupplyBoundary.Admits` | firmware/src/heater_supply.rs:294-345 | The four hand-off windows. |
| `BoundaryStore.SupplyBoundary.SafePointOrColdStart` | firmware/src/heater_supply.rs:377-416 | The fallback loop equals the cold-start function. |
| `BoundaryCodec.RoundTrip` | firmware/src/heater_supply.rs:454-574 | A valid boundary survives encode and decode if and only if its flat requests are multiples of 100, its tracking requests are at most 25 500 and its free slots are default. |
| `BoundaryCodec.PointRoundTrip` | firmware/src/heater_supply.rs:488-501 | The same for one 11-byte point. |
| `BoundaryCodec.Reencode` | firmware/src/heater_supply.rs:506-574 | Any accepted byte string re-encodes to the same length and decodes to the same boundary, and re-encodes to itself if and only if no point uses code 30 with a derived current of exactly 3000. |
| `BoundaryCodec.PointReencodes` | firmware/src/heater_supply.rs:545-571 | The same for one point. |
| `BoundaryCodec.TwoEncodings` | firmware/src/heater_supply.rs:546-571 | Every packable one-point boundary whose power limit allows exactly 3 A at its 3 A tracking point has a second encoding that decodes to it. |
| `BoundaryCodec.AliasHappens` | firmware/src/heater_supply.rs:546-571 | At 60 W and 20 V: bytes that decode to a valid boundary and do not re-encode to themselves. |
| `BoundaryCodec.OffGridIsLost` | firmware/src/heater_supply.rs:499-500 | A valid boundary with a flat request of 12 050 mV that does not survive encoding. |
| `BoundaryCodec.HighTerminalIsLost` | firmware/src/heater_supply.rs:498-500 | A valid boundary with a terminal request of 25 600 mV that does not survive encoding. |
| `BoundaryCodec.HeaderRoundTrip` | firmware/src/heater_supply.rs:461-481 | The header fields read back as written. |
| `BoundaryCodec.EncodedLayout` | firmware/src/heater_supply.rs:454-504 | Where everything stands: version, flags, count and words of the header byte by byte, and time, codes, millivolts, requests and current of each point bit by bit. |
| `BoundaryCodec.DecodedLayout` | firmware/src/heater_supply.rs:506-574 | Any accepted bytes are laid out as the boundary they decode to, with the current codes 0 to 20, 30 and 31 spelt out. |
| `BitPacking.UnpackPack` | firmware/src/heater_supply.rs:493-500 | The 19/12/12/12/12/8/8/5-bit fields, shifted and or-ed, are recovered by shift and mask. |
| `BitPacking.PackUnpack` | firmware/src/heater_supply.rs:545-571 | Every 88-bit number is the packing of its fields. |
| `BitPacking.OrDisjoint` | firmware/src/heater_supply.rs:493-500 | Or-ing a field above the ones below it is adding it. |
| `BoundaryLookup.SafePointIsGreatest` | firmware/src/heater_supply.rs:213-361 | The lookup answers exactly when the boundary is valid and reaches 100 C, every field of the query's source is that of the boundary, and some stored point is eligible; then with an eligible stored point that none is lexicographically above. |
| `BoundaryLookup.ThreeAmpWindows` | firmware/src/heater_supply.rs:261-345 | A 3 A point serves queries of 3 A or more, exactly when reached, at most 18 C passed, or confirmed and at most 3 C ahead. |
| `BoundaryLookup.TerminalWindows` | firmware/src/heater_supply.rs:294-345 | A terminal point serves queries of its current and of 3 A or more: within 18 C either way close to the confirmed request, and 0.01 to 12 C ahead otherwise. |
| `BoundaryLookup.EquilibriumWindows` | firmware/src/heater_supply.rs:249-345 | An equilibrium point serves queries below 3 A exactly when no greater stored current is covered and it is reached or at most 18 C passed. |
| `BoundaryLookup.HighWindows` | firmware/src/heater_supply.rs:261-345 | A power-safe point above 3 A serves queries of its current or more, in the windows of a 3 A point. |
| `BoundaryLookup.AnswerIsForThisSource` | firmware/src/heater_supply.rs:218-231 | Any answer, cold start included, is for the very WiFi state, advertised and operational range, current and power limit that were calibrated, on a valid boundary that reaches 100 C. |
| `BoundaryLookup.ColdStartMeans` | firmware/src/heater_supply.rs:390-415 | The cold start answers exactly below every 3 A tracking temperature of such a boundary, with its coldest point. |
| `BoundaryLookup.OrderIndependent` | firmware/src/heater_supply.rs:346-354 | Tables that hold the same points in any order give the same voltage. |
| `BoundaryLookup.WarmerNeverColder` | firmware/src/heater_supply.rs:261-354 | With a strictly increasing projection and consistent readings, a warmer reading never loses the result and never selects a colder point, across all four windows. |
| `BoundaryLookup.EligibleWhenWarmer` | firmware/src/heater_supply.rs:261-345 | Eligibility is never lost by warming up. |
| `BoundaryLookup.ThreeAmpAlwaysAnswered` | firmware/src/heater_supply.rs:377-416 | A matching query of 3 A or more on a valid boundary with coverage and a projectable 3 A tracking point is always answered, within its current and authorised. |
| `BoundaryLookup.AnswerIsAuthorised` | firmware/src/heater_supply.rs:213-416 | Every answer is a stored point in the operational range or within the power limit. |
| `BoundaryLookup.AnswerCurrent` | firmware/src/heater_supply.rs:377-416 | An answer stays within the query's current if and only if a window admitted it or the query is for 3 A or more. |
| `BoundaryLookup.ColdStartExceedsQuery` | firmware/src/heater_supply.rs:399-415 | A concrete cold 2 A query is handed a 3 A point. |
| `BoundaryLookup.ColdestIsLeast` | firmware/src/heater_supply.rs:407-414 | The cold-start candidate is least in projected temperature, then voltage. |
| `BoundaryLookup.CurrentClass` | firmware/src/heater_supply.rs:249-259 | The greatest equilibrium current among the stored points that the query's current covers. |
| `ScanModel.StrongestBelow` | firmware/src/heater_supply_scan.rs:1083-1092 | A stored point of the given current below the given voltage that no other such point exceeds, if there is one. |
| `EquilibriumBand.StableSuffix` | firmware/src/heater_supply.rs:580-611 | A stable verdict means that some suffix of the history ending now began at least 10 s ago and spans at most 1.00 C. |
| `EquilibriumBand.SteadyIsDetected` | firmware/src/heater_supply.rs:592-610 | While all readings stay in one band, the verdict is exactly that 10 s have passed since the first. |
| `EquilibriumBand.EquilibriumWindow.Note` | firmware/src/heater_supply.rs:592-610 | The in-place window with its restarting call equals the window function and terminates. |
| `Buzzer.PlaysInOrder` | firmware/src/buzzer.rs:252-288 | Under any tick times below clock saturation a cue shows its own steps in order, one at a time, and ends silent under a new generation. |
| `Buzzer.TickMovesOne` | firmware/src/buzzer.rs:252-288 | A tick moves on by at most one step, exactly when the step has had its full duration, however late it is. |
| `Buzzer.StepsAreHeld` | firmware/src/buzzer.rs:252-288 | Each step is held at least its duration, from the tick that entered it to the tick that leaves it. |
| `Buzzer.ExactPlayback` | firmware/src/buzzer.rs:290-296 | Ticked exactly at its announced transitions a cue is on schedule after every tick and finishes after exactly the sum of its durations. |
| `Buzzer.PatternFor` | firmware/src/buzzer.rs:353-392 | Every cue has a non-empty, non-looping pattern of steps of 1 to 150 ms. |
| `Buzzer.Tunes` | firmware/src/buzzer.rs:299-346 | Frequency and duration of every step of every cue. |
| `Buzzer.CuesAreDistinct` | firmware/src/buzzer.rs:353-400 | No two cues sound alike; tones run at half duty and rests drive nothing. |
| `Buzzer.StopSilences` | firmware/src/buzzer.rs:240-257 | Stopping silences at once, takes a new generation exactly when something sounded, and stays silent. |
| `BuzzerArbitration.SafetyCuesStayInState` | firmware/src/buzzer.rs:461-650 | In every run: under protection only the alarm sounds, each safety cue sounds only in its own state, and a pending cue waits behind an active one. |
| `BuzzerArbitration.ApplyKeeps` | firmware/src/buzzer.rs:461-650 | Every operation keeps the arbitration invariant. |
| `BuzzerArbitration.PendingFeedbackIsChosen` | firmware/src/buzzer.rs:577-607 | The waiting feedback is the last specialised request made in the normal state behind an active cue since the slot was cleared or the active cue ended, else the first `UiInput`. |
| `BuzzerArbitration.FeedbackSlotStep` | firmware/src/buzzer.rs:577-650 | How one operation changes the slot, in terms of the state and the operation alone. |
| `BuzzerArbitration.DecisionsAreTruthful` | firmware/src/buzzer.rs:461-650 | A reported disposition tells what happened: started and preempted cues are active, a queued or replacing one is in its slot behind the same player, coalesced and dropped ones change nothing. |
| `BuzzerArbitration.FeedbackDecision` | firmware/src/buzzer.rs:577-607 | A feedback request is dropped if and only if it is no feedback cue or the state is not normal, starts if and only if the player is idle, and is queued, coalesced or replaces under exact conditions. |
| `BuzzerArbitration.ReminderDecision` | firmware/src/buzzer.rs:536-575 | The same for the attention reminder. |
| `BuzzerArbitration.ProtectionDecision` | firmware/src/buzzer.rs:461-501 | The same for the replay; activation always sounds the alarm and forgets what waits. |
| `BuzzerArbitration.AttentionDecision` | firmware/src/buzzer.rs:503-534 | Entering and clearing attention stop exactly the safety cue that may no longer sound. |
| `BuzzerArbitration.TickDecision` | firmware/src/buzzer.rs:623-650 | Whenever a tick leaves the player idle with a cue waiting, that cue sounds from this tick under its own source. |
| `BuzzerMachine.BuzzerController.Play` | firmware/src/buzzer.rs:227-238 | The in-place player has exactly the effect of `Buzzer.Play`. |
| `BuzzerMachine.BuzzerController.Stop` | firmware/src/buzzer.rs:240-250 | The in-place player has exactly the effect of `Buzzer.Stop`. |
| `BuzzerMachine.BuzzerController.Tick` | firmware/src/buzzer.rs:252-288 | The in-place player has exactly the effect of `Buzzer.Tick`. |
| `BuzzerMachine.BuzzerController.NextTransitionMs` | firmware/src/buzzer.rs:290-296 | The in-place player has exactly the effect of `Buzzer.NextTransitionMs`. |
| `BuzzerMachine.BuzzerArbiter.ActivateProtection` | firmware/src/buzzer.rs:461-472 | The new arbiter state and the reported decision are those of `BuzzerArbitration.ActivateProtection`. |
| `BuzzerMachine.BuzzerArbiter.RequestProtectionReplay` | firmware/src/buzzer.rs:474-501 | The new arbiter state and the reported decision are those of `BuzzerArbitration.RequestProtectionReplay`. |
| `BuzzerMachine.BuzzerArbiter.EnterAttentionPending` | firmware/src/buzzer.rs:503-516 | The new arbiter state and the reported decision are those of `BuzzerArbitration.EnterAttentionPending`. |
| `BuzzerMachine.BuzzerArbiter.ClearAttention` | firmware/src/buzzer.rs:518-534 | The new arbiter state and the reported decision are those of `BuzzerArbitration.ClearAttention`. |
| `BuzzerMachine.BuzzerArbiter.RequestAttentionReminder` | firmware/src/buzzer.rs:536-575 | The new arbiter state and the reported decision are those of `BuzzerArbitration.RequestAttentionReminder`. |
| `BuzzerMachine.BuzzerArbiter.RequestFeedback` | firmware/src/buzzer.rs:577-607 | The new arbiter state and the reported decision are those of `BuzzerArbitration.RequestFeedback`. |
| `BuzzerMachine.BuzzerArbiter.Tick` | firmware/src/buzzer.rs:623-650 | The new arbiter state and the reported decision are those of `BuzzerArbitration.TickArbiter`. |
| `Mdns.BuildHttpAnnouncement` | firmware/src/mdns.rs:13-40 | Succeeds if and only if the hostname has at most 42 bytes and well-formed labels, the device id is text and 212 + 5·|hostname| bytes fit; bytes behind the result are untouched, and an RFC 1035 reader recovers exactly the PTR, SRV, TXT and A records, each RDLENGTH leading to the next record and the last to the returned length. |
| `Mdns.DnsName` | firmware/src/mdns.rs:42-55 | Writes the labels of a dotted name if and only if they are well formed and fit, changing nothing else; a failure leaves everything before its start alone. |
| `Mdns.DnsHeader` | firmware/src/mdns.rs:57-66 | Writes type, class, TTL and length if and only if ten bytes fit. |
| `Mdns.DnsRecordPtr` | firmware/src/mdns.rs:68-74 | Writes the whole PTR record with its RDLENGTH patched, or fails without touching what precedes it. |
| `Mdns.DnsRecordSrv` | firmware/src/mdns.rs:76-93 | The same for the SRV record with zero priority and weight. |
| `Mdns.DnsRecordTxt` | firmware/src/mdns.rs:95-112 | The same for the TXT record of the three fixed entries and the device id. |
| `Mdns.DnsTxt` | firmware/src/mdns.rs:114-122 | Writes one counted string if and only if it has at most 255 bytes and fits. |
| `Mdns.DnsRecordA` | firmware/src/mdns.rs:124-129 | The same for the address record. |
| `Mdns.RecordDone` | firmware/src/mdns.rs:68-74 | Patching the two length bytes turns the written record into its wire form with RDLENGTH modulo 2^16. |
| `Mdns.WireReads` | firmware/src/mdns.rs:13-40 | The announced bytes have length 212 + 5·|hostname| and read back as the four records. |
| `DnsWire.ReadsMessage` | firmware/src/mdns.rs:13-40 | The reader recovers every record of any message of encodable records with less than 64 KiB of data each, and ends at its last byte. |
| `DnsWire.ReadsName` | firmware/src/mdns.rs:42-55 | A written name reads back label by label. |
| `DnsWire.SplitMeans` | firmware/src/mdns.rs:42-43 | Splitting a name at its dots loses nothing and leaves no dot in a label. |
| `HeatStep.EnergyIsConserved` | firmware/src/thermal_response.rs:33-56 | Over any schedule of held inputs the delivered energy is the supplied energy less tau times the change of the heat state. |
| `HeatStep.AnySubdivision` | firmware/src/thermal_response.rs:33-56 | However a held interval is cut up, state and energy are those of one step over the whole. |
| `HeatStep.SplitInterval` | firmware/src/thermal_response.rs:33-56 | Cutting a held interval in two changes neither state nor energy. |
| `HeatStep.RunIsMean` | firmware/src/thermal_response.rs:33-56 | Inputs within a band keep the state in the band and deliver a mean power within it. |
| `HeatStep.TimeConstant` | firmware/src/thermal_response.rs:48-50 | The time constant is the decay time in seconds, at least a tenth; the delay plays no part. |
| `HeatStep.RateOfApproach` | firmware/src/thermal_response.rs:48-56 | Over a short step the state closes the gap to the input at one gap per time constant, up to second order. |
| `HeatStep.StepBalance` | firmware/src/thermal_response.rs:34-56 | For any step of any response: the energy delivered is the input held over the step less tau times the change of the heat state. |
| `HeatStep.HeatCell.Step` | firmware/src/thermal_response.rs:44-56 | One step delivers the input energy less what the lag stored. |

## Left out

- ScanMachine.SupplyScan.Update: the scan's scalar fields are the components of one record-valued field rather than thirty fields, so a handler's own contract is its record update (the handlers have no rows above), and the embedded table and equilibrium window are values that in-place operations copy into an object and write back; aliasing between them cannot be expressed, and the source has none.
- ScanPreflight.NoHeatBeforePreflight: the spacing of the observations is claimed for sample times that do not run backwards, because it is measured with a saturating subtraction that such a clock would defeat; the other clauses need no such hypothesis.
- ScanToLookup.RapidScanServesThreeAmp: assumes the projection is defined on the stored readings and reaches 100 C on one of them, because bins use the filtered temperature and not the projection.
- BoundaryData.Stored: a point count above 41 reads as a full table, where the source would panic; no operation produces such a count.
- BoundaryData.TerminalTrackingCurrentMa: the product wraps as in a release build; a build with overflow checks would stop instead, and for valid headers the two agree.
- BoundaryLookup.SafePoint: the temperature projection is a pure partial function parameter; its curve is not modelled.
- Buzzer.PlaysInOrder: tick times stay below the saturation of the 64-bit clock.
- BuzzerMachine.BuzzerArbiter.Tick: the test-playback stop and the debug labels are not modelled, nor is the wrap of a looping pattern, since no pattern loops.
- Mdns.BuildHttpAnnouncement: whether the device id is valid UTF-8 is a parameter; on failure the contents of the buffer are unspecified, as in the source.
- DnsWire.ReadName: the reader follows no compression pointers, which the writer never emits.
- HeatStep.Discretize: the exponential is a parameter and arithmetic is over the reals, so rounding of 32-bit floats is not modelled.
- The cadence timer of the protection alarm and the buzzer test session.
- Curve fitting and its error figures in `thermal_response.rs`, and the plant and phase models beside it.
- The control plane, HTTP, LAN pairing, WiFi and executor plumbing.
- Status light, fan policy and the fan cycle, which would only add small tables.
- The global WiFi hardware flag, labels and serialisation attributes.
- Host scripts, build scripts and the web front end.
