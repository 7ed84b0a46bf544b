/**
 * The older threshold controller. Every light keeps a green countdown and
 * a green flag. A light that is not green scans its phases in table order
 * and switches to the first green phase whose first controlled lane holds
 * more than VEHICLE_THRESHOLD halting vehicles at its detector; it then
 * holds that phase for GREEN_TIME_DURATION calls and, when the countdown
 * runs out, moves the light to the next phase index.
 */
module ThresholdManager {
  import opened Signals
  import opened Traci

  const VEHICLE_THRESHOLD: nat := 20
  const GREEN_TIME_DURATION: nat := 20

  /** The controller's bookkeeping for one light. */
  datatype ThresholdLight = ThresholdLight(
    greenPhaseTimer: int,   // calls left in the current green hold
    isGreen: bool,          // a green hold is running
    phases: seq<string>)    // the light's phase strings, as discovered

  /** The bookkeeping a light starts with. */
  function InitialLight(phases: seq<string>): (t: ThresholdLight)
    ensures Counting(t) && !t.isGreen && t.phases == phases
  {
    ThresholdLight(0, false, phases)
  }

  /** The countdown and the flag agree: a running hold has between 1 and
      GREEN_TIME_DURATION calls left, no hold means a timer at 0. */
  predicate Counting(t: ThresholdLight)
  {
    if t.isGreen then 0 < t.greenPhaseTimer <= GREEN_TIME_DURATION else t.greenPhaseTimer == 0
  }

  // ---------------------------------------------------------------------
  // The phase scan

  /** The lane the scan checks for a link group: the incoming lane of its
      first link; an empty group, or an empty lane name, gives none. */
  function FirstLane(group: seq<Link>): (r: Option<Lane>)
    ensures r.Some? <==> |group| > 0 && group[0].incoming != ""
    ensures r.Some? ==> r.value == group[0].incoming
  {
    if |group| > 0 && group[0].incoming != "" then Some(group[0].incoming) else None
  }

  /** The trigger condition for the link group of a green phase: its first
      lane has a detector, and that detector reports more halting vehicles
      than the threshold. */
  predicate Fires(group: seq<Link>, detectors: map<Lane, DetId>, halting: map<DetId, nat>)
  {
    var lane := FirstLane(group);
    lane.Some? && lane.value in detectors && HaltingIn(halting, detectors[lane.value]) > VEHICLE_THRESHOLD
  }

  /** How a scan ends: a triggered phase, no trigger, or an index past the
      end of the controlled-link list (which raises). */
  datatype ScanResult = Trigger(phase: nat) | NoTrigger | IndexFault

  /** The scan from phase `i` on. The link group of phase `i` is entry `i`
      of the controlled-link list, which is indexed by signal, not by phase. */
  function Scan(phases: seq<string>, links: seq<seq<Link>>, detectors: map<Lane, DetId>,
                halting: map<DetId, nat>, i: nat): ScanResult
    decreases |phases| - i
  {
    if i >= |phases| then NoTrigger
    else if !HasGreen(phases[i]) then Scan(phases, links, detectors, halting, i + 1)
    else if i >= |links| then IndexFault
    else if Fires(links[i], detectors, halting) then Trigger(i)
    else Scan(phases, links, detectors, halting, i + 1)
  }

  /** Every green phase from `i` up to `j` has a link group, and none of
      them fires. */
  ghost predicate Passed(phases: seq<string>, links: seq<seq<Link>>, detectors: map<Lane, DetId>,
                         halting: map<DetId, nat>, i: nat, j: nat)
  {
    forall q :: i <= q < j && q < |phases| && HasGreen(phases[q]) ==>
      q < |links| && !Fires(links[q], detectors, halting)
  }

  /** A phase that is not green, or green with a link group that does not
      fire, can be dropped from the front of a Passed range. */
  lemma PassedSkip(phases: seq<string>, links: seq<seq<Link>>, detectors: map<Lane, DetId>,
                   halting: map<DetId, nat>, i: nat, p: nat)
    requires i < p && i < |phases|
    requires !HasGreen(phases[i]) || (i < |links| && !Fires(links[i], detectors, halting))
    ensures Passed(phases, links, detectors, halting, i, p) <==> Passed(phases, links, detectors, halting, i + 1, p)
  {
  }

  /** The scan triggers the first green phase that fires, provided every
      green phase before it has a link group. */
  lemma {:induction false} ScanTriggerMeans(phases: seq<string>, links: seq<seq<Link>>, detectors: map<Lane, DetId>,
                                            halting: map<DetId, nat>, i: nat, p: nat)
    ensures Scan(phases, links, detectors, halting, i) == Trigger(p) <==>
              && i <= p < |phases| && HasGreen(phases[p]) && p < |links|
              && Fires(links[p], detectors, halting)
              && Passed(phases, links, detectors, halting, i, p)
    decreases |phases| - i
  {
    if i < |phases| {
      ScanTriggerMeans(phases, links, detectors, halting, i + 1, p);
      if !HasGreen(phases[i]) || (i < |links| && !Fires(links[i], detectors, halting)) {
        if p > i {
          PassedSkip(phases, links, detectors, halting, i, p);
        }
      }
    }
  }

  /** The scan faults at the first green phase without a link group,
      provided no green phase before it fires. */
  lemma {:induction false} ScanFaultMeans(phases: seq<string>, links: seq<seq<Link>>, detectors: map<Lane, DetId>,
                                          halting: map<DetId, nat>, i: nat)
    ensures Scan(phases, links, detectors, halting, i) == IndexFault <==>
              exists p :: && i <= p < |phases| && HasGreen(phases[p]) && |links| <= p
                          && Passed(phases, links, detectors, halting, i, p)
    decreases |phases| - i
  {
    if i < |phases| {
      ScanFaultMeans(phases, links, detectors, halting, i + 1);
      if !HasGreen(phases[i]) || (i < |links| && !Fires(links[i], detectors, halting)) {
        if Scan(phases, links, detectors, halting, i) == IndexFault {
          var p :| && i + 1 <= p < |phases| && HasGreen(phases[p]) && |links| <= p
                   && Passed(phases, links, detectors, halting, i + 1, p);
          PassedSkip(phases, links, detectors, halting, i, p);
        } else {
          forall p | i <= p < |phases| && HasGreen(phases[p]) && |links| <= p
            ensures !Passed(phases, links, detectors, halting, i, p)
          {
            if p > i {
              PassedSkip(phases, links, detectors, halting, i, p);
            }
          }
        }
      } else {
        assert Passed(phases, links, detectors, halting, i, i);
        forall p | i <= p && Passed(phases, links, detectors, halting, i, p)
          ensures p <= i
        {
        }
      }
    }
  }

  /** The scan triggers nothing exactly when every green phase has a link
      group and none of them fires. */
  lemma {:induction false} ScanNoneMeans(phases: seq<string>, links: seq<seq<Link>>, detectors: map<Lane, DetId>,
                                         halting: map<DetId, nat>, i: nat)
    ensures Scan(phases, links, detectors, halting, i) == NoTrigger <==>
              Passed(phases, links, detectors, halting, i, |phases|)
    decreases |phases| - i
  {
    if i < |phases| {
      ScanNoneMeans(phases, links, detectors, halting, i + 1);
      assert Passed(phases, links, detectors, halting, i, |phases|) <==>
               && (HasGreen(phases[i]) ==> i < |links| && !Fires(links[i], detectors, halting))
               && Passed(phases, links, detectors, halting, i + 1, |phases|);
    }
  }

  /** A trigger always names one of the light's own green phases. */
  lemma ScanTriggersOwnPhase(phases: seq<string>, links: seq<seq<Link>>, detectors: map<Lane, DetId>,
                             halting: map<DetId, nat>, p: nat)
    requires Scan(phases, links, detectors, halting, 0) == Trigger(p)
    ensures p < |phases| && HasGreen(phases[p]) && p < |links|
  {
    ScanTriggerMeans(phases, links, detectors, halting, 0, p);
  }

  // ---------------------------------------------------------------------
  // One controller call for one light

  /** What one call does: the new bookkeeping and the phase it sets, if
      any, or a fault of the scan. */
  datatype Outcome = Next(light: ThresholdLight, call: Option<int>) | Fault

  /** One call for a light that shows phase `shown`: a running hold counts
      down, and when it runs out the flag drops and the light is moved to
      `shown + 1` (no wrap-around); without a hold, the scan decides. */
  function ThresholdStep(t: ThresholdLight, shown: nat, links: seq<seq<Link>>,
                         detectors: map<Lane, DetId>, halting: map<DetId, nat>): Outcome
  {
    if t.isGreen then
      var timer := t.greenPhaseTimer - 1;
      if timer <= 0 then Next(t.(greenPhaseTimer := timer, isGreen := false), Some(shown + 1))
      else Next(t.(greenPhaseTimer := timer), None)
    else
      match Scan(t.phases, links, detectors, halting, 0)
      case Trigger(p) => Next(t.(isGreen := true, greenPhaseTimer := GREEN_TIME_DURATION), Some(p))
      case NoTrigger => Next(t, None)
      case IndexFault => Fault
  }

  /** A call keeps the countdown and the flag in agreement and never
      changes the phase list; a call that sets a phase either ends a hold
      or starts one. */
  lemma StepKeepsCounting(t: ThresholdLight, shown: nat, links: seq<seq<Link>>,
                          detectors: map<Lane, DetId>, halting: map<DetId, nat>)
    requires Counting(t)
    ensures var r := ThresholdStep(t, shown, links, detectors, halting);
            r.Next? ==> && Counting(r.light) && r.light.phases == t.phases
                        && (r.call.Some? ==> r.light.isGreen != t.isGreen)
                        && (r.call.None? ==> r.light.isGreen == t.isGreen)
  {
  }

  /** During a hold no scan happens: the call depends neither on the links,
      nor on the detectors, nor on their counts; it never faults, and it
      sets a phase exactly on the last call of the hold. */
  lemma GreenIgnoresDetectors(t: ThresholdLight, shown: nat,
                              links: seq<seq<Link>>, detectors: map<Lane, DetId>, halting: map<DetId, nat>,
                              links': seq<seq<Link>>, detectors': map<Lane, DetId>, halting': map<DetId, nat>)
    requires Counting(t) && t.isGreen
    ensures ThresholdStep(t, shown, links, detectors, halting) == ThresholdStep(t, shown, links', detectors', halting')
    ensures var r := ThresholdStep(t, shown, links, detectors, halting);
            r.Next? && (r.call.Some? <==> t.greenPhaseTimer == 1) && (r.call.Some? ==> r.call.value == shown + 1)
  {
  }

  /** Without a hold, a call sets a phase exactly when the scan triggers,
      and the phase it sets is the triggered one, which starts a full hold;
      a call faults exactly when the scan does. */
  lemma IdleFollowsScan(t: ThresholdLight, shown: nat, links: seq<seq<Link>>,
                        detectors: map<Lane, DetId>, halting: map<DetId, nat>)
    requires !t.isGreen
    ensures var r := ThresholdStep(t, shown, links, detectors, halting);
            var s := Scan(t.phases, links, detectors, halting, 0);
            && (r.Fault? <==> s.IndexFault?)
            && (r.Next? && r.call.Some? <==> s.Trigger?)
            && (s.Trigger? ==> r.call.value == s.phase && r.light.isGreen
                                && r.light.greenPhaseTimer == GREEN_TIME_DURATION)
            && (s.NoTrigger? ==> r == Next(t, None))
  {
  }

  // ---------------------------------------------------------------------
  // Several calls for one light

  /** What a light sees at one call: the phase the simulator shows and the
      detector counts. */
  datatype Tick = Tick(shown: nat, halting: map<DetId, nat>)

  /** The calls of one light over several controller calls, or a fault. */
  datatype History = Ran(light: ThresholdLight, calls: seq<Option<int>>) | Faulted

  function Replay(t: ThresholdLight, ticks: seq<Tick>, links: seq<seq<Link>>,
                  detectors: map<Lane, DetId>): History
    decreases |ticks|
  {
    if ticks == [] then Ran(t, [])
    else
      match ThresholdStep(t, ticks[0].shown, links, detectors, ticks[0].halting)
      case Fault => Faulted
      case Next(l, c) =>
        match Replay(l, ticks[1..], links, detectors)
        case Faulted => Faulted
        case Ran(l', cs) => Ran(l', [c] + cs)
  }

  /** A hold with `k` calls left makes `k - 1` silent calls and then moves
      the light on by one phase, whatever the detectors say, and ends with
      no hold. */
  lemma {:induction false} HoldRunsOut(t: ThresholdLight, ticks: seq<Tick>, links: seq<seq<Link>>,
                                       detectors: map<Lane, DetId>)
    requires Counting(t) && t.isGreen && |ticks| == t.greenPhaseTimer
    ensures var r := Replay(t, ticks, links, detectors);
            && r.Ran? && r.light == ThresholdLight(0, false, t.phases)
            && |r.calls| == |ticks|
            && (forall j :: 0 <= j < |ticks| - 1 ==> r.calls[j] == None)
            && r.calls[|ticks| - 1] == Some(ticks[|ticks| - 1].shown + 1)
    decreases |ticks|
  {
    var l := t.(greenPhaseTimer := t.greenPhaseTimer - 1);
    if t.greenPhaseTimer > 1 {
      HoldRunsOut(l, ticks[1..], links, detectors);
      var r := Replay(l, ticks[1..], links, detectors);
      assert Replay(t, ticks, links, detectors) == Ran(r.light, [None] + r.calls);
    }
  }

  /** After a trigger the light holds its phase: the triggering call sets
      it, the next GREEN_TIME_DURATION - 1 calls set nothing, and the one
      after moves the light on by one phase. */
  lemma {:induction false} TriggerThenHold(t: ThresholdLight, first: Tick, ticks: seq<Tick>,
                                           links: seq<seq<Link>>, detectors: map<Lane, DetId>, p: nat)
    requires Counting(t) && !t.isGreen
    requires Scan(t.phases, links, detectors, first.halting, 0) == Trigger(p)
    requires |ticks| == GREEN_TIME_DURATION
    ensures var r := Replay(t, [first] + ticks, links, detectors);
            && r.Ran? && |r.calls| == GREEN_TIME_DURATION + 1
            && r.calls[0] == Some(p)
            && (forall j :: 1 <= j < GREEN_TIME_DURATION ==> r.calls[j] == None)
            && r.calls[GREEN_TIME_DURATION] == Some(ticks[GREEN_TIME_DURATION - 1].shown + 1)
  {
    var l := t.(isGreen := true, greenPhaseTimer := GREEN_TIME_DURATION);
    HoldRunsOut(l, ticks, links, detectors);
    assert ([first] + ticks)[1..] == ticks;
  }

  // ---------------------------------------------------------------------
  // A controller round over all lights

  /** What a round acts on: every light's bookkeeping, the phase the
      simulator shows for each, and the log of phase calls. */
  datatype Fleet = Fleet(lights: map<TlsId, ThresholdLight>, shown: map<TlsId, nat>, log: seq<PhaseCall>)

  /** One call for light `id`; None when the call raises: the scan faults,
      or the phase it sets is not one of the light's phases. */
  function StepLight(f: Fleet, id: TlsId, phases: map<TlsId, seq<string>>, links: map<TlsId, seq<seq<Link>>>,
                     detectors: map<Lane, DetId>, halting: map<DetId, nat>): Option<Fleet>
  {
    if id !in f.lights || id !in f.shown || id !in phases || id !in links then Some(f)
    else
      match ThresholdStep(f.lights[id], f.shown[id], links[id], detectors, halting)
      case Fault => None
      case Next(l, c) =>
        if c.None? then Some(f.(lights := f.lights[id := l]))
        else if 0 <= c.value < |phases[id]| then
          Some(Fleet(f.lights[id := l], f.shown[id := c.value], f.log + [PhaseCall(id, c.value)]))
        else None
  }

  /** A call raises exactly when the scan faults or a hold runs out on the
      light's last phase; a triggered phase is always accepted. */
  lemma StepLightRaises(f: Fleet, id: TlsId, phases: map<TlsId, seq<string>>, links: map<TlsId, seq<seq<Link>>>,
                        detectors: map<Lane, DetId>, halting: map<DetId, nat>)
    requires id in f.lights && id in f.shown && id in phases && id in links
    requires f.lights[id].phases == phases[id] && Counting(f.lights[id])
    ensures var t := f.lights[id];
            StepLight(f, id, phases, links, detectors, halting).None? <==>
              if t.isGreen then t.greenPhaseTimer == 1 && f.shown[id] + 1 >= |phases[id]|
              else Scan(t.phases, links[id], detectors, halting, 0) == IndexFault
  {
    var t := f.lights[id];
    if !t.isGreen {
      match Scan(t.phases, links[id], detectors, halting, 0)
      case Trigger(p) => ScanTriggersOwnPhase(t.phases, links[id], detectors, halting, p);
      case NoTrigger =>
      case IndexFault =>
    }
  }

  /** One call for each light of `ids`, in list order; None once a call raises. */
  function Round(ids: seq<TlsId>, f: Fleet, phases: map<TlsId, seq<string>>, links: map<TlsId, seq<seq<Link>>>,
                 detectors: map<Lane, DetId>, halting: map<DetId, nat>): Option<Fleet>
  {
    if ids == [] then Some(f)
    else
      match Round(ids[..|ids| - 1], f, phases, links, detectors, halting)
      case None => None
      case Some(g) => StepLight(g, ids[|ids| - 1], phases, links, detectors, halting)
  }

  lemma RoundNext(ids: seq<TlsId>, i: nat, f: Fleet, g: Fleet, phases: map<TlsId, seq<string>>,
                  links: map<TlsId, seq<seq<Link>>>, detectors: map<Lane, DetId>, halting: map<DetId, nat>)
    requires i < |ids| && Round(ids[..i], f, phases, links, detectors, halting) == Some(g)
    ensures Round(ids[..i + 1], f, phases, links, detectors, halting) ==
              StepLight(g, ids[i], phases, links, detectors, halting)
  {
    assert ids[..i + 1][..i] == ids[..i];
  }

  /** The round over the lights changes no light outside `ids`. */
  lemma {:induction false} RoundKeepsOthers(ids: seq<TlsId>, f: Fleet, phases: map<TlsId, seq<string>>,
                                            links: map<TlsId, seq<seq<Link>>>, detectors: map<Lane, DetId>,
                                            halting: map<DetId, nat>, id: TlsId)
    requires id !in ids && id in f.lights && id in f.shown
    requires Round(ids, f, phases, links, detectors, halting).Some?
    ensures var g := Round(ids, f, phases, links, detectors, halting).value;
            id in g.lights && id in g.shown && g.lights[id] == f.lights[id] && g.shown[id] == f.shown[id]
  {
    if ids != [] {
      var init := ids[..|ids| - 1];
      assert id !in init by {
        assert forall j :: 0 <= j < |init| ==> init[j] == ids[j];
      }
      RoundKeepsOthers(init, f, phases, links, detectors, halting, id);
    }
  }

  // ---------------------------------------------------------------------
  // Discovery

  /** The detector map after entering `dets` in order: each detector's
      lane maps to it, a later one overwriting an earlier one. */
  function DetectorMap(m: map<Lane, DetId>, dets: seq<Detector>): map<Lane, DetId>
  {
    if dets == [] then m
    else DetectorMap(m, dets[..|dets| - 1])[dets[|dets| - 1].lane := dets[|dets| - 1].id]
  }

  /** A lane is mapped to the last detector lying on it. */
  lemma {:induction false} DetectorMapLast(m: map<Lane, DetId>, dets: seq<Detector>, k: nat)
    requires k < |dets| && forall j :: k < j < |dets| ==> dets[j].lane != dets[k].lane
    ensures dets[k].lane in DetectorMap(m, dets) && DetectorMap(m, dets)[dets[k].lane] == dets[k].id
  {
    if k < |dets| - 1 {
      var init := dets[..|dets| - 1];
      assert forall j :: k < j < |init| ==> init[j] == dets[j];
      DetectorMapLast(m, init, k);
    }
  }

  /** A lane without a detector keeps its old entry, or stays unmapped. */
  lemma {:induction false} DetectorMapElse(m: map<Lane, DetId>, dets: seq<Detector>, lane: Lane)
    requires forall k :: 0 <= k < |dets| ==> dets[k].lane != lane
    ensures lane in DetectorMap(m, dets) <==> lane in m
    ensures lane in m ==> DetectorMap(m, dets)[lane] == m[lane]
  {
    if dets != [] {
      var init := dets[..|dets| - 1];
      assert forall k :: 0 <= k < |init| ==> init[k] == dets[k];
      DetectorMapElse(m, init, lane);
    }
  }

  /** The light table after entering `ids` in order: each light of the
      network starts afresh, whatever it held before. */
  function EnterAll(lights: map<TlsId, ThresholdLight>, ids: seq<TlsId>,
                    phases: map<TlsId, seq<string>>): map<TlsId, ThresholdLight>
  {
    if ids == [] then lights
    else
      var g := EnterAll(lights, ids[..|ids| - 1], phases);
      var id := ids[|ids| - 1];
      if id in phases then g[id := InitialLight(phases[id])] else g
  }

  /** Every listed light of the network is in the table with its initial
      bookkeeping; every other light is untouched. */
  lemma {:induction false} EnterAllAt(lights: map<TlsId, ThresholdLight>, ids: seq<TlsId>,
                                      phases: map<TlsId, seq<string>>, id: TlsId)
    requires forall x :: x in ids ==> x in phases
    ensures id in EnterAll(lights, ids, phases) <==> id in lights || id in ids
    ensures id in ids ==> EnterAll(lights, ids, phases)[id] == InitialLight(phases[id])
    ensures id !in ids && id in lights ==> EnterAll(lights, ids, phases)[id] == lights[id]
  {
    if ids != [] {
      var init := ids[..|ids| - 1];
      assert forall x :: x in ids <==> x in init || x == ids[|ids| - 1];
      EnterAllAt(lights, init, phases, id);
    }
  }

  lemma EnterAllNext(lights: map<TlsId, ThresholdLight>, ids: seq<TlsId>, phases: map<TlsId, seq<string>>, i: nat)
    requires i < |ids| && ids[i] in phases
    ensures EnterAll(lights, ids[..i + 1], phases) ==
              EnterAll(lights, ids[..i], phases)[ids[i] := InitialLight(phases[ids[i]])]
  {
    assert ids[..i + 1][..i] == ids[..i];
  }

  lemma DetectorMapNext(m: map<Lane, DetId>, dets: seq<Detector>, i: nat)
    requires i < |dets|
    ensures DetectorMap(m, dets[..i + 1]) == DetectorMap(m, dets[..i])[dets[i].lane := dets[i].id]
  {
    assert dets[..i + 1][..i] == dets[..i];
  }

  // ---------------------------------------------------------------------
  // The step loop

  /** What the step loop works on: the simulator's changing state, the
      light table and its order, the lane-to-detector map and the log of
      phase calls. */
  datatype World = World(sim: SimState, lights: map<TlsId, ThresholdLight>, order: seq<TlsId>,
                         detectors: map<Lane, DetId>, log: seq<PhaseCall>)

  /** Discovery: every network light (re)entered with fresh bookkeeping,
      then every detector's lane mapped to it. */
  function Discover(engine: Engine, w: World): World
  {
    w.(lights := EnterAll(w.lights, engine.tlsIds, engine.phases),
       order := EnterOrder(w.order, engine.tlsIds),
       detectors := DetectorMap(w.detectors, engine.detectors))
  }

  /** The start of iteration `step`: one simulator step, then discovery
      when it is the first. */
  function Prepared(engine: Engine, step: nat, w: World): World
  {
    var s := engine.Advanced(w.sim);
    if step == 0 then Discover(engine, w.(sim := s)) else w.(sim := s)
  }

  /** Iteration `step` of the step loop: one simulator step, discovery at
      step 0 only, then one call for every light in table order; None when
      a call raises. */
  function Pass(engine: Engine, step: nat, w: World): (r: Option<World>)
    ensures r.Some? && w.sim.expected > 0 ==> engine.Left(r.value.sim) < engine.Left(w.sim)
  {
    var w1 := Prepared(engine, step, w);
    match Round(w1.order, Fleet(w1.lights, w1.sim.current, w1.log), engine.phases, engine.links,
                w1.detectors, w1.sim.halting)
    case None => None
    case Some(f) => Some(w1.(lights := f.lights, sim := w1.sim.(current := f.shown), log := f.log))
  }

  /** `worlds` are the states after 0, 1, ... completed iterations:
      iteration `k` ran because `k` was below the bound and vehicles were
      expected, and it went from `worlds[k]` to `worlds[k + 1]`. */
  ghost predicate Trace(engine: Engine, maxSteps: nat, worlds: seq<World>)
  {
    forall k :: 0 <= k < |worlds| - 1 ==> Iteration(engine, maxSteps, k, worlds[k], worlds[k + 1])
  }

  /** Iteration `k` ran and went from `w` to `w'`. */
  predicate Iteration(engine: Engine, maxSteps: nat, k: nat, w: World, w': World)
  {
    k < maxSteps && w.sim.expected > 0 && Pass(engine, k, w) == Some(w')
  }

  /** One more completed iteration extends the trace. */
  lemma TraceNext(engine: Engine, maxSteps: nat, worlds: seq<World>, w: World)
    requires |worlds| > 0 && Trace(engine, maxSteps, worlds)
    requires |worlds| - 1 < maxSteps && worlds[|worlds| - 1].sim.expected > 0
    requires Pass(engine, |worlds| - 1, worlds[|worlds| - 1]) == Some(w)
    ensures Trace(engine, maxSteps, worlds + [w])
  {
    var worlds' := worlds + [w];
    forall k | 0 <= k < |worlds'| - 1
      ensures Iteration(engine, maxSteps, k, worlds'[k], worlds'[k + 1])
    {
      assert worlds'[k] == worlds[k];
      if k < |worlds| - 1 {
        assert worlds'[k + 1] == worlds[k + 1];
      }
    }
  }

  /** A round changes neither the order nor the detector map. */
  lemma PassKeepsTables(engine: Engine, step: nat, w: World)
    requires step > 0 && Pass(engine, step, w).Some?
    ensures Pass(engine, step, w).value.order == w.order
    ensures Pass(engine, step, w).value.detectors == w.detectors
  {
  }

  /** Discovery happens once, in the first iteration: after it, the order
      and the detector map stay those discovery built. */
  lemma {:induction false} TraceDiscoversOnce(engine: Engine, maxSteps: nat, worlds: seq<World>, k: nat)
    requires Trace(engine, maxSteps, worlds) && 1 <= k < |worlds|
    ensures worlds[k].order == EnterOrder(worlds[0].order, engine.tlsIds)
    ensures worlds[k].detectors == DetectorMap(worlds[0].detectors, engine.detectors)
  {
    assert Iteration(engine, maxSteps, k - 1, worlds[k - 1], worlds[k]);
    if k > 1 {
      TraceDiscoversOnce(engine, maxSteps, worlds, k - 1);
      PassKeepsTables(engine, k - 1, worlds[k - 1]);
    }
  }

  // ---------------------------------------------------------------------
  // The controller object

  /** `order` lists every light of the table exactly once. */
  ghost predicate OrderOf(order: seq<TlsId>, lights: map<TlsId, ThresholdLight>)
  {
    Distinct(order) && forall id :: id in order <==> id in lights
  }

  /** Every light of the table is a light of the network, with its own
      phase list and a consistent countdown. */
  ghost predicate LightsFit(lights: map<TlsId, ThresholdLight>, phases: map<TlsId, seq<string>>,
                            links: map<TlsId, seq<seq<Link>>>)
  {
    forall id :: id in lights ==>
      id in phases && id in links && lights[id].phases == phases[id] && Counting(lights[id])
  }

  /** (Re)entering a light keeps the order list in step with the table,
      appending the light only when it is new. */
  lemma EnterKeepsOrder(order: seq<TlsId>, lights: map<TlsId, ThresholdLight>, id: TlsId, t: ThresholdLight)
    requires OrderOf(order, lights)
    ensures var order' := if id in lights then order else order + [id];
            OrderOf(order', lights[id := t]) && order <= order'
  {
    if id !in lights {
      var order' := order + [id];
      assert forall k :: 0 <= k < |order| ==> order'[k] == order[k];
      assert forall x :: x in order' <==> x in order || x == id;
    }
  }

  /** Replacing a light's bookkeeping by one with the same phase list and a
      consistent countdown keeps the table in step with the network and
      with the order list. */
  lemma UpdateKeepsValid(order: seq<TlsId>, lights: map<TlsId, ThresholdLight>, phases: map<TlsId, seq<string>>,
                         links: map<TlsId, seq<seq<Link>>>, id: TlsId, t: ThresholdLight)
    requires OrderOf(order, lights) && LightsFit(lights, phases, links) && id in lights
    requires t.phases == lights[id].phases && Counting(t)
    ensures OrderOf(order, lights[id := t]) && LightsFit(lights[id := t], phases, links)
  {
  }

  class SimulationManager {
    var maxSteps: nat
    var trafficLights: map<TlsId, ThresholdLight>
    var lightOrder: seq<TlsId>              // the order in which the lights were entered
    var laneToDetector: map<Lane, DetId>

    ghost predicate Valid(engine: Engine)
      reads this, engine
    {
      && engine.Valid()
      && OrderOf(lightOrder, trafficLights)
      && LightsFit(trafficLights, engine.phases, engine.links)
    }

    constructor (maxSteps: nat)
      ensures this.maxSteps == maxSteps
      ensures trafficLights == map[] && lightOrder == [] && laneToDetector == map[]
    {
      this.maxSteps := maxSteps;
      trafficLights, lightOrder, laneToDetector := map[], [], map[];
    }

    /** Enter every light of the network with fresh bookkeeping, then map
        every detector's lane to the detector. */
    method DiscoverNetwork(engine: Engine)
      requires Valid(engine)
      modifies this`trafficLights, this`lightOrder, this`laneToDetector
      ensures Valid(engine)
      ensures trafficLights == EnterAll(old(trafficLights), engine.tlsIds, engine.phases)
      ensures laneToDetector == DetectorMap(old(laneToDetector), engine.detectors)
      ensures lightOrder == EnterOrder(old(lightOrder), engine.tlsIds)
      ensures old(lightOrder) == [] && Distinct(engine.tlsIds) ==> lightOrder == engine.tlsIds
    {
      EnterLights(engine);
      MapDetectors(engine);
      if old(lightOrder) == [] && Distinct(engine.tlsIds) {
        EnterOrderFresh(engine.tlsIds);
      }
    }

    /** Every light of the network (re)entered with fresh bookkeeping; a
        new light goes to the end of the order. */
    method EnterLights(engine: Engine)
      requires Valid(engine)
      modifies this`trafficLights, this`lightOrder
      ensures Valid(engine)
      ensures trafficLights == EnterAll(old(trafficLights), engine.tlsIds, engine.phases)
      ensures lightOrder == EnterOrder(old(lightOrder), engine.tlsIds)
    {
      var i := 0;
      while i < |engine.tlsIds|
        invariant 0 <= i <= |engine.tlsIds|
        invariant Valid(engine)
        invariant trafficLights == EnterAll(old(trafficLights), engine.tlsIds[..i], engine.phases)
        invariant lightOrder == EnterOrder(old(lightOrder), engine.tlsIds[..i])
      {
        EnterAllNext(old(trafficLights), engine.tlsIds, engine.phases, i);
        EnterOrderNext(old(lightOrder), engine.tlsIds, i);
        EnterLight(engine.tlsIds[i], engine);
        i := i + 1;
      }
      assert engine.tlsIds[..i] == engine.tlsIds;
    }

    /** (Re)enter one light with fresh bookkeeping: a new light goes to the
        end of the order, a known one keeps its place. */
    method EnterLight(id: TlsId, engine: Engine)
      requires Valid(engine) && id in engine.phases && id in engine.links
      modifies this`trafficLights, this`lightOrder
      ensures Valid(engine)
      ensures trafficLights == old(trafficLights)[id := InitialLight(engine.phases[id])]
      ensures lightOrder == EnterOrder(old(lightOrder), [id])
    {
      var t := InitialLight(engine.phases[id]);
      EnterKeepsOrder(lightOrder, trafficLights, id, t);
      if id !in trafficLights {
        lightOrder := lightOrder + [id];
      }
      trafficLights := trafficLights[id := t];
    }

    /** Every detector's lane mapped to the detector, in detector order. */
    method MapDetectors(engine: Engine)
      modifies this`laneToDetector
      ensures laneToDetector == DetectorMap(old(laneToDetector), engine.detectors)
    {
      var k := 0;
      while k < |engine.detectors|
        invariant 0 <= k <= |engine.detectors|
        invariant laneToDetector == DetectorMap(old(laneToDetector), engine.detectors[..k])
      {
        var det := engine.detectors[k];
        DetectorMapNext(old(laneToDetector), engine.detectors, k);
        laneToDetector := laneToDetector[det.lane := det.id];
        k := k + 1;
      }
      assert engine.detectors[..k] == engine.detectors;
    }

    /** The scan over the phases of a light that holds no green: the first
        green phase whose first lane's detector counts more halting
        vehicles than the threshold, or a fault at a phase index past the
        end of the controlled-link list. */
    method FindTrigger(phases: seq<string>, links: seq<seq<Link>>, engine: Engine) returns (r: ScanResult)
      ensures r == Scan(phases, links, laneToDetector, engine.halting, 0)
    {
      var i := 0;
      while i < |phases|
        invariant 0 <= i <= |phases|
        invariant Scan(phases, links, laneToDetector, engine.halting, i) ==
                  Scan(phases, links, laneToDetector, engine.halting, 0)
      {
        if !HasGreen(phases[i]) {
          i := i + 1;
          continue;
        }
        if i >= |links| {
          return IndexFault;
        }
        var targetLane: Option<Lane> := None;
        if |links[i]| > 0 {
          targetLane := Some(links[i][0].incoming);
        }
        if targetLane.Some? && targetLane.value != "" && targetLane.value in laneToDetector {
          var detectorId := laneToDetector[targetLane.value];
          var carCount := engine.HaltingNumber(detectorId);
          if carCount > VEHICLE_THRESHOLD {
            return Trigger(i);
          }
        }
        i := i + 1;
      }
      return NoTrigger;
    }

    /** One call for light `id`. `ok` is false when the call raises: the
        scan reads past the end of the controlled-link list, or the phase
        after a finished hold does not exist. */
    method ControlTrafficLightThreshold(id: TlsId, engine: Engine) returns (ok: bool)
      requires Valid(engine) && id in trafficLights
      modifies this`trafficLights, engine`current, engine`log
      ensures Valid(engine)
      ensures var r := StepLight(Fleet(old(trafficLights), old(engine.current), old(engine.log)), id,
                                 engine.phases, engine.links, laneToDetector, engine.halting);
              && (ok <==> r.Some?)
              && (ok ==> Fleet(trafficLights, engine.current, engine.log) == r.value)
    {
      ghost var f := Fleet(trafficLights, engine.current, engine.log);
      StepLightRaises(f, id, engine.phases, engine.links, laneToDetector, engine.halting);
      StepKeepsCounting(trafficLights[id], engine.current[id], engine.links[id], laneToDetector, engine.halting);
      var t := trafficLights[id];
      var call: Option<int> := None;
      if t.isGreen {
        t := t.(greenPhaseTimer := t.greenPhaseTimer - 1);
        if t.greenPhaseTimer <= 0 {
          t := t.(isGreen := false);
          var currentPhase := engine.GetPhase(id);
          call := Some(currentPhase + 1);
        }
      } else {
        var scan := FindTrigger(t.phases, engine.links[id], engine);
        match scan
        case Trigger(i) =>
          call := Some(i);
          t := t.(isGreen := true, greenPhaseTimer := GREEN_TIME_DURATION);
        case NoTrigger =>
        case IndexFault =>
          return false;
      }
      assert ThresholdStep(f.lights[id], f.shown[id], engine.links[id], laneToDetector, engine.halting) == Next(t, call);
      ok := true;
      if call.Some? {
        ok := engine.SetPhase(id, call.value);
      }
      UpdateKeepsValid(lightOrder, trafficLights, engine.phases, engine.links, id, t);
      trafficLights := trafficLights[id := t];
    }

    /** One call for every light, in table order; `ok` is false once a call raises. */
    method ControlRound(engine: Engine) returns (ok: bool)
      requires Valid(engine)
      modifies this`trafficLights, engine`current, engine`log
      ensures Valid(engine)
      ensures var r := Round(lightOrder, Fleet(old(trafficLights), old(engine.current), old(engine.log)),
                             engine.phases, engine.links, laneToDetector, engine.halting);
              && (ok <==> r.Some?)
              && (ok ==> Fleet(trafficLights, engine.current, engine.log) == r.value)
    {
      ghost var start := Fleet(trafficLights, engine.current, engine.log);
      var i := 0;
      while i < |lightOrder|
        invariant 0 <= i <= |lightOrder|
        invariant Valid(engine)
        invariant Round(lightOrder[..i], start, engine.phases, engine.links, laneToDetector, engine.halting) ==
                  Some(Fleet(trafficLights, engine.current, engine.log))
      {
        var id := lightOrder[i];
        RoundNext(lightOrder, i, start, Fleet(trafficLights, engine.current, engine.log),
                  engine.phases, engine.links, laneToDetector, engine.halting);
        ok := ControlTrafficLightThreshold(id, engine);
        if !ok {
          RoundFailed(lightOrder, i + 1, start, engine.phases, engine.links, laneToDetector, engine.halting);
          return;
        }
        i := i + 1;
      }
      assert lightOrder[..i] == lightOrder;
      ok := true;
    }

    ghost function State(engine: Engine): World
      reads this, engine
    {
      World(engine.Sim(), trafficLights, lightOrder, laneToDetector, engine.log)
    }

    /** Iteration `step` of the step loop: a simulator step, discovery
        when it is the first, then one call for every light. */
    /** The start of iteration `step`: the simulator step, and discovery
        right after the first. */
    method Prepare(engine: Engine, step: nat)
      requires Valid(engine)
      modifies this`trafficLights, this`lightOrder, this`laneToDetector
      modifies engine`current, engine`log, engine`waiting, engine`halting, engine`expected, engine`clock
      modifies engine`steps
      ensures Valid(engine)
      ensures State(engine) == Prepared(engine, step, old(State(engine)))
      ensures engine.steps == old(engine.steps) + 1
    {
      engine.SimulationStep();
      if step == 0 {
        DiscoverNetwork(engine);
      }
    }

    method Step(engine: Engine, step: nat) returns (ok: bool)
      requires Valid(engine)
      modifies this`trafficLights, this`lightOrder, this`laneToDetector
      modifies engine`current, engine`log, engine`waiting, engine`halting, engine`expected, engine`clock
      modifies engine`steps
      ensures Valid(engine)
      ensures var p := Pass(engine, step, old(State(engine))); (ok <==> p.Some?) && (ok ==> State(engine) == p.value)
      ensures engine.steps == old(engine.steps) + 1
    {
      Prepare(engine, step);
      ok := ControlRound(engine);
    }

    /** The step loop: while the step is below maxSteps and vehicles are
        expected, a simulator step, discovery after the first one, and one
        call for every light. `worlds` are the states after each completed
        iteration; `steps` counts them, and a crash is an iteration whose
        round raised. */
    method Run(engine: Engine) returns (steps: nat, crashed: bool, ghost worlds: seq<World>)
      requires Valid(engine)
      modifies this`trafficLights, this`lightOrder, this`laneToDetector
      modifies engine`current, engine`log, engine`waiting, engine`halting, engine`expected, engine`clock
      modifies engine`steps
      ensures Valid(engine)
      ensures |worlds| == steps + 1 && worlds[0] == old(State(engine)) && Trace(engine, maxSteps, worlds)
      ensures crashed ==> steps < maxSteps && worlds[steps].sim.expected > 0 && Pass(engine, steps, worlds[steps]).None?
      ensures !crashed ==> (steps == maxSteps || worlds[steps].sim.expected == 0) && State(engine) == worlds[steps]
      ensures engine.steps == old(engine.steps) + steps + (if crashed then 1 else 0)
    {
      worlds := [State(engine)];
      steps, crashed := 0, false;
      while steps < maxSteps && engine.expected > 0
        invariant Valid(engine) && steps <= maxSteps
        invariant |worlds| == steps + 1 && Trace(engine, maxSteps, worlds)
        invariant worlds[0] == old(State(engine)) && worlds[steps] == State(engine)
        invariant engine.steps == old(engine.steps) + steps
        decreases maxSteps - steps
      {
        var ok := Step(engine, steps);
        if !ok {
          crashed := true;
          return;
        }
        TraceNext(engine, maxSteps, worlds, State(engine));
        worlds := worlds + [State(engine)];
        steps := steps + 1;
      }
    }
  }

  /** A round that raised at light `i - 1` has raised for good. */
  lemma {:induction false} RoundFailed(ids: seq<TlsId>, i: nat, f: Fleet, phases: map<TlsId, seq<string>>,
                    links: map<TlsId, seq<seq<Link>>>, detectors: map<Lane, DetId>, halting: map<DetId, nat>)
    requires i <= |ids| && Round(ids[..i], f, phases, links, detectors, halting).None?
    ensures Round(ids, f, phases, links, detectors, halting).None?
    decreases |ids| - i
  {
    if i < |ids| {
      assert ids[..i + 1][..i] == ids[..i];
      RoundFailed(ids, i + 1, f, phases, links, detectors, halting);
    } else {
      assert ids[..i] == ids;
    }
  }
}
