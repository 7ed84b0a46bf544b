/**
 * The traffic simulator as the controllers see it through its control
 * interface: the network (lights, phase strings, controlled links,
 * detectors) is fixed; the current phase of each light, the per-lane
 * waiting times, the detector counts and the number of vehicles still
 * expected change from step to step. What the simulator does inside a step
 * is not modelled: each step replays the next entry of a finite script of
 * observations. Every setPhase call is appended to a log.
 */
module Traci {
  import opened Signals

  /** What the simulator reports after one step. */
  datatype Observation = Observation(
    waiting: map<Lane, nat>,       // accumulated waiting time per lane
    halting: map<DetId, nat>,      // halting vehicles seen by each lane-area detector
    expected: nat,                 // vehicles still expected (loaded, running or waiting to depart)
    programPhase: map<TlsId, nat>  // lights whose own signal program moved on during the step
  )

  /** A lane-area detector and the lane it lies on. */
  datatype Detector = Detector(id: DetId, lane: Lane)

  /** The part of the simulator's state that changes from step to step. */
  datatype SimState = SimState(
    current: map<TlsId, nat>,      // the phase each light shows
    waiting: map<Lane, nat>,
    halting: map<DetId, nat>,
    expected: nat,
    clock: nat)                    // observations of the script used so far

  /** One setPhase(tls, phase) call as the simulator received it. */
  datatype PhaseCall = PhaseCall(tls: TlsId, phase: int)

  /** The waiting time a per-lane report gives a lane; a lane it does not
      mention has waited 0. */
  function WaitingIn(waiting: map<Lane, nat>, lane: Lane): nat
  {
    if lane in waiting then waiting[lane] else 0
  }

  /** The halting count a per-detector report gives a detector; a detector
      it does not mention saw none. */
  function HaltingIn(halting: map<DetId, nat>, det: DetId): nat
  {
    if det in halting then halting[det] else 0
  }

  /** Every light of `phases` has a shown phase, and it is one of its phases. */
  ghost predicate ShownInRange(current: map<TlsId, nat>, phases: map<TlsId, seq<string>>)
  {
    && current.Keys == phases.Keys
    && (forall id :: id in current ==> current[id] < |phases[id]|)
  }

  class Engine {
    const tlsIds: seq<TlsId>
    const phases: map<TlsId, seq<string>>
    const links: map<TlsId, seq<seq<Link>>>
    const detectors: seq<Detector>
    const script: seq<Observation>

    var current: map<TlsId, nat>
    var waiting: map<Lane, nat>
    var halting: map<DetId, nat>
    var expected: nat
    var clock: nat
    var log: seq<PhaseCall>
    ghost var steps: nat           // simulationStep calls so far

    /** The fixed network: every listed light has phases and links, every
        light has at least one phase, and the script only moves lights to
        phases they have. */
    ghost predicate Network()
    {
      && (forall id :: id in tlsIds ==> id in phases && id in links)
      && (forall id :: id in phases ==> |phases[id]| > 0)
      && (forall o, id :: o in script && id in o.programPhase ==>
            id in phases && o.programPhase[id] < |phases[id]|)
    }

    ghost predicate Valid()
      reads this
    {
      Network() && ShownInRange(current, phases) && clock <= |script|
    }

    constructor (tlsIds: seq<TlsId>, phases: map<TlsId, seq<string>>,
                 links: map<TlsId, seq<seq<Link>>>, detectors: seq<Detector>,
                 script: seq<Observation>, expected: nat)
      requires forall id :: id in tlsIds ==> id in phases && id in links
      requires forall id :: id in phases ==> |phases[id]| > 0
      requires forall o, id :: o in script && id in o.programPhase ==>
                 id in phases && o.programPhase[id] < |phases[id]|
      ensures Valid()
      ensures this.tlsIds == tlsIds && this.phases == phases && this.links == links
      ensures this.detectors == detectors && this.script == script
      ensures this.expected == expected && clock == 0 && log == []
      ensures current == map id | id in phases :: 0
      ensures waiting == map[] && halting == map[] && steps == 0
    {
      this.tlsIds, this.phases, this.links := tlsIds, phases, links;
      this.detectors, this.script := detectors, script;
      this.expected := expected;
      current := map id | id in phases :: 0;
      waiting, halting := map[], map[];
      clock, log := 0, [];
      steps := 0;
    }

    /** getPhase: the index of the phase the light currently shows. */
    function GetPhase(id: TlsId): (k: nat)
      reads this
      requires Valid() && id in phases
      ensures k < |phases[id]|
    {
      current[id]
    }

    /** getWaitingTime: a lane the simulator reported nothing for has waited 0. */
    function WaitingTime(lane: Lane): nat
      reads this
    {
      WaitingIn(waiting, lane)
    }

    /** getLastStepHaltingNumber of a lane-area detector. */
    function HaltingNumber(det: DetId): nat
      reads this
    {
      HaltingIn(halting, det)
    }

    function Sim(): SimState
      reads this
    {
      SimState(current, waiting, halting, expected, clock)
    }

    /** A measure that every step taken while vehicles are expected decreases. */
    function Left(s: SimState): nat
    {
      (if s.clock <= |script| then |script| - s.clock else 0) + (if s.expected > 0 then 1 else 0)
    }

    /** The state after one simulationStep from `s`: the next observation
        of the script, or, past its end, no vehicle left. A step taken
        while vehicles are expected makes progress. */
    function Advanced(s: SimState): (r: SimState)
      ensures s.expected > 0 ==> Left(r) < Left(s)
      ensures s.clock < |script| ==> r.clock == s.clock + 1 && r.expected == script[s.clock].expected
      ensures s.clock >= |script| ==> r.clock == s.clock && r.expected == 0
    {
      if s.clock < |script| then
        var o := script[s.clock];
        SimState(s.current + o.programPhase, o.waiting, o.halting, o.expected, s.clock + 1)
      else s.(expected := 0)
    }

    /** simulationStep: replay the next observation; past the end of the
        script the simulation has no vehicles left. */
    method SimulationStep()
      requires Valid()
      modifies this`current, this`waiting, this`halting, this`expected, this`clock, this`steps
      ensures Valid()
      ensures Sim() == Advanced(old(Sim())) && steps == old(steps) + 1
      ensures old(clock) < |script| ==>
                && clock == old(clock) + 1
                && waiting == script[old(clock)].waiting
                && halting == script[old(clock)].halting
                && expected == script[old(clock)].expected
                && current == old(current) + script[old(clock)].programPhase
      ensures old(clock) == |script| ==>
                && clock == old(clock) && expected == 0
                && current == old(current) && waiting == old(waiting) && halting == old(halting)
    {
      if clock < |script| {
        var o := script[clock];
        assert o in script;
        waiting, halting, expected := o.waiting, o.halting, o.expected;
        current := current + o.programPhase;
        clock := clock + 1;
      } else {
        expected := 0;
      }
      steps := steps + 1;
    }

    /** setPhase: accepted only for a known light and an index inside its
        phase list; a rejected call changes no phase (the client raises). */
    method SetPhase(id: TlsId, index: int) returns (ok: bool)
      requires Valid()
      modifies this`current, this`log
      ensures Valid()
      ensures log == old(log) + [PhaseCall(id, index)]
      ensures ok <==> id in phases && 0 <= index < |phases[id]|
      ensures current == if ok then old(current)[id := index] else old(current)
    {
      log := log + [PhaseCall(id, index)];
      ok := id in phases && 0 <= index < |phases[id]|;
      if ok {
        current := current[id := index];
      }
    }
  }
}
