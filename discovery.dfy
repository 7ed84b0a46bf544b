/**
 * Phase topology discovery for one traffic light of the adaptive controller:
 * which phases are green, which yellow phase clears each green phase, and
 * which incoming lanes each green phase serves.
 */
module PhaseDiscovery {
  import opened Signals

  /** One entry of the green-phase-to-lanes table: a green phase and the
      incoming lanes it serves, listed without repetition. */
  datatype PhaseLanes = PhaseLanes(phase: nat, lanes: seq<Lane>)

  // ---------------------------------------------------------------------
  // Specification

  /** The incoming lanes of a list of controlled links. */
  function Incoming(ls: seq<Link>): set<Lane>
  {
    if ls == [] then {} else Incoming(ls[..|ls| - 1]) + {ls[|ls| - 1].incoming}
  }

  /** The lanes a phase whose lower-cased state is `s` gains at link index
      `k`: the incoming lanes of `links[k]` when `s` shows 'g' at `k`. */
  function GainAt(s: string, links: seq<seq<Link>>, k: nat): set<Lane>
    requires k < |links|
  {
    if k < |s| && s[k] == 'g' then Incoming(links[k]) else {}
  }

  /** Incoming lanes of the links among the first `k` link indices at which
      the (lower-cased) state `s` shows 'g'. */
  function ServedUpTo(s: string, links: seq<seq<Link>>, k: nat): set<Lane>
    requires k <= |links|
  {
    if k == 0 then {} else ServedUpTo(s, links, k - 1) + GainAt(s, links, k - 1)
  }

  /** The lanes served by a phase with the given state. */
  function ServedLanes(state: string, links: seq<seq<Link>>): set<Lane>
  {
    ServedUpTo(Lower(state), links, |links|)
  }

  lemma {:induction false} IncomingMeans(ls: seq<Link>, l: Lane)
    ensures l in Incoming(ls) <==> exists t :: 0 <= t < |ls| && ls[t].incoming == l
  {
    if ls != [] {
      var init := ls[..|ls| - 1];
      IncomingMeans(init, l);
      if l in Incoming(init) {
        var t :| 0 <= t < |init| && init[t].incoming == l;
        assert ls[t] == init[t];
      }
      if exists t :: 0 <= t < |ls| && ls[t].incoming == l {
        var t :| 0 <= t < |ls| && ls[t].incoming == l;
        if t < |init| {
          assert init[t] == ls[t];
        }
      }
    }
  }

  /** A lane is served through the first `k` links exactly when one of those
      links, at a position where the state shows 'g', has it as incoming lane. */
  lemma {:induction false} ServedUpToMeans(s: string, links: seq<seq<Link>>, k: nat, l: Lane)
    requires k <= |links|
    ensures l in ServedUpTo(s, links, k) <==>
              exists j, t :: 0 <= j < k && j < |s| && s[j] == 'g' &&
                             0 <= t < |links[j]| && links[j][t].incoming == l
  {
    if k > 0 {
      ServedUpToMeans(s, links, k - 1, l);
      IncomingMeans(links[k - 1], l);
    }
  }

  /** Lane `l` is served by a phase exactly when some link index `k` below the
      length of its lower-cased state shows 'g' there and a link of
      `links[k]` comes from `l`. */
  lemma ServedLanesMeans(state: string, links: seq<seq<Link>>, l: Lane)
    ensures l in ServedLanes(state, links) <==>
              exists k, t :: 0 <= k < |links| && k < |Lower(state)| && Lower(state)[k] == 'g' &&
                             0 <= t < |links[k]| && links[k][t].incoming == l
  {
    ServedUpToMeans(Lower(state), links, |links|, l);
  }

  predicate Ascending(xs: seq<nat>)
  {
    forall i, j :: 0 <= i < j < |xs| ==> xs[i] < xs[j]
  }

  /** The entries of a table are in strictly ascending phase order. */
  predicate AscendingPhases(entries: seq<PhaseLanes>)
  {
    forall i, j :: 0 <= i < j < |entries| ==> entries[i].phase < entries[j].phase
  }

  /** What the green-phase-to-lanes table of a light must be: in ascending
      phase order, exactly the green phases that serve at least one lane,
      each with exactly the lanes it serves. */
  ghost predicate PhaseToLanesSpec(entries: seq<PhaseLanes>, phases: seq<string>, links: seq<seq<Link>>)
  {
    && AscendingPhases(entries)
    && (forall i :: 0 <= i < |entries| ==>
          && entries[i].phase < |phases|
          && IsGreenState(phases[entries[i].phase])
          && |entries[i].lanes| > 0
          && Distinct(entries[i].lanes)
          && (forall l :: l in entries[i].lanes <==> l in ServedLanes(phases[entries[i].phase], links)))
    && (forall p :: 0 <= p < |phases| && IsGreenState(phases[p]) && ServedLanes(phases[p], links) != {} ==>
          exists i :: 0 <= i < |entries| && entries[i].phase == p)
  }

  /** The phase after `g` in a cycle of `n` phases. */
  function NextPhase(g: nat, n: nat): (r: nat)
    requires g < n
    ensures r == (g + 1) % n
    ensures r < n
  {
    if g + 1 < n then g + 1 else 0
  }

  /** What the yellow map of a light must be: a green phase maps to the
      phase after it (cyclically) exactly when that phase shows yellow. */
  ghost predicate YellowMapSpec(ym: map<nat, nat>, phases: seq<string>)
  {
    && (forall g: nat :: g in ym <==>
          g < |phases| && IsGreenState(phases[g]) && HasYellow(phases[NextPhase(g, |phases|)]))
    && (forall g :: g in ym ==> g < |phases| && ym[g] == NextPhase(g, |phases|))
  }

  // ---------------------------------------------------------------------
  // The discovery steps

  /** First pass: the green phases, in index order, each given an empty lane set. */
  method ClassifyPhases(phases: seq<string>) returns (greens: seq<nat>, lanesOf: map<nat, set<Lane>>)
    ensures Ascending(greens)
    ensures forall p: nat :: p in greens <==> p < |phases| && IsGreenState(phases[p])
    ensures forall t :: 0 <= t < |greens| ==> greens[t] < |phases|
    ensures forall p :: p in lanesOf <==> p in greens
    ensures forall p :: p in lanesOf ==> lanesOf[p] == {}
  {
    greens, lanesOf := [], map[];
    var i := 0;
    while i < |phases|
      invariant 0 <= i <= |phases|
      invariant Ascending(greens)
      invariant forall t :: 0 <= t < |greens| ==> greens[t] < i
      invariant forall p: nat :: p in greens <==> p < i && IsGreenState(phases[p])
      invariant forall p :: p in lanesOf <==> p in greens
      invariant forall p :: p in lanesOf ==> lanesOf[p] == {}
    {
      if IsGreenState(phases[i]) {
        greens := greens + [i];
        lanesOf := lanesOf[i := {}];
      }
      i := i + 1;
    }
  }

  /** Second pass: each green phase followed (cyclically) by a phase
      showing yellow is mapped to that phase. */
  method MapYellowPhases(phases: seq<string>, greens: seq<nat>) returns (ym: map<nat, nat>)
    requires forall p: nat :: p in greens <==> p < |phases| && IsGreenState(phases[p])
    ensures YellowMapSpec(ym, phases)
  {
    ym := map[];
    var j := 0;
    while j < |greens|
      invariant 0 <= j <= |greens|
      invariant forall g :: g in ym ==>
                  && g < |phases| && IsGreenState(phases[g])
                  && HasYellow(phases[NextPhase(g, |phases|)])
                  && ym[g] == NextPhase(g, |phases|)
      invariant forall t :: 0 <= t < j ==>
                  greens[t] < |phases| &&
                  (HasYellow(phases[NextPhase(greens[t], |phases|)]) ==> greens[t] in ym)
    {
      var g := greens[j];
      assert g in greens;
      var next := (g + 1) % |phases|;
      if HasYellow(phases[next]) {
        ym := ym[g := next];
      }
      j := j + 1;
    }
    forall g: nat | g < |phases| && IsGreenState(phases[g]) && HasYellow(phases[NextPhase(g, |phases|)])
      ensures g in ym
    {
      assert g in greens;
      var t :| 0 <= t < |greens| && greens[t] == g;
    }
  }

  lemma UpdateSame(m: map<nat, set<Lane>>, p: nat, a: set<Lane>)
    requires p in m && a == m[p]
    ensures m[p := a] == m
  {
    assert forall q :: q in m[p := a] <==> q in m;
    assert forall q :: q in m ==> m[p := a][q] == m[q];
  }

  lemma UpdateTwice(m: map<nat, set<Lane>>, p: nat, a: set<Lane>, b: set<Lane>)
    ensures m[p := a][p := b] == m[p := b]
  {
    var x, y := m[p := a][p := b], m[p := b];
    assert x.Keys == y.Keys;
    assert forall q :: q in x ==> x[q] == y[q];
  }

  /** Innermost loop: add the incoming lane of each link of `ls` to the set of `p`. */
  method AddIncoming(lanesOf: map<nat, set<Lane>>, p: nat, ls: seq<Link>)
    returns (r: map<nat, set<Lane>>)
    requires p in lanesOf
    ensures r == lanesOf[p := lanesOf[p] + Incoming(ls)]
  {
    r := lanesOf;
    var m := 0;
    assert ls[..0] == [];
    UpdateSame(lanesOf, p, lanesOf[p] + {});
    while m < |ls|
      invariant 0 <= m <= |ls|
      invariant r == lanesOf[p := lanesOf[p] + Incoming(ls[..m])]
    {
      assert ls[..m + 1][..m] == ls[..m];
      ghost var before := r;
      r := r[p := r[p] + {ls[m].incoming}];
      UpdateTwice(lanesOf, p, before[p], before[p] + {ls[m].incoming});
      assert Incoming(ls[..m + 1]) == Incoming(ls[..m]) + {ls[m].incoming};
      assert before[p] + {ls[m].incoming} == lanesOf[p] + Incoming(ls[..m + 1]);
      m := m + 1;
    }
    assert ls[..m] == ls;
  }

  /** The lane sets after the green phases `ps`, in turn, gained what they
      show 'g' for at link index `k`. */
  ghost function AddGains(m: map<nat, set<Lane>>, phases: seq<string>, ps: seq<nat>,
                          links: seq<seq<Link>>, k: nat): (r: map<nat, set<Lane>>)
    requires k < |links|
    ensures r.Keys == m.Keys
  {
    if ps == [] then m
    else
      var g := AddGains(m, phases, ps[..|ps| - 1], links, k);
      var p := ps[|ps| - 1];
      if p in g && p < |phases| then g[p := g[p] + GainAt(Lower(phases[p]), links, k)] else g
  }

  /** Each phase gains once, whether it is listed once or more. */
  lemma {:induction false} AddGainsAt(m: map<nat, set<Lane>>, phases: seq<string>, ps: seq<nat>,
                                      links: seq<seq<Link>>, k: nat, q: nat)
    requires k < |links| && q in m
    ensures AddGains(m, phases, ps, links, k)[q] ==
              m[q] + (if q in ps && q < |phases| then GainAt(Lower(phases[q]), links, k) else {})
  {
    if ps != [] {
      var init := ps[..|ps| - 1];
      assert q in ps <==> q in init || q == ps[|ps| - 1];
      AddGainsAt(m, phases, init, links, k, q);
    }
  }

  /** Middle loop: at link index `k`, every green phase showing 'g' there
      gains the incoming lanes of `links[k]`. */
  method CollectAtLink(phases: seq<string>, greens: seq<nat>, links: seq<seq<Link>>, k: nat,
                       lanesOf: map<nat, set<Lane>>)
    returns (r: map<nat, set<Lane>>)
    requires k < |links|
    requires forall t :: 0 <= t < |greens| ==> greens[t] in lanesOf && greens[t] < |phases|
    ensures r == AddGains(lanesOf, phases, greens, links, k)
    ensures r.Keys == lanesOf.Keys
    ensures forall q :: q in r ==>
              r[q] == lanesOf[q] + (if q in greens && q < |phases| then GainAt(Lower(phases[q]), links, k) else {})
  {
    r := lanesOf;
    var j := 0;
    while j < |greens|
      invariant 0 <= j <= |greens|
      invariant r == AddGains(lanesOf, phases, greens[..j], links, k)
    {
      var p := greens[j];
      var state := Lower(phases[p]);
      assert greens[..j + 1][..j] == greens[..j];
      if k < |state| && state[k] == 'g' {
        r := AddIncoming(r, p, links[k]);
      } else {
        UpdateSame(r, p, r[p] + GainAt(state, links, k));
      }
      j := j + 1;
    }
    assert greens[..j] == greens;
    forall q | q in r
      ensures r[q] == lanesOf[q] + (if q in greens && q < |phases| then GainAt(Lower(phases[q]), links, k) else {})
    {
      AddGainsAt(lanesOf, phases, greens, links, k, q);
    }
  }

  /** The lane sets after link indices `0 .. k-1` have been handled. */
  ghost function Collected(m: map<nat, set<Lane>>, phases: seq<string>, greens: seq<nat>,
                           links: seq<seq<Link>>, k: nat): map<nat, set<Lane>>
    requires k <= |links|
  {
    if k == 0 then m else AddGains(Collected(m, phases, greens, links, k - 1), phases, greens, links, k - 1)
  }

  /** After `k` link indices, a green phase has gained exactly the lanes it
      serves through those links. */
  lemma {:induction false} CollectedAt(m: map<nat, set<Lane>>, phases: seq<string>, greens: seq<nat>,
                                       links: seq<seq<Link>>, k: nat, q: nat)
    requires k <= |links| && q in m
    ensures q in Collected(m, phases, greens, links, k)
    ensures Collected(m, phases, greens, links, k)[q] ==
              m[q] + (if q in greens && q < |phases| then ServedUpTo(Lower(phases[q]), links, k) else {})
  {
    if k > 0 {
      CollectedAt(m, phases, greens, links, k - 1, q);
      AddGainsAt(Collected(m, phases, greens, links, k - 1), phases, greens, links, k - 1, q);
    }
  }

  /** Third pass: for every link index and every green phase showing 'g' at
      that index, add the incoming lanes of the links at that index. */
  method CollectLanes(phases: seq<string>, greens: seq<nat>, links: seq<seq<Link>>,
                      lanesOf0: map<nat, set<Lane>>)
    returns (lanesOf: map<nat, set<Lane>>)
    requires forall t :: 0 <= t < |greens| ==> greens[t] < |phases|
    requires forall p :: p in lanesOf0 <==> p in greens
    requires forall p :: p in lanesOf0 ==> lanesOf0[p] == {}
    ensures lanesOf.Keys == lanesOf0.Keys
    ensures forall p :: p in lanesOf ==> p < |phases| && lanesOf[p] == ServedLanes(phases[p], links)
  {
    lanesOf := lanesOf0;
    var k := 0;
    while k < |links|
      invariant 0 <= k <= |links|
      invariant lanesOf == Collected(lanesOf0, phases, greens, links, k)
      invariant lanesOf.Keys == lanesOf0.Keys
    {
      lanesOf := CollectAtLink(phases, greens, links, k, lanesOf);
      k := k + 1;
    }
    forall p | p in lanesOf
      ensures p < |phases| && lanesOf[p] == ServedLanes(phases[p], links)
    {
      CollectedAt(lanesOf0, phases, greens, links, k, p);
      assert p in greens;
    }
  }

  /** The lanes of a set listed once each, in no particular order. */
  method ListOf(s: set<Lane>) returns (xs: seq<Lane>)
    ensures forall l :: l in xs <==> l in s
    ensures Distinct(xs)
  {
    xs := [];
    var rest := s;
    while rest != {}
      invariant rest <= s
      invariant forall l :: l in xs <==> l in s && l !in rest
      invariant Distinct(xs)
      decreases rest
    {
      var l :| l in rest;
      xs := xs + [l];
      rest := rest - {l};
    }
  }

  /** An entry lists, once each, the non-empty lane set collected for its phase. */
  ghost predicate ListsLanesOf(e: PhaseLanes, lanesOf: map<nat, set<Lane>>)
  {
    && e.phase in lanesOf
    && |e.lanes| > 0
    && Distinct(e.lanes)
    && (forall l :: l in e.lanes <==> l in lanesOf[e.phase])
  }

  lemma AppendAscending(entries: seq<PhaseLanes>, e: PhaseLanes)
    requires AscendingPhases(entries)
    requires entries != [] ==> entries[|entries| - 1].phase < e.phase
    ensures AscendingPhases(entries + [e])
  {
  }

  /** Last pass: keep the green phases that serve some lane, in phase order. */
  method KeepServingPhases(greens: seq<nat>, lanesOf: map<nat, set<Lane>>)
    returns (entries: seq<PhaseLanes>)
    requires Ascending(greens)
    requires forall t :: 0 <= t < |greens| ==> greens[t] in lanesOf
    requires forall p :: p in lanesOf ==> p in greens
    ensures AscendingPhases(entries)
    ensures forall i :: 0 <= i < |entries| ==> ListsLanesOf(entries[i], lanesOf)
    ensures forall p :: p in lanesOf && lanesOf[p] != {} ==>
              exists i :: 0 <= i < |entries| && entries[i].phase == p
  {
    entries := [];
    var j := 0;
    while j < |greens|
      invariant 0 <= j <= |greens|
      invariant AscendingPhases(entries)
      invariant entries != [] ==> exists t :: 0 <= t < j && greens[t] == entries[|entries| - 1].phase
      invariant forall i :: 0 <= i < |entries| ==> ListsLanesOf(entries[i], lanesOf)
      invariant forall t :: 0 <= t < j && lanesOf[greens[t]] != {} ==>
                  exists i :: 0 <= i < |entries| && entries[i].phase == greens[t]
    {
      var p := greens[j];
      if lanesOf[p] != {} {
        var lanes := ListOf(lanesOf[p]);
        var e := PhaseLanes(p, lanes);
        assert ListsLanesOf(e, lanesOf) by {
          var l :| l in lanesOf[p];
          assert l in lanes;
        }
        if entries != [] {
          var t :| 0 <= t < j && greens[t] == entries[|entries| - 1].phase;
        }
        AppendAscending(entries, e);
        ghost var prev := entries;
        entries := entries + [e];
        forall t | 0 <= t < j + 1 && lanesOf[greens[t]] != {}
          ensures exists i :: 0 <= i < |entries| && entries[i].phase == greens[t]
        {
          if t < j {
            var i :| 0 <= i < |prev| && prev[i].phase == greens[t];
            assert entries[i] == prev[i];
          } else {
            assert entries[|prev|].phase == greens[t];
          }
        }
      }
      j := j + 1;
    }
    forall p | p in lanesOf && lanesOf[p] != {}
      ensures exists i :: 0 <= i < |entries| && entries[i].phase == p
    {
      var t :| 0 <= t < |greens| && greens[t] == p;
    }
  }

  /** Discovery for one light: the green-phase-to-lanes table and the
      yellow map, from its phase strings and its controlled links. */
  method DiscoverLight(phases: seq<string>, links: seq<seq<Link>>)
    returns (phaseToLanes: seq<PhaseLanes>, yellowPhaseMap: map<nat, nat>)
    ensures PhaseToLanesSpec(phaseToLanes, phases, links)
    ensures YellowMapSpec(yellowPhaseMap, phases)
  {
    var greens, lanesOf0 := ClassifyPhases(phases);
    yellowPhaseMap := MapYellowPhases(phases, greens);
    var lanesOf := CollectLanes(phases, greens, links, lanesOf0);
    phaseToLanes := KeepServingPhases(greens, lanesOf);
  }
}
