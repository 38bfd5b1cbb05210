/**
 * The collision-partner densities `run_pythonradex` hands to the solver: a dictionary built
 * with the first partner and updated in place with the second when one is named.
 */
module CollisionPartners {
  import opened Outcomes
  import RadexInput

  /** The partners in the order they are given: the first always, the second when named. */
  function PartnerPairs<V>(part1name: string, part1dens: V, part2name: Option<string>, part2dens: V): (ps: seq<(string, V)>)
    ensures |ps| == if part2name.Some? then 2 else 1
  {
    [(part1name, part1dens)] + if part2name.Some? then [(part2name.value, part2dens)] else []
  }

  /** A Python dictionary built by inserting the pairs in order: a later key overwrites an earlier one. */
  function DictFromPairs<V>(ps: seq<(string, V)>): (m: map<string, V>)
    ensures m.Keys == set i | 0 <= i < |ps| :: ps[i].0
  {
    if ps == [] then map[] else DictFromPairs(ps[..|ps| - 1])[ps[|ps| - 1].0 := ps[|ps| - 1].1]
  }

  /** In a dictionary built from pairs, a key holds the value of its last pair. */
  lemma {:induction false} DictFromPairsLastWins<V>(ps: seq<(string, V)>, i: nat)
    requires i < |ps|
    requires forall j :: i < j < |ps| ==> ps[j].0 != ps[i].0
    ensures ps[i].0 in DictFromPairs(ps) && DictFromPairs(ps)[ps[i].0] == ps[i].1
    decreases |ps|
  {
    if i < |ps| - 1 {
      var init := ps[..|ps| - 1];
      assert forall j :: i < j < |init| ==> init[j] == ps[j];
      DictFromPairsLastWins(init, i);
    }
  }

  /** The dictionary of the partner pairs, as the two written-out cases. */
  lemma DictOfPartnerPairs<V>(part1name: string, part1dens: V, part2name: Option<string>, part2dens: V)
    ensures DictFromPairs(PartnerPairs(part1name, part1dens, part2name, part2dens)) ==
      if part2name.Some? then map[part1name := part1dens][part2name.value := part2dens]
      else map[part1name := part1dens]
  {
    var ps := PartnerPairs(part1name, part1dens, part2name, part2dens);
    assert ps[..1] == [(part1name, part1dens)];
    assert ps[..1][..0] == [];
  }

  /**
   * `coll_partner_densities` of `run_pythonradex`: `{part1name: part1dens}`, then
   * `coll_partner_densities[part2name] = part2dens` when `part2name` is not `None`.
   * The values are whatever the caller passed, `None` included.
   */
  method CollPartnerDensities<V>(part1name: string, part1dens: V, part2name: Option<string>, part2dens: V)
    returns (m: map<string, V>)
    ensures m == DictFromPairs(PartnerPairs(part1name, part1dens, part2name, part2dens))
    ensures m.Keys == {part1name} + if part2name.Some? then {part2name.value} else {}
    ensures part2name.Some? ==> m[part2name.value] == part2dens
    ensures part2name != Some(part1name) ==> m[part1name] == part1dens
    ensures |m| == if part2name.Some? && part2name.value != part1name then 2 else 1
  {
    m := map[part1name := part1dens];
    if part2name.Some? {
      m := m[part2name.value := part2dens];
    }
    DictOfPartnerPairs(part1name, part1dens, part2name, part2dens);
    if part2name.Some? && part2name.value != part1name {
      assert m.Keys == {part1name, part2name.value};
    }
  }

  /**
   * The RADEX input file and the solver's dictionary name the same partners, in the same
   * order: the partner blocks written to the file (which `InputRoundTrip` reads back) carry
   * the names of the partner pairs, and those names are the dictionary's keys.
   */
  lemma PartnerNamesAgree<N, V>(cfg: RadexInput.RunConfig<N>, formatG: N -> string, toStr: N -> string, d1: V, d2: V)
    requires RadexInput.Complete(cfg)
    ensures var written := RadexInput.Rendered(cfg, formatG, toStr).partners;
            var ps := PartnerPairs(cfg.part1name, d1, cfg.part2name, d2);
      && |written| == |ps|
      && (forall i :: 0 <= i < |ps| ==> written[i].0 == ps[i].0)
      && DictFromPairs(ps).Keys == set i | 0 <= i < |ps| :: written[i].0
  {
    var written := RadexInput.Rendered(cfg, formatG, toStr).partners;
    var ps := PartnerPairs(cfg.part1name, d1, cfg.part2name, d2);
    assert forall i :: 0 <= i < |ps| ==> written[i].0 == ps[i].0 by {
      if cfg.part2name.Some? {
        assert written[1].0 == cfg.part2name.value == ps[1].0;
      }
    }
    assert (set i | 0 <= i < |ps| :: ps[i].0) == (set i | 0 <= i < |ps| :: written[i].0);
  }

  /**
   * With two equal partner names the paths disagree: the input file declares two partners,
   * while the dictionary holds one entry, with the second density.
   */
  lemma EqualNamesDiverge<N, V>(cfg: RadexInput.RunConfig<N>, formatG: N -> string, toStr: N -> string, d1: V, d2: V)
    requires RadexInput.Complete(cfg)
    requires cfg.part2name == Some(cfg.part1name)
    ensures RadexInput.InputLines(cfg, formatG, toStr)[4] == RadexInput.Ln("2")
    ensures var m := DictFromPairs(PartnerPairs(cfg.part1name, d1, cfg.part2name, d2));
      m.Keys == {cfg.part1name} && m[cfg.part1name] == d2
  {
    RadexInput.InputLinesShape(cfg, formatG, toStr);
    DictOfPartnerPairs(cfg.part1name, d1, cfg.part2name, d2);
  }
}
