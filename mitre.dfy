/**
 * Tactic resolution against the ATT&CK knowledge base (`getMITREPhase`). The stix2 file
 * source is modelled as the sequence of objects it holds, and a query as a filter over it.
 */
module Mitre {
  import opened Wrappers

  /** What the lookup reads of a stix object: its type, the external ids of its external
      references, and the phase names of its kill-chain phases, in order. */
  datatype StixObject = StixObject(kind: string, externalIds: seq<string>, phases: seq<string>)

  /** The two filters: `type = 'attack-pattern'` and `external_references.external_id = attackId`. */
  predicate Matches(o: StixObject, attackId: string)
  {
    o.kind == "attack-pattern" && attackId in o.externalIds
  }

  /** `fs.query(filter)`: the matching objects, in the order the source holds them. */
  function Query(cti: seq<StixObject>, attackId: string): (r: seq<StixObject>)
    ensures |r| <= |cti|
    ensures forall k :: 0 <= k < |r| ==> Matches(r[k], attackId) && r[k] in cti
    ensures forall k :: 0 <= k < |cti| && Matches(cti[k], attackId) ==> cti[k] in r
  {
    if cti == [] then []
    else if Matches(cti[0], attackId) then [cti[0]] + Query(cti[1..], attackId)
    else Query(cti[1..], attackId)
  }

  /** The query's first result is the first matching object. */
  lemma {:induction false} QueryFirst(cti: seq<StixObject>, attackId: string, i: nat)
    requires i < |cti| && Matches(cti[i], attackId)
    requires forall j :: 0 <= j < i ==> !Matches(cti[j], attackId)
    ensures Query(cti, attackId) != [] && Query(cti, attackId)[0] == cti[i]
  {
    if i > 0 {
      assert !Matches(cti[0], attackId);
      QueryFirst(cti[1..], attackId, i - 1);
    }
  }

  /**
   * `getMITREPhase(attackId)`: the first phase name of the first match, `unknown` when
   * nothing matches; None where `kill_chain_phases[0]` raises because the first match
   * lists no phase.
   */
  function GetMitrePhase(cti: seq<StixObject>, attackId: string): (r: Option<string>)
    ensures (forall k :: 0 <= k < |cti| ==> !Matches(cti[k], attackId)) ==> r == Some("unknown")
    ensures forall i :: 0 <= i < |cti| && Matches(cti[i], attackId)
                        && (forall j :: 0 <= j < i ==> !Matches(cti[j], attackId)) ==>
              r == (if cti[i].phases == [] then None else Some(cti[i].phases[0]))
  {
    var result := Query(cti, attackId);
    forall i | 0 <= i < |cti| && Matches(cti[i], attackId) && (forall j :: 0 <= j < i ==> !Matches(cti[j], attackId))
      ensures result != [] && result[0] == cti[i]
    {
      QueryFirst(cti, attackId, i);
    }
    if result != [] then
      if result[0].phases != [] then Some(result[0].phases[0]) else None
    else Some("unknown")
  }
}
