/**
 * The plugin's data service (`ac_data_svc`) as far as ingestion uses it: the stored ability and
 * variable records, the two membership checks and the two inserts.
 */
module DataStore {
  import opened Wrappers
  import opened Records

  class Store {
    var abilities: seq<Ability>
    var variables: seq<Variable>

    constructor ()
      ensures abilities == [] && variables == []
    {
      abilities := [];
      variables := [];
    }

    /** `check_art_ability(checkUnique)`. */
    method CheckArtFingerprint(fp: Fingerprint) returns (found: bool)
      ensures found <==> exists i :: 0 <= i < |abilities| && StoredFingerprint(abilities[i]) == Some(fp)
    {
      found := HasFingerprint(abilities, fp);
    }

    /** `check_art_ability({'ability_id': id})`. */
    method CheckArtAbilityId(id: string) returns (found: bool)
      ensures found <==> exists i :: 0 <= i < |abilities| && abilities[i].abilityId == id
    {
      found := HasId(abilities, id);
    }

    /** `create_art_ability(ability)`: the record joins the stored abilities. */
    method CreateArtAbility(a: Ability)
      modifies this
      ensures abilities == old(abilities) + [a] && variables == old(variables)
    {
      abilities := abilities + [a];
    }

    /** `create_art_variable(variable)`: the record joins the stored variables. */
    method CreateArtVariable(v: Variable)
      modifies this
      ensures variables == old(variables) + [v] && abilities == old(abilities)
    {
      variables := variables + [v];
    }
  }
}
