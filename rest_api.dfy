/**
 * The dispatch table of `rest_api` (atomic_caldera.py lines 195-209): the request method and
 * the body's `index` select the handler the request is passed to.
 */
module RestApi {
  import opened Wrappers

  /** The handlers the table reaches. */
  datatype Handler =
    | ImportArtAbilities    // PUT ac_ability
    | ExplodeArtAbilities   // POST ac_ability
    | SaveArtAbility        // POST ac_ability_save
    | SaveArtVariables      // POST ac_variables_save
    | DeleteAll             // DELETE delete_all

  /** The nested `options` dictionary. */
  const Options: map<string, map<string, Handler>> := map[
    "PUT" := map["ac_ability" := ImportArtAbilities],
    "POST" := map["ac_ability" := ExplodeArtAbilities,
                  "ac_ability_save" := SaveArtAbility,
                  "ac_variables_save" := SaveArtVariables],
    "DELETE" := map["delete_all" := DeleteAll]]

  /** `options[request.method][index]`: None where either lookup raises KeyError. */
  function Dispatch(verb: string, index: string): Option<Handler>
  {
    if verb in Options && index in Options[verb] then Some(Options[verb][index]) else None
  }

  /** The one (method, index) pair that reaches each handler. */
  function Route(h: Handler): (r: (string, string))
    ensures Dispatch(r.0, r.1) == Some(h)
  {
    match h
    case ImportArtAbilities => ("PUT", "ac_ability")
    case ExplodeArtAbilities => ("POST", "ac_ability")
    case SaveArtAbility => ("POST", "ac_ability_save")
    case SaveArtVariables => ("POST", "ac_variables_save")
    case DeleteAll => ("DELETE", "delete_all")
  }

  /** A request reaches a handler exactly when it carries that handler's route: no two
      entries of the table share a handler and no request reaches two handlers. */
  lemma DispatchRoute(verb: string, index: string, h: Handler)
    ensures Dispatch(verb, index) == Some(h) <==> Route(h) == (verb, index)
  {
  }

  /** A request outside the table, such as a DELETE with an index other than `delete_all`,
      reaches no handler (the lookup raises). */
  lemma UnknownRequest(index: string)
    requires index != "delete_all"
    ensures Dispatch("DELETE", index) == None && Dispatch("GET", index) == None
  {
  }
}
