/**
 * The imperative part of `AtomicCaldera` (atomic_caldera.py): the scan of `get_atomics`, the
 * identifier retry loop, the commit loop of `import_art_abilities` and the tactic list of
 * `landing`, each proved to compute what module Ingest (or Tactics) specifies.
 */
module AtomicCaldera {
  import opened Wrappers
  import opened Records
  import opened Normalize
  import opened Ingest
  import opened DataStore
  import Mitre
  import Base64
  import PyStr
  import Tactics

  /** Lines 111-115: draws candidates from position `from` until the store reports one unused. */
  method AllocateAbilityId(store: Store, uuids: seq<string>, from: nat) returns (r: Option<(string, nat)>)
    ensures r == Allocate(store.abilities, uuids, from)
  {
    var next := from;
    var uuidBool := true;
    r := None;
    while uuidBool
      invariant from <= next
      invariant uuidBool ==> r.None? && Allocate(store.abilities, uuids, next) == Allocate(store.abilities, uuids, from)
      invariant !uuidBool ==> r == Allocate(store.abilities, uuids, from)
      decreases (if uuidBool then 1 else 0) + (if next < |uuids| then |uuids| - next else 0)
    {
      if next >= |uuids| {
        uuidBool := false;
      } else {
        var abilityId := uuids[next];
        next := next + 1;
        var taken := store.CheckArtAbilityId(abilityId);
        if !taken {
          r := Some((abilityId, next));
          uuidBool := false;
        }
      }
    }
  }

  /** Lines 131-142: one variable per argument whose processing does not raise. */
  method ArgumentsToVariables(env: Env, abilityId: string, args: seq<(string, Option<string>)>) returns (vars: seq<Variable>)
    ensures vars == ArgumentVariables(env, abilityId, args)
  {
    vars := [];
    for i := 0 to |args|
      invariant vars == ArgumentVariables(env, abilityId, args[..i])
    {
      ArgumentVariablesSnoc(env, abilityId, args, i);
      var (argument, default) := args[i];
      if default.Some? {
        var curVar := VariableText(env.repr(default.value));
        if curVar.Some? {
          vars := vars + [Variable(abilityId, argument, Base64.EncodeText(curVar.value))];
        }
      }
    }
    assert args[..|args|] == args;
  }

  /** Lines 90-100: the normalised command and the executor name. */
  method NormalizeCommand(env: Env, ex: Executor) returns (r: Result<(string, string), Failure>)
    ensures r == PrepareCommand(env, ex)
  {
    if ex.command.None? {
      return Success(("", ""));
    }
    var command := Repair(env.repr(ex.command.value));
    var decoded := env.unicodeEscape(command);
    if decoded.None? { return Failure(EscapeDecodeError); }
    command := decoded.value;
    if ex.name.None? { return Failure(MissingKey("executor.name")); }
    var executor := ex.name.value;
    var unquoted := QuoteStrip(command);
    if unquoted.None? { return Failure(EmptyCommandText); }
    return Success((unquoted.value, executor));
  }

  /** Lines 102-142: check, draw and emit for a test whose command is prepared. */
  method CheckAndEmit(store: Store, env: Env, uuids: seq<string>, art: ArtFile, st: Scan, t: AtomicTest,
                      command: string, executor: string) returns (r: Result<Scan, Failure>)
    requires t.name.Some? && t.description.Some?
    ensures r == EmitStep(env, uuids, store.abilities, art, st, t, command, executor)
  {
    var checkUnique := st.checkUnique;
    if command == [] {
      return Success(st);
    }
    var technique := TechniqueNumber(art.attackTech);
    if technique.Some? {
      checkUnique := Some(Fingerprint(technique.value, Base64.EncodeText(command)));
    }
    if checkUnique.None? { return Failure(UnboundFingerprint); }
    var duplicate := store.CheckArtFingerprint(checkUnique.value);
    if duplicate {
      return Success(st.(checkUnique := checkUnique));
    }
    var allocation := AllocateAbilityId(store, uuids, st.drawn);
    if allocation.None? { return Failure(CandidatesExhausted); }
    var (abilityId, drawn) := allocation.value;
    var artAbilities := st.abilities;
    var tactic := Mitre.GetMitrePhase(env.cti, art.attackTech);
    if tactic.Some? {
      artAbilities := artAbilities + [NewAbility(abilityId, art, t.name.value, t.description.value, tactic.value, executor, command)];
    }
    var artVars := st.variables;
    if t.inputArguments.Some? {
      var emitted := ArgumentsToVariables(env, abilityId, t.inputArguments.value);
      artVars := artVars + emitted;
    }
    assert checkUnique == CheckUnique(art.attackTech, command, st.checkUnique);
    assert !HasFingerprint(store.abilities, checkUnique.value);
    assert Allocate(store.abilities, uuids, st.drawn) == Some((abilityId, drawn));
    assert artAbilities == st.abilities + TestAbility(env, art, t, abilityId, command, executor);
    assert artVars == st.variables + TestVariables(env, t, abilityId);
    return Success(Scan(artAbilities, artVars, checkUnique, drawn));
  }

  /** Lines 88-142: one test of the loop, against the store as it stands. */
  method ProcessTest(store: Store, env: Env, uuids: seq<string>, art: ArtFile, st: Scan, t: AtomicTest) returns (r: Result<Scan, Failure>)
    ensures r == TestStep(env, uuids, store.abilities, art, st, t)
  {
    if t.name.None? { return Failure(MissingKey("name")); }
    if t.description.None? { return Failure(MissingKey("description")); }
    if t.executor.None? { return Failure(MissingKey("executor")); }
    var prepared := NormalizeCommand(env, t.executor.value);
    if prepared.Failure? { return Failure(prepared.error); }
    var (command, executor) := prepared.value;
    r := CheckAndEmit(store, env, uuids, art, st, t, command, executor);
  }

  /** Lines 66-147: the scan of every walked file and every test in it. */
  method GetAtomics(store: Store, env: Env, uuids: seq<string>, artpathExists: bool, files: seq<CorpusFile>) returns (r: Result<Atomics, Failure>)
    ensures r == GetAtomicsSpec(env, uuids, store.abilities, artpathExists, files)
  {
    if !artpathExists {
      return Success(Atomics([], []));
    }
    var st := Start;
    for i := 0 to |files|
      invariant RunFiles(env, uuids, store.abilities, st, files[i..]) == RunFiles(env, uuids, store.abilities, Start, files)
    {
      assert files[i..][1..] == files[i + 1..];
      var (path, content) := files[i];
      if PyStr.IsYamlPath(path) {
        if content.None? {
          return Failure(Unreadable);
        }
        var loaded := env.load(content.value);
        if loaded.Some? {
          var art := loaded.value;
          ghost var before := st;
          for j := 0 to |art.atomicTests|
            invariant RunTests(env, uuids, store.abilities, art, st, art.atomicTests[j..])
                      == RunTests(env, uuids, store.abilities, art, before, art.atomicTests)
          {
            assert art.atomicTests[j..][1..] == art.atomicTests[j + 1..];
            var next := ProcessTest(store, env, uuids, art, st, art.atomicTests[j]);
            if next.Failure? {
              return Failure(next.error);
            }
            st := next.value;
          }
        }
      }
    }
    return Success(Atomics(st.abilities, st.variables));
  }

  /** Lines 164-165: each ability is written to the store in turn. */
  method CommitAbilities(store: Store, abilities: seq<Ability>)
    modifies store
    ensures store.abilities == old(store.abilities) + abilities
    ensures store.variables == old(store.variables)
  {
    for i := 0 to |abilities|
      invariant store.abilities == old(store.abilities) + abilities[..i]
      invariant store.variables == old(store.variables)
    {
      assert abilities[..i + 1] == abilities[..i] + [abilities[i]];
      store.CreateArtAbility(abilities[i]);
    }
    assert abilities[..|abilities|] == abilities;
  }

  /** Lines 166-167: each variable is written to the store in turn. */
  method CommitVariables(store: Store, variables: seq<Variable>)
    modifies store
    ensures store.variables == old(store.variables) + variables
    ensures store.abilities == old(store.abilities)
  {
    for i := 0 to |variables|
      invariant store.variables == old(store.variables) + variables[..i]
      invariant store.abilities == old(store.abilities)
    {
      assert variables[..i + 1] == variables[..i] + [variables[i]];
      store.CreateArtVariable(variables[i]);
    }
    assert variables[..|variables|] == variables;
  }

  /**
   * Lines 158-168: runs the scan and commits its records, abilities first; a scan that
   * raises commits nothing.
   */
  method ImportArtAbilities(store: Store, env: Env, uuids: seq<string>, artpathExists: bool, files: seq<CorpusFile>) returns (message: string)
    modifies store
    ensures var run := GetAtomicsSpec(env, uuids, old(store.abilities), artpathExists, files);
      && (run.Failure? ==> message == "Failed to load abilities."
                           && store.abilities == old(store.abilities) && store.variables == old(store.variables))
      && (run.Success? ==> message == "Successfully imported new abilities."
                           && store.abilities == old(store.abilities) + run.value.abilities
                           && store.variables == old(store.variables) + run.value.variables)
  {
    var atomics := GetAtomics(store, env, uuids, artpathExists, files);
    if atomics.Failure? {
      return "Failed to load abilities.";
    }
    CommitAbilities(store, atomics.value.abilities);
    CommitVariables(store, atomics.value.variables);
    return "Successfully imported new abilities.";
  }

  /** Lines 42-45: the distinct tactics of the stored abilities, in order of first appearance. */
  method Landing(store: Store) returns (tactics: seq<string>)
    ensures tactics == Tactics.FirstSeen(Tactics.TacticsOf(store.abilities))
  {
    var abilities := store.abilities;
    tactics := [];
    for i := 0 to |abilities|
      invariant tactics == Tactics.FirstSeen(Tactics.TacticsOf(abilities[..i]))
    {
      assert abilities[..i + 1][..i] == abilities[..i];
      if abilities[i].tactic !in tactics {
        tactics := tactics + [abilities[i].tactic];
      }
    }
    assert abilities[..|abilities|] == abilities;
  }
}
