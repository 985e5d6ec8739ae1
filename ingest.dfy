/**
 * The ingestion run of `get_atomics` (atomic_caldera.py lines 66-147) as a function of its
 * inputs: the library behaviour it calls, the store snapshot and the corpus of files.
 * The imperative rendering in module AtomicCaldera is proved equal to it.
 */
module Ingest {
  import opened Wrappers
  import opened Records
  import opened Normalize
  import Mitre
  import Base64
  import PyStr

  /**
   * What the run takes from outside: Python's `repr`, the `encode('utf-8').decode('unicode_escape')`
   * round (None where it raises), `ARTyaml.load` on a file's content (None where it raises),
   * and the knowledge base the stix queries read. The identifiers `uuid.uuid4()` hands out are
   * a separate input of each run, `uuids`, in drawing order.
   */
  datatype Env = Env(
    repr: string -> string,
    unicodeEscape: string -> Option<string>,
    load: string -> Option<ArtFile>,
    cti: seq<Mitre.StixObject>)

  /** The exceptions that escape `get_atomics`. */
  datatype Failure =
    | MissingKey(key: string)      // KeyError on atomic['name'], ['description'], ['executor'] or the executor's 'name'
    | EscapeDecodeError            // unicode_escape decoding raises
    | EmptyCommandText             // command[0] on empty text raises IndexError
    | UnboundFingerprint           // checkUnique read before any assignment (UnboundLocalError)
    | Unreadable                   // open() raises on a walked `.yaml` file
    | CandidatesExhausted          // the drawing order ran out: not a behaviour of the source

  /** The locals the scan carries from one test to the next: the two output lists, the last
      assigned `checkUnique`, and how many identifiers have been drawn. */
  datatype Scan = Scan(abilities: seq<Ability>, variables: seq<Variable>, checkUnique: Option<Fingerprint>, drawn: nat)

  const Start := Scan([], [], None, 0)

  /** The returned `{'abilities': ..., 'variables': ...}`. */
  datatype Atomics = Atomics(abilities: seq<Ability>, variables: seq<Variable>)

  /**
   * The `while(uuidBool)` loop: the first candidate from position `from` on that no stored
   * ability uses, paired with the position after it; every candidate skipped was taken.
   */
  function Allocate(stored: seq<Ability>, uuids: seq<string>, from: nat): (r: Option<(string, nat)>)
    decreases |uuids| - from
    ensures r.Some? ==> from < r.value.1 <= |uuids| && r.value.0 == uuids[r.value.1 - 1]
    ensures r.Some? ==> !HasId(stored, r.value.0)
    ensures r.Some? ==> forall j :: from <= j < r.value.1 - 1 ==> HasId(stored, uuids[j])
    ensures r.None? ==> forall j :: from <= j < |uuids| ==> HasId(stored, uuids[j])
  {
    if from >= |uuids| then None
    else if !HasId(stored, uuids[from]) then Some((uuids[from], from + 1))
    else Allocate(stored, uuids, from + 1)
  }

  /** Lines 90-100: the normalised command and the executor name; both empty without a command key. */
  function PrepareCommand(env: Env, ex: Executor): (r: Result<(string, string), Failure>)
  {
    match ex.command
    case None => Success(("", ""))
    case Some(raw) =>
      var decoded := env.unicodeEscape(Repair(env.repr(raw)));
      if decoded.None? then Failure(EscapeDecodeError)
      else if ex.name.None? then Failure(MissingKey("executor.name"))
      else match QuoteStrip(decoded.value)
        case None => Failure(EmptyCommandText)
        case Some(command) => Success((command, ex.name.value))
  }

  /** Lines 104-105 and its `except`: the new `checkUnique`, or the previous one when the
      technique number does not parse. */
  function CheckUnique(attackTech: string, command: string, previous: Option<Fingerprint>): (r: Option<Fingerprint>)
  {
    match TechniqueNumber(attackTech)
    case Some(n) => Some(Fingerprint(n, Base64.EncodeText(command)))
    case None => previous
  }

  /** Lines 119-126. */
  function NewAbility(abilityId: string, art: ArtFile, name: string, description: string,
                      tactic: string, executor: string, command: string): (a: Ability)
  {
    Ability(abilityId, TechniqueText(art.attackTech), name, description, tactic,
            art.displayName, executor, Base64.EncodeText(command))
  }

  /** Lines 132-140 for one argument: its variable, or nothing where processing raises. */
  function ArgumentVariable(env: Env, abilityId: string, arg: (string, Option<string>)): (r: seq<Variable>)
    ensures |r| <= 1
  {
    match arg.1
    case None => []
    case Some(default) =>
      match VariableText(env.repr(default))
      case None => []
      case Some(value) => [Variable(abilityId, arg.0, Base64.EncodeText(value))]
  }

  /** Lines 131-142: the variables of all arguments, in order, each under `abilityId`. */
  function ArgumentVariables(env: Env, abilityId: string, args: seq<(string, Option<string>)>): (r: seq<Variable>)
    ensures |r| <= |args|
    ensures forall k :: 0 <= k < |r| ==> r[k].abilityId == abilityId
  {
    if args == [] then []
    else ArgumentVariables(env, abilityId, args[..|args| - 1]) + ArgumentVariable(env, abilityId, args[|args| - 1])
  }

  /** Adding one argument at the end adds its variable (if any) at the end. */
  lemma ArgumentVariablesSnoc(env: Env, abilityId: string, args: seq<(string, Option<string>)>, i: nat)
    requires i < |args|
    ensures ArgumentVariables(env, abilityId, args[..i + 1])
            == ArgumentVariables(env, abilityId, args[..i]) + ArgumentVariable(env, abilityId, args[i])
  {
    assert args[..i + 1][..i] == args[..i];
  }

  /**
   * Lines 102-142 for a test whose command is prepared: the fingerprint check, the identifier
   * draw, the ability (dropped where the tactic lookup raises) and the argument variables.
   */
  function EmitStep(env: Env, uuids: seq<string>, stored: seq<Ability>, art: ArtFile, st: Scan, t: AtomicTest,
                    command: string, executor: string): (r: Result<Scan, Failure>)
    requires t.name.Some? && t.description.Some?
  {
    if command == [] then Success(st)
    else
      var checkUnique := CheckUnique(art.attackTech, command, st.checkUnique);
      if checkUnique.None? then Failure(UnboundFingerprint)
      else if HasFingerprint(stored, checkUnique.value) then Success(st.(checkUnique := checkUnique))
      else
        var allocation := Allocate(stored, uuids, st.drawn);
        if allocation.None? then Failure(CandidatesExhausted)
        else
          var abilityId := allocation.value.0;
          Success(Scan(st.abilities + TestAbility(env, art, t, abilityId, command, executor),
                       st.variables + TestVariables(env, t, abilityId),
                       checkUnique, allocation.value.1))
  }

  /** Lines 117-128: the test's ability, or none where the tactic lookup raises. */
  function TestAbility(env: Env, art: ArtFile, t: AtomicTest, abilityId: string,
                       command: string, executor: string): (r: seq<Ability>)
    requires t.name.Some? && t.description.Some?
    ensures |r| <= 1
  {
    match Mitre.GetMitrePhase(env.cti, art.attackTech)
    case None => []
    case Some(tactic) => [NewAbility(abilityId, art, t.name.value, t.description.value, tactic, executor, command)]
  }

  /** Lines 130-142: the test's variables; none without `input_arguments`. */
  function TestVariables(env: Env, t: AtomicTest, abilityId: string): (r: seq<Variable>)
    ensures forall k :: 0 <= k < |r| ==> r[k].abilityId == abilityId
  {
    match t.inputArguments
    case None => []
    case Some(args) => ArgumentVariables(env, abilityId, args)
  }

  /** One pass of the test loop (lines 88-142). */
  function TestStep(env: Env, uuids: seq<string>, stored: seq<Ability>, art: ArtFile, st: Scan, t: AtomicTest): (r: Result<Scan, Failure>)
  {
    if t.name.None? then Failure(MissingKey("name"))
    else if t.description.None? then Failure(MissingKey("description"))
    else if t.executor.None? then Failure(MissingKey("executor"))
    else
      var prepared := PrepareCommand(env, t.executor.value);
      if prepared.Failure? then Failure(prepared.error)
      else EmitStep(env, uuids, stored, art, st, t, prepared.value.0, prepared.value.1)
  }

  /** The test loop over the tests still to come. */
  function RunTests(env: Env, uuids: seq<string>, stored: seq<Ability>, art: ArtFile, st: Scan, tests: seq<AtomicTest>): (r: Result<Scan, Failure>)
    decreases |tests|
  {
    if tests == [] then Success(st)
    else match TestStep(env, uuids, stored, art, st, tests[0])
      case Failure(e) => Failure(e)
      case Success(next) => RunTests(env, uuids, stored, art, next, tests[1..])
  }

  /** A walked file: its path and its content, None where `open` raises on it. */
  type CorpusFile = (string, Option<string>)

  /** `artObj.load(yamlFile)` on a file that opened; None where the file did not open or the load raises. */
  function Load(env: Env, file: CorpusFile): (art: Option<ArtFile>)
  {
    if file.1.None? then None else env.load(file.1.value)
  }

  /** Lines 73-87 for one file: skipped unless a loadable `.yaml`; a `.yaml` that does not open
      raises out of the scan (the `open` at line 80 is outside every `try`). */
  function FileStep(env: Env, uuids: seq<string>, stored: seq<Ability>, st: Scan, file: CorpusFile): (r: Result<Scan, Failure>)
  {
    if !PyStr.IsYamlPath(file.0) then Success(st)
    else if file.1.None? then Failure(Unreadable)
    else match Load(env, file)
      case None => Success(st)
      case Some(art) => RunTests(env, uuids, stored, art, st, art.atomicTests)
  }

  /** The file loop over the files still to come. */
  function RunFiles(env: Env, uuids: seq<string>, stored: seq<Ability>, st: Scan, files: seq<CorpusFile>): (r: Result<Scan, Failure>)
    decreases |files|
  {
    if files == [] then Success(st)
    else match FileStep(env, uuids, stored, st, files[0])
      case Failure(e) => Failure(e)
      case Success(next) => RunFiles(env, uuids, stored, next, files[1..])
  }

  /** `get_atomics()` against the store snapshot `stored` over the walked (path, content) pairs. */
  function GetAtomicsSpec(env: Env, uuids: seq<string>, stored: seq<Ability>, artpathExists: bool, files: seq<CorpusFile>): (r: Result<Atomics, Failure>)
  {
    if !artpathExists then Success(Atomics([], []))
    else match RunFiles(env, uuids, stored, Start, files)
      case Failure(e) => Failure(e)
      case Success(st) => Success(Atomics(st.abilities, st.variables))
  }
}
