/**
 * The entities of the ingestion pipeline: what the YAML parser yields for one file, the ability
 * and variable records it emits, and the fingerprint by which the store recognises an ability.
 */
module Records {
  import opened Wrappers
  import PyStr

  /** A test's `executor` mapping; a key the YAML does not have is None. */
  datatype Executor = Executor(name: Option<string>, command: Option<string>)

  /** One entry of `atomicTests`. `inputArguments` lists argument names, in mapping order,
      with the argument's `default` value (None where that lookup raises). */
  datatype AtomicTest = AtomicTest(
    name: Option<string>,
    description: Option<string>,
    executor: Option<Executor>,
    inputArguments: Option<seq<(string, Option<string>)>>)

  /** A loaded `ARTyaml` object. */
  datatype ArtFile = ArtFile(attackTech: string, displayName: string, atomicTests: seq<AtomicTest>)

  datatype Ability = Ability(
    abilityId: string,
    technique: string,
    name: string,
    description: string,
    tactic: string,
    attackName: string,
    executor: string,
    command: string)

  datatype Variable = Variable(abilityId: string, varName: string, value: string)

  /** The `checkUnique` key: the technique number and the encoded command. */
  datatype Fingerprint = Fingerprint(technique: int, command: string)

  /** `attackTech[1:]`: the technique id without its leading `T`. */
  function TechniqueText(attackTech: string): (t: string)
    ensures attackTech != [] ==> [attackTech[0]] + t == attackTech
    ensures attackTech == [] ==> t == []
  {
    if attackTech == [] then [] else attackTech[1..]
  }

  /** `int(attackTech[1:])`, None where it raises ValueError. */
  function TechniqueNumber(attackTech: string): (n: Option<int>)
  {
    PyStr.ParseInt(TechniqueText(attackTech))
  }

  /** A technique id of a letter and a decimal number reads back as that number. */
  lemma TechniqueNumberOfId(letter: char, n: nat)
    ensures TechniqueNumber([letter] + PyStr.Decimal(n)) == Some(n)
  {
    assert TechniqueText([letter] + PyStr.Decimal(n)) == PyStr.Decimal(n);
    PyStr.ParseDecimal(n);
  }

  /** The fingerprint under which the store finds a stored ability: its technique read as a
      number (no fingerprint when the text is not a number) and its command. */
  function StoredFingerprint(a: Ability): (fp: Option<Fingerprint>)
    ensures fp.Some? ==> fp.value.command == a.command
  {
    match PyStr.ParseInt(a.technique)
    case Some(n) => Some(Fingerprint(n, a.command))
    case None => None
  }

  /** `check_art_ability(checkUnique)`: some stored ability has this fingerprint. */
  predicate HasFingerprint(stored: seq<Ability>, fp: Fingerprint)
  {
    exists i :: 0 <= i < |stored| && StoredFingerprint(stored[i]) == Some(fp)
  }

  /** `check_art_ability({'ability_id': id})`: some stored ability has this id. */
  predicate HasId(stored: seq<Ability>, id: string)
  {
    exists i :: 0 <= i < |stored| && stored[i].abilityId == id
  }

  /** Adding records to the store loses no fingerprint and no id. */
  lemma StoreGrows(stored: seq<Ability>, added: seq<Ability>, fp: Fingerprint, id: string)
    ensures HasFingerprint(stored, fp) ==> HasFingerprint(stored + added, fp)
    ensures HasId(stored, id) ==> HasId(stored + added, id)
  {
    if HasFingerprint(stored, fp) {
      var i :| 0 <= i < |stored| && StoredFingerprint(stored[i]) == Some(fp);
      assert (stored + added)[i] == stored[i];
    }
    if HasId(stored, id) {
      var i :| 0 <= i < |stored| && stored[i].abilityId == id;
      assert (stored + added)[i] == stored[i];
    }
  }
}
