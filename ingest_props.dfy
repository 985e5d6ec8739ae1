/**
 * What the ingestion run guarantees, stated over module Ingest: the effect of one test, the
 * argument variables, how runs over files compose, the freshness of everything emitted, and
 * that importing the same corpus again adds no ability.
 */
module IngestProperties {
  import opened Wrappers
  import opened Records
  import opened Ingest
  import Mitre
  import Base64
  import PyStr
  import Normalize
  import Utf8

  // ---------------------------------------------------------------------------------------
  // One test

  /** A test whose executor has no `command` key, or whose command normalises to the empty
      text, leaves the scan as it was: no ability, no variable, no identifier drawn. */
  lemma NoCommandNoRecords(env: Env, uuids: seq<string>, stored: seq<Ability>, art: ArtFile, st: Scan, t: AtomicTest)
    requires t.name.Some? && t.description.Some? && t.executor.Some?
    requires t.executor.value.command.None?
             || (PrepareCommand(env, t.executor.value).Success? && PrepareCommand(env, t.executor.value).value.0 == [])
    ensures PrepareCommand(env, t.executor.value).Success?
    ensures t.executor.value.command.None? ==> PrepareCommand(env, t.executor.value) == Success(("", ""))
    ensures TestStep(env, uuids, stored, art, st, t) == Success(st)
  {
  }

  /**
   * Preparing an executor that has a `command` key: the three exceptions it can raise, each
   * exactly when the source raises it, and otherwise a command that is the decoded text cut
   * at most at its ends, with no leading or trailing quote of the kind it started with, and
   * the executor's own name.
   */
  lemma PrepareCommandOutcome(env: Env, ex: Executor) returns (i: nat)
    requires ex.command.Some?
    ensures var decoded := env.unicodeEscape(Normalize.Repair(env.repr(ex.command.value)));
      && (PrepareCommand(env, ex) == Failure(EscapeDecodeError) <==> decoded.None?)
      && (PrepareCommand(env, ex) == Failure(MissingKey("executor.name")) <==> decoded.Some? && ex.name.None?)
      && (PrepareCommand(env, ex) == Failure(EmptyCommandText) <==> decoded == Some([]) && ex.name.Some?)
      && (PrepareCommand(env, ex).Success? <==> decoded.Some? && decoded.value != [] && ex.name.Some?)
    ensures PrepareCommand(env, ex).Success? ==>
      var text, c := env.unicodeEscape(Normalize.Repair(env.repr(ex.command.value))).value, PrepareCommand(env, ex).value.0;
      && PrepareCommand(env, ex).value.1 == ex.name.value
      && i + |c| <= |text| && c == text[i..i + |c|]
      && (text[0] == '\'' ==> c == [] || (c[0] != '\'' && c[|c| - 1] != '\''))
      && (text[0] == '"' ==> c == [] || (c[0] != '"' && c[|c| - 1] != '"'))
      && (text[0] != '\'' && text[0] != '"' ==> c == text)
  {
    i := 0;
    var decoded := env.unicodeEscape(Normalize.Repair(env.repr(ex.command.value)));
    if decoded.Some? && decoded.value != [] && ex.name.Some? {
      i := Normalize.QuoteStripInfix(decoded.value);
    }
  }

  /** The command that reaches the fingerprint check, when there is one. */
  function PreparedCommand(env: Env, t: AtomicTest): Option<string>
  {
    if t.executor.None? then None
    else match PrepareCommand(env, t.executor.value)
      case Failure(_) => None
      case Success((c, _)) => Some(c)
  }

  /** Whether a prepared test reaches the identifier draw: the command is not empty and the
      fingerprint it checks is absent from the store. */
  predicate Draws(stored: seq<Ability>, art: ArtFile, st: Scan, c: string)
  {
    c != [] && CheckUnique(art.attackTech, c, st.checkUnique).Some?
    && !HasFingerprint(stored, CheckUnique(art.attackTech, c, st.checkUnique).value)
  }

  /** The result of a prepared test that reaches the draw. */
  lemma DrawBranch(env: Env, uuids: seq<string>, stored: seq<Ability>, art: ArtFile, st: Scan, t: AtomicTest, c: string, x: string)
    returns (abilityId: string, drawn: nat)
    requires t.name.Some? && t.description.Some?
    requires EmitStep(env, uuids, stored, art, st, t, c, x).Success? && Draws(stored, art, st, c)
    ensures Allocate(stored, uuids, st.drawn) == Some((abilityId, drawn))
    ensures EmitStep(env, uuids, stored, art, st, t, c, x).value
            == Scan(st.abilities + TestAbility(env, art, t, abilityId, c, x), st.variables + TestVariables(env, t, abilityId),
                    CheckUnique(art.attackTech, c, st.checkUnique), drawn)
  {
    abilityId, drawn := Allocate(stored, uuids, st.drawn).value.0, Allocate(stored, uuids, st.drawn).value.1;
  }

  /** The result of a prepared test that does not reach the draw. */
  lemma NoDrawBranch(env: Env, uuids: seq<string>, stored: seq<Ability>, art: ArtFile, st: Scan, t: AtomicTest, c: string, x: string)
    requires t.name.Some? && t.description.Some?
    requires EmitStep(env, uuids, stored, art, st, t, c, x).Success? && !Draws(stored, art, st, c)
    ensures EmitStep(env, uuids, stored, art, st, t, c, x).value
            == if c == [] then st else st.(checkUnique := CheckUnique(art.attackTech, c, st.checkUnique))
  {
  }

  /** EmitCondition for a test whose command is prepared. */
  lemma EmitStepCondition(env: Env, uuids: seq<string>, stored: seq<Ability>, art: ArtFile, st: Scan, t: AtomicTest, c: string, x: string)
    requires t.name.Some? && t.description.Some?
    requires EmitStep(env, uuids, stored, art, st, t, c, x).Success?
    ensures var next := EmitStep(env, uuids, stored, art, st, t, c, x).value;
      && st.abilities <= next.abilities && |next.abilities| <= |st.abilities| + 1
      && st.variables <= next.variables
      && (c != [] ==> CheckUnique(art.attackTech, c, st.checkUnique).Some?
                      && next.checkUnique == CheckUnique(art.attackTech, c, st.checkUnique))
      && (c == [] ==> next == st)
      && (|next.abilities| > |st.abilities| <==>
            Draws(stored, art, st, c) && Mitre.GetMitrePhase(env.cti, art.attackTech).Some?)
  {
    if Draws(stored, art, st, c) {
      var abilityId, drawn := DrawBranch(env, uuids, stored, art, st, t, c, x);
    } else {
      NoDrawBranch(env, uuids, stored, art, st, t, c, x);
    }
  }

  /**
   * A test adds an ability exactly when its command is not empty, the fingerprint it checks
   * is absent from the store, and the tactic lookup does not raise; it adds at most one.
   */
  lemma EmitCondition(env: Env, uuids: seq<string>, stored: seq<Ability>, art: ArtFile, st: Scan, t: AtomicTest)
    requires TestStep(env, uuids, stored, art, st, t).Success?
    ensures PreparedCommand(env, t).Some?
    ensures var next, c := TestStep(env, uuids, stored, art, st, t).value, PreparedCommand(env, t).value;
      && st.abilities <= next.abilities && |next.abilities| <= |st.abilities| + 1
      && st.variables <= next.variables
      && (c != [] ==> CheckUnique(art.attackTech, c, st.checkUnique).Some?
                      && next.checkUnique == CheckUnique(art.attackTech, c, st.checkUnique))
      && (c == [] ==> next == st)
      && (|next.abilities| > |st.abilities| <==>
            c != [] && !HasFingerprint(stored, CheckUnique(art.attackTech, c, st.checkUnique).value)
            && Mitre.GetMitrePhase(env.cti, art.attackTech).Some?)
  {
    var p := PrepareCommand(env, t.executor.value);
    EmitStepCondition(env, uuids, stored, art, st, t, p.value.0, p.value.1);
  }

  /** `id` is one of the candidates drawn at positions `from` up to `to`. */
  predicate Drawn(uuids: seq<string>, from: nat, to: nat, id: string)
  {
    from <= to <= |uuids| && id in uuids[from..to]
  }

  /** A new ability: its id drawn in the span and unused in the store, and the fingerprint the
      store would find it under (if its technique is a number) absent from the store. */
  predicate FreshAbility(stored: seq<Ability>, uuids: seq<string>, from: nat, to: nat, a: Ability)
  {
    && Drawn(uuids, from, to, a.abilityId)
    && !HasId(stored, a.abilityId)
    && (StoredFingerprint(a).Some? ==> !HasFingerprint(stored, StoredFingerprint(a).value))
  }

  /** `next` extends `st`, and every record it adds is fresh against the store. */
  predicate FreshRecords(stored: seq<Ability>, uuids: seq<string>, st: Scan, next: Scan)
  {
    && st.abilities <= next.abilities && st.variables <= next.variables
    && st.drawn <= next.drawn <= |uuids|
    && (forall k :: |st.abilities| <= k < |next.abilities| ==>
          FreshAbility(stored, uuids, st.drawn, next.drawn, next.abilities[k]))
    && (forall k :: |st.variables| <= k < |next.variables| ==>
          Drawn(uuids, st.drawn, next.drawn, next.variables[k].abilityId) && !HasId(stored, next.variables[k].abilityId))
  }

  /** Appending one draw's records keeps them fresh. */
  lemma AppendFresh(stored: seq<Ability>, uuids: seq<string>, st: Scan, emitted: seq<Ability>, vars: seq<Variable>,
                    checkUnique: Option<Fingerprint>, abilityId: string, drawn: nat)
    requires st.drawn < drawn <= |uuids| && Drawn(uuids, st.drawn, drawn, abilityId) && !HasId(stored, abilityId)
    requires forall k :: 0 <= k < |emitted| ==> FreshAbility(stored, uuids, st.drawn, drawn, emitted[k])
    requires forall k :: 0 <= k < |vars| ==> vars[k].abilityId == abilityId
    ensures FreshRecords(stored, uuids, st, Scan(st.abilities + emitted, st.variables + vars, checkUnique, drawn))
  {
    var next := Scan(st.abilities + emitted, st.variables + vars, checkUnique, drawn);
    assert forall k :: |st.abilities| <= k < |next.abilities| ==> next.abilities[k] == emitted[k - |st.abilities|];
    assert forall k :: |st.variables| <= k < |next.variables| ==> next.variables[k] == vars[k - |st.variables|];
  }

  /** Everything a prepared test adds is fresh against the store. */
  lemma EmitStepFresh(env: Env, uuids: seq<string>, stored: seq<Ability>, art: ArtFile, st: Scan, t: AtomicTest, c: string, x: string)
    requires t.name.Some? && t.description.Some?
    requires EmitStep(env, uuids, stored, art, st, t, c, x).Success?
    requires st.drawn <= |uuids|
    ensures FreshRecords(stored, uuids, st, EmitStep(env, uuids, stored, art, st, t, c, x).value)
  {
    if Draws(stored, art, st, c) {
      var abilityId, drawn := DrawBranch(env, uuids, stored, art, st, t, c, x);
      DrawnRecords(env, uuids, stored, art, st, t, c, x, abilityId, drawn);
      AppendFresh(stored, uuids, st, TestAbility(env, art, t, abilityId, c, x), TestVariables(env, t, abilityId),
                  CheckUnique(art.attackTech, c, st.checkUnique), abilityId, drawn);
    } else {
      NoDrawBranch(env, uuids, stored, art, st, t, c, x);
    }
  }

  /** The fields of the records one draw appends. */
  lemma AppendedRecords(stored: seq<Ability>, uuids: seq<string>, st: Scan, emitted: seq<Ability>, vars: seq<Variable>,
                        checkUnique: Option<Fingerprint>, abilityId: string, drawn: nat)
    requires forall k :: 0 <= k < |vars| ==> vars[k].abilityId == abilityId
    ensures var next := Scan(st.abilities + emitted, st.variables + vars, checkUnique, drawn);
      && (forall k :: |st.variables| <= k < |next.variables| ==> next.variables[k].abilityId == abilityId)
      && (|next.abilities| > |st.abilities| ==> next.abilities[|st.abilities|] == emitted[0])
  {
    var next := Scan(st.abilities + emitted, st.variables + vars, checkUnique, drawn);
    assert forall k :: |st.variables| <= k < |next.variables| ==> next.variables[k] == vars[k - |st.variables|];
  }

  /**
   * The records a test with command `c` and executor `x` adds in going from `st` to `next`: the
   * ability carries the file's technique and display name, the resolved tactic, the test's
   * name and description, the executor name and the encoded command; it and every variable
   * carry the identifier just drawn, which the store does not use; the fingerprint checked is
   * absent from the store, and it is the ability's own when the technique is a number.
   */
  predicate StepRecords(env: Env, uuids: seq<string>, stored: seq<Ability>, art: ArtFile, st: Scan, t: AtomicTest,
                        c: string, x: string, next: Scan)
    requires t.name.Some? && t.description.Some?
  {
    && (|next.abilities| > |st.abilities| || |next.variables| > |st.variables| ==>
          && st.drawn < next.drawn <= |uuids|
          && !HasId(stored, uuids[next.drawn - 1])
          && (forall k :: |st.variables| <= k < |next.variables| ==> next.variables[k].abilityId == uuids[next.drawn - 1]))
    && (|next.abilities| > |st.abilities| ==>
          && AbilityFields(env, art, t, c, x, uuids[next.drawn - 1], next.abilities[|st.abilities|])
          && next.checkUnique.Some? && !HasFingerprint(stored, next.checkUnique.value)
          && (TechniqueNumber(art.attackTech).Some? ==>
                Some(next.checkUnique.value) == StoredFingerprint(next.abilities[|st.abilities|])))
  }

  /**
   * The ability test `t` of file `art` yields under identifier `id`: the file's technique and
   * display name, the resolved tactic, the test's name and description, the executor name and
   * the encoded command.
   */
  predicate AbilityFields(env: Env, art: ArtFile, t: AtomicTest, c: string, x: string, id: string, a: Ability)
    requires t.name.Some? && t.description.Some?
  {
    && a.abilityId == id
    && a.technique == TechniqueText(art.attackTech) && a.attackName == art.displayName
    && Mitre.GetMitrePhase(env.cti, art.attackTech) == Some(a.tactic)
    && a.name == t.name.value && a.description == t.description.value
    && a.executor == x && a.command == Base64.EncodeText(c)
  }

  /** StepRecords for appending `emitted` and `vars` under an unused identifier drawn just before `drawn`. */
  lemma AppendStepRecords(env: Env, uuids: seq<string>, stored: seq<Ability>, art: ArtFile, st: Scan, t: AtomicTest,
                          c: string, x: string, emitted: seq<Ability>, vars: seq<Variable>, checked: Option<Fingerprint>,
                          drawn: nat)
    requires t.name.Some? && t.description.Some?
    requires st.drawn < drawn <= |uuids| && !HasId(stored, uuids[drawn - 1])
    requires forall k :: 0 <= k < |vars| ==> vars[k].abilityId == uuids[drawn - 1]
    requires emitted != [] ==>
      && AbilityFields(env, art, t, c, x, uuids[drawn - 1], emitted[0])
      && checked.Some? && !HasFingerprint(stored, checked.value)
      && (TechniqueNumber(art.attackTech).Some? ==> checked == StoredFingerprint(emitted[0]))
    ensures StepRecords(env, uuids, stored, art, st, t, c, x, Scan(st.abilities + emitted, st.variables + vars, checked, drawn))
  {
    AppendedRecords(stored, uuids, st, emitted, vars, checked, uuids[drawn - 1], drawn);
  }

  /** StepRecords for the records one draw appends. */
  lemma DrawStepRecords(env: Env, uuids: seq<string>, stored: seq<Ability>, art: ArtFile, st: Scan, t: AtomicTest,
                        c: string, x: string, abilityId: string, drawn: nat)
    requires t.name.Some? && t.description.Some? && Draws(stored, art, st, c)
    requires Allocate(stored, uuids, st.drawn) == Some((abilityId, drawn))
    ensures StepRecords(env, uuids, stored, art, st, t, c, x,
                        Scan(st.abilities + TestAbility(env, art, t, abilityId, c, x), st.variables + TestVariables(env, t, abilityId),
                             CheckUnique(art.attackTech, c, st.checkUnique), drawn))
  {
    DrawnId(stored, uuids, st.drawn, abilityId, drawn);
    var checked := CheckUnique(art.attackTech, c, st.checkUnique);
    assert checked == CheckUnique(art.attackTech, c, checked);
    TestAbilityFields(env, art, t, abilityId, c, x, checked);
    AppendStepRecords(env, uuids, stored, art, st, t, c, x, TestAbility(env, art, t, abilityId, c, x),
                      TestVariables(env, t, abilityId), checked, drawn);
  }

  /** EmittedRecords for a test whose command is prepared. */
  lemma EmitStepFields(env: Env, uuids: seq<string>, stored: seq<Ability>, art: ArtFile, st: Scan, t: AtomicTest, c: string, x: string)
    requires t.name.Some? && t.description.Some?
    requires EmitStep(env, uuids, stored, art, st, t, c, x).Success?
    ensures StepRecords(env, uuids, stored, art, st, t, c, x, EmitStep(env, uuids, stored, art, st, t, c, x).value)
  {
    if Draws(stored, art, st, c) {
      var abilityId, drawn := DrawBranch(env, uuids, stored, art, st, t, c, x);
      DrawStepRecords(env, uuids, stored, art, st, t, c, x, abilityId, drawn);
    } else {
      NoDrawBranch(env, uuids, stored, art, st, t, c, x);
    }
  }

  /** The records one test emits, as StepRecords describes them. */
  lemma EmittedRecords(env: Env, uuids: seq<string>, stored: seq<Ability>, art: ArtFile, st: Scan, t: AtomicTest)
    requires TestStep(env, uuids, stored, art, st, t).Success?
    ensures t.name.Some? && t.description.Some? && PreparedCommand(env, t).Some?
    ensures var p := PrepareCommand(env, t.executor.value).value;
      StepRecords(env, uuids, stored, art, st, t, p.0, p.1, TestStep(env, uuids, stored, art, st, t).value)
  {
    var p := PrepareCommand(env, t.executor.value).value;
    assert TestStep(env, uuids, stored, art, st, t) == EmitStep(env, uuids, stored, art, st, t, p.0, p.1);
    EmitStepFields(env, uuids, stored, art, st, t, p.0, p.1);
  }

  /** The identifier the draw returns: the candidate at the position before `drawn`. */
  lemma DrawnId(stored: seq<Ability>, uuids: seq<string>, from: nat, abilityId: string, drawn: nat)
    requires Allocate(stored, uuids, from) == Some((abilityId, drawn))
    ensures from < drawn <= |uuids| && abilityId == uuids[drawn - 1]
    ensures Drawn(uuids, from, drawn, abilityId) && !HasId(stored, abilityId)
  {
    assert uuids[from..drawn][drawn - 1 - from] == abilityId;
  }

  /** The fields of the ability a test emits. */
  lemma TestAbilityFields(env: Env, art: ArtFile, t: AtomicTest, abilityId: string, c: string, x: string,
                          checked: Option<Fingerprint>)
    requires t.name.Some? && t.description.Some?
    requires checked == CheckUnique(art.attackTech, c, checked)
    ensures var emitted := TestAbility(env, art, t, abilityId, c, x);
      emitted != [] ==>
        && AbilityFields(env, art, t, c, x, abilityId, emitted[0])
        && (TechniqueNumber(art.attackTech).Some? ==> checked == StoredFingerprint(emitted[0]))
        && (TechniqueNumber(art.attackTech).None? ==> StoredFingerprint(emitted[0]).None?)
  {
    var emitted := TestAbility(env, art, t, abilityId, c, x);
    if emitted != [] {
      assert PyStr.ParseInt(emitted[0].technique) == TechniqueNumber(art.attackTech);
    }
  }

  /** EmitStepRecords where the test reaches the draw. */
  lemma DrawnRecords(env: Env, uuids: seq<string>, stored: seq<Ability>, art: ArtFile, st: Scan, t: AtomicTest, c: string, x: string,
                     abilityId: string, drawn: nat)
    requires t.name.Some? && t.description.Some? && Draws(stored, art, st, c)
    requires Allocate(stored, uuids, st.drawn) == Some((abilityId, drawn))
    ensures var emitted := TestAbility(env, art, t, abilityId, c, x);
      && st.drawn < drawn <= |uuids| && abilityId == uuids[drawn - 1]
      && Drawn(uuids, st.drawn, drawn, abilityId) && !HasId(stored, abilityId)
      && (emitted != [] ==> FreshAbility(stored, uuids, st.drawn, drawn, emitted[0]))
  {
    DrawnId(stored, uuids, st.drawn, abilityId, drawn);
    var checked := CheckUnique(art.attackTech, c, st.checkUnique);
    assert checked == CheckUnique(art.attackTech, c, checked);
    TestAbilityFields(env, art, t, abilityId, c, x, checked);
  }

  /** Everything one test adds is fresh against the store. */
  lemma TestStepFresh(env: Env, uuids: seq<string>, stored: seq<Ability>, art: ArtFile, st: Scan, t: AtomicTest)
    requires TestStep(env, uuids, stored, art, st, t).Success? && st.drawn <= |uuids|
    ensures FreshRecords(stored, uuids, st, TestStep(env, uuids, stored, art, st, t).value)
  {
    var p := PrepareCommand(env, t.executor.value).value;
    assert TestStep(env, uuids, stored, art, st, t) == EmitStep(env, uuids, stored, art, st, t, p.0, p.1);
    EmitStepFresh(env, uuids, stored, art, st, t, p.0, p.1);
  }

  /** A candidate drawn in a span is drawn in every span around it. */
  lemma DrawnWiden(uuids: seq<string>, from: nat, to: nat, from': nat, to': nat, id: string)
    requires Drawn(uuids, from, to, id) && from' <= from && to <= to' <= |uuids|
    ensures Drawn(uuids, from', to', id)
  {
    var i :| 0 <= i < to - from && uuids[from..to][i] == id;
    assert uuids[from'..to'][i + from - from'] == id;
  }

  /** Freshness carries over a sequence of steps. */
  lemma FreshTrans(stored: seq<Ability>, uuids: seq<string>, a: Scan, b: Scan, c: Scan)
    requires FreshRecords(stored, uuids, a, b) && FreshRecords(stored, uuids, b, c)
    ensures FreshRecords(stored, uuids, a, c)
  {
    forall k | |a.abilities| <= k < |c.abilities|
      ensures FreshAbility(stored, uuids, a.drawn, c.drawn, c.abilities[k])
    {
      if k < |b.abilities| {
        assert c.abilities[k] == b.abilities[k];
        DrawnWiden(uuids, a.drawn, b.drawn, a.drawn, c.drawn, c.abilities[k].abilityId);
      } else {
        DrawnWiden(uuids, b.drawn, c.drawn, a.drawn, c.drawn, c.abilities[k].abilityId);
      }
    }
    forall k | |a.variables| <= k < |c.variables|
      ensures Drawn(uuids, a.drawn, c.drawn, c.variables[k].abilityId)
    {
      if k < |b.variables| {
        assert c.variables[k] == b.variables[k];
        DrawnWiden(uuids, a.drawn, b.drawn, a.drawn, c.drawn, c.variables[k].abilityId);
      } else {
        DrawnWiden(uuids, b.drawn, c.drawn, a.drawn, c.drawn, c.variables[k].abilityId);
      }
    }
  }

  /** No step at all adds nothing. */
  lemma FreshRefl(stored: seq<Ability>, uuids: seq<string>, st: Scan)
    requires st.drawn <= |uuids|
    ensures FreshRecords(stored, uuids, st, st)
  {
  }

  lemma {:induction false} RunTestsFresh(env: Env, uuids: seq<string>, stored: seq<Ability>, art: ArtFile, st: Scan, tests: seq<AtomicTest>)
    requires RunTests(env, uuids, stored, art, st, tests).Success? && st.drawn <= |uuids|
    ensures FreshRecords(stored, uuids, st, RunTests(env, uuids, stored, art, st, tests).value)
    decreases |tests|
  {
    if tests == [] {
      FreshRefl(stored, uuids, st);
    } else {
      var next := TestStep(env, uuids, stored, art, st, tests[0]).value;
      TestStepFresh(env, uuids, stored, art, st, tests[0]);
      RunTestsFresh(env, uuids, stored, art, next, tests[1..]);
      FreshTrans(stored, uuids, st, next, RunTests(env, uuids, stored, art, st, tests).value);
    }
  }

  lemma {:induction false} RunFilesFresh(env: Env, uuids: seq<string>, stored: seq<Ability>, st: Scan, files: seq<CorpusFile>)
    requires RunFiles(env, uuids, stored, st, files).Success? && st.drawn <= |uuids|
    ensures FreshRecords(stored, uuids, st, RunFiles(env, uuids, stored, st, files).value)
    decreases |files|
  {
    if files == [] {
      FreshRefl(stored, uuids, st);
    } else {
      var next := FileStep(env, uuids, stored, st, files[0]).value;
      if PyStr.IsYamlPath(files[0].0) && Load(env, files[0]).Some? {
        var art := Load(env, files[0]).value;
        RunTestsFresh(env, uuids, stored, art, st, art.atomicTests);
      } else {
        FreshRefl(stored, uuids, st);
      }
      RunFilesFresh(env, uuids, stored, next, files[1..]);
      FreshTrans(stored, uuids, st, next, RunFiles(env, uuids, stored, st, files).value);
    }
  }

  /**
   * A run that succeeds emits only abilities whose identifier the store does not use and whose
   * fingerprint (when the technique is a number) the store does not hold, and only variables
   * whose identifier the store does not use.
   */
  lemma RunFresh(env: Env, uuids: seq<string>, stored: seq<Ability>, artpathExists: bool, files: seq<CorpusFile>)
    requires GetAtomicsSpec(env, uuids, stored, artpathExists, files).Success?
    ensures var r := GetAtomicsSpec(env, uuids, stored, artpathExists, files).value;
      && (forall k :: 0 <= k < |r.abilities| ==>
            r.abilities[k].abilityId in uuids && !HasId(stored, r.abilities[k].abilityId)
            && (StoredFingerprint(r.abilities[k]).Some? ==> !HasFingerprint(stored, StoredFingerprint(r.abilities[k]).value)))
      && (forall k :: 0 <= k < |r.variables| ==>
            r.variables[k].abilityId in uuids && !HasId(stored, r.variables[k].abilityId))
  {
    if artpathExists {
      RunFilesFresh(env, uuids, stored, Start, files);
      var fin := RunFiles(env, uuids, stored, Start, files).value;
      forall k | 0 <= k < |fin.abilities| ensures fin.abilities[k].abilityId in uuids {
        assert Drawn(uuids, 0, fin.drawn, fin.abilities[k].abilityId);
      }
      forall k | 0 <= k < |fin.variables| ensures fin.variables[k].abilityId in uuids {
        assert Drawn(uuids, 0, fin.drawn, fin.variables[k].abilityId);
      }
    }
  }

  // ---------------------------------------------------------------------------------------
  // Where each ability comes from

  /** `a` is the ability test `t` of file `art` yields: the test has its keys and a prepared
      command, and `a` carries that test's fields. */
  predicate FromTest(env: Env, art: ArtFile, t: AtomicTest, a: Ability)
  {
    && t.name.Some? && t.description.Some? && t.executor.Some?
    && PrepareCommand(env, t.executor.value).Success?
    && var p := PrepareCommand(env, t.executor.value).value;
       AbilityFields(env, art, t, p.0, p.1, a.abilityId, a)
  }

  /** `a` comes from one of the tests `tests` of file `art`. */
  predicate FromTests(env: Env, art: ArtFile, tests: seq<AtomicTest>, a: Ability)
  {
    exists j :: 0 <= j < |tests| && FromTest(env, art, tests[j], a)
  }

  /** `a` comes from a test of a walked `.yaml` file that loads. */
  predicate FromFile(env: Env, file: CorpusFile, a: Ability)
  {
    PyStr.IsYamlPath(file.0) && Load(env, file).Some?
    && FromTests(env, Load(env, file).value, Load(env, file).value.atomicTests, a)
  }

  /** `a` comes from one of the walked files. */
  predicate FromFiles(env: Env, files: seq<CorpusFile>, a: Ability)
  {
    exists i :: 0 <= i < |files| && FromFile(env, files[i], a)
  }

  /** Every ability one test adds carries that test's fields. */
  lemma TestStepOrigin(env: Env, uuids: seq<string>, stored: seq<Ability>, art: ArtFile, st: Scan, t: AtomicTest)
    requires TestStep(env, uuids, stored, art, st, t).Success?
    ensures var next := TestStep(env, uuids, stored, art, st, t).value;
      && st.abilities <= next.abilities
      && forall k :: |st.abilities| <= k < |next.abilities| ==> FromTest(env, art, t, next.abilities[k])
  {
    var next := TestStep(env, uuids, stored, art, st, t).value;
    assert st.abilities <= next.abilities && |next.abilities| <= |st.abilities| + 1 by {
      EmitCondition(env, uuids, stored, art, st, t);
    }
    assert |next.abilities| > |st.abilities| ==> FromTest(env, art, t, next.abilities[|st.abilities|]) by {
      EmittedRecords(env, uuids, stored, art, st, t);
    }
    AtMostOneOrigin(env, art, t, st.abilities, next.abilities);
  }

  /** A run of abilities that grows by at most one, from `t`, has all its new abilities from `t`. */
  lemma AtMostOneOrigin(env: Env, art: ArtFile, t: AtomicTest, before: seq<Ability>, after: seq<Ability>)
    requires before <= after && |after| <= |before| + 1
    requires |after| > |before| ==> FromTest(env, art, t, after[|before|])
    ensures forall k :: |before| <= k < |after| ==> FromTest(env, art, t, after[k])
  {
  }

  /** Every ability a run over tests adds comes from one of them. */
  lemma {:induction false} RunTestsOrigin(env: Env, uuids: seq<string>, stored: seq<Ability>, art: ArtFile, st: Scan,
                                          tests: seq<AtomicTest>)
    requires RunTests(env, uuids, stored, art, st, tests).Success?
    ensures var next := RunTests(env, uuids, stored, art, st, tests).value;
      && st.abilities <= next.abilities
      && forall k :: |st.abilities| <= k < |next.abilities| ==> FromTests(env, art, tests, next.abilities[k])
    decreases |tests|
  {
    if tests != [] {
      var mid := TestStep(env, uuids, stored, art, st, tests[0]).value;
      TestStepOrigin(env, uuids, stored, art, st, tests[0]);
      RunTestsOrigin(env, uuids, stored, art, mid, tests[1..]);
      var next := RunTests(env, uuids, stored, art, st, tests).value;
      forall k | |st.abilities| <= k < |next.abilities| ensures FromTests(env, art, tests, next.abilities[k]) {
        if k < |mid.abilities| {
          assert next.abilities[k] == mid.abilities[k];
          assert FromTest(env, art, tests[0], next.abilities[k]);
        } else {
          var j :| 0 <= j < |tests[1..]| && FromTest(env, art, tests[1..][j], next.abilities[k]);
          assert tests[1..][j] == tests[j + 1];
        }
      }
    }
  }

  /** Every ability one file adds comes from a test of that file. */
  lemma FileStepOrigin(env: Env, uuids: seq<string>, stored: seq<Ability>, st: Scan, file: CorpusFile)
    requires FileStep(env, uuids, stored, st, file).Success?
    ensures var next := FileStep(env, uuids, stored, st, file).value;
      && st.abilities <= next.abilities
      && forall k :: |st.abilities| <= k < |next.abilities| ==> FromFile(env, file, next.abilities[k])
  {
    if PyStr.IsYamlPath(file.0) && Load(env, file).Some? {
      var art := Load(env, file).value;
      RunTestsOrigin(env, uuids, stored, art, st, art.atomicTests);
    }
  }

  /** Every ability a run over files adds comes from one of them. */
  lemma {:induction false} RunFilesOrigin(env: Env, uuids: seq<string>, stored: seq<Ability>, st: Scan, files: seq<CorpusFile>)
    requires RunFiles(env, uuids, stored, st, files).Success?
    ensures var next := RunFiles(env, uuids, stored, st, files).value;
      && st.abilities <= next.abilities
      && forall k :: |st.abilities| <= k < |next.abilities| ==> FromFiles(env, files, next.abilities[k])
    decreases |files|
  {
    if files != [] {
      var mid := FileStep(env, uuids, stored, st, files[0]).value;
      FileStepOrigin(env, uuids, stored, st, files[0]);
      RunFilesOrigin(env, uuids, stored, mid, files[1..]);
      var next := RunFiles(env, uuids, stored, st, files).value;
      forall k | |st.abilities| <= k < |next.abilities| ensures FromFiles(env, files, next.abilities[k]) {
        if k < |mid.abilities| {
          assert next.abilities[k] == mid.abilities[k];
          assert FromFile(env, files[0], next.abilities[k]);
        } else {
          var i :| 0 <= i < |files[1..]| && FromFile(env, files[1..][i], next.abilities[k]);
          assert files[1..][i] == files[i + 1];
        }
      }
    }
  }

  /** Every ability `get_atomics()` returns carries the fields of a test of a walked `.yaml`
      file: that file's technique and display name, the tactic the knowledge base gives it,
      the test's name, description and executor name, and its encoded prepared command. */
  lemma RunOrigin(env: Env, uuids: seq<string>, stored: seq<Ability>, artpathExists: bool, files: seq<CorpusFile>)
    requires GetAtomicsSpec(env, uuids, stored, artpathExists, files).Success?
    ensures var r := GetAtomicsSpec(env, uuids, stored, artpathExists, files).value;
      forall k :: 0 <= k < |r.abilities| ==> FromFiles(env, files, r.abilities[k])
  {
    if artpathExists {
      RunFilesOrigin(env, uuids, stored, Start, files);
    }
  }

  // ---------------------------------------------------------------------------------------
  // Identifiers within one run

  predicate DistinctCandidates(uuids: seq<string>)
  {
    forall i, j :: 0 <= i < j < |uuids| ==> uuids[i] != uuids[j]
  }

  /** The abilities so far carry pairwise distinct identifiers, all drawn before `st.drawn`. */
  predicate IdsDrawn(uuids: seq<string>, st: Scan)
  {
    && st.drawn <= |uuids|
    && (forall k :: 0 <= k < |st.abilities| ==> Drawn(uuids, 0, st.drawn, st.abilities[k].abilityId))
    && (forall i, j :: 0 <= i < j < |st.abilities| ==> st.abilities[i].abilityId != st.abilities[j].abilityId)
  }

  /** Candidates from disjoint spans of a duplicate-free sequence differ. */
  lemma DisjointSpans(uuids: seq<string>, d: nat, e: nat, x: string, y: string)
    requires DistinctCandidates(uuids) && Drawn(uuids, 0, d, x) && Drawn(uuids, d, e, y)
    ensures x != y
  {
    var i :| 0 <= i < d && uuids[0..d][i] == x;
    var j :| 0 <= j < e - d && uuids[d..e][j] == y;
    assert uuids[i] == x && uuids[d + j] == y;
  }

  lemma TestStepIds(env: Env, uuids: seq<string>, stored: seq<Ability>, art: ArtFile, st: Scan, t: AtomicTest)
    requires DistinctCandidates(uuids) && IdsDrawn(uuids, st)
    requires TestStep(env, uuids, stored, art, st, t).Success?
    ensures IdsDrawn(uuids, TestStep(env, uuids, stored, art, st, t).value)
  {
    var next := TestStep(env, uuids, stored, art, st, t).value;
    TestStepFresh(env, uuids, stored, art, st, t);
    EmitCondition(env, uuids, stored, art, st, t);
    var n := |st.abilities|;
    forall k | 0 <= k < |next.abilities|
      ensures Drawn(uuids, 0, next.drawn, next.abilities[k].abilityId)
    {
      if k < n {
        assert next.abilities[k] == st.abilities[k];
        DrawnWiden(uuids, 0, st.drawn, 0, next.drawn, next.abilities[k].abilityId);
      } else {
        DrawnWiden(uuids, st.drawn, next.drawn, 0, next.drawn, next.abilities[k].abilityId);
      }
    }
    forall i, j | 0 <= i < j < |next.abilities|
      ensures next.abilities[i].abilityId != next.abilities[j].abilityId
    {
      assert next.abilities[i] == st.abilities[i];
      if j < n {
        assert next.abilities[j] == st.abilities[j];
      } else {
        DisjointSpans(uuids, st.drawn, next.drawn, next.abilities[i].abilityId, next.abilities[j].abilityId);
      }
    }
  }

  lemma {:induction false} RunTestsIds(env: Env, uuids: seq<string>, stored: seq<Ability>, art: ArtFile, st: Scan, tests: seq<AtomicTest>)
    requires DistinctCandidates(uuids) && IdsDrawn(uuids, st)
    requires RunTests(env, uuids, stored, art, st, tests).Success?
    ensures IdsDrawn(uuids, RunTests(env, uuids, stored, art, st, tests).value)
    decreases |tests|
  {
    if tests != [] {
      TestStepIds(env, uuids, stored, art, st, tests[0]);
      RunTestsIds(env, uuids, stored, art, TestStep(env, uuids, stored, art, st, tests[0]).value, tests[1..]);
    }
  }

  lemma {:induction false} RunFilesIds(env: Env, uuids: seq<string>, stored: seq<Ability>, st: Scan, files: seq<CorpusFile>)
    requires DistinctCandidates(uuids) && IdsDrawn(uuids, st)
    requires RunFiles(env, uuids, stored, st, files).Success?
    ensures IdsDrawn(uuids, RunFiles(env, uuids, stored, st, files).value)
    decreases |files|
  {
    if files != [] {
      if PyStr.IsYamlPath(files[0].0) && Load(env, files[0]).Some? {
        var art := Load(env, files[0]).value;
        RunTestsIds(env, uuids, stored, art, st, art.atomicTests);
      }
      RunFilesIds(env, uuids, stored, FileStep(env, uuids, stored, st, files[0]).value, files[1..]);
    }
  }

  /** When the candidates are pairwise distinct, so are the identifiers of the emitted abilities
      (the run itself never compares them with each other). */
  lemma RunDistinctIds(env: Env, uuids: seq<string>, stored: seq<Ability>, artpathExists: bool, files: seq<CorpusFile>)
    requires DistinctCandidates(uuids)
    requires GetAtomicsSpec(env, uuids, stored, artpathExists, files).Success?
    ensures var r := GetAtomicsSpec(env, uuids, stored, artpathExists, files).value;
      forall i, j :: 0 <= i < j < |r.abilities| ==> r.abilities[i].abilityId != r.abilities[j].abilityId
  {
    if artpathExists {
      RunFilesIds(env, uuids, stored, Start, files);
    }
  }

  // ---------------------------------------------------------------------------------------
  // Argument variables

  /** The variables of two runs of arguments are those of each, in order. */
  lemma {:induction false} ArgumentVariablesAppend(env: Env, abilityId: string, a: seq<(string, Option<string>)>,
                                                   b: seq<(string, Option<string>)>)
    ensures ArgumentVariables(env, abilityId, a + b)
            == ArgumentVariables(env, abilityId, a) + ArgumentVariables(env, abilityId, b)
    decreases |b|
  {
    if b == [] {
      assert a + b == a;
    } else {
      var m := |b| - 1;
      assert (a + b)[..|a + b| - 1] == a + b[..m];
      ArgumentVariablesAppend(env, abilityId, a, b[..m]);
    }
  }

  /** An argument whose processing raises (no `default`, or a default whose text is empty so
      that `curVar[0]` raises) is skipped alone: the arguments around it keep their variables. */
  lemma ArgumentSkippedAlone(env: Env, abilityId: string, before: seq<(string, Option<string>)>,
                             bad: (string, Option<string>), after: seq<(string, Option<string>)>)
    requires bad.1.None? || Normalize.Repair(env.repr(bad.1.value)) == []
    ensures ArgumentVariables(env, abilityId, before + [bad] + after)
            == ArgumentVariables(env, abilityId, before) + ArgumentVariables(env, abilityId, after)
  {
    ArgumentSkipped(env, abilityId, before, bad);
    ArgumentVariablesAppend(env, abilityId, before + [bad], after);
  }

  lemma ArgumentSkipped(env: Env, abilityId: string, before: seq<(string, Option<string>)>, bad: (string, Option<string>))
    requires bad.1.None? || Normalize.Repair(env.repr(bad.1.value)) == []
    ensures ArgumentVariables(env, abilityId, before + [bad]) == ArgumentVariables(env, abilityId, before)
  {
    var args := before + [bad];
    assert ArgumentVariable(env, abilityId, bad) == [];
    assert args[..|before| + 1] == args && args[..|before|] == before;
    ArgumentVariablesSnoc(env, abilityId, args, |before|);
  }

  /** An argument with a default whose text is not empty yields its variable: its name and the
      encoded normalised default, under the test's identifier. */
  lemma ArgumentKept(env: Env, abilityId: string, before: seq<(string, Option<string>)>,
                     arg: (string, Option<string>))
    requires arg.1.Some? && Normalize.Repair(env.repr(arg.1.value)) != []
    ensures var value := Normalize.VariableText(env.repr(arg.1.value));
      && value.Some?
      && ArgumentVariables(env, abilityId, before + [arg])
         == ArgumentVariables(env, abilityId, before) + [Variable(abilityId, arg.0, Base64.EncodeText(value.value))]
  {
    var args := before + [arg];
    assert args[..|before| + 1] == args && args[..|before|] == before;
    ArgumentVariablesSnoc(env, abilityId, args, |before|);
    KeptVariable(env, abilityId, arg);
  }

  lemma KeptVariable(env: Env, abilityId: string, arg: (string, Option<string>))
    requires arg.1.Some? && Normalize.Repair(env.repr(arg.1.value)) != []
    ensures var value := Normalize.VariableText(env.repr(arg.1.value));
      value.Some? && ArgumentVariable(env, abilityId, arg) == [Variable(abilityId, arg.0, Base64.EncodeText(value.value))]
  {
  }

  // ---------------------------------------------------------------------------------------
  // The scan over files

  /** Scanning two runs of files is scanning the first, then the second from where it ended. */
  lemma {:induction false} RunFilesAppend(env: Env, uuids: seq<string>, stored: seq<Ability>, st: Scan,
                                          f1: seq<CorpusFile>, f2: seq<CorpusFile>)
    ensures RunFiles(env, uuids, stored, st, f1 + f2)
            == match RunFiles(env, uuids, stored, st, f1)
               case Failure(e) => Failure(e)
               case Success(mid) => RunFiles(env, uuids, stored, mid, f2)
    decreases |f1|
  {
    if f1 == [] {
      assert f1 + f2 == f2;
    } else {
      assert (f1 + f2)[0] == f1[0] && (f1 + f2)[1..] == f1[1..] + f2;
      match FileStep(env, uuids, stored, st, f1[0])
      case Failure(e) =>
      case Success(next) => RunFilesAppend(env, uuids, stored, next, f1[1..], f2);
    }
  }

  /** A file that is not `.yaml`, or that does not load, does not change the result. */
  lemma SkippedFile(env: Env, uuids: seq<string>, stored: seq<Ability>, st: Scan, before: seq<CorpusFile>,
                    file: CorpusFile, after: seq<CorpusFile>)
    requires !PyStr.IsYamlPath(file.0) || (file.1.Some? && Load(env, file).None?)
    ensures RunFiles(env, uuids, stored, st, before + [file] + after) == RunFiles(env, uuids, stored, st, before + after)
  {
    RunFilesAppend(env, uuids, stored, st, before + [file], after);
    RunFilesAppend(env, uuids, stored, st, before, [file]);
    RunFilesAppend(env, uuids, stored, st, before, after);
    match RunFiles(env, uuids, stored, st, before)
    case Failure(e) =>
    case Success(mid) =>
      assert [file][1..] == [];
      assert RunFiles(env, uuids, stored, mid, [file]) == Success(mid);
  }

  /** A `.yaml` file that does not open aborts the whole scan once the scan reaches it,
      whatever follows, and `get_atomics()` then yields no records at all. */
  lemma UnreadableYamlAborts(env: Env, uuids: seq<string>, stored: seq<Ability>, before: seq<CorpusFile>,
                             file: CorpusFile, after: seq<CorpusFile>)
    requires PyStr.IsYamlPath(file.0) && file.1.None?
    requires RunFiles(env, uuids, stored, Start, before).Success?
    ensures GetAtomicsSpec(env, uuids, stored, true, before + [file] + after) == Failure(Unreadable)
  {
    RunFilesAppend(env, uuids, stored, Start, before + [file], after);
    RunFilesAppend(env, uuids, stored, Start, before, [file]);
  }

  /** Without the corpus root the result is empty, whatever the files. */
  lemma MissingRoot(env: Env, uuids: seq<string>, stored: seq<Ability>, files: seq<CorpusFile>)
    ensures GetAtomicsSpec(env, uuids, stored, false, files) == Success(Atomics([], []))
  {
  }

  /** Only `.yaml` files that load contribute: a corpus of other files yields nothing. */
  lemma {:induction false} NoYamlNoRecords(env: Env, uuids: seq<string>, stored: seq<Ability>, st: Scan, files: seq<CorpusFile>)
    requires forall k :: 0 <= k < |files| ==> !PyStr.IsYamlPath(files[k].0) || (files[k].1.Some? && Load(env, files[k]).None?)
    ensures RunFiles(env, uuids, stored, st, files) == Success(st)
    decreases |files|
  {
    if files != [] {
      NoYamlNoRecords(env, uuids, stored, st, files[1..]);
    }
  }

  /** The fingerprint a test checks: for a numeric technique, that number and an encoding
      that decodes back to the command's UTF-8 bytes; otherwise the one checked before. */
  lemma CheckUniqueFingerprint(attackTech: string, command: string, previous: Option<Fingerprint>)
    ensures TechniqueNumber(attackTech).Some? ==>
              CheckUnique(attackTech, command, previous).Some?
              && CheckUnique(attackTech, command, previous).value.technique == TechniqueNumber(attackTech).value
              && Base64.Decode(CheckUnique(attackTech, command, previous).value.command) == Some(Utf8.Encode(command))
    ensures TechniqueNumber(attackTech).None? ==> CheckUnique(attackTech, command, previous) == previous
  {
    Base64.DecodeEncodeText(command);
  }

  /** Two tests of the same technique share a fingerprint exactly when their normalised
      commands are equal. */
  lemma FingerprintDistinguishesCommands(attackTech: string, c1: string, c2: string, previous: Option<Fingerprint>)
    requires TechniqueNumber(attackTech).Some?
    ensures CheckUnique(attackTech, c1, previous) == CheckUnique(attackTech, c2, previous) <==> c1 == c2
  {
    Base64.EncodeTextInjective(c1, c2);
  }

  // ---------------------------------------------------------------------------------------
  // Importing the same corpus again

  /** Every ability of `small` is one of `big`. */
  predicate Includes(big: seq<Ability>, small: seq<Ability>)
  {
    forall k :: 0 <= k < |small| ==> small[k] in big
  }

  lemma InHasFingerprint(stored: seq<Ability>, a: Ability, fp: Fingerprint)
    requires a in stored && StoredFingerprint(a) == Some(fp)
    ensures HasFingerprint(stored, fp)
  {
    var j :| 0 <= j < |stored| && stored[j] == a;
  }

  lemma IncludesFingerprint(big: seq<Ability>, small: seq<Ability>, fp: Fingerprint)
    requires Includes(big, small) && HasFingerprint(small, fp)
    ensures HasFingerprint(big, fp)
  {
    var i :| 0 <= i < |small| && StoredFingerprint(small[i]) == Some(fp);
    InHasFingerprint(big, small[i], fp);
  }

  /** A test that a store `covers` cannot add an ability against it: its command is empty, its
      tactic lookup raises, or the store holds its fingerprint. */
  predicate TestCovered(env: Env, stored: seq<Ability>, art: ArtFile, t: AtomicTest)
  {
    PreparedCommand(env, t).Some? ==>
      var c := PreparedCommand(env, t).value;
      || c == []
      || Mitre.GetMitrePhase(env.cti, art.attackTech).None?
      || (TechniqueNumber(art.attackTech).Some?
          && HasFingerprint(stored, Fingerprint(TechniqueNumber(art.attackTech).value, Base64.EncodeText(c))))
  }

  predicate TestsCovered(env: Env, stored: seq<Ability>, art: ArtFile)
  {
    forall k :: 0 <= k < |art.atomicTests| ==> TestCovered(env, stored, art, art.atomicTests[k])
  }

  predicate FileCovered(env: Env, stored: seq<Ability>, file: CorpusFile)
  {
    PyStr.IsYamlPath(file.0) && Load(env, file).Some? ==> TestsCovered(env, stored, Load(env, file).value)
  }

  /** The file's technique id is `T` followed by a number, so `int(attackTech[1:])` succeeds. */
  predicate NumericTechnique(env: Env, file: CorpusFile)
  {
    PyStr.IsYamlPath(file.0) && Load(env, file).Some? ==> TechniqueNumber(Load(env, file).value.attackTech).Some?
  }

  lemma {:induction false} RunTestsGrows(env: Env, uuids: seq<string>, stored: seq<Ability>, art: ArtFile, st: Scan, tests: seq<AtomicTest>)
    requires RunTests(env, uuids, stored, art, st, tests).Success?
    ensures st.abilities <= RunTests(env, uuids, stored, art, st, tests).value.abilities
    decreases |tests|
  {
    if tests != [] {
      EmitCondition(env, uuids, stored, art, st, tests[0]);
      RunTestsGrows(env, uuids, stored, art, TestStep(env, uuids, stored, art, st, tests[0]).value, tests[1..]);
    }
  }

  lemma {:induction false} RunFilesGrows(env: Env, uuids: seq<string>, stored: seq<Ability>, st: Scan, files: seq<CorpusFile>)
    requires RunFiles(env, uuids, stored, st, files).Success?
    ensures st.abilities <= RunFiles(env, uuids, stored, st, files).value.abilities
    decreases |files|
  {
    if files != [] {
      if PyStr.IsYamlPath(files[0].0) && Load(env, files[0]).Some? {
        var art := Load(env, files[0]).value;
        RunTestsGrows(env, uuids, stored, art, st, art.atomicTests);
      }
      RunFilesGrows(env, uuids, stored, FileStep(env, uuids, stored, st, files[0]).value, files[1..]);
    }
  }

  /** A test of a numbered technique that a run got through is covered by any store that holds
      the run's store and everything the run emitted up to that test. */
  lemma CoverStep(env: Env, uuids: seq<string>, stored: seq<Ability>, again: seq<Ability>, art: ArtFile, st: Scan, t: AtomicTest)
    requires TestStep(env, uuids, stored, art, st, t).Success? && TechniqueNumber(art.attackTech).Some?
    requires Includes(again, stored) && Includes(again, TestStep(env, uuids, stored, art, st, t).value.abilities)
    ensures TestCovered(env, again, art, t)
  {
    var next := TestStep(env, uuids, stored, art, st, t).value;
    EmitCondition(env, uuids, stored, art, st, t);
    var c := PreparedCommand(env, t).value;
    if c != [] && Mitre.GetMitrePhase(env.cti, art.attackTech).Some? {
      var fp := Fingerprint(TechniqueNumber(art.attackTech).value, Base64.EncodeText(c));
      assert CheckUnique(art.attackTech, c, st.checkUnique) == Some(fp);
      if HasFingerprint(stored, fp) {
        IncludesFingerprint(again, stored, fp);
      } else {
        EmittedRecords(env, uuids, stored, art, st, t);
        var a := next.abilities[|st.abilities|];
        InHasFingerprint(again, a, fp);
      }
    }
  }

  lemma {:induction false} RunTestsCover(env: Env, uuids: seq<string>, stored: seq<Ability>, again: seq<Ability>, art: ArtFile,
                                         st: Scan, tests: seq<AtomicTest>)
    requires RunTests(env, uuids, stored, art, st, tests).Success? && TechniqueNumber(art.attackTech).Some?
    requires Includes(again, stored) && Includes(again, RunTests(env, uuids, stored, art, st, tests).value.abilities)
    ensures forall k :: 0 <= k < |tests| ==> TestCovered(env, again, art, tests[k])
    decreases |tests|
  {
    if tests != [] {
      var next := TestStep(env, uuids, stored, art, st, tests[0]).value;
      var fin := RunTests(env, uuids, stored, art, st, tests).value;
      RunTestsGrows(env, uuids, stored, art, next, tests[1..]);
      assert forall k :: 0 <= k < |next.abilities| ==> next.abilities[k] == fin.abilities[k];
      CoverStep(env, uuids, stored, again, art, st, tests[0]);
      RunTestsCover(env, uuids, stored, again, art, next, tests[1..]);
      assert forall k :: 1 <= k < |tests| ==> tests[k] == tests[1..][k - 1];
    }
  }

  lemma PrefixIncluded(big: seq<Ability>, small: seq<Ability>, longer: seq<Ability>)
    requires small <= longer && Includes(big, longer)
    ensures Includes(big, small)
  {
    assert forall k :: 0 <= k < |small| ==> small[k] == longer[k];
  }

  /** One file's tests are covered once the abilities it adds are all in `again`. */
  lemma FileStepCover(env: Env, uuids: seq<string>, stored: seq<Ability>, again: seq<Ability>, st: Scan, file: CorpusFile)
    requires FileStep(env, uuids, stored, st, file).Success? && NumericTechnique(env, file)
    requires Includes(again, stored) && Includes(again, FileStep(env, uuids, stored, st, file).value.abilities)
    ensures FileCovered(env, again, file)
  {
    if PyStr.IsYamlPath(file.0) && Load(env, file).Some? {
      var art := Load(env, file).value;
      RunTestsCover(env, uuids, stored, again, art, st, art.atomicTests);
    }
  }

  lemma {:induction false} RunFilesCover(env: Env, uuids: seq<string>, stored: seq<Ability>, again: seq<Ability>, st: Scan,
                                         files: seq<CorpusFile>)
    requires RunFiles(env, uuids, stored, st, files).Success?
    requires forall i :: 0 <= i < |files| ==> NumericTechnique(env, files[i])
    requires Includes(again, stored) && Includes(again, RunFiles(env, uuids, stored, st, files).value.abilities)
    ensures forall i :: 0 <= i < |files| ==> FileCovered(env, again, files[i])
    decreases |files|
  {
    if files != [] {
      var next := FileStep(env, uuids, stored, st, files[0]).value;
      RunFilesGrows(env, uuids, stored, next, files[1..]);
      PrefixIncluded(again, next.abilities, RunFiles(env, uuids, stored, next, files[1..]).value.abilities);
      FileStepCover(env, uuids, stored, again, st, files[0]);
      assert forall i :: 1 <= i < |files| ==> files[i] == files[1..][i - 1];
      RunFilesCover(env, uuids, stored, again, next, files[1..]);
    }
  }

  /** A covered test of a numbered technique adds no ability. */
  lemma CoveredStepAddsNone(env: Env, uuids: seq<string>, stored: seq<Ability>, art: ArtFile, st: Scan, t: AtomicTest)
    requires TestCovered(env, stored, art, t) && TechniqueNumber(art.attackTech).Some?
    requires TestStep(env, uuids, stored, art, st, t).Success?
    ensures TestStep(env, uuids, stored, art, st, t).value.abilities == st.abilities
  {
    EmitCondition(env, uuids, stored, art, st, t);
    var c := PreparedCommand(env, t).value;
    if c != [] {
      assert CheckUnique(art.attackTech, c, st.checkUnique)
             == Some(Fingerprint(TechniqueNumber(art.attackTech).value, Base64.EncodeText(c)));
    }
  }

  lemma {:induction false} RunTestsAddsNone(env: Env, uuids: seq<string>, stored: seq<Ability>, art: ArtFile, st: Scan, tests: seq<AtomicTest>)
    requires TechniqueNumber(art.attackTech).Some?
    requires forall k :: 0 <= k < |tests| ==> TestCovered(env, stored, art, tests[k])
    requires RunTests(env, uuids, stored, art, st, tests).Success?
    ensures RunTests(env, uuids, stored, art, st, tests).value.abilities == st.abilities
    decreases |tests|
  {
    if tests != [] {
      CoveredStepAddsNone(env, uuids, stored, art, st, tests[0]);
      assert forall k :: 0 <= k < |tests| - 1 ==> tests[1..][k] == tests[k + 1];
      RunTestsAddsNone(env, uuids, stored, art, TestStep(env, uuids, stored, art, st, tests[0]).value, tests[1..]);
    }
  }

  lemma FileStepAddsNone(env: Env, uuids: seq<string>, stored: seq<Ability>, st: Scan, file: CorpusFile)
    requires NumericTechnique(env, file) && FileCovered(env, stored, file)
    requires FileStep(env, uuids, stored, st, file).Success?
    ensures FileStep(env, uuids, stored, st, file).value.abilities == st.abilities
  {
    if PyStr.IsYamlPath(file.0) && Load(env, file).Some? {
      var art := Load(env, file).value;
      RunTestsAddsNone(env, uuids, stored, art, st, art.atomicTests);
    }
  }

  lemma {:induction false} RunFilesAddsNone(env: Env, uuids: seq<string>, stored: seq<Ability>, st: Scan, files: seq<CorpusFile>)
    requires forall i :: 0 <= i < |files| ==> NumericTechnique(env, files[i]) && FileCovered(env, stored, files[i])
    requires RunFiles(env, uuids, stored, st, files).Success?
    ensures RunFiles(env, uuids, stored, st, files).value.abilities == st.abilities
    decreases |files|
  {
    if files != [] {
      FileStepAddsNone(env, uuids, stored, st, files[0]);
      assert forall i :: 0 <= i < |files| - 1 ==> files[1..][i] == files[i + 1];
      RunFilesAddsNone(env, uuids, stored, FileStep(env, uuids, stored, st, files[0]).value, files[1..]);
    }
  }

  /**
   * Importing is idempotent on abilities: when every loaded file's technique is numbered, a
   * second run over the same corpus against the store the first import left (the old records
   * plus the first run's abilities), with any candidates, adds no ability if it succeeds.
   */
  lemma ReimportAddsNoAbility(env: Env, uuids: seq<string>, uuids': seq<string>, stored: seq<Ability>,
                              artpathExists: bool, files: seq<CorpusFile>)
    requires forall i :: 0 <= i < |files| ==> NumericTechnique(env, files[i])
    requires GetAtomicsSpec(env, uuids, stored, artpathExists, files).Success?
    requires GetAtomicsSpec(env, uuids', stored + GetAtomicsSpec(env, uuids, stored, artpathExists, files).value.abilities,
                            artpathExists, files).Success?
    ensures GetAtomicsSpec(env, uuids', stored + GetAtomicsSpec(env, uuids, stored, artpathExists, files).value.abilities,
                           artpathExists, files).value.abilities == []
  {
    if artpathExists {
      var first := GetAtomicsSpec(env, uuids, stored, artpathExists, files).value;
      var again := stored + first.abilities;
      assert Includes(again, stored) by {
        assert forall k :: 0 <= k < |stored| ==> again[k] == stored[k];
      }
      assert Includes(again, first.abilities) by {
        assert forall k :: 0 <= k < |first.abilities| ==> again[|stored| + k] == first.abilities[k];
      }
      RunFilesCover(env, uuids, stored, again, Start, files);
      RunFilesAddsNone(env, uuids', again, Start, files);
    }
  }
}
