# Atomic Caldera ingestion, modelled in Dafny

This project models the ingestion core of the Atomic Caldera plugin, `app/atomic_caldera.py`.
`get_atomics` walks a corpus of Atomic Red Team YAML files. For each test in them it:

- normalises the executor's command (the `x07` repair on its `repr`, a whitespace strip, a
  `unicode_escape` round and a quote strip);
- checks the fingerprint `(int(attackTech[1:]), base64(command))` against the ability store;
- draws a fresh `ability_id` from `uuid4` until the store reports it unused;
- resolves the technique's tactic through the ATT&CK knowledge base;
- emits an ability record and one variable record per input argument.

`import_art_abilities` commits the emitted records to the store one at a time. `landing` lists
the stored tactics in first-seen order. `rest_api` dispatches on a (method, index) table.

The model's modules:

- `Ingest` states the run as a function of its inputs: the library behaviour (`Env`), the
  drawing order of identifiers (`uuids`), the store snapshot and the (path, content) pairs.
  The run is a fold over files and tests (`RunFiles`, `RunTests`, `TestStep`, `EmitStep`).
- `AtomicCaldera` is the imperative rendering. It has the nested loops, the `while(uuidBool)`
  retry loop and the commit loops over a `DataStore.Store` object. Each method's `ensures`
  ties it to the corresponding `Ingest` function or updated store state.
- `IngestProperties` proves what the run guarantees:
  - the exact condition under which a test adds an ability;
  - the fields of the records it adds, and the test each returned ability comes from;
  - freshness of every identifier and fingerprint against the store;
  - distinct identifiers when the candidates are distinct;
  - argument-level skipping;
  - file-level skipping and composition;
  - that importing the same corpus again adds no ability.
- `Normalize` and `PyStr` model the text operations with Python's semantics: `str.strip`,
  `re.sub`, `int()` and `os.path.splitext`.
- `Base64` (section 4 of RFC 4648) and `Utf8` are concrete, with round-trip and injectivity
  proofs. From these, two commands of one technique share a fingerprint exactly when they are
  equal.
- `Mitre` models the stix query and `getMITREPhase`.
- `Tactics` models the landing tactic list.
- `RestApi` models the dispatch table.

The library calls the code makes are parameters of type `Ingest.Env`: Python `repr`, the
`encode('utf-8').decode('unicode_escape')` round, `ARTyaml.load` and the stix file source. The
`unicode_escape` round and `ARTyaml.load` give `None` where they raise. `repr` is total on
strings. A stix query that raises is not modelled. The identifiers `uuid.uuid4()` returns are the
`uuids` sequence, in drawing order.

## Model

| member | source | states |
|---|---|---|
| Ingest.Allocate | app/atomic_caldera.py:111-115 | the identifier drawn is the first candidate from the current position that no stored ability uses; every candidate skipped is taken; none is returned only when all remaining are taken |
| AtomicCaldera.AllocateAbilityId | app/atomic_caldera.py:111-115 | the retry loop, querying the store each time, returns what `Allocate` specifies |
| Ingest.ArgumentVariable | app/atomic_caldera.py:132-142 | one argument yields at most one variable |
| Ingest.ArgumentVariables | app/atomic_caldera.py:131-142 | at most one variable per argument, every one under the given ability id |
| Ingest.ArgumentVariablesSnoc | app/atomic_caldera.py:131-142 | one more argument adds its own variable (if any) at the end |
| AtomicCaldera.ArgumentsToVariables | app/atomic_caldera.py:131-142 | the argument loop with its per-argument `try` computes `ArgumentVariables` |
| AtomicCaldera.NormalizeCommand | app/atomic_caldera.py:90-100 | the command normalisation, with its three raising cases and the empty result without a `command` key, computes `PrepareCommand` |
| Ingest.TestAbility | app/atomic_caldera.py:117-128 | a test yields at most one ability |
| Ingest.TestVariables | app/atomic_caldera.py:130-142 | every variable of a test carries the given ability id |
| Ingest.NewAbility | app/atomic_caldera.py:119-126 | the ability record; its fields are stated by `IngestProperties.TestAbilityFields` and `IngestProperties.EmittedRecords` |
| Ingest.EmitStep | app/atomic_caldera.py:102-142 | the fingerprint check, draw and emission of a prepared test; when it adds records is stated by `IngestProperties.EmitStepCondition`, what it adds by `IngestProperties.EmitStepFields` |
| Ingest.TestStep | app/atomic_caldera.py:88-142 | one test, with its `KeyError`s; stated by `IngestProperties.EmitCondition`, `IngestProperties.EmittedRecords` and `IngestProperties.TestStepFresh` |
| Ingest.RunTests | app/atomic_caldera.py:86-142 | the test loop, the first exception aborting it; stated by `IngestProperties.RunTestsFresh`, `RunTestsIds`, `RunTestsOrigin` and `RunTestsGrows` |
| Ingest.Load | app/atomic_caldera.py:80-84 | the load of a file that opened; None when the load raises and the file is skipped |
| Ingest.FileStep | app/atomic_caldera.py:74-142 | one walked file: skipped unless `.yaml`, raising when it does not open, skipped when it does not load; stated by `IngestProperties.SkippedFile` and `IngestProperties.UnreadableYamlAborts` |
| Ingest.RunFiles | app/atomic_caldera.py:71-142 | the file loop; its composition is stated by `IngestProperties.RunFilesAppend` |
| Ingest.GetAtomicsSpec | app/atomic_caldera.py:66-147 | `get_atomics()` as a function of its inputs; stated by `AtomicCaldera.GetAtomics`, `IngestProperties.RunFresh`, `RunDistinctIds`, `RunOrigin` and `ReimportAddsNoAbility` |
| AtomicCaldera.CheckAndEmit | app/atomic_caldera.py:102-142 | fingerprint check, identifier draw and record emission against the store compute `EmitStep` |
| AtomicCaldera.ProcessTest | app/atomic_caldera.py:88-142 | one pass of the test loop, with its `KeyError`s, computes `TestStep` |
| AtomicCaldera.GetAtomics | app/atomic_caldera.py:66-147 | the nested scan over files and tests returns `GetAtomicsSpec` of the store snapshot, the first exception aborting it |
| AtomicCaldera.CommitAbilities | app/atomic_caldera.py:164-165 | the store's abilities gain exactly the emitted abilities, in order; its variables are unchanged |
| AtomicCaldera.CommitVariables | app/atomic_caldera.py:166-167 | the store's variables gain exactly the emitted variables, in order; its abilities are unchanged |
| AtomicCaldera.ImportArtAbilities | app/atomic_caldera.py:158-168 | a failing scan returns the failure message and leaves the store unchanged; otherwise everything the scan emitted is committed and the success message returned |
| AtomicCaldera.Landing | app/atomic_caldera.py:42-45 | the tactic loop computes `FirstSeen` of the stored abilities' tactics |
| DataStore.Store.CheckArtFingerprint | app/atomic_caldera.py:110 | true exactly when some stored ability has the fingerprint |
| DataStore.Store.CheckArtAbilityId | app/atomic_caldera.py:114 | true exactly when some stored ability has the id |
| DataStore.Store.CreateArtAbility | app/atomic_caldera.py:165 | the ability is appended; the variables are unchanged |
| DataStore.Store.CreateArtVariable | app/atomic_caldera.py:167 | the variable is appended; the abilities are unchanged |
| Records.TechniqueText | app/atomic_caldera.py:120 | `attackTech[1:]`: the id with its first character removed, empty for empty text |
| Records.TechniqueNumber | app/atomic_caldera.py:104 | `int(attackTech[1:])`; stated by `Records.TechniqueNumberOfId` |
| Records.TechniqueNumberOfId | app/atomic_caldera.py:104 | a technique id of a letter and a decimal number reads back as that number |
| Records.StoredFingerprint | app/atomic_caldera.py:104-105 | the fingerprint a stored ability is found under carries its command |
| Records.StoreGrows | app/atomic_caldera.py:164-167 | adding records loses no fingerprint and no id |
| Records.HasFingerprint | app/atomic_caldera.py:110 | the store query for a fingerprint; stated by `DataStore.Store.CheckArtFingerprint` and `Records.StoreGrows` |
| Records.HasId | app/atomic_caldera.py:114 | the store query for an id; stated by `DataStore.Store.CheckArtAbilityId` and `Records.StoreGrows` |
| Mitre.Query | app/atomic_caldera.py:56-60 | the query returns exactly the attack patterns that list the id, and nothing else |
| Mitre.Matches | app/atomic_caldera.py:56-59 | the two filters: an attack pattern listing the id; what matches is stated by `Mitre.Query` |
| Mitre.QueryFirst | app/atomic_caldera.py:60-62 | the query's first result is the first matching object |
| Mitre.GetMitrePhase | app/atomic_caldera.py:55-64 | `unknown` when nothing matches; otherwise the first match's first phase, or a raise (None) when it lists none |
| Normalize.QuoteStrip | app/atomic_caldera.py:94-97 | raises exactly on empty text; after a leading `'` (`"`) the result neither starts nor ends with `'` (`"`); other text is unchanged |
| Normalize.Repair | app/atomic_caldera.py:91 | the `x07` repair and whitespace strip; stated by `Normalize.RepairNoX07`, `PyStr.ReplaceX07Complete` and `PyStr.StripIdempotent` |
| Normalize.QuoteStripInfix | app/atomic_caldera.py:94-97 | the quote step keeps an infix of its input |
| Normalize.SingleQuotesFirst | app/atomic_caldera.py:94-95 | `'"x"'` loses only its single quotes |
| Normalize.DoubleQuotesSecond | app/atomic_caldera.py:96-97 | `"x"` loses its double quotes |
| Normalize.QuoteStripNotIdempotent | app/atomic_caldera.py:94-97 | a second quote step can change the result of the first |
| Normalize.SingleQuotedText | app/atomic_caldera.py:134-135 | text printed between single quotes loses just those quotes |
| Normalize.QuotedDefaultKeepsInnerQuotes | app/atomic_caldera.py:133-140 | the default `'"127.0.0.1"'` yields the value `"127.0.0.1"`, double quotes kept |
| Normalize.VariableText | app/atomic_caldera.py:133-137 | an argument default is skipped exactly when its repaired text is empty |
| Normalize.RepairNoX07 | app/atomic_caldera.py:91 | no `x07` survives the repair and strip |
| Normalize.QuoteStripNoX07 | app/atomic_caldera.py:94-97 | the quote step creates no `x07` |
| Normalize.VariableTextNoX07 | app/atomic_caldera.py:133-137 | a normalised default has no `x07` |
| PyStr.StripStart | app/atomic_caldera.py:91-95 | drops exactly the leading characters in the set |
| PyStr.StripEnd | app/atomic_caldera.py:91-95 | drops exactly the trailing characters in the set |
| PyStr.Strip | app/atomic_caldera.py:91-97 | the result is the infix left when every leading and trailing character in the set is gone, not one layer |
| PyStr.StripUnchanged | app/atomic_caldera.py:91 | text not starting or ending with a stripped character is kept |
| PyStr.StripIdempotent | app/atomic_caldera.py:91 | stripping twice is stripping once |
| PyStr.StripEnclosed | app/atomic_caldera.py:95 | one enclosing character on each side is all that goes when the inner text is not enclosed by it |
| PyStr.ReplaceX07 | app/atomic_caldera.py:91 | the rewrite does not lengthen the text and rewrites a leading `x07` to `a` |
| PyStr.ReplaceX07Complete | app/atomic_caldera.py:91 | after the left-to-right rewrite no `x07` is left |
| PyStr.ReplaceX07Unchanged | app/atomic_caldera.py:91 | text without `x07` is unchanged |
| PyStr.ReplaceX07Idempotent | app/atomic_caldera.py:91 | rewriting twice is rewriting once |
| PyStr.NoXNoX07 | app/atomic_caldera.py:91 | text without the letter `x` has no `x07` |
| PyStr.NoX07Infix | app/atomic_caldera.py:91 | an infix of text without `x07` has none |
| PyStr.StripNoX07 | app/atomic_caldera.py:91 | stripping creates no `x07` |
| PyStr.ParseInt | app/atomic_caldera.py:104 | `int()` accepts only signs, whitespace and ASCII digits |
| PyStr.Decimal | app/atomic_caldera.py:104 | the decimal text of a number is non-empty digits |
| PyStr.DecimalValue | app/atomic_caldera.py:104 | the digits of that text are worth the number |
| PyStr.ParseDecimal | app/atomic_caldera.py:104 | `int(str(n)) == n` |
| PyStr.LastIndex | app/atomic_caldera.py:74 | the index of the last occurrence, or -1 when there is none |
| PyStr.Extension | app/atomic_caldera.py:74 | `splitext`'s extension is a suffix that starts with a dot and holds no other dot or separator |
| PyStr.Lower | app/atomic_caldera.py:74 | ASCII lower-casing character by character |
| PyStr.YamlPathShape | app/atomic_caldera.py:74 | a path is a `.yaml` path exactly when it ends in a dot and `yaml` in any letter case with a non-dot character of its last component before that dot |
| PyStr.YamlPathEnds | app/atomic_caldera.py:74 | every `.yaml` path ends in a dot and `yaml` in any letter case |
| PyStr.YamlExtension | app/atomic_caldera.py:74 | a `.yaml` path's extension is its last five characters, after a non-dot character of its last component |
| PyStr.YamlTailDot | app/atomic_caldera.py:74 | in a path ending in a dot and `yaml`, that dot is the last one |
| PyStr.EndsYamlPath | app/atomic_caldera.py:74 | every path of that shape is a `.yaml` path |
| PyStr.LastIndexAt | app/atomic_caldera.py:74 | an occurrence followed by no other is the last |
| PyStr.IsYamlPath | app/atomic_caldera.py:74 | `splitext(p)[-1].lower() == '.yaml'`; which paths pass is stated by `PyStr.YamlPathShape` |
| Utf8.EncodeChar | app/atomic_caldera.py:105 | the one to four bytes of a character, with the lead and continuation byte ranges |
| Utf8.Encode | app/atomic_caldera.py:105 | one to four bytes per character; empty exactly for empty text |
| Utf8.DecodeEncodeChar | app/atomic_caldera.py:105 | decoding a character's bytes gives the character back |
| Utf8.EncodeCharPrefixFree | app/atomic_caldera.py:105 | no character's encoding is a proper prefix of another's |
| Utf8.EncodeInjective | app/atomic_caldera.py:105 | distinct texts have distinct encodings |
| Base64.Letter | app/atomic_caldera.py:105 | a letter of the alphabet is never the pad character |
| Base64.Value | app/atomic_caldera.py:105 | a character's value, when it has one, is the one its letter encodes |
| Base64.ValueLetter | app/atomic_caldera.py:105 | each letter's value is its index |
| Base64.Encode | app/atomic_caldera.py:105 | four characters for every started group of three bytes |
| Base64.DecodeGroup | app/atomic_caldera.py:105 | a full quantum decodes to its three bytes |
| Base64.DecodeOne | app/atomic_caldera.py:105 | a padded quantum of one byte decodes to it |
| Base64.DecodeTwo | app/atomic_caldera.py:105 | a padded quantum of two bytes decodes to them |
| Base64.DecodeFinal | app/atomic_caldera.py:105 | a padded quantum decodes only as the final one |
| Base64.DecodeAppend | app/atomic_caldera.py:105 | a full quantum before valid text decodes to its bytes before the rest |
| Base64.DecodeEncodeOne | app/atomic_caldera.py:105 | one byte round-trips |
| Base64.DecodeEncodeTwo | app/atomic_caldera.py:105 | two bytes round-trip |
| Base64.DecodeEncode | app/atomic_caldera.py:105 | decoding inverts encoding for every byte string |
| Base64.EncodeInjective | app/atomic_caldera.py:105 | distinct byte strings have distinct encodings |
| Base64.DecodeEncodeText | app/atomic_caldera.py:105 | the stored command decodes to the command's UTF-8 bytes |
| Base64.EncodeTextInjective | app/atomic_caldera.py:105 | two texts share an encoding exactly when they are equal |
| Base64.EncodeText | app/atomic_caldera.py:105 | `b64encode(command.encode('utf-8')).decode('utf-8')`; stated by `Base64.DecodeEncodeText` and `Base64.EncodeTextInjective` |
| Tactics.TacticsOf | app/atomic_caldera.py:43-44 | the abilities' tactics, position by position |
| Tactics.FirstSeen | app/atomic_caldera.py:43-45 | the list kept by the tactic loop; stated by `Tactics.FirstSeenMembers`, `FirstSeenDistinct` and `FirstSeenOrder` |
| Tactics.FirstIndex | app/atomic_caldera.py:44-45 | the first position of a value |
| Tactics.FirstIndexPrefix | app/atomic_caldera.py:44-45 | a prefix containing the value has it first at the same position |
| Tactics.FirstSeenMembers | app/atomic_caldera.py:43-45 | the kept values are exactly the input's values |
| Tactics.FirstSeenDistinct | app/atomic_caldera.py:43-45 | no value is kept twice |
| Tactics.FirstSeenOrder | app/atomic_caldera.py:43-45 | kept values are in order of first appearance |
| Tactics.LandingTactics | app/atomic_caldera.py:43-45 | the landing list contains every ability's tactic exactly once, nothing else, in first-seen order |
| RestApi.Route | app/atomic_caldera.py:195-207 | each handler's (method, index) pair dispatches to it |
| RestApi.DispatchRoute | app/atomic_caldera.py:195-209 | a request reaches a handler exactly when it carries that handler's pair |
| RestApi.UnknownRequest | app/atomic_caldera.py:204-209 | a DELETE with another index, or any GET, reaches no handler |
| RestApi.Dispatch | app/atomic_caldera.py:195-209 | `options[request.method][index]` over the `Options` table; stated by `RestApi.Route`, `RestApi.DispatchRoute` and `RestApi.UnknownRequest` |
| IngestProperties.NoCommandNoRecords | app/atomic_caldera.py:90-110 | a test without a `command` key gets the empty command and executor; with an empty command it adds no ability, no variable and draws no identifier |
| Ingest.PrepareCommand | app/atomic_caldera.py:90-100 | the command normalisation with the library calls as parameters; its outcomes are stated by `IngestProperties.PrepareCommandOutcome` and `AtomicCaldera.NormalizeCommand` |
| IngestProperties.PrepareCommandOutcome | app/atomic_caldera.py:90-97 | with a `command` key: the `unicode_escape` error exactly when decoding fails, the `KeyError` on the executor name exactly when it decodes and the name is missing, the `IndexError` exactly when the decoded text is empty, success otherwise; the command is an infix of the decoded text, free of the leading quote kind at both ends, or the decoded text itself when it starts with no quote; the executor is the executor's name |
| IngestProperties.DrawBranch | app/atomic_caldera.py:110-142 | a test that reaches the draw appends its ability and variables under the drawn identifier |
| IngestProperties.NoDrawBranch | app/atomic_caldera.py:103-110 | a test that does not reach the draw changes only `checkUnique` |
| IngestProperties.EmitStepCondition | app/atomic_caldera.py:102-142 | the outputs only grow, by at most one ability; `checkUnique` is the new fingerprint when the technique is a number and the command non-empty, and is otherwise carried over (an empty command changes nothing at all); an ability is added exactly when the command is non-empty, the fingerprint is absent from the store and the tactic does not raise |
| IngestProperties.EmitCondition | app/atomic_caldera.py:88-142 | the same for a whole test |
| IngestProperties.AppendFresh | app/atomic_caldera.py:119-140 | records appended under the drawn id are fresh |
| IngestProperties.EmitStepFresh | app/atomic_caldera.py:102-142 | everything a prepared test adds is fresh against the store |
| IngestProperties.AppendedRecords | app/atomic_caldera.py:119-140 | the appended records sit after the old ones, every variable under the drawn id |
| IngestProperties.AppendStepRecords | app/atomic_caldera.py:119-140 | appended records with the ability's fields satisfy `StepRecords` |
| IngestProperties.DrawStepRecords | app/atomic_caldera.py:110-142 | the records of one draw satisfy `StepRecords` |
| IngestProperties.EmitStepFields | app/atomic_caldera.py:102-142 | the records of a prepared test satisfy `StepRecords` |
| IngestProperties.EmittedRecords | app/atomic_caldera.py:104-142 | an emitted ability carries the technique, display name, resolved tactic, name, description, executor and encoded command, and an unused freshly drawn id shared by its variables; its fingerprint was absent from the store and is the ability's own |
| IngestProperties.DrawnId | app/atomic_caldera.py:111-115 | the id drawn is the candidate just before the new position, unused in the store |
| IngestProperties.TestAbilityFields | app/atomic_caldera.py:117-128 | the fields of a test's ability, and its stored fingerprint when the technique is a number |
| IngestProperties.DrawnRecords | app/atomic_caldera.py:110-128 | a drawn ability is fresh against the store |
| IngestProperties.TestStepFresh | app/atomic_caldera.py:88-142 | everything one test adds is fresh |
| IngestProperties.DrawnWiden | app/atomic_caldera.py:111-115 | a candidate drawn in a span is drawn in every span around it |
| IngestProperties.FreshTrans | app/atomic_caldera.py:87-142 | freshness carries over a sequence of tests |
| IngestProperties.FreshRefl | app/atomic_caldera.py:87 | no step adds nothing |
| IngestProperties.RunTestsFresh | app/atomic_caldera.py:86-142 | every record of a file's tests is fresh |
| IngestProperties.RunFilesFresh | app/atomic_caldera.py:71-142 | every record of the scan is fresh |
| IngestProperties.RunFresh | app/atomic_caldera.py:66-147 | every emitted ability has a drawn identifier the store does not use and a fingerprint the store does not hold; every variable has a drawn unused identifier |
| IngestProperties.DisjointSpans | app/atomic_caldera.py:111-115 | candidates from disjoint spans of distinct candidates differ |
| IngestProperties.TestStepIds | app/atomic_caldera.py:111-128 | one test keeps the abilities' ids drawn and distinct |
| IngestProperties.RunTestsIds | app/atomic_caldera.py:87-142 | a file's tests keep the ids drawn and distinct |
| IngestProperties.RunFilesIds | app/atomic_caldera.py:71-142 | the scan keeps the ids drawn and distinct |
| IngestProperties.RunDistinctIds | app/atomic_caldera.py:66-147 | with distinct candidates the emitted abilities have distinct ids |
| IngestProperties.TestStepOrigin | app/atomic_caldera.py:88-142 | every ability one test adds carries that test's fields |
| IngestProperties.AtMostOneOrigin | app/atomic_caldera.py:117-128 | an output that grows by at most one ability from a test gains only that test's ability |
| IngestProperties.RunTestsOrigin | app/atomic_caldera.py:86-142 | every ability a file's tests add comes from one of them |
| IngestProperties.FileStepOrigin | app/atomic_caldera.py:74-142 | every ability one file adds comes from a test of that file |
| IngestProperties.RunFilesOrigin | app/atomic_caldera.py:71-142 | every ability the scan adds comes from a test of a walked `.yaml` file that loads |
| IngestProperties.RunOrigin | app/atomic_caldera.py:66-147 | every ability the run returns carries the technique, display name, tactic, name, description, executor name and encoded command of a test of a walked `.yaml` file |
| IngestProperties.ArgumentVariablesAppend | app/atomic_caldera.py:131-142 | two runs of arguments give the variables of each, in order |
| IngestProperties.ArgumentSkipped | app/atomic_caldera.py:132-142 | an argument that raises adds no variable |
| IngestProperties.ArgumentSkippedAlone | app/atomic_caldera.py:131-142 | an argument that raises is skipped alone; those around it keep their variables |
| IngestProperties.ArgumentKept | app/atomic_caldera.py:131-140 | an argument with a non-empty default adds its variable: its name and the encoded normalised default under the test's id |
| IngestProperties.KeptVariable | app/atomic_caldera.py:133-140 | the variable one such argument yields |
| IngestProperties.RunFilesAppend | app/atomic_caldera.py:71-72 | scanning two runs of files is scanning the first, then the second from where it ended |
| IngestProperties.SkippedFile | app/atomic_caldera.py:74-84 | a non-`.yaml` file, or one that opens but fails to load, leaves the result unchanged |
| IngestProperties.MissingRoot | app/atomic_caldera.py:70-145 | without the corpus root the result is empty |
| IngestProperties.NoYamlNoRecords | app/atomic_caldera.py:74-84 | a corpus whose files are not `.yaml` or open but fail to load yields nothing |
| IngestProperties.UnreadableYamlAborts | app/atomic_caldera.py:74-84 | a `.yaml` file that does not open makes the run raise once the scan reaches it, whatever follows |
| IngestProperties.FingerprintDistinguishesCommands | app/atomic_caldera.py:104-105 | two commands of one numbered technique share a fingerprint exactly when equal |
| Ingest.CheckUnique | app/atomic_caldera.py:102-107 | the fingerprint a test checks; stated by `IngestProperties.CheckUniqueFingerprint` |
| IngestProperties.CheckUniqueFingerprint | app/atomic_caldera.py:102-107 | for a numeric technique, the fingerprint carries that number and an encoding that decodes to the command's UTF-8 bytes; otherwise the previous fingerprint is kept |
| IngestProperties.InHasFingerprint | app/atomic_caldera.py:110 | a stored ability's fingerprint is found |
| IngestProperties.IncludesFingerprint | app/atomic_caldera.py:110 | a store containing another finds its fingerprints |
| IngestProperties.RunTestsGrows | app/atomic_caldera.py:87-142 | a file's tests only append abilities |
| IngestProperties.RunFilesGrows | app/atomic_caldera.py:71-142 | the scan only appends abilities |
| IngestProperties.CoverStep | app/atomic_caldera.py:104-128 | a store holding everything a test added covers that test |
| IngestProperties.RunTestsCover | app/atomic_caldera.py:87-142 | a store holding the old records and a file's emitted abilities covers all its tests |
| IngestProperties.PrefixIncluded | app/atomic_caldera.py:119 | a store including a list includes its prefixes |
| IngestProperties.FileStepCover | app/atomic_caldera.py:74-142 | a store holding one file's output covers that file |
| IngestProperties.RunFilesCover | app/atomic_caldera.py:71-142 | a store holding the scan's output covers every file |
| IngestProperties.CoveredStepAddsNone | app/atomic_caldera.py:104-110 | a covered test adds no ability |
| IngestProperties.RunTestsAddsNone | app/atomic_caldera.py:87-142 | covered tests add no ability |
| IngestProperties.FileStepAddsNone | app/atomic_caldera.py:74-142 | a covered file adds no ability |
| IngestProperties.RunFilesAddsNone | app/atomic_caldera.py:71-142 | covered files add no ability |
| IngestProperties.ReimportAddsNoAbility | app/atomic_caldera.py:158-168 | with numbered techniques, importing the same corpus again against the store the first import left adds no ability, whatever identifiers are drawn |

## Left out

- The web glue is not modelled: the aiohttp handlers, the jinja `@template`,
  `auth_svc.check_permissions`, `request.json()` and `web.json_response` (lines 35-37,
  188-194, 212).
- `get_conf` (lines 23-33) is not modelled. The corpus root's existence is the `artpathExists`
  input, and the knowledge base is `Env.cti`.
- `os.walk` and `os.path.join` are not modelled. The corpus is the sequence of (path, content)
  pairs the walk visits, in order. A content is None where `open` raises on the file; that
  `open` (line 80) is outside every `try`, so such a `.yaml` file aborts the run with
  `Unreadable`.
- The `ARTyaml()` constructor failure is not modelled (lines 77-79). It does not depend on the
  file.
- `ARTyaml.load` is the parameter `Env.load`. A test's keys are `Option`s, and
  `input_arguments` is a list of (name, default) pairs in mapping order. A non-string YAML
  scalar, or an `input_arguments` that is not a mapping, is outside the model.
- The stix2 `FileSystemSource` is the sequence of objects it holds, and `Filter` is a
  predicate. A query that raises is not modelled.
- Python `repr` and the `unicode_escape` round are the parameters `Env.repr` and
  `Env.unicodeEscape`, since their exact semantics are library behaviour.
- `build_db` (line 67) is left out, and the model takes it to leave the stored abilities as
  they are: each run reads the store as the previous import left it. `ac.sql` is not part of
  this model; were it to recreate the tables, the store would start empty on every run.
- IngestProperties.ReimportAddsNoAbility: rests on that assumption about `build_db`. The
  second run reads the store the first import left.
- Texts are sequences of Unicode scalar values. A command or argument default holding a lone
  surrogate, which Python strings can hold, is outside the model. `encode('utf-8')` raises on
  such text at lines 105, 126 and 140. No result of `Env.unicodeEscape` or `Env.load` can
  hold it.
- `explode_art_abilities` and `explode_art_variables` are left out as database internals,
  and so is the `try`/`except` around them in `landing`. `Landing` reads the abilities the
  store holds.
- `save_art_ability` and `save_art_variables` (lines 170-186) are left out. They only forward
  to the database's update calls.
- The `rest_api` error path (lines 208-212) is outside the model: after a caught `KeyError`,
  `output` is unbound. `RestApi.Dispatch` returns None there.
- `get_art` (lines 149-156) is not modelled. It only wraps `get_atomics`.
- The randomness of `uuid.uuid4` is not modelled. The candidates are an input.
- Ingest.Allocate: when the candidates run out, the run fails with `CandidatesExhausted`. The
  source would keep drawing.
- IngestProperties.RunDistinctIds: the identifiers are distinct only when the candidates are
  (`DistinctCandidates`). The source never compares them, and relies on `uuid4` not
  repeating.
- `await` is a plain call, since the run is sequential. The `print`/`log` calls are left out.
- PyStr.ParseInt: underscores between digits and non-ASCII decimal digits are not accepted,
  although Python's `int()` accepts both.
- PyStr.Lower: ASCII letters only. `str.lower` also maps other letters, but only the `.yaml`
  comparison uses it.
- PyStr.Extension: POSIX paths only, with `/` as the sole separator.
- Records.StoredFingerprint: the store is taken to compare the technique of a stored ability
  numerically, as SQLite's INTEGER affinity would; the database schema and query are not part
  of this model. `IngestProperties.ReimportAddsNoAbility` rests on that comparison.

## Behaviour of the code worth noting

- The quote step strips every leading and trailing occurrence of the quote, not one layer.
  It is not idempotent (`Normalize.QuoteStripNotIdempotent`).
- A YAML default `'"127.0.0.1"'` yields the value `"127.0.0.1"`, double quotes kept
  (`Normalize.QuotedDefaultKeepsInnerQuotes`).
- The exceptions raised before line 102 are not contained per test. They propagate out of
  `get_atomics` and abort the whole run, and `import_art_abilities` then commits nothing:
  - the `KeyError`s on `name`, `description`, `executor` and the executor's `name`;
  - a `unicode_escape` error;
  - the `IndexError` of `command[0]` on empty text;
  - an `open` that raises on a `.yaml` file.
- A tactic lookup that raises (a first match without kill-chain phases) is caught at line 127.
  It drops the ability but not its variables. A query without a match gives `unknown`.
- When `int(attackTech[1:])` raises, `checkUnique` keeps the previous test's fingerprint.
  Before any assignment, it is `UnboundFingerprint`: the `UnboundLocalError` aborts the run.
- Deduplication is against the store snapshot only. Two tests of one run with the same
  fingerprint are both emitted.
