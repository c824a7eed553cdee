# DevCycle bucketing engine and SDK decision rules, in Dafny

This project models the core of the DevCycle JavaScript SDKs.

**The bucketing engine.** Given a project config and one user, it decides
which variation of each feature the user gets and what each variable
resolves to. It has five parts:

- a user is placed in the first target whose audience they match;
- the target's rollout (schedule, gradual/linear or stepped/discrete) is
  evaluated at a time `now`;
- a variation is picked by walking the target's distribution with the
  user's bucketing hash;
- the chosen variation's variables are resolved against the config, and a
  missing variation, variable or distribution aborts the whole call;
- a per-SDK-key registry holds the loaded configs and the client custom
  data, which fills in the custom-data keys a user does not set during
  audience matching.

The engine's implementation files are not part of this model. Its behaviour
is modelled from the assertions of
`lib/shared/bucketing-assembly-script/__tests__/bucketing/bucketing.test.ts`.

**Around the engine:**

- the AssemblyScript readers and writers of the config (`ConfigBody`,
  `PublicProject`, `PublicEnvironment`, `Feature`, `Variation`,
  `VariationVariable`), with their round trips and the `variableHashes` loop;
- the custom-data validator of the shared types;
- the browser client's decision rules (`sdk/js/src/Client.ts`);
- the Node.js server SDK's key check and client choice (`sdk/nodejs/src/index.ts`).

Modules, one per file:

| module | file | models |
|---|---|---|
| `Wrappers` | wrappers.dfy | `Option`, `Result`, `Outcome` |
| `Json` | json.dfy | the assemblyscript-json object (key order plus members) and JavaScript values |
| `Audience` | audience.dfy | users, audience filters, client data as custom-data defaults |
| `Targeting` | targeting.dfy | variables, distributions, rollouts, targets |
| `Rollouts` | rollout.dfy | `doesUserPassRollout` |
| `Selection` | selection.dfy | `decideTargetVariation` |
| `Features` | features.dfy | `feature.ts` |
| `ConfigBodies` | configbody.dfy | `configBody.ts` |
| `Bucketing` | bucketing.dfy | `generateBucketedConfig`, `variableForUser`, integrity errors |
| `Registry` | registry.dfy | `initSDK`, `setClientCustomData`, `cleanupSDK` as a class |
| `CustomDataValidator` | customdata.dfy | `validate` of `dvcCustomDataJSON.ts` |
| `BrowserClient` | client.dfy | `DevCycleClient` of `sdk/js/src/Client.ts` as a class |
| `ServerSdk` | serversdk.dfy | `initializeDevCycle` |

**Parameters standing in for what the model leaves open:**

- The user hash is a parameter `Hasher = (userId, targetId) -> BoundedHashes`.
  `ValidHasher` states that both of its hashes lie in [0, 1).
- Time is a parameter `now`.
- Percentages are `real`.
- The `Variable` and `FeatureConfiguration` readers and writers are
  parameters (`VariableCodec`, `ConfigurationCodec`).
- The server-key predicate is a parameter.
- The platform's `JSON.stringify` is a parameter of the browser client.

**Four rules of the engine the model fixes from the tests.** The engine's
implementation is not part of this model, so these four rules are the
model's choices, each backed by lines of `bucketing.test.ts`:

- A rollout lets a user through when its current percentage is positive
  and the rollout hash is *at most* that percentage. The tests pass hash 1
  at percentage 1 (lines 672-687) and reject hash 0 at percentage 0
  (line 666). A strict `<` would fail the first of these.
- A feature is resolved against the first target whose audience the user
  matches (the test at line 233). If the user fails that target's rollout,
  the feature is excluded and later targets are not tried (the test at
  lines 394-461 holds such a user back).
- The integrity errors (`Config missing variation`, `Config missing
  variable`, `Failed to decide target variation`) are raised only for
  features a user is actually resolved into (lines 578-628), and the first
  such feature in config order decides the error.
- On a key set both in the user's own `customData` and in the client
  custom data, the user's value wins, and client data fills keys the user
  does not set. In the client-data test (lines 793-843) a user whose
  own `favouriteFood` is pizza is let in once the client data adds
  `favouriteDrink: coffee`, although the client's `favouriteFood` is
  "NOT PIZZA!!", and a user whose own food is "NOT PIZZA!!" stays out when
  the client data says pizza. For an audience asking for pizza and coffee,
  the opposite precedence would give the second call no features and the
  third two (`Audience.PizzaAndCoffeeScenario`). No test sets
  `privateCustomData` together with `customData` or with client data, so
  where private data stands in this order is the model's own choice; see
  "## Left out".

**The browser client.** It is a class whose fields are the ones its methods
update: `config`, `user`, `userSaved`, `closing`, `isConfigCached` and
`variableDefaultMap`. What the source hands to collaborators is appended to
an `effects` log, in order. These collaborators are the cache store, the
event emitter, the event queue, the logger and the request consolidator.

## Model

| member | source | states |
|---|---|---|
| `Json.Set` | lib/shared/bucketing-assembly-script/src/types/configBody.ts:17-20 | `JSON.Obj.set` replaces a member's value and appends a key seen for the first time to the key order |
| `Json.ParseAll` | lib/shared/bucketing-assembly-script/src/types/configBody.ts:54-62 | `array.map(parse)`: on success the result has the input's length and element i is the parse of input i; on failure the error is that of the first element that fails, all earlier ones parsing |
| `Json.EmitAll` | lib/shared/bucketing-assembly-script/assembly-script-src/types/feature.ts:41 | `jsonArrFromValueArray` writes every element, in order |
| `Json.ParseAllEmitAll` | lib/shared/bucketing-assembly-script/assembly-script-src/types/feature.ts:28-41 | element-wise round trips give a round trip of the whole array, order included |
| `Audience.EffectiveCustomData` | lib/shared/bucketing-assembly-script/__tests__/bucketing/bucketing.test.ts:793-843 | the custom data a filter sees has every key of private, own and client data; the user's own custom data wins over client data (and, as the model's choice, over private data); a client value counts only on a key the user sets in neither map |
| `Audience.Matches` | lib/shared/bucketing-assembly-script/__tests__/bucketing/bucketing.test.ts:233-380 | an AND of no filters matches every user and an OR of no filters matches none |
| `Audience.ClientDataActsAsCustomDataDefaults` | lib/shared/bucketing-assembly-script/__tests__/bucketing/bucketing.test.ts:793-843 | every filter matches a user with client data exactly when it matches, with no client data, the user whose `customData` gains the client entries for the keys the user sets neither publicly nor privately |
| `Audience.UserDataWinsOnCollision` | lib/shared/bucketing-assembly-script/__tests__/bucketing/bucketing.test.ts:793-843 | a custom-data filter on a key the user's `customData` sets compares against the user's value, whatever the client data holds |
| `Audience.ClientDataFillsAbsentKeys` | lib/shared/bucketing-assembly-script/__tests__/bucketing/bucketing.test.ts:801-821 | a custom-data filter on a key only the client data sets compares against the client's value |
| `Audience.PizzaAndCoffeeScenario` | lib/shared/bucketing-assembly-script/__tests__/bucketing/bucketing.test.ts:793-843 | for any two distinct keys and a food value other than pizza, against an audience asking for pizza and coffee: the pizza lover is out without client data and in with the test's client data (other food, coffee), and the user whose own food is not pizza is out with pizza-and-coffee client data |
| `Rollouts.Reached` | lib/shared/bucketing-assembly-script/__tests__/bucketing/bucketing.test.ts:744-773 | every reached stage is a stage whose date is not after `now`, and there are no more of them than stages |
| `Rollouts.Upcoming` | lib/shared/bucketing-assembly-script/__tests__/bucketing/bucketing.test.ts:744-773 | every upcoming stage is a stage whose date is after `now` |
| `Rollouts.ReachedExactly` | lib/shared/bucketing-assembly-script/__tests__/bucketing/bucketing.test.ts:744-773 | a stage is reached exactly when it is a stage whose date is not after `now` |
| `Rollouts.UpcomingExactly` | lib/shared/bucketing-assembly-script/__tests__/bucketing/bucketing.test.ts:744-773 | a stage is upcoming exactly when it is a stage whose date is after `now` |
| `Rollouts.StagedPercentage` | lib/shared/bucketing-assembly-script/__tests__/bucketing/bucketing.test.ts:655-671 | before the start date, with no stage reached, the staged percentage is 0 |
| `Rollouts.CurrentPercentage` | lib/shared/bucketing-assembly-script/__tests__/bucketing/bucketing.test.ts:718-740 | a schedule is at 1 from its start date on and at 0 before it, and at nothing in between |
| `Rollouts.DoesUserPassRollout` | lib/shared/bucketing-assembly-script/__tests__/bucketing/bucketing.test.ts:633-787 | no rollout passes every hash; an unrecognised rollout object is an error and the only one; otherwise the user passes exactly when the current percentage is positive and the hash is at most the percentage |
| `Rollouts.CurrentPercentageInRange` | lib/shared/bucketing-assembly-script/__tests__/bucketing/bucketing.test.ts:633-773 | a rollout whose percentages are in [0, 1] has its current percentage in [0, 1] at every time, interpolation included |
| `Rollouts.StagedPercentageInRange` | lib/shared/bucketing-assembly-script/__tests__/bucketing/bucketing.test.ts:633-773 | the same bound for the staged (gradual and stepped) percentage |
| `Rollouts.PassingIsDownwardClosed` | lib/shared/bucketing-assembly-script/__tests__/bucketing/bucketing.test.ts:672-701 | whoever passes a rollout, every smaller hash passes it too |
| `Rollouts.ScheduleRule` | lib/shared/bucketing-assembly-script/__tests__/bucketing/bucketing.test.ts:718-740 | a schedule passes every hash in [0, 1] exactly when its start date has been reached |
| `Rollouts.FutureStartFails` | lib/shared/bucketing-assembly-script/__tests__/bucketing/bucketing.test.ts:655-671 | a gradual or stepped rollout whose start and stages are all in the future fails every hash, 0 included |
| `Rollouts.AllReached` | lib/shared/bucketing-assembly-script/__tests__/bucketing/bucketing.test.ts:672-688 | when every stage date has passed, all stages are reached, in order, and none is upcoming |
| `Rollouts.NoneReached` | lib/shared/bucketing-assembly-script/__tests__/bucketing/bucketing.test.ts:655-671 | when every stage date is in the future, no stage is reached and all are upcoming, in order |
| `Rollouts.PastAllStagesHoldsLast` | lib/shared/bucketing-assembly-script/__tests__/bucketing/bucketing.test.ts:672-688 | past the start and every stage, the last stage's percentage holds; with a final 1 every hash in [0, 1] passes |
| `Rollouts.NoStagesHoldsStart` | lib/shared/bucketing-assembly-script/__tests__/bucketing/bucketing.test.ts:690-714 | a started rollout without stages holds its start percentage |
| `Rollouts.DiscreteNextStageHolds` | lib/shared/bucketing-assembly-script/__tests__/bucketing/bucketing.test.ts:744-773 | before a discrete stage the last reached stage's percentage holds, with no interpolation |
| `Rollouts.LinearMidpoint` | lib/shared/bucketing-assembly-script/__tests__/bucketing/bucketing.test.ts:633-653 | a linear rollout from 0 one day before `now` to p one day after has threshold exactly p/2 |
| `Rollouts.LinearRolloutCases` | lib/shared/bucketing-assembly-script/__tests__/bucketing/bucketing.test.ts:633-653 | the test's hashes: with p = 1, 0.2 and 0.35 pass and 0.75 and 0.85 fail; with p = 0.8, 0.35 passes and 0.51 and 0.95 fail |
| `Rollouts.SteppedRolloutCase` | lib/shared/bucketing-assembly-script/__tests__/bucketing/bucketing.test.ts:744-773 | the test's stepped rollout holds 0.5: 0.4 passes, 0.6 fails |
| `Rollouts.Interpolation` | lib/shared/bucketing-assembly-script/__tests__/bucketing/bucketing.test.ts:633-653 | linear interpolation between two percentages stays a percentage |
| `Rollouts.Fraction` | lib/shared/bucketing-assembly-script/__tests__/bucketing/bucketing.test.ts:633-653 | at a time between two stage dates, the elapsed share of the interval lies in [0, 1] |
| `Selection.SelectFrom` | lib/shared/bucketing-assembly-script/__tests__/bucketing/bucketing.test.ts:82-111 | the walk returns the first index whose running sum exceeds the hash, or none when no running sum does |
| `Selection.DecideTargetVariation` | lib/shared/bucketing-assembly-script/__tests__/bucketing/bucketing.test.ts:82-111 | the selected variation is one of the target's distribution entries; failure names the target |
| `Selection.PrefixSumMonotone` | lib/shared/bucketing-assembly-script/__tests__/bucketing/bucketing.test.ts:82-111 | with non-negative percentages the running sum never decreases |
| `Selection.PrefixSum` | lib/shared/bucketing-assembly-script/__tests__/bucketing/bucketing.test.ts:82-111 | with non-negative percentages every running sum is non-negative |
| `Selection.SelectIndex` | lib/shared/bucketing-assembly-script/__tests__/bucketing/bucketing.test.ts:82-111 | the selected index is the first whose running sum exceeds the hash; none is selected exactly when no running sum does |
| `Selection.SelectionInterval` | lib/shared/bucketing-assembly-script/__tests__/bucketing/bucketing.test.ts:82-111 | entry k is chosen exactly for hashes in [sum before k, sum through k), an interval whose length is k's percentage |
| `Selection.CompleteDistributionSelects` | lib/shared/bucketing-assembly-script/__tests__/bucketing/bucketing.test.ts:82-111 | a non-empty non-negative distribution summing to 1 always selects for a hash in [0, 1) |
| `Selection.EmptyDistributionFails` | lib/shared/bucketing-assembly-script/__tests__/bucketing/bucketing.test.ts:578-590 | a target with no distribution fails with its own id |
| `Features.TypeName` | lib/shared/bucketing-assembly-script/assembly-script-src/types/feature.ts:11 | every feature type is written as one of `validTypes` |
| `Features.TypeFromName` | lib/shared/bucketing-assembly-script/assembly-script-src/types/feature.ts:11 | a name is a feature type exactly when it is in `validTypes`, and names it |
| `Features.TypeNameRoundTrip` | lib/shared/bucketing-assembly-script/assembly-script-src/types/feature.ts:11 | reading back a written type gives the type |
| `Features.GetFeatureType` | lib/shared/bucketing-assembly-script/assembly-script-src/types/feature.ts:24 | `type` is accepted exactly when it is a string member in `validTypes` |
| `Features.ParseVariationVariable` | lib/shared/bucketing-assembly-script/assembly-script-src/types/feature.ts:82-86 | reads exactly when `_var` is a string and `value` is present; the raw value is kept unchanged |
| `Features.EmitVariationVariable` | lib/shared/bucketing-assembly-script/assembly-script-src/types/feature.ts:88-93 | writes exactly the keys `_var` and `value`, in that order |
| `Features.VariationVariableRoundTrip` | lib/shared/bucketing-assembly-script/assembly-script-src/types/feature.ts:78-94 | reading back a written variation variable gives it back |
| `Features.ParseVariation` | lib/shared/bucketing-assembly-script/assembly-script-src/types/feature.ts:52-63 | the name is kept exactly when `name` is a string member; the variables keep the input's length and order |
| `Features.EmitVariation` | lib/shared/bucketing-assembly-script/assembly-script-src/types/feature.ts:65-75 | writes `_id`, then `name` only for a non-empty name, then `variables` |
| `Features.VariationRoundTrip` | lib/shared/bucketing-assembly-script/assembly-script-src/types/feature.ts:47-76 | a variation without an empty name survives a write and a read |
| `Features.EmptyNameComesBackUnnamed` | lib/shared/bucketing-assembly-script/assembly-script-src/types/feature.ts:56-70 | a variation named "" is written without `name` and read back with no name |
| `Features.VariationsRoundTrip` | lib/shared/bucketing-assembly-script/assembly-script-src/types/feature.ts:28-41 | a `variations` array without empty names reads back as the same variations, in order |
| `Features.ParseFeature` | lib/shared/bucketing-assembly-script/assembly-script-src/types/feature.ts:20-34 | a read succeeds exactly when `_id` and `key` are strings, `type` is a valid type, every element of `variations` reads and `configuration` is an object its reader accepts; the result's members come from those members, the variations in the input's length and order |
| `Features.EmitFeature` | lib/shared/bucketing-assembly-script/assembly-script-src/types/feature.ts:36-44 | writes exactly `_id`, `type`, `key`, `variations`, `configuration`, in that order |
| `Features.FeatureRoundTrip` | lib/shared/bucketing-assembly-script/assembly-script-src/types/feature.ts:20-44 | re-reading a written feature reproduces it |
| `ConfigBodies.ParsePublic` | lib/shared/bucketing-assembly-script/src/types/configBody.ts:10-14 | a project or environment reads exactly when `_id` and `key` are strings, and keeps those two |
| `ConfigBodies.EmitPublic` | lib/shared/bucketing-assembly-script/src/types/configBody.ts:16-21 | writes exactly `_id` and `key`, in that order |
| `ConfigBodies.PublicRoundTrip` | lib/shared/bucketing-assembly-script/src/types/configBody.ts:24-39 | a written project or environment reads back unchanged |
| `ConfigBodies.PublicIgnoresOtherMembers` | lib/shared/bucketing-assembly-script/src/types/configBody.ts:28-32 | members other than `_id` and `key` do not affect the read |
| `ConfigBodies.MapSet` | lib/shared/bucketing-assembly-script/src/types/configBody.ts:71 | `Map.set` takes the new value; a new key goes last, an old key keeps its place |
| `ConfigBodies.HashesFrom` | lib/shared/bucketing-assembly-script/src/types/configBody.ts:64-73 | the intended reading fails only by naming a key of the object whose value is not a number |
| `ConfigBodies.HashesFromFailsOnFirstUnreadable` | lib/shared/bucketing-assembly-script/src/types/configBody.ts:64-73 | reading hashes fails exactly when some key has no number, and names the first such key |
| `ConfigBodies.HashesFromReadsEveryKey` | lib/shared/bucketing-assembly-script/src/types/configBody.ts:64-73 | with readable values every key gets its own number and no other key appears |
| `ConfigBodies.HashesFromValueAt` | lib/shared/bucketing-assembly-script/src/types/configBody.ts:67-72 | with readable values, a key of the object is read with its own number |
| `ConfigBodies.HashesFromKeysWithin` | lib/shared/bucketing-assembly-script/src/types/configBody.ts:67-72 | only keys of the object are read |
| `ConfigBodies.HashesFromKeepsOrder` | lib/shared/bucketing-assembly-script/src/types/configBody.ts:64-73 | distinct keys keep their order in the map |
| `ConfigBodies.HashesFromErrorPersists` | lib/shared/bucketing-assembly-script/src/types/configBody.ts:67-70 | once a prefix of keys fails, the rest does not change the error |
| `ConfigBodies.ParseVariableHashes` | lib/shared/bucketing-assembly-script/src/types/configBody.ts:64-73 | the corrected loop computes `HashesFrom`: every key in order, failing on the first value that is not a number |
| `ConfigBodies.HashLoopAsWritten` | lib/shared/bucketing-assembly-script/src/types/configBody.ts:67-72 | the loop as written, entered with `i = 0`, runs no iteration and returns the empty map |
| `ConfigBodies.ParseVariableHashesAsWritten` | lib/shared/bucketing-assembly-script/src/types/configBody.ts:64-73 | as written, `variableHashes` is empty whatever the object holds |
| `ConfigBodies.HashLoopDropsReadableHash` | lib/shared/bucketing-assembly-script/src/types/configBody.ts:67 | an object with one readable hash yields a non-empty map under the intended reading, unlike the loop as written |
| `ConfigBodies.EmitHashes` | lib/shared/bucketing-assembly-script/src/types/configBody.ts:83 | a hash map is written with its keys in insertion order and each value as a number |
| `ConfigBodies.HashesRoundTrip` | lib/shared/bucketing-assembly-script/src/types/configBody.ts:64-85 | a well-formed hash map written out reads back unchanged under the intended reading |
| `ConfigBodies.FeaturesRoundTrip` | lib/shared/bucketing-assembly-script/src/types/configBody.ts:54-57 | a `features` array of writable features reads back as the same features, in order |
| `ConfigBodies.ParseConfigBody` | lib/shared/bucketing-assembly-script/src/types/configBody.ts:49-74 | the corrected constructor: a read body takes project and environment from their members, features and variables element-wise in the input's length and order, and hashes by `HashesFrom` (the loop as intended) |
| `ConfigBodies.ReadMembers` | lib/shared/bucketing-assembly-script/src/types/configBody.ts:49-65 | the members read before the hash loop: project, environment, features and variables element-wise, and the `variableHashes` object |
| `ConfigBodies.ConfigBodyAsWritten` | lib/shared/bucketing-assembly-script/src/types/configBody.ts:49-74 | the constructor as written succeeds exactly when the members before the loop read, has no hashes, and otherwise fails as the corrected constructor does |
| `ConfigBodies.ParseConfigBodyAsWritten` | lib/shared/bucketing-assembly-script/src/types/configBody.ts:49-74 | the constructor as written, reading the members and then running the loop as written, computes `ConfigBodyAsWritten` |
| `ConfigBodies.AsWrittenIgnoresHashContent` | lib/shared/bucketing-assembly-script/src/types/configBody.ts:64-73 | no content of the `variableHashes` object changes what the constructor as written returns |
| `ConfigBodies.AsWrittenDiffersFromCorrected` | lib/shared/bucketing-assembly-script/src/types/configBody.ts:67-72 | with hashes `{"flag": 7.5}` the corrected constructor reads one hash and the one as written none; with `{"flag": "x"}` the corrected one fails and the one as written succeeds |
| `ConfigBodies.EmitConfigBody` | lib/shared/bucketing-assembly-script/src/types/configBody.ts:77-85 | writes exactly `project`, `environment`, `features`, `variables`, `variableHashes`, in that order |
| `ConfigBodies.ConfigBodyRoundTrip` | lib/shared/bucketing-assembly-script/src/types/configBody.ts:49-85 | through the corrected constructor, a body whose parts write back faithfully survives a write and a read |
| `ConfigBodies.ConfigBodyRoundTripAsWritten` | lib/shared/bucketing-assembly-script/src/types/configBody.ts:49-85 | through the constructor as written, a written body reads back with its hashes emptied, so the round trip holds exactly for bodies without hashes |
| `Bucketing.ErrorMessage` | lib/shared/bucketing-assembly-script/__tests__/bucketing/bucketing.test.ts:578-628 | the thrown text is the kind's prefix followed by the unresolved id |
| `Bucketing.ErrorMessageDistinguishes` | lib/shared/bucketing-assembly-script/__tests__/bucketing/bucketing.test.ts:578-628 | two integrity errors with the same text are the same error |
| `Bucketing.FirstMatchingTarget` | lib/shared/bucketing-assembly-script/__tests__/bucketing/bucketing.test.ts:233-380 | the index returned is a matching target with no matching target before it; none means no target matches |
| `Bucketing.Segment` | lib/shared/bucketing-assembly-script/__tests__/bucketing/bucketing.test.ts:233-380 | no matching target excludes the feature; a segmented user passed the rollout of the first target they match; an error names that target, as an invalid rollout or a failure to decide |
| `Bucketing.SegmentRule` | lib/shared/bucketing-assembly-script/__tests__/bucketing/bucketing.test.ts:233-380 | no match excludes the feature; at the first match a failed rollout excludes it, an unrecognised rollout fails, and a passed rollout yields the distribution's choice or fails to decide |
| `Bucketing.SegmentedVariationIsDistributed` | lib/shared/bucketing-assembly-script/__tests__/bucketing/bucketing.test.ts:233-380 | a segmented user's variation is listed in a matching target's distribution |
| `Bucketing.FindVariation` | lib/shared/bucketing-assembly-script/__tests__/bucketing/bucketing.test.ts:592-614 | finds the first variation with the id, and finds none exactly when no variation has it |
| `Bucketing.FindVariable` | lib/shared/bucketing-assembly-script/__tests__/bucketing/bucketing.test.ts:616-628 | finds the first config variable with the id, and finds none exactly when no variable has it |
| `Bucketing.ResolveVariables` | lib/shared/bucketing-assembly-script/__tests__/bucketing/bucketing.test.ts:616-628 | succeeds exactly when every override names a config variable, element-wise in order with the override's value; otherwise names the first missing id |
| `Bucketing.EvaluateFeatureRule` | lib/shared/bucketing-assembly-script/__tests__/bucketing/bucketing.test.ts:578-628 | a segmented feature reports its id, key, type, chosen variation and resolved variables; a missing variation or failed segmentation fails the feature |
| `Bucketing.EvaluateFeature` | lib/shared/bucketing-assembly-script/__tests__/bucketing/bucketing.test.ts:578-628 | a bucketed feature is reported under the feature's own id, key and type; a feature the user is not segmented into is excluded |
| `Bucketing.VariablesByKey` | lib/shared/bucketing-assembly-script/__tests__/bucketing/bucketing.test.ts:145-231 | each variable is filed under its own key, and every variable's key is present |
| `Bucketing.VariablesByKeyLastWins` | lib/shared/bucketing-assembly-script/__tests__/bucketing/bucketing.test.ts:145-231 | the variable filed under a key is the last variable with that key |
| `Bucketing.FileVariables` | lib/shared/bucketing-assembly-script/__tests__/bucketing/bucketing.test.ts:145-231 | adding a variation's variables adds exactly their keys, each holding the last variable with that key, and keeps every other key's variable |
| `Bucketing.FileRefs` | lib/shared/bucketing-assembly-script/__tests__/bucketing/bucketing.test.ts:145-231 | adding a variation's variables points exactly their keys at the given feature and variation and keeps every other key's entry |
| `Bucketing.AddBucketed` | lib/shared/bucketing-assembly-script/__tests__/bucketing/bucketing.test.ts:145-231 | project and environment are kept; the feature keys gain the feature's key, which holds the feature, and other features keep theirs; `featureVariationMap` gains or replaces the feature id's entry with its variation and is otherwise unchanged |
| `Bucketing.AddBucketedVariable` | lib/shared/bucketing-assembly-script/__tests__/bucketing/bucketing.test.ts:145-231 | for any variable key: it is present afterwards exactly when it was before or the feature sets it; a key the feature sets holds the feature's last variable with that key and points at this feature and variation; any other key keeps its variable and entry |
| `Bucketing.EvaluatorKeepsIdentity` | lib/shared/bucketing-assembly-script/__tests__/bucketing/bucketing.test.ts:145-231 | each bucketed feature is reported under its own id and key |
| `Bucketing.Assemble` | lib/shared/bucketing-assembly-script/__tests__/bucketing/bucketing.test.ts:145-231 | whatever the evaluator, a successful assembly keeps the body's project and environment |
| `Bucketing.AssembleAbortsOnFirstError` | lib/shared/bucketing-assembly-script/__tests__/bucketing/bucketing.test.ts:578-628 | assembly succeeds exactly when every feature does, and otherwise fails with the first failing feature's error |
| `Bucketing.AssembleFeatureKeys` | lib/shared/bucketing-assembly-script/__tests__/bucketing/bucketing.test.ts:145-231 | the result keeps project and environment, and a feature id is in `featureVariationMap` exactly when a feature with that id was segmented |
| `Bucketing.AssembleVariableKeys` | lib/shared/bucketing-assembly-script/__tests__/bucketing/bucketing.test.ts:145-231 | each variable is filed under its own key, and `variables` and `variableVariationMap` have the same keys |
| `Bucketing.AssembleDependsOnOutcomesOnly` | lib/shared/bucketing-assembly-script/__tests__/bucketing/bucketing.test.ts:793-843 | two evaluators that agree on every feature assemble the same config |
| `Bucketing.GenerateBucketedConfig` | lib/shared/bucketing-assembly-script/__tests__/bucketing/bucketing.test.ts:145-231 | the call succeeds exactly when every feature evaluates, and otherwise throws the first failing feature's error |
| `Bucketing.LastSetterExists` | lib/shared/bucketing-assembly-script/__tests__/bucketing/bucketing.test.ts:145-231 | when some of the first n bucketed features set a variable key, one of them is the last to |
| `Bucketing.AssembleVariableKey` | lib/shared/bucketing-assembly-script/__tests__/bucketing/bucketing.test.ts:145-231 | a variable key is in the assembled config exactly when a bucketed feature sets it |
| `Bucketing.AssembleVariableValue` | lib/shared/bucketing-assembly-script/__tests__/bucketing/bucketing.test.ts:145-231 | the last bucketed feature setting a variable key decides it: the key holds that feature's last variable with the key, and `variableVariationMap` points at that feature and its variation |
| `Bucketing.AssembleVariableContents` | lib/shared/bucketing-assembly-script/__tests__/bucketing/bucketing.test.ts:145-231 | a variable key is present exactly when it has a last bucketed setter, and then holds what `AssembleVariableValue` says |
| `Bucketing.LastWithFeatureKeyExists` | lib/shared/bucketing-assembly-script/__tests__/bucketing/bucketing.test.ts:145-231 | when some of the first n features were bucketed under a feature key, one of them is the last |
| `Bucketing.AssembleFeatureKey` | lib/shared/bucketing-assembly-script/__tests__/bucketing/bucketing.test.ts:145-231 | a feature key is in the assembled config exactly when a feature with that key was bucketed |
| `Bucketing.AssembleFeatureValue` | lib/shared/bucketing-assembly-script/__tests__/bucketing/bucketing.test.ts:145-231 | the last bucketed feature with a key is the one reported under that key |
| `Bucketing.AssembleFeatureContents` | lib/shared/bucketing-assembly-script/__tests__/bucketing/bucketing.test.ts:145-231 | a feature key is present exactly when a feature with that key was bucketed, and holds the last such feature's result |
| `Bucketing.BucketedVariablesComeFromLastSetter` | lib/shared/bucketing-assembly-script/__tests__/bucketing/bucketing.test.ts:145-231 | in `generateBucketedConfig`'s result, variable key k is present exactly when a feature the user is bucketed into sets it; k holds the last such feature's last variable with key k, and `variableVariationMap[k]` is that feature's id and variation, no later bucketed feature setting k |
| `Bucketing.BucketedFeaturesComeFromLastSegmented` | lib/shared/bucketing-assembly-script/__tests__/bucketing/bucketing.test.ts:145-231 | in `generateBucketedConfig`'s result, a feature key is present exactly when a feature with that key is bucketed, and holds the last such feature's result |
| `Bucketing.FeatureVariationMapValues` | lib/shared/bucketing-assembly-script/__tests__/bucketing/bucketing.test.ts:808-821 | with distinct feature ids each segmented feature maps to the variation it was given |
| `Bucketing.EvaluatorDrawsFromConfig` | lib/shared/bucketing-assembly-script/__tests__/bucketing/bucketing.test.ts:616-628 | every variable a feature resolves is a variable of the config |
| `Bucketing.VariablesComeFromConfig` | lib/shared/bucketing-assembly-script/__tests__/bucketing/bucketing.test.ts:145-231 | every variable in the result is a config variable, under its own key and type |
| `Bucketing.FeatureAlwaysDecides` | lib/shared/bucketing-assembly-script/__tests__/bucketing/bucketing.test.ts:578-590 | with hashes in [0, 1) and complete distributions a feature never fails to decide |
| `Bucketing.CompleteDistributionsAlwaysDecide` | lib/shared/bucketing-assembly-script/__tests__/bucketing/bucketing.test.ts:578-590 | with hashes in [0, 1) and complete distributions the whole call never fails to decide: that error is reserved for broken distributions |
| `Bucketing.FirstMatchOfEquivalentUsers` | lib/shared/bucketing-assembly-script/__tests__/bucketing/bucketing.test.ts:233-380 | users matched alike by every audience get the same first target |
| `Bucketing.SegmentUnderClientData` | lib/shared/bucketing-assembly-script/__tests__/bucketing/bucketing.test.ts:793-843 | a feature segments a user with client data as it segments, with no client data, the user whose `customData` gains the client entries for the keys the user does not set |
| `Bucketing.ClientDataDefaultsCustomData` | lib/shared/bucketing-assembly-script/__tests__/bucketing/bucketing.test.ts:793-843 | the whole bucketed config with client data equals the one, with no client data, for the user whose `customData` gains the client entries for the keys the user does not set |
| `Bucketing.VariableForUser` | lib/shared/bucketing-assembly-script/__tests__/bucketing/bucketing.test.ts:578-628 | a variable is returned exactly when the config builds and holds the key with the asked type; when the call would throw, the variable is null |
| `Registry.BucketingRegistry.constructor` | lib/shared/bucketing-assembly-script/__tests__/bucketing/bucketing.test.ts:143 | no key is loaded and no client data is set |
| `Registry.BucketingRegistry.ClientData` | lib/shared/bucketing-assembly-script/__tests__/bucketing/bucketing.test.ts:806-842 | a key without client data sees none; otherwise the data last set |
| `Registry.BucketingRegistry.InitSdk` | lib/shared/bucketing-assembly-script/__tests__/bucketing/bucketing.test.ts:225 | loads or replaces one key's config; every other key and all client data are unchanged |
| `Registry.BucketingRegistry.SetClientCustomData` | lib/shared/bucketing-assembly-script/__tests__/bucketing/bucketing.test.ts:36-37 | replaces one key's client data as a whole; configs and other keys are unchanged |
| `Registry.BucketingRegistry.ClearClientCustomData` | lib/shared/bucketing-assembly-script/__tests__/bucketing/bucketing.test.ts:841-842 | drops one key's client data; everything else is unchanged |
| `Registry.BucketingRegistry.CleanupSdk` | lib/shared/bucketing-assembly-script/__tests__/bucketing/bucketing.test.ts:143 | unloads one key's config; everything else is unchanged |
| `Registry.BucketingRegistry.GenerateBucketedConfigForUser` | lib/shared/bucketing-assembly-script/__tests__/bucketing/bucketing.test.ts:52-55 | an unloaded key is an error; otherwise the key's config bucketed with the key's client data |
| `Registry.BucketingRegistry.VariableForUserOf` | lib/shared/bucketing-assembly-script/__tests__/bucketing/bucketing.test.ts:57-63 | fails exactly for an unloaded key; otherwise `variableForUser` on the key's config and client data |
| `Registry.ClientDataSession` | lib/shared/bucketing-assembly-script/__tests__/bucketing/bucketing.test.ts:806-821 | load, bucket, set client data, bucket again: the second result is the user's with the client data filling the custom-data keys the user does not set, and another key's results do not change |
| `CustomDataValidator.FromCustomValue` | lib/shared/types/src/types/validators/dvcCustomDataJSON.ts:41-48 | every custom-data leaf is a flat value |
| `CustomDataValidator.ToCustomValue` | lib/shared/types/src/types/validators/dvcCustomDataJSON.ts:41-48 | every flat value is the image of the leaf it is read as |
| `CustomDataValidator.FromCustomData` | lib/shared/types/src/types/validators/dvcCustomDataJSON.ts:34-53 | custom data becomes a plain object with the same keys and values |
| `CustomDataValidator.ToCustomData` | lib/shared/types/src/types/validators/dvcCustomDataJSON.ts:34-53 | a valid object is the image of the custom data it is read as |
| `CustomDataValidator.Validate` | lib/shared/types/src/types/validators/dvcCustomDataJSON.ts:34-53 | anything that is not a plain object is rejected, the empty object is accepted, and no property of an accepted object is `undefined` |
| `CustomDataValidator.EmptyObjectIsValid` | lib/shared/types/src/types/validators/dvcCustomDataJSON.ts:37-53 | the empty object is accepted and carries no custom data |
| `CustomDataValidator.OneBadPropertyRejects` | lib/shared/types/src/types/validators/dvcCustomDataJSON.ts:41-50 | one property that is undefined, an object, an array or another non-flat value rejects the whole object |
| `CustomDataValidator.ValidExactlyForCustomData` | lib/shared/types/src/types/validators/dvcCustomDataJSON.ts:34-53 | the validator accepts exactly the plain objects some flat custom data produces, whatever the key order |
| `CustomDataValidator.CustomDataRoundTrip` | lib/shared/types/src/types/validators/dvcCustomDataJSON.ts:34-53 | custom data written as an object is valid and reads back unchanged |
| `ServerSdk.InitializeDevCycle` | sdk/nodejs/src/index.ts:79-99 | a falsy key is "Missing SDK key!" whatever else holds; a key failing the server-key check is "Invalid SDK key provided"; otherwise a client for that key and the given (or empty) options, the cloud one exactly when `enableCloudBucketing` is true |
| `ServerSdk.Initialize` | sdk/nodejs/src/index.ts:104 | `initialize` is `initializeDevCycle` |
| `ServerSdk.MissingKeyIgnoresOptions` | sdk/nodejs/__tests__/initialize.spec.ts:22-50 | a missing key gives the same error with or without cloud bucketing |
| `ServerSdk.LocalUnlessCloudRequested` | sdk/nodejs/__tests__/initialize.spec.ts:15-20 | a valid key without options, or with the flag unset or false, yields the local client |
| `BrowserClient.PopulatedUser.constructor` | sdk/js/src/Client.ts:154-159 | a user with the given id and anonymity |
| `BrowserClient.DefaultType` | sdk/js/src/Client.ts:248-259 | undefined and null defaults are refused with "Default value is a required param"; string, number, boolean and object or array defaults have those variable types; anything else is refused |
| `BrowserClient.DefaultKey` | sdk/js/src/Client.ts:260-263 | a string default is its own memo key; any other default its JSON text |
| `BrowserClient.Resolve` | sdk/js/src/Client.ts:274-292 | a fresh variable takes the config value exactly when the config holds the key with the default's type |
| `BrowserClient.Remember` | sdk/js/src/Client.ts:294-297 | recording a variable puts it under its key and slot and keeps every other entry of every key |
| `BrowserClient.VariableFor` | sdk/js/src/Client.ts:244-304 | `variable` fails exactly for a refused default, with that error; a remembered slot returns the remembered object |
| `BrowserClient.VariableForRule` | sdk/js/src/Client.ts:244-304 | `variable` fails exactly for a refused default; a remembered slot returns the remembered object; otherwise a fresh variable whose value comes from the config exactly when the types match |
| `BrowserClient.MemoHitIgnoresConfig` | sdk/js/src/Client.ts:266-272 | a remembered variable does not depend on the current config |
| `BrowserClient.SecondLookupReturnsFirst` | sdk/js/src/Client.ts:266-297 | a second call with the same key and default returns the first call's object, whatever config arrived in between |
| `BrowserClient.StringAndBooleanDefaultsShareSlot` | sdk/js/src/Client.ts:260-272 | the string "true" and the boolean true share a memo slot, so the boolean call returns the string-defaulted variable |
| `BrowserClient.VariableEffects` | sdk/js/src/Client.ts:274-330 | a `variable` call logs the evaluated notice last, the evaluation event just before it unless automatic logging is off, and a type warning first exactly for a fresh variable whose type differs from the config's |
| `BrowserClient.CheckIfEdgeEnabled` | sdk/js/src/Client.ts:727-743 | true exactly when the project's edgeDB is enabled and the `enableEdgeDB` option is true |
| `BrowserClient.EdgeDbGateExclusive` | sdk/js/src/Client.ts:733-742 | the gate never both opens and warns; with the option unset it neither opens nor warns |
| `BrowserClient.UserSaveEffects` | sdk/js/src/Client.ts:600-625 | storing a new user saves it; a non-anonymous user is saved as an entity exactly when the edgeDB gate is open, and draws the gate's warning exactly when the option asks for edgeDB the project lacks |
| `BrowserClient.UpdateEffects` | sdk/js/src/Client.ts:627-638 | feature and variable updates are emitted against the old config or an empty one, and `configUpdated` exactly when there was no old config or the etag changed |
| `BrowserClient.ConfigChanged` | sdk/js/src/Client.ts:636-638 | the first config always counts as changed; receiving the held config again does not |
| `BrowserClient.SameEtagEmitsNoConfigUpdate` | sdk/js/src/Client.ts:636-638 | a config with the held etag emits no `configUpdated`; the first config always does |
| `BrowserClient.SseEffects` | sdk/js/src/Client.ts:641-666 | an unparseable message only logs; a parsed one refetches exactly when its data is present, its type is absent or `refetchConfig`, and the held config has no etag or another one |
| `BrowserClient.ShouldRefetch` | sdk/js/src/Client.ts:649-653 | a message with the held etag never refetches; with no config, a `refetchConfig` message does |
| `BrowserClient.CurrentEtagIsNotRefetched` | sdk/js/src/Client.ts:650-653 | a message announcing the held etag never refetches |
| `BrowserClient.OtherMessageTypesIgnored` | sdk/js/src/Client.ts:649 | a message of another type never refetches |
| `BrowserClient.DevCycleClient.constructor` | sdk/js/src/Client.ts:109-112 | a client with no config, no user, an empty memo table and nothing logged |
| `BrowserClient.DevCycleClient.AllFeatures` | sdk/js/src/Client.ts:463-465 | the config's features, or an empty map before any config |
| `BrowserClient.DevCycleClient.AllVariables` | sdk/js/src/Client.ts:470-472 | the config's variables, or an empty map before any config |
| `BrowserClient.DevCycleClient.Variable` | sdk/js/src/Client.ts:244-330 | returns what `VariableFor` describes; a fresh variable is remembered under its slot; the type warning, the evaluation event (unless automatic logging is off) and the evaluated notice are logged; a refused default changes nothing |
| `BrowserClient.DevCycleClient.HandleConfigReceived` | sdk/js/src/Client.ts:590-639 | the config is replaced and saved and no longer counts as cached; the user is stored and saved; a new or unsaved user's effects, then the update events, are logged |
| `BrowserClient.DevCycleClient.OnSseMessage` | sdk/js/src/Client.ts:641-666 | logs what `SseEffects` says and changes nothing else |
| `BrowserClient.DevCycleClient.Track` | sdk/js/src/Client.ts:526-537 | a closing client only logs an error; with custom events disabled nothing happens; an event without a type is refused; otherwise the event is queued |
| `BrowserClient.DevCycleClient.Close` | sdk/js/src/Client.ts:553-556 | the client is marked closing and nothing else in the model changes |
| `BrowserClient.ReceiveThenAnnounce` | sdk/js/src/Client.ts:590-666 | after a config with an etag arrives, a message announcing that etag refetches nothing and receiving the config again emits no `configUpdated` |

## Left out

- Audience.EffectiveCustomData: two parts of its merge order are this model's choice and are not backed by a test or by source in this model: `customData` over `privateCustomData` on a key set in both, and `privateCustomData` over client data. The engine's merge step is not part of this model. The tests back only the user's `customData` over client data (`bucketing.test.ts` lines 806-839) and private data being visible to filters (lines 593-611).
- ConfigBodies.EmitHashes: `configBody.ts` line 83 hands a `Map<string, number>` to `JSON.Obj.set`. How the JSON library writes a `Map` is not part of this model; the model assumes an object of numbers with its keys in insertion order.
- The hash algorithm (`generateBoundedHashes`) is not part of this model. It is a parameter, so the same user and target always give the same hashes. That different targets give different hashes holds only with high probability, so no lemma states it.
- The 30,000-user distribution test is statistical. `Selection.SelectionInterval` proves that each entry's hash interval has exactly its percentage as length, which is what the test samples.
- Floating-point rounding: percentages, hashes and time fractions are exact reals.
- The audience matcher is not part of this model beyond AND/OR, equality and existence comparisons on user attributes and custom data. Version, list and numeric operators are left out.
- `knownVariableKeys` and the variable-key hashing behind it are left out: the key hash is not part of this model.
- The `Variable` and `FeatureConfiguration` readers and writers, and the `jsonHelpers` getters, are not part of this model. They are parameters, or are read as "present with the right kind, else an error".
- The JSON library distinguishes integer from floating numbers, and `getNum` reads only the latter. The model has a single number kind.
- `variationKey` of a bucketed feature (expected by `bucketing.test.ts` at lines 174, 269, 277, 284 and 433) is not modelled. The `Variation` of `feature.ts` has no key member, so `Bucketing.FeatureResult` carries the variation's id and name only.
- `ConfigBodies.HashLoopAsWritten`: only its run from `i = 0`, the source's initialiser, is specified. The loop's behaviour from other starting values is not stated.
- `Bucketing.VariableForUser` returns null for every failure of the call. The message text of the thrown error is not modelled beyond the three integrity messages.
- The registry's `cleanupSDK` implementation is not part of this model. `CleanupSdk` unloads the config only. The tests clear client data separately with `setClientCustomData({})`, which `SetClientCustomData` and `ClearClientCustomData` cover.
- `getVariableTypeFromValue` is not part of this model. `BrowserClient.DefaultType` models it by JavaScript `typeof`: objects and arrays are JSON, and other values are refused. Its error message is not modelled.
- `DVCVariable` (`Variable.ts`) is not part of this model. A variable is its key, its default and the config value it took. `evalReason` is left out.
- The browser client's constructor, `clientInitialization`, `identifyUser`, `resetUser`, `getConfigCache`, the visibility handler and the window message handler are left out. They are asynchronous initialization, storage and DOM plumbing.
- `close` marks the client as closing. Closing the stream, removing listeners and flushing the event queue are left out.
- The contents of feature and variable update events are left out. Only their arguments are logged.
- Promises, network requests (`getConfigJson`, `saveEntity`), the request consolidator's queueing, the event queue's batching and the refetch's failure warning are left out, as are the storage and streaming wrappers.
- The React and Next.js glue and the example servers are left out.
- Update events do not refresh memoised variables in this model. In the source, `emitVariableUpdates` is handed `variableDefaultMap` (`Client.ts` lines 630-634) and updates the remembered `DVCVariable` objects in place, so a second `variable` call returns the same object but possibly with a newer value. `BrowserClient.SecondLookupReturnsFirst` states only that the same object comes back.
- Object identity is kept only where the client compares it: `PopulatedUser` is a class, so `user != newUser` is reference inequality.

## Findings

| source | as written | input that shows it | evidently intended | confidence | as-written member | corrected member |
|---|---|---|---|---|---|---|
| lib/shared/bucketing-assembly-script/src/types/configBody.ts:67 | `for (let i=0; i++; i < keys.length)` tests the old value of `i` (0) as its condition, so the body never runs. `variableHashes` is always empty, and the error at line 70 cannot be thrown. | a config whose `variableHashes` is `{"flag": 7.5}` (read as an empty map) or `{"flag": "x"}` (accepted instead of thrown) | `for (let i = 0; i < keys.length; i++)`: every key is read in order into the map, and the first value that is not a number throws | not executed | `ConfigBodies.ParseConfigBodyAsWritten` | `ConfigBodies.ParseConfigBody` |

Both constructors share `ConfigBodies.ReadMembers` for the members read before
the loop. The constructor as written runs the loop as written
(`ConfigBodies.ParseVariableHashesAsWritten`, over `ConfigBodies.HashLoopAsWritten`),
and `ConfigBodies.AsWrittenDiffersFromCorrected`, `ConfigBodies.AsWrittenIgnoresHashContent`
and `ConfigBodies.ConfigBodyRoundTripAsWritten` state what it loses. The corrected
constructor reads the hashes by `ConfigBodies.HashesFrom`, which the corrected loop
`ConfigBodies.ParseVariableHashes` computes, and `ConfigBodies.ConfigBodyRoundTrip`
proves its round trip. The registry and the bucketing take an already-read
`ConfigBody`, so they hold whatever hashes the corrected constructor reads.
