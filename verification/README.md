# Problems index controller, modelled in Dafny

This project models the core of the problems controller of the maratonando site
(`src/controllers/problems.js`). The controller keeps an in-memory index of
competitive-programming problems. It has three parts.

- **Membership map.** The process-wide `problems` object maps the id of every indexed problem to `true`.
- **Refresh pass.** `runProblemsIndexer` runs from a cron job. It fetches every problem record from the store. For each record that is `imported` and whose `_id` is not yet in the map, it sets `problems[_id] = true` and hands the record to the search library with `addProblem`.
- **Request checks.** `searchProblems` validates a search request before it reaches the library's `match`. `isIndexed` tells other server code whether every string id of an array is indexed.

Files and modules:

- `js_values.dfy`, module `JsValues`: JavaScript values. It covers what `_.isString` and `_.isArray` test, truthiness (`x || []`, `!x`), and string `length` counted in UTF-16 code units.
- `search.dfy`, module `Search`: the accept/reject decision of `searchProblems`.
- `refresh.dfy`, module `Refresh`: the problem record and, as functions, what one pass does. `NewPositions` and `NewEntries` give the fetched positions and records a pass hands to the index, in order.
- `problems.dfy`, module `Problems`: the class `ProblemIndex`. It holds the membership map (`problems: map<string, bool>`) and the sequence of records handed to `addProblem` (`entries`). Its methods are the refresh loop (`IndexRecords`, plus `RunProblemsIndexer` around it for a failed fetch) and the `isIndexed` loop.

The class invariant `Valid()` (`Consistent`) states four things:

- the map holds only `true`;
- the map's keys are exactly the ids handed to the index;
- every record handed over was imported;
- no id was handed over twice.

Every pass keeps this invariant, so `addProblem` sees each id at most once over any number of passes.

Three behaviours of the code that are easy to misread; the model follows the code:

- Any *falsy* `req.body.problems` defaults to an empty exclusion list: `null`, `false`, `0`, `NaN` and `""` as well as an absent one. A truthy non-array is rejected.
- The query length bounds 3 and 50 count UTF-16 code units, as JavaScript's `length` does, not characters.
- `isIndexed` does not quite check "every string element is present". See "## Findings".

## Model

| member | source | states |
|---|---|---|
| `JsValues.Utf16Length` | src/controllers/problems.js:57 | a string's `length` lies between its number of characters and twice that, and equals the number of characters exactly when every character is in the Basic Multilingual Plane |
| `Search.ValidateSearch` | src/controllers/problems.js:53-59 | a search is accepted exactly when the query is a string of 3 to 50 code units and the exclusion list is falsy or an array of at most 26 entries; an accepted request hands `match` the query and the list, or [] when the list was falsy; anything else is a 400 |
| `Search.FalsyExclusionsAreEmpty` | src/controllers/problems.js:54 | every falsy `problems` value is treated exactly like [] |
| `Search.NonArrayExclusionsRejected` | src/controllers/problems.js:55-56 | a truthy `problems` that is not an array is rejected whatever the query |
| `Search.ValidationBoundaries` | src/controllers/problems.js:57-58 | query lengths 2 and 51 are rejected and 3 and 50 accepted; 27 exclusions are rejected and 26 accepted; a non-string query is rejected |
| `Search.AstralQueryLength` | src/controllers/problems.js:57 | 25 characters outside the BMP (50 code units) are accepted and 26 (52 code units) are rejected |
| `JsValues.AllAstral` | src/controllers/problems.js:57 | a string made only of characters outside the BMP has twice as many code units as characters |
| `Refresh.NewPositionsSpec` | src/controllers/problems.js:25-31 | the positions a pass indexes are strictly ascending, and position i is among them exactly when record i is imported, its id was not in the map before the pass, and no earlier imported record of the pass has that id |
| `Refresh.NewEntriesAt` | src/controllers/problems.js:30 | the k-th record handed to `addProblem` by a pass is the fetched record at the k-th indexed position |
| `Refresh.NewEntriesStep` | src/controllers/problems.js:27-31 | handling one more record extends the indexed positions and records by that record exactly when it is a first new imported occurrence, and leaves the rest unchanged |
| `Refresh.FirstNewIffUnseen` | src/controllers/problems.js:28 | the guard `!problems[id] && imported`, evaluated on the map as it stands mid-pass, holds exactly when the record is a first new imported occurrence |
| `Refresh.NewEntriesFromImported` | src/controllers/problems.js:28-30 | every record a pass hands to `addProblem` is imported and is one of the fetched records |
| `Refresh.NewEntriesIds` | src/controllers/problems.js:28-30 | a pass hands each id over at most once, never an id already in the map, and hands over exactly the imported ids not already in the map |
| `Refresh.NothingNewNoPositions` | src/controllers/problems.js:25-31 | a pass in which no record passes the guard hands nothing to the index |
| `Refresh.SecondPassIndexesNothing` | src/controllers/problems.js:28-30 | once the imported ids of a fetched sequence are in the map, another pass over it hands nothing to `addProblem` |
| `Refresh.PassScenario` | src/controllers/problems.js:25-31 | over records 1 and 2 (imported), 3 (not imported) and a later duplicate of 1, a first pass indexes exactly records 1 and 2, in that order |
| `Refresh.ScenarioMembership` | src/controllers/problems.js:28-29 | the imported ids of that scenario are exactly 1 and 2, so record 3 cannot enter the map |
| `Problems.ScenarioFromEmpty` | src/controllers/problems.js:15-31 | a pass over that scenario from a fresh index leaves the map with keys exactly 1 and 2 and calls `addProblem` for records 1 and 2 only, in that order |
| `Problems.AddKeepsConsistent` | src/controllers/problems.js:28-30 | setting `problems[id] = true` and calling `addProblem` for an imported record whose id is not a member keeps the map and the index consistent |
| `Problems.MemberIffEntry` | src/controllers/problems.js:28-29 | in a consistent state, an id is a member exactly when a record with that id was handed to `addProblem` |
| `Problems.ProblemIndex.constructor` | src/controllers/problems.js:15 | the map starts empty and nothing has been indexed |
| `Problems.ProblemIndex.IndexRecords` | src/controllers/problems.js:25-35 | a pass keeps the invariant; the map's keys grow by exactly the imported fetched ids, so every imported fetched record's id is a member and no key is lost; the index grows by exactly `NewEntries` of the pass |
| `Problems.ProblemIndex.RunProblemsIndexer` | src/controllers/problems.js:17-42 | a run whose fetch fails changes nothing; otherwise it is one pass over the fetched records |
| `Problems.RefreshTwice` | src/controllers/problems.js:25-31 | two passes over the same records leave the map and the index exactly as one pass does |
| `Problems.ProblemIndex.IsIndexed` | src/controllers/problems.js:81-88 | the corrected check returns true exactly when the input is an array and each of its string elements is an own member of the map |
| `Problems.NonArrayNotIndexed` | src/controllers/problems.js:82 | the answer for anything that is not an array is false |
| `Problems.NonStringsIgnored` | src/controllers/problems.js:83-86 | appending or prepending non-string elements does not change the answer, and an array of non-strings (including []) is accepted |
| `Problems.ProblemIndex.IsIndexedAsWritten` | src/controllers/problems.js:81-88 | the code as written returns true exactly when the input is an array and, for each string element, `problems[id]` is truthy, counting members inherited from Object.prototype |
| `Problems.InheritedNameCounterexample` | src/controllers/problems.js:85 | on an empty map the code as written accepts `["toString"]`, which the intended check rejects |
| `Problems.AsWrittenAgreesOffPrototype` | src/controllers/problems.js:85 | the as-written and intended checks agree whenever no string element is an inherited name missing from the map |

## Findings

| source | as written | input that shows it | evidently intended | confidence | as-written member | corrected member |
|---|---|---|---|---|---|---|
| src/controllers/problems.js:85 | `problems` is an object literal. So `!problems[id]` is false for every name the object inherits from Object.prototype (`toString`, `constructor`, `__proto__`, ...), and `isIndexed` accepts those ids. | `isIndexed(["toString"])` with nothing indexed returns true | true only when every string element is an id that the refresh pass put into the map (an own key), e.g. by using a `Map`/`Set` or `Object.create(null)` | not executed; rests on JavaScript's standard property lookup | `Problems.ProblemIndex.IsIndexedAsWritten`, `Problems.InheritedNameCounterexample` | `Problems.ProblemIndex.IsIndexed` |

## Left out

- Problems.ProblemIndex.IndexRecords: the guard reads only the map's own keys. As written, a record whose `_id` names an Object.prototype member (for instance `"constructor"`) is never indexed. Store ids are ObjectId hex strings and cannot take such a name, so the model leaves that case out.
- The search library `cpio-pindexer` is not part of this model (lines 6, 18, 30, 59). `addProblem` is modelled only as an append to `entries`. `match` is modelled only as the arguments it would be given (`Search.Accepted`). `setReturnSize(10)`, substring matching, exclusion and the result cap are not modelled.
- `Problem.find` and `Problem.findById` belong to the backing store (lines 22, 68-70). A fetch is a parameter of `RunProblemsIndexer`: the records, or a failure. The get-by-id handler `exports.get` (lines 65-79) is a store pass-through with a field projection and is not modelled.
- The `CronJob` schedule, its timezone and run-on-init (lines 12-13, 44-50) are wall-clock scheduling and are not modelled. Each call of `RunProblemsIndexer` stands for one tick.
- The `async.waterfall` / `eachSeries` / `setImmediate` plumbing (lines 19-41) is modelled as a plain sequential loop. Other handlers and a second tick could interleave with a pass at each `setImmediate`, and the model does not cover that interleaving. Each record's check-and-set runs synchronously, so interleaving cannot double-index an id.
- The swallowed error in the final waterfall callback and the `console.log` calls (lines 38-40, 76) are logging and are not modelled.
- HTTP responses (`res.sendStatus`, `res.json`) are transport. The validation yields `BadRequest` (status 400) or `Accepted`.
- `_id` is modelled as a string, the key it is coerced to. `imported` is modelled as a boolean, not an arbitrary truthy value.
- JavaScript strings that hold lone surrogates cannot be written as Dafny strings. The model's strings are sequences of Unicode scalar values, and their length is counted in UTF-16 code units. A String wrapper object (which `_.isString` also accepts) is modelled as `Obj`.
