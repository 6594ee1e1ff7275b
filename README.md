# World Cup GraphQL resolvers in Dafny

This project models the lookup layer of a small GraphQL server over a World
Cup dataset (stadiums, teams, groups, knockout stages and their matches). The
server loads one JSON document at start-up and never changes it. Every
resolver is a read-only query over that document. It either returns a whole
collection or returns the first element whose key equals a given value.

The model is pure. The dataset is one immutable `WorldCup.Dataset` value that
every resolver takes as a parameter:

- `wrappers.dfy` (module `Wrappers`): `Option` stands for `undefined`/`null`. `Result` stands for a resolver that throws.
- `array_find.dfy` (module `ArrayFind`): `Array.prototype.find` as `FindFirst`, and JavaScript truthiness of a callback's return value (`Truthy`). Every callback goes through `Truthy`: an `===` comparison yields a boolean, and the two defective callbacks yield a function value. `IsFirstMatch` states what a first-match search must return. `UniqueBy` says no two elements share a key. There are lemmas relating `FindFirst` to a reference definition (the head of `Filter`), its first-match property and its behaviour under a callback that is always truthy.
- `js_object.dfy` (module `JsObject`): a parsed JSON object as a property map plus the key order `Object.keys` reports. `Values` is `Object.keys(o).map(key => o[key])`.
- `world_cup.dfy` (module `WorldCup`): the entities, one function per resolver of `server.js`, and lemmas about them.
- `examples.dfy` (module `Examples`): concrete queries against a two-team dataset.

A `name` argument is an `Option<string>`. An omitted or `null` argument is `None`. `===` against it is false for every name, so `group` and `knockout` find nothing without a name.

Where the code departs from what its resolvers evidently intend, the model follows the code:

- `stadium(name)` and `team(name)` ignore `name` and return the first element (see Findings). The model keeps that behaviour as `StadiumAsWritten` and `TeamAsWritten`, next to the corrected `StadiumByName` and `TeamByName`.
- Team resolution returns the first team with the name. Names need not be unique for it to succeed.
- When group names are unique, `GroupRoundTrip` proves that a group's resolved `matches` is its own embedded list. Each match then occurs in it exactly once when the embedded matches are distinct (`GroupMatchesExactlyOnce`). With a repeated group name, a later group's `matches` resolves to the first group's list, because the resolver finds the group again by name (`Examples.RepeatedGroupName`). The code checks neither condition.

## Model

| member | source | states |
|---|---|---|
| `ArrayFind.FindFirst` | server.js:93 | at every `find` call (server.js:60, 76, 93, 99, 110, 135, 150, 168, 186-187), `find` returns an element of the array that satisfies the callback, and no earlier element satisfies it; it returns `undefined` exactly when no element satisfies it |
| `ArrayFind.FindFirstIsHeadOfFilter` | server.js:93 | at every `find` call, `find` equals the first element of the filtered array, or `undefined` when the filter is empty |
| `ArrayFind.FindFirstAt` | server.js:93 | at every `find` call, a satisfying element with no satisfying element before it is exactly what `find` returns |
| `ArrayFind.FindFirstCongruent` | server.js:60 | `find` depends only on the callback's answers on the array's elements, so the `matches` re-lookups (server.js:60, 76) agree with `group`/`knockout` |
| `ArrayFind.FindFirstAlwaysTrue` | server.js:135 | with a callback that accepts everything (the defective callbacks at server.js:135 and 150), `find` returns the first element, or `undefined` on an empty array |
| `JsObject.Lookup` | server.js:157 | `keys.map(key => props[key])` has one value per key, and the value at position i is the property of the i-th key |
| `JsObject.Values` | server.js:157 | `Object.keys(o).map(key => o[key])` has exactly as many values as the object has properties, and its i-th value is the property of the i-th key |
| `JsObject.ValuesCoverProperties` | server.js:175 | every property of the object is listed by `Object.keys`, so its value is among the mapped values |
| `WorldCup.HomeTeam` | server.js:90-95 | `home_team` is the first team whose name equals the match's `home_team` string, and is absent exactly when no team has that name |
| `WorldCup.AwayTeam` | server.js:96-101 | `away_team` is the first team whose name equals the match's `away_team` string, and is absent exactly when no team has that name |
| `WorldCup.MatchStadium` | server.js:107-112 | `stadium_id` resolves to the first stadium whose id equals the match's `stadium_id`, and is absent exactly when none has it |
| `WorldCup.GroupMatches` | server.js:58-61 | a group's `matches` is the embedded list of the first group with the parent's name; it throws exactly when no group has that name |
| `WorldCup.KnockoutMatches` | server.js:74-77 | a knockout's `matches` is the embedded list of the first stage with the parent's name; it throws exactly when no stage has that name |
| `WorldCup.Stadiums` | server.js:126 | `stadiums` returns the loaded array unchanged |
| `WorldCup.StadiumAsWritten` | server.js:134-136 | `stadium(name)` as written returns the first stadium for every `name`, and is absent only when there are no stadiums |
| `WorldCup.StadiumByName` | server.js:135 | the corrected `stadium(name)` returns the first stadium with that name, and is absent exactly when none has it |
| `WorldCup.Teams` | server.js:141 | `teams` returns the loaded array unchanged |
| `WorldCup.TeamAsWritten` | server.js:149-151 | `team(name)` as written returns the first team for every `name`, and is absent only when there are no teams |
| `WorldCup.TeamByName` | server.js:150 | the corrected `team(name)` returns the first team with that name, and is absent exactly when none has it |
| `WorldCup.Groups` | server.js:156-158 | `groups` has one value per property of the groups object, as many as it has properties, and the i-th value is the property of the i-th key |
| `WorldCup.GroupByName` | server.js:166-169 | `group(name)` returns a listed group with that name and no earlier group has it; it is absent exactly when no group has it |
| `WorldCup.Knockouts` | server.js:174-176 | `knockouts` has one value per property of the knockout object, as many as it has properties, and the i-th value is the property of the i-th key |
| `WorldCup.KnockoutByName` | server.js:184-188 | `knockout(name)` returns a listed stage with that name and no earlier stage has it; it is absent exactly when no stage has it |
| `WorldCup.ListResolvers` | server.js:153-177 | `groups` and `knockouts` return one value per property of their object, in key order, and include every property's value |
| `WorldCup.TeamResolutionIgnoresIds` | server.js:88-101 | `home_team` and `away_team` do not depend on `home_team_id` or `away_team_id` |
| `WorldCup.MatchTeamsByName` | server.js:90-101 | with unique team names, a match's home and away teams are the teams bearing those names |
| `WorldCup.MatchStadiumById` | server.js:107-112 | with unique stadium ids, a match's stadium is the stadium carrying its `stadium_id` |
| `WorldCup.StadiumAsWrittenAgreesIff` | server.js:135 | the written and the corrected `stadium(name)` agree if and only if there is no stadium or the first stadium has the requested name |
| `WorldCup.StadiumAsWrittenMatchesAnyName` | server.js:135 | when no stadium has the name, `stadium(name)` as written still returns the first stadium, while the corrected lookup returns nothing |
| `WorldCup.StadiumByNameRoundTrip` | server.js:135 | with unique stadium names, the corrected `stadium(s.name)` returns `s` for every listed stadium `s` |
| `WorldCup.TeamAsWrittenAgreesIff` | server.js:150 | the written and the corrected `team(name)` agree if and only if there is no team or the first team has the requested name |
| `WorldCup.TeamByNameRoundTrip` | server.js:150 | with unique team names, the corrected `team(t.name)` returns `t` for every listed team `t` |
| `WorldCup.NoNameFindsNothing` | server.js:163-168 | without a `name` argument, `group` and `knockout` (and the corrected `stadium` and `team`) return nothing |
| `WorldCup.GroupMatchesViaGroup` | server.js:58-61 | a group's `matches` equals the embedded list of what `group(parent.name)` returns, and throws exactly when that is absent |
| `WorldCup.KnockoutMatchesViaKnockout` | server.js:74-77 | a knockout's `matches` equals the embedded list of what `knockout(parent.name)` returns, and throws exactly when that is absent |
| `WorldCup.GroupRoundTrip` | server.js:58-61 | with unique group names, `group(G.name)` returns G and G's `matches` is G's own embedded list, for every listed group G |
| `WorldCup.KnockoutRoundTrip` | server.js:74-77 | with unique stage names, `knockout(K.name)` returns K and K's `matches` is K's own embedded list, for every listed stage K |
| `WorldCup.ListedParentsResolve` | server.js:58-61 | `matches` never throws for a group or stage that `groups`/`knockouts` listed |
| `WorldCup.GroupServesItsMatches` | server.js:58-61 | with unique group names, each match embedded in a listed group is in that group's resolved `matches` |
| `WorldCup.GroupMatchesExactlyOnce` | server.js:58-61 | with unique group names and distinct embedded matches, each match of a listed group occurs exactly once in its resolved `matches` |
| `Examples.OpenerTeams` | server.js:90-112 | in a sample dataset, the opener's `home_team` is Brazil by name even though its team ids point elsewhere, and its stadium is found by id |
| `Examples.GroupAQuery` | server.js:58-61 | `group(name: "Group A")` returns the group and its `matches` are the embedded ones; an unknown `knockout` is null |
| `Examples.RepeatedGroupName` | server.js:58-61 | with two groups of the same name, the second group's `matches` resolves to the first group's embedded list |
| `Examples.NonexistentStadium` | server.js:134-136 | `stadium(name: "nonexistent")` as written returns the first stadium; the corrected lookup returns null |
| `Examples.TeamBrazil` | server.js:149-151 | `team(name: "Brazil")` as written returns the first team (Germany); the corrected lookup returns Brazil |

## Findings

| source | as written | input that shows it | evidently intended | confidence | as-written member | corrected member |
|---|---|---|---|---|---|---|
| server.js:135 | the `find` callback returns an arrow function instead of comparing, and a function is truthy, so `stadium(name)` returns the first stadium whatever the name is | any dataset with at least one stadium and the argument `name: "nonexistent"` (`Examples.NonexistentStadium`, `WorldCup.StadiumAsWrittenMatchesAnyName`) | the first stadium whose name equals the argument, or null | high; not executed | `WorldCup.StadiumAsWritten` | `WorldCup.StadiumByName` |
| server.js:150 | the same truthy arrow function makes `team(name)` return the first team whatever the name is | a dataset whose first team is not Brazil and the argument `name: "Brazil"` (`Examples.TeamBrazil`) | the first team whose name equals the argument, or null | high; not executed | `WorldCup.TeamAsWritten` | `WorldCup.TeamByName` |

## Left out

- The Express server, the `express-graphql` middleware and `server.listen` on port 4000 (server.js:1-5, 197-202). These are network I/O and external libraries.
- Loading `world-cup.json` (server.js:4). The dataset is a given immutable value, and a malformed document is not modelled.
- The GraphQL engine: schema declarations, query parsing and execution, and non-null enforcement (server.js:7-56, 66-73, 82-89, 102-106, 113-125, 127-133, 137-140, 142-148, 152-155, 159-165, 170-173, 177-183, 189-195). Non-null fields appear only as non-`Option` datatype fields. The engine's conversion of a thrown resolver error into a field error with `null` is not modelled. The model returns `Err(MatchesOfUndefined)` for it.
- Stadium `latitude` and `longitude` (server.js:26-27). They are floating-point numbers and no lookup reads them.
- The `console.log` of the knockout lookup (server.js:186). It is a side effect with no effect on the result.
- `Object.keys` ordering rules (integer-like keys first). `JsObject.RawObject.keys` is taken as the order `Object.keys` reports.
- JSON values of other types than the model's datatypes give them. Each JSON value has the type its datatype field declares: the join keys `Match.homeTeam` and `Match.awayTeam` are strings and `Match.stadiumId` is an integer, holding the raw JSON values that the schema's `home_team`, `away_team` and `stadium_id` resolvers (server.js:90-112) look up. A team name or `stadium_id` of another JSON type (a number for a name, a string for an id) never matches under `===`. The model cannot express such values. Likewise, GraphQL's coercion of a score stored as a number to a string is not modelled.
