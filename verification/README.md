# Portfolio hosting router — Dafny model

This project models the routing core of a small hosting router. A *project* owns
microservices. Each microservice has a dot-separated id such as `*`, `api` or
`api.app`. An incoming request is routed by a query built from its subdomains.
That query is matched against one compiled, anchored, case-insensitive pattern
per service id. The patterns are tried in priority order, and the first one
that matches wins.

Around that core the model covers:

- the project manager's load latch, which holds requests back until the
  project data is loaded;
- the error routing of the middleware wrapper and the error page;
- the two kind-tag factories for sources and environments;
- the `dir` life cycle of project sources;
- the environment merge of a terminal.

Files and modules:

| file | module | models |
|---|---|---|
| `wrappers.dfy` | `Wrappers` | `Option` and `Result` |
| `ids.dfy` | `Ids` | `split('.')`, `join('.')`, the id comparator and its order properties |
| `patterns.dfy` | `Patterns` | id-to-pattern compilation and the meaning of the emitted regular-expression subset |
| `project.dfy` | `Projects` | the sorted match table, the binary-search insertion, `class Project` |
| `project_examples.dfy` | `ProjectExamples` | the priority example with ids `*`, `api`, `api.app`, `*.app` |
| `project_manager.dfy` | `ProjectManagers` | `class ProjectManager`, the load latch |
| `errors.dfy` | `Errors` | `catchErrors`, `errorMiddleware`, `ConfigError` |
| `registry.dfy` | `Registry` | the table lookup both factories share |
| `sources.dfy` | `Sources` | `Sources.create`, `class Source` with its local and safe-local variants, the file system they touch |
| `environments.dfy` | `Environments` | `Environments.create` |
| `terminal.dfy` | `Terminals` | the `Terminal` constructor |

Points where the model reads the code closely:

- **Comparator.** Ids with more labels sort first. On equal label counts, the
  labels are scanned from the rightmost one down. The first position where
  exactly one label is `*` decides, and the non-wildcard side sorts first
  (the right-to-left loop of `lib/project.js:45-54`).
- **Compilation.** `String.replace` with a string pattern replaces only the
  first occurrence. So only the first `.` of an id is escaped, and only the
  first `*` becomes `.+`. A later `.` matches any one character
  (`lib/project.js:22-23`, `ProjectExamples.OnlyFirstDotEscaped`).
- **Matching.** The pattern is modelled by its tokens (`Patterns.Token`): a
  literal character, `.` (any one character except a line terminator) and
  `.+`. `Patterns.CompileMeaning` proves that tokenizing the compiled source
  gives exactly the pattern read off the id. Ids are required to be
  `Supported`: no regular-expression syntax other than `.` and `*`, and at
  most one `*`.
- **Lookup result.** `matchService` returns `-1` when nothing matches. The
  model returns `Miss`, and `Hit(service)` otherwise.
- **Binary search.** The insertion is `LowerBound` followed by a splice. It is
  proved equal to a linear reference definition (`InsertSorted`), about which
  the ordering properties are proved.
- **Latch.** Waiters are tokens. A ghost log records every waiter released, in
  order.

## Model

| member | source | states |
|---|---|---|
| Ids.Split | lib/project.js:37-38 | `split('.')` always yields at least one label |
| Ids.SplitNoDots | lib/project.js:37-38 | no label produced by the split contains a dot |
| Ids.JoinDot | lib/project.js:90 | `join('.')`; no contract of its own, characterised by `Ids.JoinSplit` and `Ids.SplitJoin` as the inverse of `Ids.Split` |
| Ids.JoinSplit | lib/project.js:37-38 | joining the labels of any id with `.` gives back the id, so the split loses nothing |
| Ids.SplitJoin | lib/project.js:90 | splitting the dot-join of dot-free labels gives back exactly those labels |
| Ids.Compare | lib/project.js:35-58 | ids with different label counts: negative exactly when the first id has more labels; the rest of its meaning is stated by `Ids.CompareSpec`, `Ids.CompareAntisymmetric` and `Ids.CompareTransitive` |
| Ids.WildDiffSpec | lib/project.js:45-57 | the wildcard scan returns 0 iff no position differs in wildcard status; otherwise the rightmost differing position decides, +1 when the first id is the wildcard there |
| Ids.CompareSpec | lib/project.js:35-58 | more labels sort first; on equal counts, a tie iff all positions agree in wildcard status, otherwise the rightmost differing position decides with the non-wildcard side first |
| Ids.CompareAntisymmetric | lib/project.js:35-58 | swapping the arguments negates the comparison |
| Ids.CompareTransitive | lib/project.js:35-58 | the comparator is a total preorder: "no later" is transitive, and so is "strictly before" chained with it on either side |
| Ids.OrderedUnique | lib/project.js:60-70 | two orderings of the same multiset of ids, with no ties between distinct ids, are the same sequence |
| Patterns.ReplaceFirst | lib/project.js:22-23 | a string without the searched character is returned unchanged |
| Patterns.ReplaceFirstSplit | lib/project.js:22-23 | only the first occurrence is replaced; the text before it and after it is kept |
| Patterns.Compile | lib/project.js:19-25 | the pattern is case-insensitive and anchored by `^`…`$`, and its body is the id with the first `.` turned into `\.` and then the first `*` turned into `.+` |
| Patterns.Tokens | lib/project.js:19-25 | how the regular-expression engine reads a compiled body, for the emitted subset; no contract of its own, tied to the id by `Patterns.CompileMeaning` |
| Patterns.MatchTokens | lib/project.js:76 | whole-string matching of the token sequence (the pattern is anchored); no contract of its own, characterised by `Patterns.MatchTokensLength`, `Patterns.AnyPlusPrefix` and `Patterns.MatchIgnoresCase` |
| Patterns.Test | lib/project.js:76 | `regex.test(str)` for an anchored pattern; no contract of its own, `Patterns.CompileMeaning` states which strings pass for a compiled id |
| Patterns.IdTokens | lib/project.js:19-25 | the pattern read off an id has one token per id character |
| Patterns.CompileMeaning | lib/project.js:19-25 | for a supported id, the compiled source tokenizes to the id's own pattern (first `.` literal, later `.` any character, first `*` one or more characters, everything else literal), so `test` matches exactly the strings that pattern matches |
| Patterns.MatchTokensLength | lib/project.js:75-77 | a match consumes at least one character per token, and exactly one per token when there is no `.+` |
| Patterns.AnyPlusPrefix | lib/project.js:23 | `.+` consumes any non-empty run of characters other than line terminators before the rest of the pattern |
| Patterns.MatchIgnoresCase | lib/project.js:24 | with the `i` flag, matching gives the same answer on a string and on its ASCII-lower-cased form |
| Projects.LowerBound | lib/project.js:60-67 | on a sorted table, the search stops at the index before which every entry ranks strictly higher than the id and from which none does |
| Projects.HigherPriorityPrefix | lib/project.js:63-67 | in a sorted table, the entries that do not rank strictly higher than an id form a suffix |
| Projects.InsertSorted | lib/project.js:60-70 | the reference insertion: one entry longer; `Projects.InsertSortedSpec` states where the entry goes and that order and contents are kept |
| Projects.InsertSortedAt | lib/project.js:70 | inserting at that lower bound is the splice of the new entry at that index |
| Projects.InsertSortedPosition | lib/project.js:60-70 | the insertion has a position: every entry before it ranks strictly higher and the entry at it (if any) does not |
| Projects.InsertSortedSpec | lib/project.js:60-70 | insertion into a sorted table adds exactly one entry, keeps the old entries in their relative order, puts the new entry before earlier entries of equal priority, and keeps the table sorted |
| Projects.InsertRoute | lib/project.js:17-29 | registering a supported id keeps the table sorted and compiled and adds exactly that id to the ids the table knows |
| Projects.BuildTableSpec | lib/project.js:8-15 | registering supported ids in any order gives a sorted, compiled table with one entry per registration, duplicates included |
| Projects.RegistrationOrderIrrelevant | lib/project.js:8-15 | when no two distinct ids tie, the table does not depend on the order in which the services were registered |
| Projects.RegisterStep | lib/project.js:14 | one more registration inserts one more route and overwrites the service under that id |
| Projects.FirstMatch | lib/project.js:75-78 | the index of the first entry whose pattern matches, or -1 exactly when no entry matches |
| Projects.ServiceQuery | lib/project.js:90 | the query is never empty, and it is `@` when there is at most one subdomain |
| Projects.ServiceQueryLabels | lib/project.js:90 | the query is `@` exactly when the reversed remainder joins to the empty string or to `@`; otherwise it splits back into the subdomains after the first, in reverse order |
| Projects.Project.constructor | lib/project.js:8-15 | a new project keeps its id, maps each service id to its last config and holds the table of all ids registered in order, with the class invariant established |
| Projects.Project.AddMicroservice | lib/project.js:17-29 | the service is stored under its id, overwriting an earlier one, and the table grows by its compiled route even for a duplicate id; the invariant is kept |
| Projects.Project.InsertServiceRegex | lib/project.js:32-71 | the binary search plus splice equals the reference insertion and keeps the table sorted |
| Projects.Project.MatchService | lib/project.js:74-83 | a miss exactly when no pattern matches; otherwise the service stored under the id of the first matching entry |
| Projects.Project.HandleRequest | lib/project.js:87-104 | on a miss the response is `Service '<query>' not found` and no service is called; otherwise the request goes to exactly the matched service |
| ProjectExamples.ExpectedStrictlyOrdered | lib/project.js:35-58 | `api.app` outranks `*.app`, which outranks `api`, which outranks `*` |
| ProjectExamples.PriorityIds | lib/project.js:8-15 | registering `*`, `api`, `api.app`, `*.app` in any order gives the table order `api.app`, `*.app`, `api`, `*` |
| ProjectExamples.FirstMatchByIds | lib/project.js:75-78 | in a compiled table, the entry found is the first whose id's pattern matches the query |
| ProjectExamples.PriorityQueries | lib/project.js:74-83 | in that table the queries `api.app`, `other.app`, `api`, `other` find entries 0, 1, 2 and 3 |
| ProjectExamples.ProjectResolves | lib/project.js:74-83 | a project with those four services resolves `api.app`, `other.app`, `api`, `other` to the services `api.app`, `*.app`, `api`, `*` |
| ProjectExamples.OnlyFirstDotEscaped | lib/project.js:22 | the compiled pattern of `a.b.c` also accepts `a.bxc`, because only the first dot is escaped |
| ProjectManagers.ProjectManager.constructor | lib/project-manager.js:5-10 | a new manager is not loaded, has no waiters and halts while loading unless told otherwise |
| ProjectManagers.ProjectManager.WaitLoad | lib/project-manager.js:59-67 | resolves at once iff the manager does not halt or is loaded, changing nothing; otherwise appends exactly this waiter to the end of the queue |
| ProjectManagers.ProjectManager.SetLoaded | lib/project-manager.js:69-80 | stores the flag; on `true` releases every queued waiter once, in queue order, and empties the queue; on `false` releases and removes nothing |
| ProjectManagers.ProjectManager.AddProjects | lib/project-manager.js:14-17 | with `finishedLoading` the latch ends loaded with every waiter released in order; without it nothing changes |
| Errors.Name | lib/errors.js:50-55 | the error's `name`; no contract of its own, `Errors.NewConfigError` states that a new `ConfigError` is named `ConfigError` |
| Errors.NewConfigError | lib/errors.js:50-55 | a `ConfigError` named `ConfigError` carrying the given message, which defaults to the empty string |
| Errors.CatchErrors | lib/errors.js:7-27 | nothing is invoked when the middleware completes; a throw on a socket goes to the error middleware, a throw on a response to `next`, always with the same error |
| Errors.ErrorMiddleware | lib/errors.js:29-46 | the error is logged first and only once; a socket is destroyed with the error and gets no response; a response gets status 500 with the setup message iff the error is a `ConfigError`, and the generic message otherwise |
| Errors.ResponseHidesDetails | lib/errors.js:39-45 | the response depends only on whether the error is a `ConfigError`, not on its message or name |
| Errors.SocketThrowDestroys | lib/errors.js:7-36 | a throw on a socket leads to the error being logged and the socket destroyed with that error, with nothing written |
| Registry.Lookup | lib/sources/index.js:14-18 | succeeds iff the kind is in the table, with that entry; otherwise exactly the `ConfigError` with message `<what> kind not found: <kind>` |
| Registry.LookupReportsKind | lib/sources/index.js:15 | two different unknown kinds give different errors, because the message embeds the kind |
| Sources.SourceClassOf | lib/sources/index.js:7-18 | the factory never picks the base class, and an unknown kind fails with the `ConfigError` `Source kind not found: <kind>` |
| Sources.SourceTableTags | lib/sources/index.js:7-18 | `local` gives `SrcLocal`, `safe-local` gives `SrcSafeLocal`, and no other kind succeeds |
| Sources.Create | lib/sources/index.js:14-18 | an unknown kind constructs nothing and fails with the lookup's error; a known kind yields a fresh source of that class holding the config unchanged and an empty `dir` |
| Sources.Join | lib/sources/local.js:16 | `path.join` without normalisation; no contract of its own, `Sources.JoinThree` states the three-part join |
| Sources.LocalPath | lib/sources/local.js:16 | the canonical project directory; no contract of its own, `Sources.LocalTempDistinct` separates it from the temporary one |
| Sources.TempPath | lib/sources/safe-local.js:18 | the temporary copy directory; no contract of its own, `Sources.LocalTempDistinct` separates it from the canonical one |
| Sources.JoinThree | lib/sources/safe-local.js:17-18 | joining three parts puts one `/` between neighbours and keeps each part as it is |
| Sources.LocalTempDistinct | lib/sources/safe-local.js:17-18 | the copy source and destination of a safe-local fetch are different paths (joined without normalisation) |
| Sources.FileSystem.Copy | lib/sources/safe-local.js:20 | the copy succeeds iff the source path exists, and then adds the destination and logs the copy |
| Sources.FileSystem.Remove | lib/sources/source.js:19 | removes the path and logs the removal |
| Sources.Source.constructor | lib/sources/source.js:7-10 | a new source keeps its config unchanged and has an empty `dir` |
| Sources.Source.Fetch | lib/sources/safe-local.js:16-24 | base: nothing changes; local: `dir` becomes the canonical path and is returned, nothing is copied; safe-local: copies the local path to the temporary path and sets and returns `dir` only if the copy succeeded |
| Sources.Source.Clear | lib/sources/source.js:16-20 | removes exactly `dir` when it is non-empty, nothing when it is empty, and nothing for a local source; `dir` itself is kept |
| Environments.Create | lib/environments/index.js:14-18 | a constructed environment holds the config and workdir unchanged and belongs to the class registered under the config's kind; an unknown kind fails with the `ConfigError` `Environment kind not found: <kind>` |
| Environments.CreateByTag | lib/environments/index.js:7-18 | `static-web` and `nodejs-web` build their classes, and no other kind succeeds |
| Terminals.NewTerminal | lib/environments/terminals/terminal.js:4-11 | the workdir is kept; the environment's keys are the union of both key sets; supplied variables keep their supplied values and the others keep the process's values; no process is attached |

## Left out

- Logging (`logger.*`, `console.log`), the HTTP server wiring, and every other
  I/O. The process environment is a parameter of `Terminals.NewTerminal`, and
  the directory of the source modules is a parameter of `Sources.Create`.
- Promise and `async` scheduling. A pending `waitLoad` is a token in the queue,
  and a released one is recorded in the ghost `released` log. The await
  itself is not modelled.
- `addProject` and `launchProject` have empty bodies in this version, so
  `ProjectManager.AddProjects` only affects the latch. The two middleware
  factories of the manager only wait, print and answer `Hello World!`, and are
  not modelled.
- `Microservice.handleRequest` is a stub. `Project.HandleRequest` returns
  which service the request is delegated to, not what that service does.
- Full JavaScript regular expressions. Only the subset compilation emits is
  modelled. `Project.constructor` and `Project.AddMicroservice` require
  `Supported` ids: ids with other regular-expression syntax, or with a second
  `*`, which would turn into a quantifier, are excluded. The `i` flag is
  modelled as ASCII case folding only.
- `Projects.LowerBound`: uses `(low + high) / 2` for `(low + high) >>> 1`. The
  two agree for every table of at most 2^31 entries. For longer tables
  `low + high` can exceed 2^32 - 1, and `>>>` wraps it around.
- `path.join` normalisation, for example `..` inside `src`, which could make
  the local and temporary paths coincide. `Sources.Join` joins the parts with
  `/` as they are.
- The real file system. Paths are atomic members of a set, removing a path
  does not remove the paths below it, and `fs.copy` fails only when its
  source path is missing.
- JavaScript prototype lookups in the factory tables. For example, a kind of
  `constructor` would find a truthy inherited property. Each table is a
  closed two-entry map.
- `Terminal.run` and `Terminal.kill` have empty bodies in the base class, and
  the model has no state for them to change. The environment classes
  (`environment.js`, `nodejs-web.js`, `static-web.js`) and the `exec`
  terminal wrap libraries that are not part of this model.
- `Errors.ErrorMiddleware`: the effects are a returned list of steps. Whether
  Express later routes a `next(err)` to the error middleware is not part of
  this model.
