# actions-manager in Dafny

A model of the two runtime components of `actions-manager`, with proofs of what
they promise.

- **`ActionManager`** (`src/core/utils/manager.ts`). It keeps an ordered
  registry of actions and a replaceable context. `canExecute` and `execute` look
  an action up by the first id match. The private `testAction` turns the
  action's policy specification into one boolean.
  - The specification is `null`, a single policy, or an array whose elements
    are policies or nested arrays (OR-groups).
  - An array is an AND of its elements.
  - Every element is evaluated: there is no short circuit.
  - A failing policy counts as `false`.
- **`Fetcher`** (`src/core/utils/fetcher.ts`). `fetch` turns an endpoint
  descriptor and a parameter record into one HTTP request and hands it to the
  HTTP client. The steps are, in order:
  1. check the required parameters;
  2. assemble the query pairs;
  3. substitute the `:name` placeholders;
  4. append the query to the path with `?`;
  5. select the body and the headers.

  It then remaps the response (`mapperKey`, `mapper`) or translates the error.
  The fetcher also holds a replaceable HTTP client and a lazily created
  singleton.

Files:

- `wrappers.dfy`: `Option`.
- `js.dfy`: the JavaScript values `fetch` handles (`undefined`, `null`,
  booleans, integers, `NaN`, strings, arrays, plain objects). It defines their
  truthiness, `v == 0` for falsy values, and `String(v)`.
- `policies.dfy`: `testAction`. It has two parts:
  - the evaluator as the source computes it (`TestAction`);
  - a reference semantics (`Permits`), together with the lemmas that connect
    the two.
- `manager.dfy`: the `ActionManager` class, lookup, and the intended
  `getActions` filter.
- `fetching.dfy`: `fetch` as imperative loops, proved equal to the
  specification function `FetchSpec`; properties of `FetchSpec`; the `Fetcher`
  class and the singleton slot.

Modelling choices:

- **Policy tests.** A policy is an opaque handle. Its `test`, applied to the
  context, is a function supplied by the caller. That function yields one of:
  - `Resolved(b)`: a value, or a promise that fulfils;
  - `Rejected`: a promise that rejects;
  - `SyncThrow`: a synchronous throw.

  Every evaluation returns a log of the policies whose `test` was invoked, in
  invocation order.
- **`Promise.allSettled` over `map`.** It starts every branch in order before
  awaiting any. It is modelled as invoking the branches in order, then folding
  the settled results.
- **Synchronous throws in a group.** Inside a nested group
  (`src/core/utils/manager.ts:56`), a synchronous throw escapes the group's
  `map`. It rejects the whole element, so the group counts as `false` even if a
  sibling resolved to `true`. The model keeps this behaviour. An asynchronous
  rejection only fails its own member. This departs from the evident intent of
  `Promise.allSettled`, which is to isolate every member; see "## Findings".
- **The `fetch` guard `v || v == 0`.** It admits every value except
  `undefined`, `null` and `NaN`, so `''` and `false` are sent as query values
  and substituted into the path.
- **Path defaults.** A path parameter with a `default` and no value passes the
  guard on line 74. Line 76 then calls `.toString()` on `undefined`, which is a
  `TypeError`. The model therefore never substitutes a default
  (`DefaultNeverSubstituted`).
- **HTTP client and mapper.** Both are functions given to the model. The
  singleton's default client is a constructor argument.
- **`setActions`.** The registry is a value (`seq`): `setActions` stores a copy.
- **Substitution before the query.** The source appends the query to the path
  first and substitutes on the whole URL
  (`src/core/utils/fetcher.ts:69-78`). `URLSearchParams` percent-encodes `:` as
  `%3A`, so a placeholder never matches inside the query. The model therefore
  substitutes on the endpoint's path and appends the query afterwards, which
  sends the same URL. This matters because the model's query is not
  percent-encoded (see "## Left out").

## Model

| member | source | states |
|---|---|---|
| Policies.TestAction | src/core/utils/manager.ts:49-77 | The decision is `true` exactly when the reference semantics `Permits` holds. `null` permits without invoking any test. A single policy invokes just its own test and decides by it, with a failure deciding `false`. |
| Policies.InvokeGroup | src/core/utils/manager.ts:56 | `group.map(p => p.test(ctx))` invokes the members' tests in order, each once. It stops right after the first member that throws synchronously, and only there. |
| Policies.SomeTrue | src/core/utils/manager.ts:57 | `some(fulfilled && value === true)` is `true` exactly when some settled entry is `Fulfilled(true)`. |
| Policies.EveryTrue | src/core/utils/manager.ts:68 | `every(fulfilled && value === true)` is `true` exactly when all settled entries are `Fulfilled(true)`, so it is `true` for none. |
| Policies.RunElem | src/core/utils/manager.ts:54-66 | An element fulfils with `true` exactly when it `Holds`: a bare policy that resolved to `true`, or a group with a member resolved to `true` and no synchronous throw. Its log is a prefix of its policies. A bare policy invokes its own test. An intact group invokes every member. |
| Policies.RunElemsAgree | src/core/utils/manager.ts:53-67 | Every element of the list is run, one result per element. Each settles with `true` exactly when it `Holds`. Each invokes all of its policies unless it is a group with a synchronous throw, whatever the other elements yield: a throwing group does not cut short the elements after it. |
| Policies.SyncThrowMasksTrueMember | src/core/utils/manager.ts:56-57 | As written, a group whose first member resolves to `true` and whose second member throws synchronously rejects. Both members are invoked, and the decision is `false`. |
| Policies.RunGroupIsolated | src/core/utils/manager.ts:55-57 | Corrected group: every member is isolated, so the group is `true` exactly when some member resolved to `true`, whatever the others did. |
| Policies.EveryLeafInvokedOnce | src/core/utils/manager.ts:52-68 | Without synchronous throws inside groups, a decision invokes every policy occurrence exactly once, in document order. There is no short circuit after a `false` element. |
| Policies.EmptyListPermitsEmptyGroupDenies | src/core/utils/manager.ts:52-68 | An empty policy list permits. A list holding an empty group denies. |
| Policies.GroupWithTrueMember | src/core/utils/manager.ts:55-57 | A group with a member that resolves to `true` holds exactly when no member throws synchronously. Rejected siblings do not matter. |
| Policies.FailuresOnlyDeny | src/core/utils/manager.ts:58-76 | Turning resolved tests into rejections or throws can only turn a `true` decision into `false`, never the reverse: errors deny and are never rethrown. |
| Manager.Find | src/core/utils/manager.ts:35 | `find` by id returns the index of the first action with that id. It returns nothing exactly when no action has it. |
| Manager.FindAfterAppend | src/core/utils/manager.ts:26-28 | Appending an action never changes what an id already resolves to. A duplicate id is accepted and stays shadowed. A new id resolves to the appended action. |
| Manager.ActionManager.constructor | src/core/utils/manager.ts:7-12 | A new manager holds the given context and an empty registry. |
| Manager.ActionManager.SetContext | src/core/utils/manager.ts:14-16 | The context becomes the argument. The registry is unchanged. |
| Manager.ActionManager.GetContext | src/core/utils/manager.ts:18-20 | Returns the current context. |
| Manager.ActionManager.SetActions | src/core/utils/manager.ts:22-24 | The registry becomes exactly the argument. The context is unchanged. |
| Manager.ActionManager.AddAction | src/core/utils/manager.ts:26-28 | The registry becomes the old registry followed by the action, with no duplicate check. The context is unchanged. |
| Manager.ActionManager.GetActions | src/core/utils/manager.ts:30-32 | As written: every registered action is returned in order, whatever its policies decide. Every action's policies are still evaluated. |
| Manager.PermittedActions | src/core/utils/manager.ts:30-32 | The intended filter: an order-preserving subsequence of the registry, and a sub-multiset of it. Every listed action is permitted. Every permitted action is listed as many times as it is registered. |
| Manager.GetActionsListsDenied | src/core/utils/manager.ts:30-32 | An action whose policies deny is listed by `getActions` but left out by the intended filter. |
| Manager.RegistryLogAllLeaves | src/core/utils/manager.ts:30-32 | When no group throws synchronously, listing the actions invokes every policy occurrence of every action exactly once, in registry order and then in document order. |
| Manager.ActionManager.CanExecute | src/core/utils/manager.ts:34-38 | The answer is `true` exactly when the first action with the id exists and its policies permit under the current context. An unknown id gives `false` without invoking any policy. |
| Manager.ActionManager.Execute | src/core/utils/manager.ts:40-47 | The checks run in this order of precedence. An unknown id fails with "Action <id> not found" before any policy runs. A denial fails with "Action <id> not allowed" and never calls the executor. A missing executor fails with "has no exec method". Otherwise the executor is called exactly once, with the given params, and its reply is returned. |
| Manager.ScenarioAllowed | __tests__/ActionManager/ActionManager.test.ts:33-44 | The added action is listed. With an admin context it executes to "Executed with test". |
| Manager.ScenarioDenied | __tests__/ActionManager/ActionManager.test.ts:46-59 | A non-admin policy under an admin context fails with "Action test-action not allowed", with no executor call. |
| Manager.ScenarioUnknown | src/core/utils/manager.ts:34-42 | An unknown id cannot be executed, and executing it fails with "Action non-existent-action not found". |
| Manager.ScenarioCanExecute | src/core/utils/manager.ts:34-38 | The admin-only action can be executed under an admin context. |
| Manager.ScenarioCleared | src/core/utils/manager.ts:22-24 | After `setActions([])`, a previously registered id can no longer be executed. |
| Fetching.MissingRequired | src/core/utils/fetcher.ts:36-40 | The reported name is that of the first parameter, in declaration order, that is required, has no default and has a falsy value. Nothing is reported exactly when no such parameter exists. |
| Fetching.FindMissing | src/core/utils/fetcher.ts:38-40 | The `forEach` check stops at, and reports, the first missing parameter. |
| Fetching.MissingParameterReported | src/core/utils/fetcher.ts:36-40 | `fetch` fails with "Missing required parameter: <name>" for the first missing parameter, and the HTTP client is never called. |
| Fetching.Admitted | src/core/utils/fetcher.ts:46 | `v \|\| v == 0` holds exactly when `v` is neither `undefined`, `null` nor `NaN`. |
| Fetching.IndexProps | src/core/utils/fetcher.ts:50-52 | Seen as an object, an array element has pairwise distinct keys (the decimal indices). Reading `value[key]` back under the key of index `k` gives element `k`. |
| Fetching.AppendProps | src/core/utils/fetcher.ts:59-62 | An object value appends one `name[key]` pair per key, in key order. |
| Fetching.AppendElements | src/core/utils/fetcher.ts:47-57 | An array value appends its elements' pairs in order. A `null` element throws and ends the loop. |
| Fetching.ScalarElementsPairs | src/core/utils/fetcher.ts:49-56 | An array of scalars contributes exactly one `name=value` pair per element, in order. |
| Fetching.BuildQuery | src/core/utils/fetcher.ts:42-67 | The query loop computes the query pairs of `QueryPairs`, or the failure raised while computing them. |
| Fetching.QueryPairsInOrder | src/core/utils/fetcher.ts:45-67 | Parameters contribute in declaration order: the pairs of `ps1 + ps2` are those of `ps1` followed by those of `ps2`, and the first failure wins. |
| Fetching.QueryPairsComeFromQueryParams | src/core/utils/fetcher.ts:42-67 | Every query pair is written by a query-scoped parameter with an admitted value, under that parameter's `name` or as `name[...]`. |
| Fetching.Serialize | src/core/utils/fetcher.ts:69 | The serialised query is empty exactly when there are no pairs. |
| Fetching.JoinQuery | src/core/utils/fetcher.ts:69 | The URL is the path itself when the query is empty. Otherwise it is the path, `?` and the serialised query. |
| Fetching.IndexOf | src/core/utils/fetcher.ts:76 | The index found is where the placeholder first occurs. No index is found exactly when it never occurs. |
| Fetching.ReplaceFirstAtFirstOccurrence | src/core/utils/fetcher.ts:76 | `replace` with a string pattern rewrites the first occurrence only: `a + pat + b` becomes `a + rep + b` when `pat` does not occur earlier. |
| Fetching.ReplaceFirstAbsent | src/core/utils/fetcher.ts:76 | A placeholder that does not occur leaves the path unchanged. |
| Fetching.SubstitutePathParams | src/core/utils/fetcher.ts:71-78 | The loop over the path parameters reassigns `path` exactly as `SubstitutePath` specifies, including where it throws. |
| Fetching.DefaultNeverSubstituted | src/core/utils/fetcher.ts:74-76 | A path parameter with a default but no value makes the substitution throw, whatever the other parameters are. Defaults are never used. |
| Fetching.OnlyTypeFaults | src/core/utils/fetcher.ts:73-78 | The only way substitution fails is the engine's `TypeError`. |
| Fetching.RequestSent | src/core/utils/fetcher.ts:69-95 | When validation, query assembly and substitution succeed, exactly one request is sent, with the endpoint's method, to the substituted path followed by `?` and the serialised query when there is one. Its body is `params.body` when that is truthy, and `null` otherwise. Its headers are the given ones, or `{'Content-Type': 'application/json'}` when none are given. The result is the remapped response. |
| Fetching.MapperKeySelects | src/core/utils/fetcher.ts:90-93 | With a `mapperKey` and no mapper, the result is `data[mapperKey]` when that entry is truthy. Otherwise it fails with "Mapper key not found". |
| Fetching.ClientErrorTranslated | src/core/utils/fetcher.ts:96-98 | A client error is rethrown with `response.data.message` when present, and with its own message otherwise. |
| Fetching.ScenarioMissingId | __tests__/Fetcher/Fetcher.test.ts:31-48 | With no parameters, `fetch` on `/test/:id` fails with "Missing required parameter: id" and sends nothing. |
| Fetching.ScenarioUrl | __tests__/Fetcher/Fetcher.test.ts:50-82 | `{id: '123', filter: 'active'}` sends GET `/test/123?filter=active` with a `null` body and the JSON content-type header. |
| Fetching.Fetcher.constructor | src/core/utils/fetcher.ts:10-12 | A new fetcher holds the default HTTP client. |
| Fetching.Fetcher.SetHttpClient | src/core/utils/fetcher.ts:21-23 | The HTTP client becomes the argument. |
| Fetching.Fetcher.GetHttpClient | src/core/utils/fetcher.ts:25-27 | Returns the current HTTP client. |
| Fetching.Fetcher.Fetch | src/core/utils/fetcher.ts:29-100 | The imperative `fetch` (validation loop, query loops, substitution loop, client call, `mapperKey`, `mapper`, error translation) computes exactly `FetchSpec` for the current client. |
| Fetching.FetcherInstance.constructor | src/core/utils/fetcher.ts:7 | No instance exists initially. |
| Fetching.FetcherInstance.GetInstance | src/core/utils/fetcher.ts:14-19 | The first call creates a fetcher with the default client. Every later call returns that same fetcher. |

## Left out

- Asynchrony: promises, `await` and scheduling are modelled as sequential evaluation in start order.
- `console.error` on a failing policy (src/core/utils/manager.ts:62, :74) is a logging side effect.
- Policy tests resolving to a non-boolean: leaf values are booleans, as the declared `Promise<boolean>` says. A truthy non-boolean counts as `false` by `=== true` in lists but is returned as-is for a single policy; the model does not represent such values.
- Action ids are modelled as strings. The declared type is `unknown` (src/core/interfaces/actions/index.ts:7). A non-string id, which `===` never matches against the string `actionID`, is not represented.
- `setActions` aliasing: the source stores the caller's array by reference, so a later `addAction` also grows the caller's array. The model stores a value.
- The "Axios not set" guard (src/core/utils/fetcher.ts:34): in the model a fetcher always holds a client, so the guard cannot fire.
- Percent-encoding by `URLSearchParams` (the application/x-www-form-urlencoded serializer, section 5.2 of the WHATWG URL Standard): the query is `key=value` pairs joined by `&` over unescaped strings. Since the encoded query never contains `:`, the model substitutes placeholders in the path before appending the query. A placeholder name containing `?`, which could straddle the path and the query in the source, is not modelled.
- `$` replacement patterns of `String.prototype.replace`: the replacement is inserted literally.
- Numbers are integers plus `NaN`. Fractions, infinities and `-0` are not modelled. Integers are unbounded. JavaScript numbers are doubles, so precision loss above 2^53 is not modelled. Neither is the exponent notation `String(n)` uses from 1e21 on (`"1e+21"`). Both affect query values (src/core/utils/fetcher.ts:55, :64) and path substitution (:76).
- Objects with repeated keys: `Obj` holds a list of entries, so it can repeat a key, which a JavaScript object cannot. On such a value `Object.keys` (`PropPairs`) yields both entries while `Lookup` reads the first. Values built by the model (`IndexProps`) have distinct keys.
- Property lookup reads own properties of plain objects only. Inherited properties, array indices and properties of primitives (`'abc'.length`) read as `undefined`. `Object.keys` order follows the object's entry order; the integer-like-keys-first rule is not modelled.
- Error objects: a `TypeError` raised by the engine is `TypeFault`, without its message text. When it happens inside the request's `try`, the source rethrows it as an `Error` carrying that message.
- `src/core/utils/httpClient.ts` (global `fetch` and `response.json()`) is network I/O. The HTTP client is a function given to the model.
- The test lines `__tests__/ActionManager/ActionManager.test.ts:61-70` expect `canExecute` to return a bare boolean synchronously, but `canExecute` is async. The model follows the async code and takes the decision the promise resolves to.
- `src/interfaces/index.ts` is an older synchronous revision of the interfaces. It is not part of this model.
- Example scripts and type-only files are not part of this model.

## Findings

| source | as written | input that shows it | evidently intended | confidence | as-written member | corrected member |
|---|---|---|---|---|---|---|
| src/core/utils/manager.ts:56 | The group is settled by `Promise.allSettled(policy.map((p) => p.test(this.context)))`. A synchronous throw from `p.test` escapes `map` before `allSettled` sees it, so the element rejects and counts as `false`, even when a sibling resolved to `true`. | A group `[p, q]` where `p.test` returns `true` and `q.test` is a synchronous function that throws: the decision is `false`. | Every member is isolated, so that a throwing member only counts as `false` and the group is `true` when some member is `true`. | not executed | Policies.SyncThrowMasksTrueMember | Policies.RunGroupIsolated |
| src/core/utils/manager.ts:30-32 | `filter` receives the promise returned by the async `testAction`. A promise is always truthy, so every action is kept. | A registry holding one action whose single policy resolves to `false`: `getActions()` still lists it. | Only the actions whose policies permit under the current context, in registry order. | not executed | Manager.ActionManager.GetActions (shown by Manager.GetActionsListsDenied) | Manager.PermittedActions |
