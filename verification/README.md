# PermissionsHandler, modelled in Dafny

A model of `PermissionsHandler` from MALSync's `src/utils/permissions.ts`. The
handler does three things:

- It classifies the extension manifest's content-script rules into three
  kinds of requirement group: `required`, `player`, and one named `pages`
  group per page script.
- It judges each group `granted` or `denied` against the browser's
  permission API.
- It asks the browser for every origin at once, then re-judges every group.

Modules, one per file:

| file | module | models |
|---|---|---|
| `wrappers.dfy` | `Wrappers` | `Option`, for optional properties and `find`'s `undefined` |
| `js_strings.dfy` | `JsStrings` | `includes`, literal regex `test`, `replace` with a string, `replace(/^.*p/, '')` |
| `permission_types.dfy` | `PermissionTypes` | `permissionType`, `permissionElement`, `permissionsObject`, the manifest |
| `classifier.dfy` | `Classifier` | the constructor (lines 19-67) |
| `classifier_lemmas.dfy` | `ClassifierLemmas` | properties of the constructor |
| `coordinator.dfy` | `Coordinator` | `testPermissionElement`, `checkPermissions`, `requestPermissions` |
| `coordinator_lemmas.dfy` | `CoordinatorLemmas` | properties of checking and requesting |

The browser is a parameter:

- A `Host` is the grant state seen during one call. `origins` is what
  `chrome.permissions.getAll()` lists. `contains` answers
  `chrome.permissions.contains`.
- `chrome.permissions.request` is a function from the requested origin list
  to a `Reply`. A `Reply` holds the returned boolean and the `Host` as it
  stands after the prompt.

The three getters (`getRequiredPermissions`, `getPagesPermissions`,
`getPlayerPermissions`) return the object's fields unchanged. They are the
fields `required`, `pages` and `player` of the `Handler` datatype.

Behaviour of the code that the model keeps:

- The script lookup on line 46 is a single `find`. It returns the first
  script, in `js` order, that contains `content/page_` or `iframe.js`. If that
  script contains `iframe.js`, the rule goes to `player`, even when the same
  script also contains `content/page_`. The page convention is not tried first
  as a separate pass.
- A rule is skipped only when `matches` is absent. An empty `matches` array is
  truthy, so it is routed like any other. A page rule with no patterns
  therefore still creates a page group.
- `required.api` is always present: it is the filter's result, possibly `[]`.
  So `testPermissionElement` always consults `contains(api)` for `required`,
  even when the list is empty.
- The regular expression `/^.*content\/page_/` has no flags. Its `.` does not
  match line terminators (`\n`, `\r`, U+2028, U+2029). It therefore strips
  through the last `content/page_` that no line terminator precedes.
  `replace('.js', '')` removes only the first `.js`.

## Model

| member | source | states |
|---|---|---|
| `JsStrings.ReplaceFirst` | src/utils/permissions.ts:62 | `replace('.js', '')` leaves a string without `.js` unchanged and otherwise removes exactly the leftmost occurrence |
| `JsStrings.StripThroughLast` | src/utils/permissions.ts:62 | `replace(/^.*content\/page_/, '')` leaves the string unchanged when no line-start match exists, and otherwise keeps what follows the last marker preceded by no line terminator |
| `PermissionTypes.FlattenMatches` | src/utils/permissions.ts:125 | `flatMap(page => page.match)` is empty for no pages and holds every page's patterns; its exact value is pinned by the two lemmas below |
| `PermissionTypes.FlattenMatchesSingleton` | src/utils/permissions.ts:125 | a single page flattens to exactly its own `match` list |
| `PermissionTypes.FlattenMatchesAppend` | src/utils/permissions.ts:125 | flattening distributes over concatenation, so the result is the pages' lists concatenated in page order, duplicates kept |
| `Classifier.WithoutAllUrls` | src/utils/permissions.ts:35-37 | `required.api` holds each host permission as often as the manifest does, except `<all_urls>`, which it never holds |
| `Classifier.WithoutAllUrlsAppend` | src/utils/permissions.ts:35-37 | the filter keeps the relative order of what it keeps (it distributes over concatenation) |
| `Classifier.FindScript` | src/utils/permissions.ts:46 | the lookup returns the first script in `js` order that passes either test, or nothing exactly when no script passes |
| `Classifier.RouteOf` | src/utils/permissions.ts:39-62 | a rule is skipped if and only if `matches` is absent. It goes to `required` if and only if `js` is absent or holds no recognised script. It goes to `player` if and only if the first recognised script contains `iframe.js`. Otherwise it becomes a page named after that first script |
| `Classifier.PageGroups` | src/utils/permissions.ts:41-44 | every page group the constructor creates is named, has no `api`, and starts `unknown` |
| `Classifier.ClassifyRules` | src/utils/permissions.ts:39-66 | the `forEach` adds to `required` and `player` exactly the patterns of the rules routed there, in rule order. It appends exactly one page group per page rule, in rule order. It changes nothing else |
| `Classifier.Classify` | src/utils/permissions.ts:19-67 | the constructed `required`, `player` and `pages` equal the per-route collections of the rules. `required.api` is the filtered host list, `player` has no `api`, and every status is `unknown` |
| `ClassifierLemmas.StripConventionalPrefix` | src/utils/permissions.ts:62 | stripping `<dir>content/page_<rest>` leaves `<rest>`, for any one-line `dir` and any `rest` (empty included) in which the marker does not occur |
| `ClassifierLemmas.ReplaceTrailingExtension` | src/utils/permissions.ts:62 | removing the first `.js` from `<name>.js` leaves `<name>` when `name` holds no `.js` |
| `ClassifierLemmas.PageNameOfConventionalScript` | src/utils/permissions.ts:62 | the page name of `<dir>content/page_<name>.js` is `<name>`, for any one-line `dir` and any `name` without the marker or `.js` |
| `ClassifierLemmas.ChatPageName` | src/utils/permissions.ts:62 | `content/page_chat.js` gives the page name `chat` |
| `ClassifierLemmas.PartitionOverRules` | src/utils/permissions.ts:39-65 | the patterns routed to `required`, to `player` and to all page groups together form the same multiset as the `matches` of every rule that has them |
| `ClassifierLemmas.ClassifyPartitions` | src/utils/permissions.ts:39-65 | the constructed groups hold every declared pattern exactly as often as it is declared: the same multiset, and the same total length |
| `ClassifierLemmas.AppendRule` | src/utils/permissions.ts:46-64 | one more rule changes the handler as follows. A skipped rule changes nothing. An unrecognised rule extends `required.match` only. A player rule extends `player.match` only. A page rule appends exactly one fresh `unknown` page group and leaves `required` and `player` alone |
| `ClassifierLemmas.UnscriptedRuleIsRequired` | src/utils/permissions.ts:46-53 | one rule with matches and no scripts yields `required.match` equal to those matches, with `player` and `pages` empty |
| `ClassifierLemmas.ChatScriptIsPage` | src/utils/permissions.ts:41-64 | a rule with script `content/page_chat.js` yields the single page group `chat`, with its matches and status `unknown` |
| `ClassifierLemmas.IframeBeforePageGoesToPlayer` | src/utils/permissions.ts:46-60 | with `iframe.js` listed before a page script, the rule goes to `player` |
| `ClassifierLemmas.PageScriptNamingIframeGoesToPlayer` | src/utils/permissions.ts:55-60 | a script that contains both `content/page_` and `iframe.js` sends its rule to `player` |
| `ClassifierLemmas.EmptyMatchesStillRouted` | src/utils/permissions.ts:40-62 | an empty `matches` array is routed, here to a page, rather than skipped |
| `Coordinator.TestElement` | src/utils/permissions.ts:91-108 | the status is never `unknown`. It is `denied` if and only if the patterns are neither all listed nor contained, or `api` is present and not contained. The group's lists are untouched |
| `Coordinator.CheckPermissions` | src/utils/permissions.ts:81-89 | after a check every group is decided, each against the same snapshot and oracle, and no group's name, `match` or `api` changes |
| `Coordinator.RequestOrigins` | src/utils/permissions.ts:111-127 | the request is `required.match`, then `required.api`, then `player.match`, then every page's `match`. Duplicates are kept, so the multiset and the length are the groups' patterns plus `required.api` |
| `Coordinator.RequestPermissions` | src/utils/permissions.ts:110-134 | the browser receives exactly the assembled origin list and its boolean is returned unchanged. Every group is then re-judged against the post-request grants, so none is `unknown`, and no list changes |
| `CoordinatorLemmas.MatchQuerySkippedWhenListed` | src/utils/permissions.ts:95-100 | when the snapshot lists every pattern, the targeted answer about `match` has no effect on the status |
| `CoordinatorLemmas.TargetedQueryDecides` | src/utils/permissions.ts:95-107 | when everything listed by `getAll` is also contained, a group is `granted` exactly when `contains` holds for its `match` and for its `api` if present |
| `CoordinatorLemmas.CheckForgetsStatus` | src/utils/permissions.ts:81-108 | the result of a check depends only on the groups' lists and the host, not on prior statuses |
| `CoordinatorLemmas.CheckIdempotent` | src/utils/permissions.ts:81-89 | checking twice against the same host gives the same handler as checking once |
| `CoordinatorLemmas.CheckGrantsAllWhenHostContainsEverything` | src/utils/permissions.ts:81-108 | a host that contains every group's `match` and `api` leaves every group `granted` |
| `CoordinatorLemmas.RequestGrantsAllWhenHostContainsEverything` | src/utils/permissions.ts:110-134 | if the host contains everything after the request, every group ends `granted` and the request's boolean is passed through |
| `CoordinatorLemmas.RequestCoversManifest` | src/utils/permissions.ts:110-127 | right after construction, the request asks for every declared match pattern and every host permission except `<all_urls>`, each as often as declared |
| `CoordinatorLemmas.SameRequirementsKeepMatches` | src/utils/permissions.ts:110-131 | status changes never change the groups' patterns or the origin list a later request assembles |
| `CoordinatorLemmas.RequestAfterConstruction` | src/utils/permissions.ts:19-134 | a fresh handler starts all `unknown`. After one request every group is decided and the groups still hold the manifest's patterns |
| `CoordinatorLemmas.UnscriptedRuleGrantedWhenListed` | src/utils/permissions.ts:81-107 | a handler with one unscripted rule gets `required` `granted` when the host lists that rule's pattern and contains the empty `api` list |

## Left out

- `chrome.runtime.getManifest()`: the manifest is an input to `Classify`.
- Malformed manifests: the `!` assertion on `content_scripts` and the unchecked `host_permissions` would throw at runtime. Both fields are mandatory in `Manifest`, so that failure cannot be expressed.
- `getAll()` without `origins`: line 95 reads `permissions.origins!`, which would throw a TypeError if the browser's answer lacked that list. `Host.origins` is always a sequence, so that failure cannot be expressed.
- Browser failures: a rejected `getAll`, `contains` or `request` propagates out of the call. Groups judged before the failure would keep their new status. The model's host is total, so this partial progress is not modelled.
- Asynchrony: `await` and `Promise.all` are not modelled. Groups are judged one after another against one `Host` value, which assumes the browser's grants do not change during one call. Overlapping calls are not modelled.
- The user prompt behind `chrome.permissions.request`: only its boolean and the resulting grants are modelled.
- Vue `ref` reactivity: a status is a plain field of `Group`. Subscribers are outside the model.
- Array sharing: a page group's `match` is the manifest rule's own `matches` array, not a copy. Nothing mutates these arrays, so the model uses plain values.
- Strings: JavaScript strings are UTF-16 code units, while Dafny's `char` is a Unicode scalar value. Every pattern matched here is ASCII, so the results agree.
- `replace`: `$` substitution patterns are not modelled. The only replacement string used is empty.
- `ClassifierLemmas.PageNameOfConventionalScript`: stated only for conventionally named scripts: a one-line directory, and a name without `content/page_` or `.js`. For any other script, the contracts of `JsStrings.StripThroughLast` and `JsStrings.ReplaceFirst` give the name.
