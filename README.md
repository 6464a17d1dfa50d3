# fractal-react-adapter, modelled in Dafny

A model of the logic of the React rendering adapter for the Fractal
component-library tool (`src/adapter.js`). The adapter does two things
of its own. All other work goes to React, Babel and Fractal.

- **Render-context augmentation.** Before rendering, `render` adds the
  reserved keys `_self`, `_target`, `_env` and `_config` to the caller's
  context, in place. A key is added only when the caller left it undefined
  and the offered value is defined (`setEnv`).
- **The module-alias map.** Whenever the component registry is loaded or
  updated, the component tree is walked depth first, left to right. Each
  component writes `'@' + handle → viewPath` into one shared dictionary,
  which is never cleared. Babel's `module-resolver` 
  plugin then resolves `import x from '@button'`.

Beside these, the model covers how the constructor chooses the rendering
function and how the factory builds the Babel plugin list.

Files:
- `wrappers.dfy`: `Option`; `None` is JavaScript's `undefined`.
- `render_context.dfy` (module `RenderContext`): values, the context as a
  `map<string, Value>`, and `SetIfAbsent`, the pure meaning of `setEnv`.
  Also `AugmentContext` (the four calls of `render`) and the class `Context`,
  whose method `SetEnv` updates the dictionary in place.
- `aliases.dfy` (module `Aliases`): the component tree `Item`, and the walk
  as the pure functions `AliasItem`/`AliasItems`. Beside them is an
  independent reference: the list of bindings in visiting order
  (`Bindings`), applied one after another (`Apply`). The class
  `AliasRegistry` holds the shared map; its recursive methods `MakeAlias`
  and `MakeAliasEach` update it in place.
- `adapter.dfy` (module `Adapter`): the render-method choice, the plugin
  list, the factory `Configure`, the event handler `ComponentsReady` and
  the class `ReactAdapter`.

Modelling choices:
- A missing key stands for `undefined`. A key explicitly set to `undefined`
  is therefore the same as a missing key, just as `_.isUndefined` treats
  them alike. `null` is a defined value (`Value.Null`): it is never
  overwritten, and it is written when offered.
- `meta || {}` becomes `meta.GetOr(EmptyMeta)`. `app.config()` is a
  parameter of `Render`, because it is a call into the host.
- `ModuleResolver` stands for the entry `["module-resolver", {alias: aliases}]`.
  Its alias object is the shared alias map itself, so it always sees the map's
  current contents. It is not a copy taken when the list is built.
- `_.merge(aliases, options.aliases)` is modelled as a map override. The
  user's entries replace entries with the same key.

The handler `componentsReady` is subscribed to `loaded` and `updated`
only (src/adapter.js:138-139). A payload whose `event` is `'change'` also
evicts one module-cache entry, which is left out.

## Model

| member | source | states |
|---|---|---|
| `RenderContext.SetIfAbsent` | src/adapter.js:69-73 | the key is present afterwards iff it was defined before or the value is defined; a defined caller value is never overwritten; an undefined key takes a defined value; every other key keeps its presence and value |
| `RenderContext.SetIfAbsentIdempotent` | src/adapter.js:69-73 | applying `setEnv` twice with the same key and value is the same as applying it once |
| `RenderContext.SetIfAbsentCommutes` | src/adapter.js:54-57 | `setEnv` calls on two different keys give the same context in either order |
| `RenderContext.Context.SetEnv` | src/adapter.js:69-73 | updates the caller's context in place to exactly `SetIfAbsent` of the old context |
| `RenderContext.AugmentContext` | src/adapter.js:51-57 | no non-reserved key is added, removed or changed; a reserved key the caller defined keeps its value; an undefined reserved key is present afterwards iff the corresponding `meta` field (or `app.config()` for `_config`) is defined, and then holds that value; an omitted `meta` is the empty record |
| `RenderContext.AugmentWithoutMeta` | src/adapter.js:52-57 | with `meta` omitted, at most `_config` is added, and the result is the single `setEnv('_config', …)` |
| `RenderContext.AugmentIdempotent` | src/adapter.js:51-57 | augmenting an already augmented context with the same `meta` and configuration changes nothing |
| `Adapter.ReactAdapter.Render` | src/adapter.js:51-57 | the four in-place `setEnv` calls leave the caller's context equal to `AugmentContext` of its old contents |
| `Aliases.AliasKey` | src/adapter.js:103 | an alias key is `@` followed by the handle |
| `Aliases.AliasKeyInjective` | src/adapter.js:103 | two handles have the same alias key iff they are equal |
| `Aliases.AliasItem` | src/adapter.js:99-104 | walking one item never removes a key, and every key whose entry it adds or changes starts with `@` |
| `Aliases.AliasItems` | src/adapter.js:101 | walking a list of items never removes a key, and every key whose entry it adds or changes starts with `@` |
| `Aliases.AliasItemsAppend` | src/adapter.js:101 | walking `a + b` in order is walking `a`, then walking `b` from the result |
| `Aliases.Bindings` | src/adapter.js:99-104 | every binding the leaves under an item contribute has a key starting with `@` |
| `Aliases.BindingsOf` | src/adapter.js:101 | every binding of a list of items has a key starting with `@` |
| `Aliases.ApplyAppend` | src/adapter.js:101-103 | applying the bindings `a + b` is applying `a`, then `b` |
| `Aliases.ApplyUntouched` | src/adapter.js:103 | a key no binding names keeps its presence and value |
| `Aliases.ApplyLastWins` | src/adapter.js:103 | the last binding for a key decides the key's value |
| `Aliases.ApplyKeys` | src/adapter.js:103 | a key is present afterwards iff it was before or some binding names it |
| `Aliases.AliasItemIsApply` | src/adapter.js:99-104 | the walk of one item equals applying its leaves' bindings in depth-first, left-to-right order: a leaf sets exactly `'@' + handle` to `viewPath`, and a collection adds nothing of its own and recurses into its children in order |
| `Aliases.AliasItemsIsApply` | src/adapter.js:101 | the walk of a list of items equals applying their bindings in order |
| `Aliases.ReachesIffBinding` | src/adapter.js:99-104 | a leaf `(h, p)` is reachable under an item iff `('@' + h, p)` is among the item's bindings |
| `Aliases.ReachesIffBindingOf` | src/adapter.js:101 | a leaf is reachable from some item of a list iff its binding is among the list's bindings |
| `Aliases.WalkCoversReachable` | src/adapter.js:91-104 | after the walk, every leaf reachable from the registry's items has its `@`-prefixed handle as a key |
| `Aliases.WalkLastWins` | src/adapter.js:101-103 | with duplicated handles, the leaf visited last in depth-first, left-to-right order decides the view path |
| `Aliases.WalkLeavesOthers` | src/adapter.js:99-104 | a key that is no reachable leaf's alias keeps its presence and value, including entries from earlier walks and from `options.aliases` |
| `Aliases.AliasRegistry.constructor` | src/adapter.js:75 | the shared alias map starts empty |
| `Aliases.AliasRegistry.Merge` | src/adapter.js:114-115 | the user's aliases, when given, override matching keys; no key is lost |
| `Aliases.AliasRegistry.MakeAlias` | src/adapter.js:99-104 | updates the shared map in place to exactly `AliasItem` of its old contents |
| `Aliases.AliasRegistry.MakeAliasEach` | src/adapter.js:101 | the `forEach` loop updates the shared map to exactly `AliasItems` of its old contents |
| `Aliases.AliasRegistry.RegisterBabel` | src/adapter.js:91-97 | walks the top-level components into the shared map, leaving it equal to `AliasItems` of the old map, which only grows |
| `Adapter.SelectRenderMethod` | src/adapter.js:43-48 | the choice is `renderToString` iff the option is the string `'renderToString'`, and `renderToStaticMarkup` otherwise, including when it is absent |
| `Adapter.ReactAdapter.constructor` | src/adapter.js:43-48 | the adapter's rendering function is the one `SelectRenderMethod` picks from the options |
| `Adapter.MergedRenderMethod` | src/adapter.js:24-30 | the merged render method is always defined: the user's, else `'renderToStaticMarkup'` |
| `Adapter.DefaultIsStaticMarkup` | src/adapter.js:29 | an adapter configured without a render method renders static markup |
| `Adapter.UserPlugins` | src/adapter.js:120 | the user's plugin entries, in order and unchanged |
| `Adapter.BabelPlugins` | src/adapter.js:119-125 | the plugin list is the user's plugins (none when absent), in order, followed by the module-resolver entry as the last element |
| `Adapter.BabelPluginsOneResolver` | src/adapter.js:119-125 | the resolver entry holding the shared alias map appears exactly once, last (a module-resolver plugin the user configures is a separate user entry) |
| `Adapter.Configure` | src/adapter.js:111-125 | the factory merges the user's aliases into the shared map, picks the merged render method and builds the plugin list |
| `Adapter.ComponentsReady` | src/adapter.js:129-137 | a `loaded` or `updated` notification walks the current components into the shared alias map, once |

## Left out

- Module loading and cache eviction (`require`, `require.resolve`,
  `delete require.cache[...]`, src/adapter.js:59-60, 130-134): Node runtime
  behaviour. `ComponentsReady` therefore ignores the `change` payload.
- React element creation, `ReactDOM` rendering, `html.prettyPrint` and the
  `Promise.resolve` wrapper (src/adapter.js:61-65): foreign libraries. `Render`
  models only the context augmentation and returns no HTML. Its `path` and
  `str` arguments are therefore omitted.
- `babel-register` (src/adapter.js:96): a foreign call. `RegisterBabel`
  models only the alias walk.
- Event subscription with `app.components.on` and the Fractal `Adapter`
  superclass (src/adapter.js:37-41, 127-143): host plumbing. An event is a
  direct call of `ComponentsReady`. The adapter object `register` returns is
  `new ReactAdapter(options)`.
- Configure: does not model the deep-merge semantics of lodash `_.merge`
  and `_.assign` (src/adapter.js:112, 119). The Babel options other than
  the plugin list (`extensions`, `presets`, anything the user adds) are not
  modelled. The user's plugin list and render method are taken as given.
- Configure: does not model `babelConfig: null`. `_.merge` copies `null`
  over the default object, and reading `options.babelConfig.plugins` then
  throws a TypeError (src/adapter.js:120).
- SelectRenderMethod: models the option only as a string or absent. JavaScript's
  loose `==` would also accept non-string values that coerce to
  `'renderToString'`.
- BabelPlugins: models `plugins || []` only for an absent or an array value.
  A truthy non-array value is not modelled.
- Aliases.Item: a view path is always a string. A leaf without a view path,
  which would store `undefined`, is not modelled.
