/**
 * The adapter itself (src/adapter.js): the choice of the rendering function,
 * the Babel plugin list, the exported factory and the `ReactAdapter` class
 * whose `render` augments the caller's context before rendering.
 */
module Adapter {
  import opened Wrappers
  import opened RenderContext
  import opened Aliases

  /** The two rendering functions of the server renderer the adapter can call. */
  datatype RenderMethod = RenderToString | RenderToStaticMarkup

  /** `DEFAULT_OPTIONS.renderMethod`. */
  const DefaultRenderMethod := "renderToStaticMarkup"

  /** The constructor's choice: `renderToString` only when asked for by name. */
  function SelectRenderMethod(renderMethod: Option<string>): (r: RenderMethod)
    ensures r == RenderToString <==> renderMethod == Some("renderToString")
    ensures r == RenderToStaticMarkup <==> renderMethod != Some("renderToString")
  {
    if renderMethod == Some("renderToString") then RenderToString else RenderToStaticMarkup
  }

  /**
   * An entry of Babel's plugin list: one the user configured, or the
   * `["module-resolver", {alias: aliases}]` entry, whose alias object is the
   * shared alias map itself (it sees every later update of that map).
   */
  datatype Plugin = UserPlugin(entry: Value) | ModuleResolver

  function UserPlugins(entries: seq<Value>): (ps: seq<Plugin>)
    ensures |ps| == |entries|
    ensures forall i :: 0 <= i < |ps| ==> ps[i] == UserPlugin(entries[i])
  {
    seq(|entries|, i requires 0 <= i < |entries| => UserPlugin(entries[i]))
  }

  /** `(plugins || []).concat([["module-resolver", {alias: aliases}]])`. */
  function BabelPlugins(plugins: Option<seq<Value>>): (r: seq<Plugin>)
    ensures |r| == |plugins.GetOr([])| + 1
    ensures forall i :: 0 <= i < |r| - 1 ==> r[i] == UserPlugin(plugins.GetOr([])[i])
    ensures r[|r| - 1] == ModuleResolver
  {
    UserPlugins(plugins.GetOr([])) + [ModuleResolver]
  }

  /**
   * The entry holding the shared alias map appears exactly once in the plugin
   * list: as its last element, and nowhere before it.
   */
  lemma BabelPluginsOneResolver(plugins: Option<seq<Value>>)
    ensures ModuleResolver !in BabelPlugins(plugins)[..|BabelPlugins(plugins)| - 1]
    ensures BabelPlugins(plugins)[|BabelPlugins(plugins)| - 1] == ModuleResolver
  {
  }

  /** The user's configuration as given to the exported factory. */
  datatype UserConfig = UserConfig(
    renderMethod: Option<string>,
    plugins: Option<seq<Value>>,
    aliases: Option<AliasMap>)

  /** The merged options, with the render method and Babel's plugin list. */
  datatype Options = Options(
    renderMethod: Option<string>,
    plugins: seq<Plugin>)

  /** `_.merge({}, DEFAULT_OPTIONS, config)` on the render method: the user's choice, else the default. */
  function MergedRenderMethod(user: Option<string>): (r: Option<string>)
    ensures r.Some?
    ensures user.Some? ==> r == user
    ensures user.None? ==> r == Some(DefaultRenderMethod)
  {
    Some(user.GetOr(DefaultRenderMethod))
  }

  /** An adapter configured without a render method renders static markup. */
  lemma DefaultIsStaticMarkup(config: UserConfig)
    requires config.renderMethod.None?
    ensures SelectRenderMethod(MergedRenderMethod(config.renderMethod)) == RenderToStaticMarkup
  {
  }

  /**
   * The exported factory: merges the options, merges the user's aliases into
   * the shared alias map and builds the Babel plugin list.
   */
  method Configure(registry: AliasRegistry, config: UserConfig) returns (options: Options)
    modifies registry
    ensures registry.aliases ==
      if config.aliases.Some? then old(registry.aliases) + config.aliases.value else old(registry.aliases)
    ensures options.renderMethod == MergedRenderMethod(config.renderMethod)
    ensures options.plugins == BabelPlugins(config.plugins)
  {
    registry.Merge(config.aliases);
    options := Options(MergedRenderMethod(config.renderMethod), BabelPlugins(config.plugins));
  }

  /**
   * The handler of the registry's `loaded` and `updated` events: walks the
   * current components into the shared alias map.
   */
  method ComponentsReady(registry: AliasRegistry, components: seq<Item>)
    modifies registry
    ensures registry.aliases == AliasItems(old(registry.aliases), components)
  {
    registry.RegisterBabel(components);
  }

  class ReactAdapter {
    const renderMethod: RenderMethod

    constructor(options: Options)
      ensures renderMethod == SelectRenderMethod(options.renderMethod)
    {
      if options.renderMethod == Some("renderToString") {
        renderMethod := RenderToString;
      } else {
        renderMethod := RenderToStaticMarkup;
      }
    }

    /**
     * The context-augmentation prefix of `render(path, str, context, meta)`;
     * `config` is what `app.config()` returns.
     */
    method Render(context: Context, meta: Option<Meta>, config: Option<Value>)
      modifies context
      ensures context.entries == AugmentContext(old(context.entries), meta, config)
    {
      var m := meta.GetOr(EmptyMeta);
      context.SetEnv(SelfKey, m.self);
      context.SetEnv(TargetKey, m.target);
      context.SetEnv(EnvKey, m.env);
      context.SetEnv(ConfigKey, config);
    }
  }
}
