/**
 * The render context that the host passes to the adapter's `render`, and the
 * in-place augmentation of that context with the four reserved keys
 * (`setEnv` and the prefix of `ReactAdapter.render` in src/adapter.js).
 *
 * A context is a dictionary from property names to defined values: a key that
 * is missing and a key explicitly holding `undefined` are the same thing here,
 * exactly as `_.isUndefined(context[key])` does not tell them apart.
 */
module RenderContext {
  import opened Wrappers

  /** A defined JavaScript value. Objects are opaque references. */
  datatype Value = Null | Bool(b: bool) | Num(n: int) | Str(s: string) | Obj(id: nat)

  type Env = map<string, Value>

  /** The `meta` argument of `render`: each of its three fields may be undefined. */
  datatype Meta = Meta(self: Option<Value>, target: Option<Value>, env: Option<Value>)

  /** What `meta || {}` yields when `meta` is omitted. */
  const EmptyMeta := Meta(None, None, None)

  const SelfKey := "_self"
  const TargetKey := "_target"
  const EnvKey := "_env"
  const ConfigKey := "_config"

  /** The keys `render` may add to a context. */
  const ReservedKeys: set<string> := {SelfKey, TargetKey, EnvKey, ConfigKey}

  /**
   * The value `render` offers for a reserved key: the corresponding field of
   * `meta`, or the application's configuration for `_config`; undefined for
   * any other key.
   */
  function Offered(key: string, meta: Meta, config: Option<Value>): Option<Value> {
    if key == SelfKey then meta.self
    else if key == TargetKey then meta.target
    else if key == EnvKey then meta.env
    else if key == ConfigKey then config
    else None
  }

  /**
   * The context after `setEnv(key, value, context)`: the key is written only
   * when the context leaves it undefined and the value is defined.
   */
  function SetIfAbsent(ctx: Env, key: string, value: Option<Value>): (r: Env)
    ensures key in r <==> key in ctx || value.Some?
    ensures key in ctx ==> r[key] == ctx[key]
    ensures key !in ctx && value.Some? ==> r[key] == value.value
    ensures forall k :: k != key ==> (k in r <==> k in ctx)
    ensures forall k :: k != key && k in ctx ==> r[k] == ctx[k]
  {
    if key !in ctx && value.Some? then ctx[key := value.value] else ctx
  }

  /** Writing the same key twice is the same as writing it once. */
  lemma SetIfAbsentIdempotent(ctx: Env, key: string, value: Option<Value>)
    ensures SetIfAbsent(SetIfAbsent(ctx, key, value), key, value) == SetIfAbsent(ctx, key, value)
  {
  }

  /** Writes to two different keys do not interfere: their order does not matter. */
  lemma SetIfAbsentCommutes(ctx: Env, k1: string, v1: Option<Value>, k2: string, v2: Option<Value>)
    requires k1 != k2
    ensures SetIfAbsent(SetIfAbsent(ctx, k1, v1), k2, v2) == SetIfAbsent(SetIfAbsent(ctx, k2, v2), k1, v1)
  {
  }

  /**
   * The context after the four `setEnv` calls at the start of `render`, with
   * `meta` defaulting to the empty record and `config` the result of
   * `app.config()`.
   */
  function AugmentContext(ctx: Env, meta: Option<Meta>, config: Option<Value>): (r: Env)
    // A non-reserved key is neither added, removed nor changed.
    ensures forall k :: k !in ReservedKeys ==> (k in r <==> k in ctx)
    ensures forall k :: k !in ReservedKeys && k in ctx ==> r[k] == ctx[k]
    // A reserved key the caller defined keeps the caller's value.
    ensures forall k :: k in ReservedKeys && k in ctx ==> k in r && r[k] == ctx[k]
    // A reserved key the caller left undefined takes the offered value, if that is defined.
    ensures forall k :: k in ReservedKeys && k !in ctx ==>
      (k in r <==> Offered(k, meta.GetOr(EmptyMeta), config).Some?)
    ensures forall k :: k in ReservedKeys && k !in ctx && k in r ==>
      r[k] == Offered(k, meta.GetOr(EmptyMeta), config).value
  {
    var m := meta.GetOr(EmptyMeta);
    var c1 := SetIfAbsent(ctx, SelfKey, m.self);
    var c2 := SetIfAbsent(c1, TargetKey, m.target);
    var c3 := SetIfAbsent(c2, EnvKey, m.env);
    SetIfAbsent(c3, ConfigKey, config)
  }

  /** Without `meta`, `render` can add at most `_config` to the context. */
  lemma AugmentWithoutMeta(ctx: Env, config: Option<Value>)
    ensures AugmentContext(ctx, None, config).Keys <= ctx.Keys + {ConfigKey}
    ensures AugmentContext(ctx, None, config) == SetIfAbsent(ctx, ConfigKey, config)
  {
  }

  /** Rendering twice with the same `meta` and configuration augments the context only once. */
  lemma AugmentIdempotent(ctx: Env, meta: Option<Meta>, config: Option<Value>)
    ensures AugmentContext(AugmentContext(ctx, meta, config), meta, config) == AugmentContext(ctx, meta, config)
  {
  }

  /** The caller's context as `render` receives it and updates in place. */
  class Context {
    var entries: Env

    constructor(initial: Env)
      ensures entries == initial
    {
      entries := initial;
    }

    /** `setEnv(key, value, this)`. */
    method SetEnv(key: string, value: Option<Value>)
      modifies this
      ensures entries == SetIfAbsent(old(entries), key, value)
    {
      if key !in entries && value.Some? {
        entries := entries[key := value.value];
      }
    }
  }
}
