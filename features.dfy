/**
 * The Feature helper: capability mixins, mixin options, `attach`, the built-in
 * registry and the `enable(cfg)` lifecycle that records each feature's outcome
 * in the runtime's `featureStatus` map.
 *
 * What the Helper base class resolves (`tryGet`, `tryResult`, `cacheKey`,
 * `applyInterface`) is given here as data: a `Provider` record, a cache key,
 * and `Graft` for the effect of `applyInterface`.
 */
module Features {
  import opened Wrappers
  import opened Values

  /** The identity of a JavaScript function value. */
  type FnId = string

  /** What `tryGet(name)` finds on a feature: a function, or a value of another kind. */
  datatype Member = Callable(fn: FnId) | Plain(value: Value)

  /** The object a grafted method is bound to (`scope`). */
  datatype Target = HostTarget | FeatureTarget(name: string)

  /** The value of one mixin option (`transformKeys`, `scope`, `partial`, `right`, ...). */
  datatype MixinSetting = Flag(on: bool) | ScopeTo(target: Target) | PartialArgs(context: string) | Setting(value: Value)

  type MixinOptions = map<string, MixinSetting>

  /** A method as grafted onto a target: the function and the object it is bound to. */
  datatype Bound = Bound(fn: FnId, scope: Target)

  /** What `tryGet` / `tryResult` find on a feature's provider; `None` is `undefined`
      (or, for the option objects, any falsy value). */
  datatype Provider = Provider(
    members: map<string, Member>,
    hostMethods: Option<seq<string>>,
    projectMethods: Option<seq<string>>,
    featureMethods: Option<seq<string>>,
    hostMixinOptions: Option<MixinOptions>,
    featureMixinOptions: Option<MixinOptions>,
    mixinOptions: Option<MixinOptions>,
    hasClassHook: bool)

  // ---------------------------------------------------------------------------
  // Declared method lists and the mixin maps computed from them
  // ---------------------------------------------------------------------------

  /** The `hostMethods` getter: `projectMethods`, else `hostMethods`, else `[]`. */
  function HostMethods(p: Provider): (names: seq<string>)
    ensures p.projectMethods.Some? ==> names == p.projectMethods.value
    ensures p.projectMethods.None? && p.hostMethods.Some? ==> names == p.hostMethods.value
    ensures p.projectMethods.None? && p.hostMethods.None? ==> names == []
  {
    match p.projectMethods
    case Some(names) => names
    case None => p.hostMethods.GetOr([])
  }

  /** The `featureMethods` getter, defaulting to `[]`. */
  function FeatureMethods(p: Provider): (names: seq<string>)
    ensures p.featureMethods.Some? ==> names == p.featureMethods.value
    ensures p.featureMethods.None? ==> names == []
  {
    p.featureMethods.GetOr([])
  }

  /** The filter/keyBy/mapValues/pickBy pipeline: each listed name that resolves to a
      function, keyed by itself. */
  function KeyCallables(names: seq<string>, members: map<string, Member>): (r: map<string, FnId>)
    ensures forall n :: n in r <==> n in names && n in members && members[n].Callable?
    ensures forall n :: n in r ==> r[n] == members[n].fn
  {
    if names == [] then map[]
    else
      var rest := KeyCallables(names[1..], members);
      var n := names[0];
      if n in members && members[n].Callable? then rest[n := members[n].fn] else rest
  }

  /** The names of `names` that `excluded` does not list (`excluded.indexOf(m) === -1`). */
  function Without(names: seq<string>, excluded: seq<string>): (r: seq<string>)
    ensures forall n :: n in r <==> n in names && n !in excluded
  {
    if names == [] then []
    else if names[0] in excluded then Without(names[1..], excluded)
    else [names[0]] + Without(names[1..], excluded)
  }

  /** `projectMixin` (also `hostMixin`): exactly the host-method names that resolve to
      functions, each mapped to its function. */
  function ProjectMixin(p: Provider): (r: map<string, FnId>)
    ensures forall n :: n in r <==> n in HostMethods(p) && n in p.members && p.members[n].Callable?
    ensures forall n :: n in r ==> r[n] == p.members[n].fn
    ensures p.projectMethods.Some? ==> r.Keys <= set n | n in p.projectMethods.value
    ensures p.projectMethods.None? && p.hostMethods.None? ==> r == map[]
  {
    KeyCallables(HostMethods(p), p.members)
  }

  /** `featureMixin`: exactly the feature-method names that are not host methods and
      resolve to functions. */
  function FeatureMixin(p: Provider): (r: map<string, FnId>)
    ensures forall n :: n in r <==>
      n in FeatureMethods(p) && n !in HostMethods(p) && n in p.members && p.members[n].Callable?
    ensures forall n :: n in r ==> r[n] == p.members[n].fn
  {
    KeyCallables(Without(FeatureMethods(p), HostMethods(p)), p.members)
  }

  /** A name claimed by `hostMethods` is never in the feature mixin. */
  lemma MixinsDisjoint(p: Provider)
    ensures ProjectMixin(p).Keys !! FeatureMixin(p).Keys
  {
  }

  // ---------------------------------------------------------------------------
  // Mixin options
  // ---------------------------------------------------------------------------

  /** `defaultMixinOptions` of a feature whose context is `context`. */
  function DefaultMixinOptions(self: Target, context: string): (opts: MixinOptions)
    ensures opts.Keys == {"transformKeys", "scope", "partial", "insertOptions", "right", "hidden", "configurable"}
    ensures opts["scope"] == ScopeTo(self) && opts["partial"] == PartialArgs(context)
    ensures RightWins(opts) && opts["hidden"] == Flag(false)
  {
    map[
      "transformKeys" := Flag(true),
      "scope" := ScopeTo(self),
      "partial" := PartialArgs(context),
      "insertOptions" := Flag(true),
      "right" := Flag(true),
      "hidden" := Flag(false),
      "configurable" := Flag(true)]
  }

  /** `a || b || {}`. */
  function FirstGiven(a: Option<MixinOptions>, b: Option<MixinOptions>): MixinOptions {
    if a.Some? then a.value else b.GetOr(map[])
  }

  /** `featureMixinOptions`: the feature's own override (`featureMixinOptions`, else
      `mixinOptions`) with the defaults filling the keys it leaves out. */
  function FeatureMixinOptions(p: Provider, name: string, context: string): (r: MixinOptions)
    ensures var over := FirstGiven(p.featureMixinOptions, p.mixinOptions);
      var dflt := DefaultMixinOptions(FeatureTarget(name), context);
      && r.Keys == over.Keys + dflt.Keys
      && (forall k :: k in over ==> r[k] == over[k])
      && (forall k :: k !in over && k in dflt ==> r[k] == dflt[k])
  {
    var over := FirstGiven(p.featureMixinOptions, p.mixinOptions);
    var dflt := DefaultMixinOptions(FeatureTarget(name), context);
    dflt + over
  }

  /** `hostMixinOptions`: scope is always the host; otherwise the override
      (`hostMixinOptions`, else `mixinOptions`) wins over the defaults. */
  function HostMixinOptions(p: Provider, name: string, context: string): (r: MixinOptions)
    ensures var over := FirstGiven(p.hostMixinOptions, p.mixinOptions);
      var dflt := DefaultMixinOptions(FeatureTarget(name), context);
      && r.Keys == over.Keys + dflt.Keys
      && r["scope"] == ScopeTo(HostTarget)
      && (forall k :: k != "scope" && k in over ==> r[k] == over[k])
      && (forall k :: k != "scope" && k !in over && k in dflt ==> r[k] == dflt[k])
  {
    var first: MixinOptions := map["scope" := ScopeTo(HostTarget)];
    var over := FirstGiven(p.hostMixinOptions, p.mixinOptions);
    var dflt := DefaultMixinOptions(FeatureTarget(name), context);
    assert "scope" in dflt;
    (dflt + over) + first
  }

  /** Both option getters are lodash `defaults` over their sources, in order. */
  lemma MixinOptionsAreDefaults(p: Provider, name: string, context: string)
    ensures FeatureMixinOptions(p, name, context) ==
      Defaults([FirstGiven(p.featureMixinOptions, p.mixinOptions), DefaultMixinOptions(FeatureTarget(name), context)])
    ensures HostMixinOptions(p, name, context) ==
      Defaults([map["scope" := ScopeTo(HostTarget)], FirstGiven(p.hostMixinOptions, p.mixinOptions),
                DefaultMixinOptions(FeatureTarget(name), context)])
  {
    DefaultsOfTwo(FirstGiven(p.featureMixinOptions, p.mixinOptions), DefaultMixinOptions(FeatureTarget(name), context));
    DefaultsOfThree(map["scope" := ScopeTo(HostTarget)], FirstGiven(p.hostMixinOptions, p.mixinOptions),
                    DefaultMixinOptions(FeatureTarget(name), context));
  }

  // ---------------------------------------------------------------------------
  // Applying a mixin (the effect of the Helper base class's `applyInterface`)
  // ---------------------------------------------------------------------------

  /** The object methods are bound to: the `scope` option, else the receiver itself. */
  function ScopeOf(opts: MixinOptions, receiver: Target): Target {
    if "scope" in opts && opts["scope"].ScopeTo? then opts["scope"].target else receiver
  }

  /** The `right` option: newly applied methods win over existing ones of the same name. */
  predicate RightWins(opts: MixinOptions) {
    "right" in opts && opts["right"] == Flag(true)
  }

  /** `receiver.applyInterface(mixin, opts)` on a receiver whose methods are `existing`. */
  function Graft(existing: map<string, Bound>, mixin: map<string, FnId>, opts: MixinOptions, receiver: Target)
    : (r: map<string, Bound>)
    ensures r.Keys == existing.Keys + mixin.Keys
    ensures forall k :: k in mixin && (RightWins(opts) || k !in existing) ==>
      r[k] == Bound(mixin[k], ScopeOf(opts, receiver))
    ensures forall k :: k in existing && (k !in mixin || !RightWins(opts)) ==> r[k] == existing[k]
  {
    var grafted := map k | k in mixin :: Bound(mixin[k], ScopeOf(opts, receiver));
    if RightWins(opts) then existing + grafted else grafted + existing
  }

  /** Applying the host mixin binds every grafted method to the host, whatever the
      feature's override says. */
  lemma HostMixinBindsToHost(p: Provider, name: string, context: string, existing: map<string, Bound>)
    ensures var opts := HostMixinOptions(p, name, context);
      var r := Graft(existing, ProjectMixin(p), opts, HostTarget);
      forall k :: k in ProjectMixin(p) && (RightWins(opts) || k !in existing) ==>
        r[k] == Bound(p.members[k].fn, HostTarget)
  {
  }

  // ---------------------------------------------------------------------------
  // Registry and attach
  // ---------------------------------------------------------------------------

  /** Where a registered provider comes from. */
  datatype ProviderRef = BuiltInModule(path: string)

  datatype Registry = Registry(providers: map<string, ProviderRef>, enabled: map<string, Value>)

  /** `Feature.createRegistry()`: pre-seeded with the built-in profiler and vm features. */
  function CreateRegistry(): (r: Registry)
    ensures r.providers.Keys == {"profiler", "vm"}
    ensures r.providers["profiler"] == BuiltInModule("../features/profiler")
    ensures r.providers["vm"] == BuiltInModule("../features/vm")
    ensures r.enabled == map[]
  {
    Registry(map["profiler" := BuiltInModule("../features/profiler"), "vm" := BuiltInModule("../features/vm")], map[])
  }

  /** A setting passed on to the Helper base class's `attach`. */
  datatype AttachSetting = Text(text: string) | Toggle(on: bool) | FeatureRegistry

  /** The settings `Feature.attach` hands to `Helper.attach`: its defaults, overridden
      key by key by the caller's options. */
  function AttachSettings(options: map<string, AttachSetting>): (r: map<string, AttachSetting>)
    ensures r.Keys == options.Keys + {"registryProp", "lookupProp", "cacheHelper", "isCacheable", "registry"}
    ensures forall k :: k in options ==> r[k] == options[k]
    ensures "registryProp" !in options ==> r["registryProp"] == Text("features")
    ensures "lookupProp" !in options ==> r["lookupProp"] == Text("feature")
    ensures "registry" !in options ==> r["registry"] == FeatureRegistry
    ensures "cacheHelper" !in options ==> r["cacheHelper"] == Toggle(true)
    ensures "isCacheable" !in options ==> r["isCacheable"] == Toggle(true)
  {
    map[
      "registryProp" := Text("features"),
      "lookupProp" := Text("feature"),
      "cacheHelper" := Toggle(true),
      "isCacheable" := Toggle(true),
      "registry" := FeatureRegistry] + options
  }

  // ---------------------------------------------------------------------------
  // enable(cfg)
  // ---------------------------------------------------------------------------

  /** The argument of `enable`, by its `typeof`. A `null` is an object to `typeof`. */
  datatype Config = Undefined | Null | ObjectConfig(fields: map<string, Value>) | FunctionConfig | ScalarConfig(text: string)

  /** The options after the configuration step of `enable`: an object is deep-merged over
      the stored options (its leaves win, the stored paths survive, and no other path
      appears); a function only draws a warning; anything else leaves them as they are. */
  function MergeConfig(cfg: Config, options: map<string, Value>): (r: map<string, Value>)
    ensures cfg.ObjectConfig? ==>
      && r.Keys == cfg.fields.Keys + options.Keys
      && Overrides(r, cfg.fields)
      && KeepsPaths(r, options)
      && KeepsLeaves(r, options, cfg.fields)
      && NoNewPaths(r, cfg.fields, options)
    ensures !cfg.ObjectConfig? ==> r == options
  {
    match cfg
    case ObjectConfig(fields) =>
      DefaultsDeepKeepsHi(fields, options);
      DefaultsDeepKeepsLoPaths(fields, options);
      DefaultsDeepKeepsLoLeaves(fields, options);
      DefaultsDeepNoNewPaths(fields, options);
      DefaultsDeep(fields, options)
    case _ => options
  }

  datatype Status = Enabled | Failed

  /** One `featureStatus` entry. */
  datatype StatusEntry = StatusEntry(cacheKey: string, status: Status, cfg: Config, options: map<string, Value>, error: Option<string>)

  /** The guard of `enable`: the name is recorded as enabled under this same cache key.
      The runtime's `isFeatureEnabled` and `enabledFeatures` are taken to read `featureStatus`. */
  predicate IsRecordedEnabled(featureStatus: Option<map<string, StatusEntry>>, name: string, cacheKey: string) {
    && featureStatus.Some?
    && name in featureStatus.value
    && featureStatus.value[name].status == Enabled
    && featureStatus.value[name].cacheKey == cacheKey
  }

  /** The guard reads the latest entry written for the name, and only that entry. */
  lemma GuardReadsLatestEntry(fs: map<string, StatusEntry>, name: string, e: StatusEntry, other: string, cacheKey: string)
    ensures IsRecordedEnabled(Some(fs[name := e]), name, cacheKey) <==> e.status == Enabled && e.cacheKey == cacheKey
    ensures other != name ==>
      (IsRecordedEnabled(Some(fs[name := e]), other, cacheKey) <==> IsRecordedEnabled(Some(fs), other, cacheKey))
  {
  }

  /** What the `featureWasEnabled` hook does when called. A rejection's reason is `None`
      when it is `undefined` or `null`. */
  datatype HookOutcome = HookResolved | HookRejected(reason: Option<string>)

  datatype HookStyle = ClassStyle | ModuleStyle

  /** A call of the lifecycle hook: which one, and with what arguments. */
  datatype HookCall = HookCall(style: HookStyle, cfg: Config, options: map<string, Value>)

  /** Why `enable` rejects: the hook's reason, rethrown; the `TypeError` that reading
      `error.message` of a missing reason throws; or the throw of the status write when
      `featureStatus` is missing, which replaces the hook's outcome. */
  datatype EnableError = HookError(error: string) | ReasonIsNullish | StatusMapMissing

  /** How the promise `enable` returns settles: with the feature itself, or rejected. */
  datatype EnableResult = ResolvedToFeature | Rejected(error: EnableError)

  /** The state `enable` reads and writes: the feature's options, the runtime's status map
      (`None` when the runtime has none) and the methods grafted on the runtime. */
  datatype EnableState = EnableState(
    options: map<string, Value>,
    featureStatus: Option<map<string, StatusEntry>>,
    hostMethods: map<string, Bound>)

  datatype EnableStep = EnableStep(state: EnableState, result: EnableResult, hook: Option<HookCall>)

  /** What identifies a feature instance to `enable`. */
  datatype FeatureId = FeatureId(name: string, cacheKey: string, context: string, provider: Provider)

  /** The class-style hook is preferred over the module-style one. */
  function HookStyleOf(p: Provider): (style: HookStyle)
    ensures style == ClassStyle <==> p.hasClassHook
  {
    if p.hasClassHook then ClassStyle else ModuleStyle
  }

  /** The status entry a completed hook leaves behind. */
  function EntryAfterHook(f: FeatureId, cfg: Config, options: map<string, Value>, outcome: HookOutcome): (e: StatusEntry)
    ensures e.cacheKey == f.cacheKey && e.cfg == cfg && e.options == options
    ensures e.status == Enabled <==> outcome.HookResolved?
    ensures e.error == (if outcome.HookRejected? then outcome.reason else None)
  {
    match outcome
    case HookResolved => StatusEntry(f.cacheKey, Enabled, cfg, options, None)
    case HookRejected(reason) => StatusEntry(f.cacheKey, Failed, cfg, options, reason)
  }

  /** How `enable` settles once the status entry is written: with the feature when the hook
      resolved; otherwise the `.catch` rethrows the reason, unless the reason is missing, in
      which case reading its `message` throws a `TypeError` first. */
  function SettledResult(outcome: HookOutcome): (r: EnableResult)
    ensures r == ResolvedToFeature <==> outcome.HookResolved?
    ensures outcome.HookRejected? && outcome.reason.Some? ==> r == Rejected(HookError(outcome.reason.value))
    ensures outcome.HookRejected? && outcome.reason.None? ==> r == Rejected(ReasonIsNullish)
  {
    match outcome
    case HookResolved => ResolvedToFeature
    case HookRejected(None) => Rejected(ReasonIsNullish)
    case HookRejected(Some(e)) => Rejected(HookError(e))
  }

  /** One call of `enable(cfg)`, given whether applying the host mixin throws and what the
      hook does. */
  function EnableSpec(f: FeatureId, st: EnableState, cfg: Config, mixinThrows: bool, outcome: HookOutcome): (o: EnableStep)
    // Already enabled with this cache key: nothing happens.
    ensures IsRecordedEnabled(st.featureStatus, f.name, f.cacheKey) ==>
      o == EnableStep(st, ResolvedToFeature, None)
    // Otherwise the options are merged and the hook always runs, even if the mixin threw.
    ensures !IsRecordedEnabled(st.featureStatus, f.name, f.cacheKey) ==>
      && o.state.options == MergeConfig(cfg, st.options)
      && o.hook == Some(HookCall(HookStyleOf(f.provider), cfg, o.state.options))
    ensures !IsRecordedEnabled(st.featureStatus, f.name, f.cacheKey) && mixinThrows ==>
      o.state.hostMethods == st.hostMethods
    // Otherwise the host mixin is grafted onto the host with the host mixin options.
    ensures !IsRecordedEnabled(st.featureStatus, f.name, f.cacheKey) && !mixinThrows ==>
      o.state.hostMethods ==
        Graft(st.hostMethods, ProjectMixin(f.provider), HostMixinOptions(f.provider, f.name, f.context), HostTarget)
    // One entry per name, overwritten: the status map keeps its other entries.
    ensures o.state.featureStatus.Some? <==> st.featureStatus.Some?
    ensures st.featureStatus.Some? ==>
      && o.state.featureStatus.value.Keys <= st.featureStatus.value.Keys + {f.name}
      && forall n :: n in st.featureStatus.value && n != f.name ==>
           n in o.state.featureStatus.value && o.state.featureStatus.value[n] == st.featureStatus.value[n]
    // A successful hook records `enabled`; a failing one records `failed` and rethrows.
    ensures !IsRecordedEnabled(st.featureStatus, f.name, f.cacheKey) && st.featureStatus.Some? ==>
      && f.name in o.state.featureStatus.value
      && o.state.featureStatus.value[f.name] == EntryAfterHook(f, cfg, o.state.options, outcome)
      && o.result == SettledResult(outcome)
    ensures !IsRecordedEnabled(st.featureStatus, f.name, f.cacheKey) && st.featureStatus.None? ==>
      o.result == Rejected(StatusMapMissing)
    // Whenever enable resolves, the feature is recorded as enabled under its cache key.
    ensures o.result == ResolvedToFeature ==> IsRecordedEnabled(o.state.featureStatus, f.name, f.cacheKey)
  {
    if IsRecordedEnabled(st.featureStatus, f.name, f.cacheKey) then
      EnableStep(st, ResolvedToFeature, None)
    else
      var options := MergeConfig(cfg, st.options);
      var hostMethods :=
        if mixinThrows then st.hostMethods
        else Graft(st.hostMethods, ProjectMixin(f.provider), HostMixinOptions(f.provider, f.name, f.context), HostTarget);
      var call := Some(HookCall(HookStyleOf(f.provider), cfg, options));
      match st.featureStatus
      case None => EnableStep(EnableState(options, None, hostMethods), Rejected(StatusMapMissing), call)
      case Some(fs) =>
        var entry := EntryAfterHook(f, cfg, options, outcome);
        var result := SettledResult(outcome);
        EnableStep(EnableState(options, Some(fs[f.name := entry]), hostMethods), result, call)
  }

  /** Once `enable` has resolved, a second `enable` of the same instance, with any
      configuration, is a no-op: no option change, no mixin, no hook call, no status write. */
  lemma ReEnableShortCircuits(
    f: FeatureId, st: EnableState,
    cfg1: Config, throws1: bool, out1: HookOutcome,
    cfg2: Config, throws2: bool, out2: HookOutcome)
    requires EnableSpec(f, st, cfg1, throws1, out1).result == ResolvedToFeature
    ensures var s1 := EnableSpec(f, st, cfg1, throws1, out1).state;
      EnableSpec(f, s1, cfg2, throws2, out2) == EnableStep(s1, ResolvedToFeature, None)
  {
  }

  /** After a rejected `enable`, the next `enable` runs the hook again. */
  lemma RetryAfterFailureRunsHook(
    f: FeatureId, st: EnableState,
    cfg1: Config, throws1: bool, out1: HookOutcome,
    cfg2: Config, throws2: bool, out2: HookOutcome)
    requires EnableSpec(f, st, cfg1, throws1, out1).result.Rejected?
    ensures var s1 := EnableSpec(f, st, cfg1, throws1, out1).state;
      EnableSpec(f, s1, cfg2, throws2, out2).hook.Some?
  {
  }

  /** Another instance of the same feature under a different cache key is not
      short-circuited: its hook runs and its own cache key replaces the recorded one. */
  lemma NewCacheKeyReEnables(
    f: FeatureId, g: FeatureId, st: EnableState,
    cfg1: Config, throws1: bool, out1: HookOutcome,
    gOptions: map<string, Value>, cfg2: Config, throws2: bool, out2: HookOutcome)
    requires f.name == g.name && f.cacheKey != g.cacheKey
    requires st.featureStatus.Some?
    requires EnableSpec(f, st, cfg1, throws1, out1).result == ResolvedToFeature
    ensures var s1 := EnableSpec(f, st, cfg1, throws1, out1).state;
      var o := EnableSpec(g, s1.(options := gOptions), cfg2, throws2, out2);
      && o.hook.Some?
      && o.state.options == MergeConfig(cfg2, gOptions)
      && o.state.featureStatus.value[g.name].cacheKey == g.cacheKey
  {
  }

  /** When the hook keeps failing, enabling again with the same object configuration
      leaves the options as the first attempt left them. */
  lemma {:induction false} SameConfigSameOptions(
    f: FeatureId, st: EnableState, fields: map<string, Value>,
    throws1: bool, out1: HookOutcome, throws2: bool, out2: HookOutcome)
    requires !IsRecordedEnabled(st.featureStatus, f.name, f.cacheKey)
    requires out1.HookRejected?
    ensures var s1 := EnableSpec(f, st, ObjectConfig(fields), throws1, out1).state;
      EnableSpec(f, s1, ObjectConfig(fields), throws2, out2).state.options == s1.options
  {
    DefaultsDeepIdempotent(fields, st.options);
  }

  // ---------------------------------------------------------------------------
  // The runtime and the feature instance
  // ---------------------------------------------------------------------------

  /** The host runtime, as far as features touch it. */
  class Runtime {
    /** Whether the runtime has `makeObservable`. */
    const observable: bool
    /** `featureStatus`, or `None` while the runtime has no such map. */
    var featureStatus: Option<map<string, StatusEntry>>
    /** Methods grafted onto the runtime by `applyInterface`. */
    var methods: map<string, Bound>
    /** `runtime.Feature` has been set. */
    var featureClassAttached: bool
    /** The settings last handed to `Helper.attach`. */
    var helperSettings: Option<map<string, AttachSetting>>

    constructor(observable: bool, methods: map<string, Bound>)
      ensures this.observable == observable && this.methods == methods
      ensures featureStatus == None && !featureClassAttached && helperSettings == None
    {
      this.observable := observable;
      this.methods := methods;
      featureStatus := None;
      featureClassAttached := false;
      helperSettings := None;
    }

    /** `Feature.attach(runtime, options)`: creates `featureStatus` only when it is missing,
        so attaching again never resets it. */
    method Attach(options: map<string, AttachSetting>)
      modifies this`featureClassAttached, this`helperSettings, this`featureStatus
      ensures featureClassAttached
      ensures helperSettings == Some(AttachSettings(options))
      ensures old(featureStatus).Some? ==> featureStatus == old(featureStatus)
      ensures old(featureStatus).None? ==> featureStatus == (if observable then Some(map[]) else None)
    {
      featureClassAttached := true;
      helperSettings := Some(AttachSettings(options));
      if observable && featureStatus.None? {
        featureStatus := Some(map[]);
      }
    }

    /** `runtime.applyInterface(mixin, opts)`. */
    method ApplyInterface(mixin: map<string, FnId>, opts: MixinOptions)
      modifies this`methods
      ensures methods == Graft(old(methods), mixin, opts, HostTarget)
    {
      methods := Graft(methods, mixin, opts, HostTarget);
    }
  }

  /** A feature instance. */
  class Feature {
    const name: string
    const cacheKey: string
    const context: string
    const provider: Provider
    const runtime: Runtime
    /** The feature's merged configuration. */
    var options: map<string, Value>
    /** Methods grafted onto the feature itself. */
    var methods: map<string, Bound>

    constructor(name: string, cacheKey: string, context: string, provider: Provider, runtime: Runtime,
                options: map<string, Value>)
      ensures this.name == name && this.cacheKey == cacheKey && this.context == context
      ensures this.provider == provider && this.runtime == runtime
      ensures this.options == options && methods == map[]
    {
      this.name := name;
      this.cacheKey := cacheKey;
      this.context := context;
      this.provider := provider;
      this.runtime := runtime;
      this.options := options;
      methods := map[];
    }

    function Id(): FeatureId {
      FeatureId(name, cacheKey, context, provider)
    }

    /** `initialize()`: grafts the feature mixin onto the feature itself. */
    method Initialize()
      modifies this`methods
      ensures methods == Graft(old(methods), FeatureMixin(provider), FeatureMixinOptions(provider, name, context), FeatureTarget(name))
    {
      methods := Graft(methods, FeatureMixin(provider), FeatureMixinOptions(provider, name, context), FeatureTarget(name));
    }

    /** `enable(cfg)`; `mixinThrows` says whether applying the host mixin throws, `outcome`
        what the lifecycle hook does. */
    method Enable(cfg: Config, mixinThrows: bool, outcome: HookOutcome) returns (result: EnableResult, hook: Option<HookCall>)
      modifies this`options, runtime`featureStatus, runtime`methods
      ensures var o := EnableSpec(Id(), EnableState(old(options), old(runtime.featureStatus), old(runtime.methods)),
                                  cfg, mixinThrows, outcome);
        && options == o.state.options
        && runtime.featureStatus == o.state.featureStatus
        && runtime.methods == o.state.hostMethods
        && result == o.result
        && hook == o.hook
    {
      if IsRecordedEnabled(runtime.featureStatus, name, cacheKey) {
        return ResolvedToFeature, None;
      }

      // An object is deep-merged over the options; a function only warns.
      options := MergeConfig(cfg, options);

      // Applying the host mixin may throw; the error is logged and enabling goes on.
      if !mixinThrows {
        runtime.ApplyInterface(ProjectMixin(provider), HostMixinOptions(provider, name, context));
      }

      hook := Some(HookCall(HookStyleOf(provider), cfg, options));

      match runtime.featureStatus
      case None =>
        result := Rejected(StatusMapMissing);
      case Some(fs) =>
        runtime.featureStatus := Some(fs[name := EntryAfterHook(Id(), cfg, options, outcome)]);
        result := SettledResult(outcome);
    }
  }
}
