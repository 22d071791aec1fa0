/**
 * The plugin registry of plugin/register.go as a pure state machine over its
 * two tables, together with the batch folds of plugin/manager.go and the
 * properties they guarantee. The class in registry.dfy is proved to follow
 * these functions step by step.
 *
 * The capability key `K` stands for the `reflect.Type` of the requested
 * interface and the factory `F` for a `func() interface{}`; both are opaque.
 */
module RegistryModel {
  import opened Common

  /** Vendor identifier (Go `PluginType string`). */
  type PluginType = string

  const DJIDock2Plugin: PluginType := "dji_dock2"
  const FH2Plugin: PluginType := "fh2"
  const DJIPilotPlugin: PluginType := "dji_pilot"

  /** Lifecycle status of a plugin type (Go `service.PluginStatus`). */
  datatype PluginStatus = PluginRegistered | PluginUnloaded | PluginDisabled | PluginEnabled

  /** `Registry.PluginFactory` and `Registry.Status`. */
  datatype Tables<K(==,!new), F> = Tables(factories: map<PluginType, map<K, F>>, status: map<PluginType, PluginStatus>)

  function EmptyTables<K(==,!new), F>(): Tables<K, F> {
    Tables(map[], map[])
  }

  /** The factory stored under `(t, k)`, if any. */
  function Lookup<K(==,!new), F>(s: Tables<K, F>, t: PluginType, k: K): Option<F> {
    if t in s.factories && k in s.factories[t] then Some(s.factories[t][k]) else None
  }

  /** The status recorded for `t`, if any. */
  function StatusOf<K(==,!new), F>(s: Tables<K, F>, t: PluginType): Option<PluginStatus> {
    if t in s.status then Some(s.status[t]) else None
  }

  /** `RegisterPlugin`: upsert one factory and reset the type's status to Registered. */
  function Register<K(==,!new), F>(s: Tables<K, F>, t: PluginType, k: K, f: F): (r: Tables<K, F>)
    ensures r.factories.Keys == s.factories.Keys + {t}
    ensures Lookup(r, t, k) == Some(f)
    ensures forall t', k' | t' != t || k' != k :: Lookup(r, t', k') == Lookup(s, t', k')
    ensures StatusOf(r, t) == Some(PluginRegistered)
    ensures forall t' | t' != t :: StatusOf(r, t') == StatusOf(s, t')
  {
    var inner := if t in s.factories then s.factories[t] else map[];
    Tables(s.factories[t := inner[k := f]], s.status[t := PluginRegistered])
  }

  /** Shared body of `Enable` and `Disable`: record `st` only for a type with a factory table. */
  function Mark<K(==,!new), F>(s: Tables<K, F>, t: PluginType, st: PluginStatus): Tables<K, F> {
    if t in s.factories then s.(status := s.status[t := st]) else s
  }

  /** `Enable`. */
  function Enable<K(==,!new), F>(s: Tables<K, F>, t: PluginType): (r: Tables<K, F>)
    ensures r.factories == s.factories
    ensures t in s.factories ==> StatusOf(r, t) == Some(PluginEnabled)
    ensures t !in s.factories ==> r == s
    ensures forall t' | t' != t :: StatusOf(r, t') == StatusOf(s, t')
  {
    Mark(s, t, PluginEnabled)
  }

  /** `Disable`. */
  function Disable<K(==,!new), F>(s: Tables<K, F>, t: PluginType): (r: Tables<K, F>)
    ensures r.factories == s.factories
    ensures t in s.factories ==> StatusOf(r, t) == Some(PluginDisabled)
    ensures t !in s.factories ==> r == s
    ensures forall t' | t' != t :: StatusOf(r, t') == StatusOf(s, t')
  {
    Mark(s, t, PluginDisabled)
  }

  /** `Unload`: mark a present type Unloaded, then drop its factory table in every case. */
  function Unload<K(==,!new), F>(s: Tables<K, F>, t: PluginType): (r: Tables<K, F>)
    ensures r.factories == s.factories - {t}
    ensures forall k :: Lookup(r, t, k) == None
    ensures t in s.factories ==> StatusOf(r, t) == Some(PluginUnloaded)
    ensures t !in s.factories ==> r.status == s.status
    ensures forall t' | t' != t :: StatusOf(r, t') == StatusOf(s, t')
  {
    var status := if t in s.factories then s.status[t := PluginUnloaded] else s.status;
    Tables(s.factories - {t}, status)
  }

  /**
   * What `Get`'s comment promises (an adapter only for an Enabled type); `Get`
   * itself never reads the status table.
   */
  function ResolveEnabled<K(==,!new), F>(s: Tables<K, F>, t: PluginType, k: K): (r: Option<F>)
    ensures r.Some? <==> StatusOf(s, t) == Some(PluginEnabled) && Lookup(s, t, k).Some?
    ensures r.Some? ==> r == Lookup(s, t, k)
  {
    if t in s.status && s.status[t] == PluginEnabled then Lookup(s, t, k) else None
  }

  // ---------------------------------------------------------------------------
  // Properties of single operations

  /** Re-registering a key keeps only the last factory (last writer wins). */
  lemma LastRegistrationWins<K(!new), F>(s: Tables<K, F>, t: PluginType, k: K, f1: F, f2: F)
    ensures Register(Register(s, t, k, f1), t, k, f2) == Register(s, t, k, f2)
  {
    var inner := if t in s.factories then s.factories[t] else map[];
    var once := Register(s, t, k, f1);
    assert once.factories[t] == inner[k := f1];
    assert inner[k := f1][k := f2] == inner[k := f2];
    assert once.factories[t := inner[k := f2]] == s.factories[t := inner[k := f2]];
    assert once.status[t := PluginRegistered] == s.status[t := PluginRegistered];
  }

  /** Registration resets the status to Registered, even for an Enabled type. */
  lemma RegisterDemotesEnabled<K(!new), F>(s: Tables<K, F>, t: PluginType, k: K, f: F)
    requires StatusOf(s, t) == Some(PluginEnabled)
    ensures StatusOf(Register(s, t, k, f), t) == Some(PluginRegistered)
    ensures ResolveEnabled(Register(s, t, k, f), t, k) == None
  {
  }

  /**
   * A Disabled capability is still found by `Get`'s lookup, although the
   * enabled-only resolution refuses it.
   */
  lemma DisabledStillFound<K(!new), F>(s: Tables<K, F>, t: PluginType, k: K, f: F)
    ensures StatusOf(Disable(Register(s, t, k, f), t), t) == Some(PluginDisabled)
    ensures Lookup(Disable(Register(s, t, k, f), t), t, k) == Some(f)
    ensures ResolveEnabled(Disable(Register(s, t, k, f), t), t, k) == None
  {
  }

  /** After an unload and a fresh registration, the type holds the new key only. */
  lemma ReRegisterAfterUnload<K(!new), F>(s: Tables<K, F>, t: PluginType, k: K, f: F)
    ensures Register(Unload(s, t), t, k, f).factories[t] == map[k := f]
    ensures StatusOf(Register(Unload(s, t), t, k, f), t) == Some(PluginRegistered)
  {
  }

  /** The enabled-only resolution follows Enable and Disable. */
  lemma ResolveFollowsLifecycle<K(!new), F>(s: Tables<K, F>, t: PluginType, k: K, f: F)
    ensures ResolveEnabled(Register(s, t, k, f), t, k) == None
    ensures ResolveEnabled(Enable(Register(s, t, k, f), t), t, k) == Some(f)
    ensures ResolveEnabled(Disable(Enable(Register(s, t, k, f), t), t), t, k) == None
    ensures Lookup(Disable(Enable(Register(s, t, k, f), t), t), t, k) == Some(f)
  {
  }

  // ---------------------------------------------------------------------------
  // Sequences of operations

  datatype Op<K(==,!new), F> =
    | RegisterOp(t: PluginType, k: K, f: F)
    | EnableOp(t: PluginType)
    | DisableOp(t: PluginType)
    | UnloadOp(t: PluginType)

  function Apply<K(==,!new), F>(s: Tables<K, F>, op: Op<K, F>): Tables<K, F> {
    match op
    case RegisterOp(t, k, f) => Register(s, t, k, f)
    case EnableOp(t) => Enable(s, t)
    case DisableOp(t) => Disable(s, t)
    case UnloadOp(t) => Unload(s, t)
  }

  /** The registry after the operations of `ops`, in order. */
  function Run<K(==,!new), F>(s: Tables<K, F>, ops: seq<Op<K, F>>): Tables<K, F>
    decreases |ops|
  {
    if ops == [] then s else Run(Apply(s, ops[0]), ops[1..])
  }

  /** No operation other than a registration of `t` gives `t` a factory table. */
  lemma {:induction false} AbsentUntilRegistered<K(!new), F>(s: Tables<K, F>, t: PluginType, ops: seq<Op<K, F>>)
    requires t !in s.factories
    requires forall i | 0 <= i < |ops| :: !(ops[i].RegisterOp? && ops[i].t == t)
    ensures t !in Run(s, ops).factories
    decreases |ops|
  {
    if ops != [] {
      var s' := Apply(s, ops[0]);
      assert t !in s'.factories;
      forall i | 0 <= i < |ops[1..]| ensures !(ops[1..][i].RegisterOp? && ops[1..][i].t == t) {
        assert ops[1..][i] == ops[i + 1];
      }
      AbsentUntilRegistered(s', t, ops[1..]);
    }
  }

  /** After `Unload(t)`, every lookup under `t` misses until `t` is registered again. */
  lemma UnloadedUntilRegistered<K(!new), F>(s: Tables<K, F>, t: PluginType, ops: seq<Op<K, F>>, k: K)
    requires forall i | 0 <= i < |ops| :: !(ops[i].RegisterOp? && ops[i].t == t)
    ensures Lookup(Run(Unload(s, t), ops), t, k) == None
  {
    AbsentUntilRegistered(Unload(s, t), t, ops);
  }

  // ---------------------------------------------------------------------------
  // The batch loops of plugin/manager.go

  /** `LoadEnableList` (st = Enabled) and `LoadDisabledList` (st = Disabled). */
  function MarkAll<K(==,!new), F>(s: Tables<K, F>, xs: seq<PluginType>, st: PluginStatus): Tables<K, F>
    decreases |xs|
  {
    if xs == [] then s else Mark(MarkAll(s, xs[..|xs| - 1], st), xs[|xs| - 1], st)
  }

  /** `LoadUnloadedList`. */
  function UnloadAll<K(==,!new), F>(s: Tables<K, F>, xs: seq<PluginType>): Tables<K, F>
    decreases |xs|
  {
    if xs == [] then s else Unload(UnloadAll(s, xs[..|xs| - 1]), xs[|xs| - 1])
  }

  lemma LastSplit(xs: seq<PluginType>)
    requires xs != []
    ensures forall t :: t in xs <==> t in xs[..|xs| - 1] || t == xs[|xs| - 1]
  {
    assert xs == xs[..|xs| - 1] + [xs[|xs| - 1]];
  }

  /**
   * Closed form of a batch Enable or Disable: exactly the listed types that
   * have a factory table take status `st`; every other status and the factory
   * table are unchanged.
   */
  lemma {:induction false} MarkAllEffect<K(!new), F>(s: Tables<K, F>, xs: seq<PluginType>, st: PluginStatus)
    ensures MarkAll(s, xs, st).factories == s.factories
    ensures forall t :: StatusOf(MarkAll(s, xs, st), t) ==
                        if t in xs && t in s.factories then Some(st) else StatusOf(s, t)
    decreases |xs|
  {
    if xs != [] {
      MarkAllEffect(s, xs[..|xs| - 1], st);
      LastSplit(xs);
    }
  }

  /** A batch Enable or Disable depends only on the set of listed names, not on order or duplicates. */
  lemma MarkAllOrderFree<K(!new), F>(s: Tables<K, F>, xs: seq<PluginType>, ys: seq<PluginType>, st: PluginStatus)
    requires forall t :: t in xs <==> t in ys
    ensures MarkAll(s, xs, st) == MarkAll(s, ys, st)
  {
    MarkAllEffect(s, xs, st);
    MarkAllEffect(s, ys, st);
    var a, b := MarkAll(s, xs, st), MarkAll(s, ys, st);
    forall t ensures t in a.status <==> t in b.status {
      assert StatusOf(a, t) == StatusOf(b, t);
    }
    forall t | t in a.status ensures a.status[t] == b.status[t] {
      assert StatusOf(a, t) == StatusOf(b, t);
    }
    assert a.status == b.status;
  }

  /**
   * Closed form of a batch Unload: no listed type keeps a factory table, the
   * others keep theirs unchanged, and only listed types that were present
   * become Unloaded.
   */
  lemma {:induction false} UnloadAllEffect<K(!new), F>(s: Tables<K, F>, xs: seq<PluginType>)
    ensures forall t :: t in UnloadAll(s, xs).factories <==> t in s.factories && t !in xs
    ensures forall t | t in UnloadAll(s, xs).factories :: UnloadAll(s, xs).factories[t] == s.factories[t]
    ensures forall t :: StatusOf(UnloadAll(s, xs), t) ==
                        if t in xs && t in s.factories then Some(PluginUnloaded) else StatusOf(s, t)
    decreases |xs|
  {
    if xs != [] {
      UnloadAllEffect(s, xs[..|xs| - 1]);
      LastSplit(xs);
    }
  }

  /** Each batch operation applied to an empty list changes nothing. */
  lemma BatchOnEmptyList<K(!new), F>(s: Tables<K, F>, st: PluginStatus)
    ensures MarkAll(s, [], st) == s && UnloadAll(s, []) == s
  {
  }
}
