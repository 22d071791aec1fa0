/**
 * The process-wide registry object of plugin/register.go. Its methods update
 * the two tables in place, each proved to perform exactly one step of the
 * state machine in registry_model.dfy. Locking is not modelled: each method is
 * one atomic step.
 */
module PluginRegistry {
  import opened Common
  import opened RegistryModel

  /**
   * What `Get[T]` hands back: the zero value of `T`, or the adapter built by a
   * factory. Invoking the factory (which may open connections) is not
   * modelled, so the product is identified by the factory that built it.
   */
  datatype Instance<F> = NoInstance | Built(factory: F)

  class Registry<K(==,!new), F> {
    var factories: map<PluginType, map<K, F>>
    var status: map<PluginType, PluginStatus>

    /** The abstract value of the registry. */
    function State(): Tables<K, F>
      reads this
    {
      Tables(factories, status)
    }

    /** The global `registry` starts with two empty tables. */
    constructor ()
      ensures State() == EmptyTables()
    {
      factories := map[];
      status := map[];
    }

    method RegisterPlugin(t: PluginType, k: K, f: F)
      modifies this
      ensures State() == RegistryModel.Register(old(State()), t, k, f)
    {
      if t !in factories {
        factories := factories[t := map[]];
      }
      factories := factories[t := factories[t][k := f]];
      status := status[t := PluginRegistered];
    }

    method Enable(t: PluginType)
      modifies this
      ensures State() == RegistryModel.Enable(old(State()), t)
    {
      if t in factories {
        status := status[t := PluginEnabled];
      }
    }

    method Disable(t: PluginType)
      modifies this
      ensures State() == RegistryModel.Disable(old(State()), t)
    {
      if t in factories {
        status := status[t := PluginDisabled];
      }
    }

    method Unload(t: PluginType)
      modifies this
      ensures State() == RegistryModel.Unload(old(State()), t)
    {
      if t in factories {
        status := status[t := PluginUnloaded];
      }
      factories := factories - {t};
    }

    /**
     * `Get[T]`: found with the factory's product exactly when a factory is
     * stored under `(t, k)`, whatever the status of `t`.
     */
    method Get(t: PluginType, k: K) returns (impl: Instance<F>, ok: bool)
      ensures ok <==> t in factories && k in factories[t]
      ensures ok ==> impl == Built(factories[t][k])
      ensures !ok ==> impl == NoInstance
      ensures ok <==> Lookup(State(), t, k).Some?
    {
      if t in factories && k in factories[t] {
        return Built(factories[t][k]), true;
      }
      return NoInstance, false;
    }
  }
}
