/**
 * The batch lifecycle operations of plugin/manager.go: each is a loop applying
 * one registry operation to every name of the list, in order.
 */
module PluginManager {
  import opened RegistryModel
  import opened PluginRegistry

  method LoadEnableList<K(==,!new), F>(reg: Registry<K, F>, selected: seq<PluginType>)
    modifies reg
    ensures reg.State() == MarkAll(old(reg.State()), selected, PluginEnabled)
  {
    for i := 0 to |selected|
      invariant reg.State() == MarkAll(old(reg.State()), selected[..i], PluginEnabled)
    {
      reg.Enable(selected[i]);
      assert selected[..i + 1][..i] == selected[..i];
    }
    assert selected[..|selected|] == selected;
  }

  method LoadDisabledList<K(==,!new), F>(reg: Registry<K, F>, selected: seq<PluginType>)
    modifies reg
    ensures reg.State() == MarkAll(old(reg.State()), selected, PluginDisabled)
  {
    for i := 0 to |selected|
      invariant reg.State() == MarkAll(old(reg.State()), selected[..i], PluginDisabled)
    {
      reg.Disable(selected[i]);
      assert selected[..i + 1][..i] == selected[..i];
    }
    assert selected[..|selected|] == selected;
  }

  method LoadUnloadedList<K(==,!new), F>(reg: Registry<K, F>, selected: seq<PluginType>)
    modifies reg
    ensures reg.State() == UnloadAll(old(reg.State()), selected)
  {
    for i := 0 to |selected|
      invariant reg.State() == UnloadAll(old(reg.State()), selected[..i])
    {
      reg.Unload(selected[i]);
      assert selected[..i + 1][..i] == selected[..i];
    }
    assert selected[..|selected|] == selected;
  }
}
