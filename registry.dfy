/**
 * The command registry: every module exported by the commands directory is
 * stored in `client.commands` under its own `name`, in the order of
 * `Object.keys(botCommands)`.
 */
module Registry {

  /**
   * A command module. `key` is the property under which the commands directory
   * exports it (it tells two modules apart); `name` is the token that invokes it.
   * What the module's `execute` does is not part of this model.
   */
  datatype Command = Command(key: string, name: string)

  /** Every stored command sits under its own name. */
  ghost predicate KeyedByName(commands: map<string, Command>)
  {
    forall k :: k in commands ==> commands[k].name == k
  }

  /**
   * The registry after `set(m.name, m)` for each module in turn, starting from an
   * empty collection: its keys are exactly the modules' names, and the command
   * stored under `k` is named `k` and is one of the modules.
   */
  function RegistryOf(modules: seq<Command>): (r: map<string, Command>)
    ensures r.Keys == set m | m in modules :: m.name
    ensures KeyedByName(r)
    ensures forall k :: k in r ==> r[k] in modules
    decreases |modules|
  {
    if modules == [] then map[]
    else
      var init := modules[..|modules| - 1];
      var last := modules[|modules| - 1];
      assert modules == init + [last];
      RegistryOf(init)[last.name := last]
  }

  /** When two modules share a name, the later one in iteration order wins. */
  lemma {:induction false} RegistryLastWins(modules: seq<Command>, i: nat)
    requires i < |modules|
    requires forall j :: i < j < |modules| ==> modules[j].name != modules[i].name
    ensures modules[i].name in RegistryOf(modules)
    ensures RegistryOf(modules)[modules[i].name] == modules[i]
    decreases |modules|
  {
    if i < |modules| - 1 {
      var init := modules[..|modules| - 1];
      RegistryLastWins(init, i);
    }
  }

  /** Registration loop: `client.commands.set(botCommands[key].name, botCommands[key])` for every key. */
  method BuildRegistry(modules: seq<Command>) returns (commands: map<string, Command>)
    ensures commands == RegistryOf(modules)
    ensures commands.Keys == set m | m in modules :: m.name
    ensures KeyedByName(commands)
  {
    commands := map[];
    var i := 0;
    while i < |modules|
      invariant 0 <= i <= |modules|
      invariant commands == RegistryOf(modules[..i])
    {
      assert modules[..i + 1][..i] == modules[..i];
      commands := commands[modules[i].name := modules[i]];
      i := i + 1;
    }
    assert modules[..|modules|] == modules;
  }
}
