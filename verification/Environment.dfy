/** The environment the action hands to its child processes (src/main.js:4-10, 115-118). */
module Environment {

  /** The three values the action fixes for predictable tool behaviour. */
  const FixedEntries: map<string, string> :=
    map["FORCE_COLOR" := "true", "DOTNET_CLI_HOME" := "/tmp", "DOTNET_NOLOGO" := "true"]

  /** The two variables the `env` constant copies from the inherited environment. */
  const CopiedKeys: set<string> := {"PATH", "HOME"}

  /** The `env` constant: `PATH` and `HOME` as inherited (left out when the inherited
      environment has no such variable, since the value is then `undefined`), plus the
      fixed entries. */
  function ActionEnv(inherited: map<string, string>): (env: map<string, string>)
    ensures env.Keys == FixedEntries.Keys + (CopiedKeys * inherited.Keys)
    ensures forall k :: k in FixedEntries ==> env[k] == FixedEntries[k]
    ensures forall k :: k in CopiedKeys && k in inherited ==> env[k] == inherited[k]
  {
    FixedEntries + map k | k in CopiedKeys * inherited.Keys :: inherited[k]
  }

  /** The object spread `{ ...base, ...overlay }`: every key of `overlay` takes the
      overlay's value and every other key of `base` keeps its own. */
  function Spread<K, V>(base: map<K, V>, overlay: map<K, V>): (r: map<K, V>)
    ensures r.Keys == base.Keys + overlay.Keys
    ensures forall k :: k in overlay ==> r[k] == overlay[k]
    ensures forall k :: k in base && k !in overlay ==> r[k] == base[k]
  {
    base + overlay
  }

  /** `processEnv`: the inherited environment overlaid with `env`. The child sees every
      inherited variable unchanged except the three fixed ones, which it sees with the
      action's values whether or not they were inherited. */
  function ProcessEnv(inherited: map<string, string>): (env: map<string, string>)
    ensures env.Keys == inherited.Keys + FixedEntries.Keys
    ensures forall k :: k in FixedEntries ==> env[k] == FixedEntries[k]
    ensures forall k :: k in inherited && k !in FixedEntries ==> env[k] == inherited[k]
  {
    Spread(inherited, ActionEnv(inherited))
  }
}
