/**
 * The imperative side of the filters: the RKE2Config objects held in the
 * `machineConfigs` map, which the bootstrap check rewrites in place, and
 * the filter closures as methods proved against `MachineFilters`.
 */
module BootstrapConfigs {
  import opened Wrappers
  import opened Api
  import opened Normalization
  import opened MachineFilters

  /** An RKE2Config object; the filter overwrites its spec's file and command lists. */
  class RKE2Config {
    var annotations: Annotations
    var spec: ConfigSpec

    constructor (annotations: Annotations, spec: ConfigSpec)
      ensures this.annotations == annotations && this.spec == spec
    {
      this.annotations := annotations;
      this.spec := spec;
    }

    /** The value this object holds. */
    function Snapshot(): (r: ConfigSnapshot)
      reads this
    {
      ConfigSnapshot(annotations, spec)
    }

    /**
     * When the marker annotation is present, drops the injected files and
     * commands from the spec, leaving nil where nothing is left; the
     * annotations and the rest of the spec stay as they were.
     */
    method DropInjectedEntries()
      modifies this
      ensures Snapshot() == Normalized(old(Snapshot()))
      ensures annotations == old(annotations) && spec.other == old(spec.other)
    {
      if TurtlesSystemAgentAnnotation in annotations {
        var files := KeepAll(Entries(spec.files), IsInjectedFile);
        if |files| == 0 {
          spec := spec.(files := None);
        } else {
          spec := spec.(files := Some(files));
        }

        var cmds := KeepAll(Entries(spec.postRKE2Commands), IsInjectedCommand);
        if |cmds| == 0 {
          spec := spec.(postRKE2Commands := None);
        } else {
          spec := spec.(postRKE2Commands := Some(cmds));
        }
      }
    }
  }

  /** The `for`/`append` loop that collects the entries `drop` does not select. */
  method KeepAll<T(!new)>(s: seq<T>, drop: T -> bool) returns (kept: seq<T>)
    ensures kept == Without(s, drop)
  {
    kept := [];
    for i := 0 to |s|
      invariant kept == Without(s[..i], drop)
    {
      assert s[..i + 1] == s[..i] + [s[i]];
      WithoutAppend(s[..i], [s[i]], drop);
      if !drop(s[i]) {
        kept := kept + [s[i]];
      }
    }
    assert s[..|s|] == s;
  }

  /** The values held by the objects of the map, key by key. */
  function Snapshots(configs: map<string, RKE2Config>): (r: map<string, ConfigSnapshot>)
    reads configs.Values
  {
    map k | k in configs :: configs[k].Snapshot()
  }

  /** The object the filter may rewrite when it looks at `machine`. */
  function ConfigOf(configs: map<string, RKE2Config>, machine: Option<Machine>): (r: set<RKE2Config>)
  {
    if machine.Some? && machine.value.name in configs then {configs[machine.value.name]} else {}
  }

  /**
   * matchesRKE2BootstrapConfig applied to `machine`: the verdict is that of
   * the pure filter on the configs as they were; the machine's config is
   * rewritten with its effective spec once the check reaches it; and the
   * rewrite leaves every later verdict, for any machine, as it was.
   */
  method MatchesRKE2BootstrapConfig(configs: map<string, RKE2Config>, rcp: ControlPlane, ext: Externals, machine: Option<Machine>)
    returns (ok: bool)
    modifies ConfigOf(configs, machine)
    ensures ok == BootstrapConfigMatches(old(Snapshots(configs)), rcp, ext, machine)
    ensures forall c :: c in ConfigOf(configs, machine) ==>
      c.Snapshot() == if ReachesSpecComparison(rcp, machine.value, ext) then Normalized(old(c.Snapshot())) else old(c.Snapshot())
    ensures forall other :: BootstrapConfigMatches(Snapshots(configs), rcp, ext, other) == BootstrapConfigMatches(old(Snapshots(configs)), rcp, ext, other)
  {
    if machine.None? {
      return true;
    }
    var m := machine.value;
    if !ServerConfigMatches(rcp, m, ext) {
      return false;
    }
    if !m.hasBootstrapConfigRef {
      return true;
    }
    if m.name !in configs {
      return true;
    }

    ghost var before := Snapshots(configs);
    var config := configs[m.name];
    config.DropInjectedEntries();
    ok := config.spec == rcp.configSpec;

    ghost var after := Snapshots(configs);
    forall k | k in before ensures after[k] == before[k] || after[k] == Normalized(before[k]) {
      if configs[k] != config {
        assert after[k] == before[k];
      }
    }
    forall other {
      BootstrapVerdictIgnoresWriteBack(before, after, rcp, ext, other);
    }
  }

  /**
   * matchesRCPConfiguration applied to `machine`: the three filters in
   * order, stopping at the first that rejects, as collections.And does.
   * The verdict is that of `Matches` on the configs as they were, the
   * machine's config is rewritten only when the version filter accepted and
   * the bootstrap check reached it, and every later verdict is unchanged.
   */
  method MatchesRCPConfiguration(
    infra: map<string, InfraObject>, configs: map<string, RKE2Config>,
    rcp: ControlPlane, ext: Externals, machine: Option<Machine>)
    returns (ok: bool)
    modifies ConfigOf(configs, machine)
    ensures ok == Matches(infra, old(Snapshots(configs)), rcp, ext, machine)
    ensures forall c :: c in ConfigOf(configs, machine) ==>
      c.Snapshot() == if VersionMatches(rcp.desiredVersion, ext, machine) && ReachesSpecComparison(rcp, machine.value, ext)
                      then Normalized(old(c.Snapshot())) else old(c.Snapshot())
    ensures forall other :: Matches(infra, Snapshots(configs), rcp, ext, other) == Matches(infra, old(Snapshots(configs)), rcp, ext, other)
  {
    ok := VersionMatches(rcp.desiredVersion, ext, machine);
    if !ok {
      return;
    }
    ok := MatchesRKE2BootstrapConfig(configs, rcp, ext, machine);
    if !ok {
      return;
    }
    ok := TemplateMatches(infra, rcp, machine);
  }
}
