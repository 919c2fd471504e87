/**
 * Removal of the files and the command that the Rancher Turtles webhook
 * injects into an RKE2Config (pkg/rke2/machine_filters.go, lines 57-91),
 * as pure functions, with the properties the comparison relies on.
 */
module Normalization {
  import opened Wrappers
  import opened Api

  /** Paths of the files the webhook injects. */
  const InjectedFilePaths: set<string> := {
    "/etc/rancher/agent/connect-info-config.json",
    "/opt/system-agent-install.sh",
    "/etc/rancher/agent/config.yaml"
  }

  /** The post-install command the webhook injects. */
  const InjectedCommand: string := "sh /opt/system-agent-install.sh"

  predicate IsInjectedFile(f: File)
  {
    f.path in InjectedFilePaths
  }

  predicate IsInjectedCommand(c: string)
  {
    c == InjectedCommand
  }

  /** The elements of `s` that `drop` does not select, in their order. */
  function Without<T(!new)>(s: seq<T>, drop: T -> bool): (r: seq<T>)
    ensures |r| <= |s|
    ensures forall x :: x in r <==> x in s && !drop(x)
  {
    if |s| == 0 then [] else (if drop(s[0]) then [] else [s[0]]) + Without(s[1..], drop)
  }

  /** Filtering distributes over concatenation, so the kept elements keep their relative order. */
  lemma {:induction false} WithoutAppend<T(!new)>(a: seq<T>, b: seq<T>, drop: T -> bool)
    ensures Without(a + b, drop) == Without(a, drop) + Without(b, drop)
  {
    if |a| > 0 {
      assert (a + b)[0] == a[0];
      assert (a + b)[1..] == a[1..] + b;
      WithoutAppend(a[1..], b, drop);
    } else {
      assert a + b == b;
    }
  }

  /** Every selected element is removed and every other one is kept as often as it occurs. */
  lemma {:induction false} WithoutCounts<T(!new)>(s: seq<T>, drop: T -> bool, x: T)
    ensures multiset(Without(s, drop))[x] == if drop(x) then 0 else multiset(s)[x]
  {
    if |s| > 0 {
      WithoutCounts(s[1..], drop, x);
      assert s == [s[0]] + s[1..];
    }
  }

  /** A sequence with nothing to drop comes back unchanged. */
  lemma {:induction false} WithoutNothingToDrop<T(!new)>(s: seq<T>, drop: T -> bool)
    requires forall x :: x in s ==> !drop(x)
    ensures Without(s, drop) == s
  {
    if |s| > 0 {
      assert s[0] in s;
      forall x | x in s[1..] ensures !drop(x) {
        assert x in s;
      }
      WithoutNothingToDrop(s[1..], drop);
      assert s == [s[0]] + s[1..];
    }
  }

  /** Filtering twice is filtering once. */
  lemma WithoutIdempotent<T(!new)>(s: seq<T>, drop: T -> bool)
    ensures Without(Without(s, drop), drop) == Without(s, drop)
  {
    WithoutNothingToDrop(Without(s, drop), drop);
  }

  /** The elements of a possibly nil slice; ranging over nil visits nothing. */
  function Entries<T>(s: Option<seq<T>>): (r: seq<T>)
  {
    s.GetOr([])
  }

  /** nil for an empty list, the list itself otherwise. */
  function NilIfEmpty<T>(s: seq<T>): (r: Option<seq<T>>)
  {
    if |s| == 0 then None else Some(s)
  }

  /** The spec with the injected files and commands removed and an emptied list made nil. */
  function StripInjected(spec: ConfigSpec): (r: ConfigSpec)
  {
    spec.(files := NilIfEmpty(Without(Entries(spec.files), IsInjectedFile)),
          postRKE2Commands := NilIfEmpty(Without(Entries(spec.postRKE2Commands), IsInjectedCommand)))
  }

  /** The spec that is compared with the control plane's: stripped only when the marker is present. */
  function EffectiveSpec(config: ConfigSnapshot): (r: ConfigSpec)
  {
    if TurtlesSystemAgentAnnotation in config.annotations then StripInjected(config.spec) else config.spec
  }

  /** The config after the filter has written the effective spec back into it. */
  function Normalized(config: ConfigSnapshot): (r: ConfigSnapshot)
  {
    config.(spec := EffectiveSpec(config))
  }

  /**
   * What stripping does to the file list: exactly the injected files are
   * removed, the others stay in order, and a list left empty becomes nil.
   */
  lemma StripInjectedFiles(spec: ConfigSpec)
    ensures Entries(StripInjected(spec).files) == Without(Entries(spec.files), IsInjectedFile)
    ensures forall f :: f in Entries(StripInjected(spec).files) <==> f in Entries(spec.files) && !IsInjectedFile(f)
    ensures StripInjected(spec).files != Some([])
    ensures StripInjected(spec).files.None? <==> forall f :: f in Entries(spec.files) ==> IsInjectedFile(f)
    ensures StripInjected(spec).other == spec.other
  {
    var kept := Without(Entries(spec.files), IsInjectedFile);
    if |kept| > 0 {
      assert kept[0] in kept;
    }
  }

  /**
   * What stripping does to the command list: exactly the injected command
   * is removed, the others stay in order, and a list left empty becomes nil.
   */
  lemma StripInjectedCommands(spec: ConfigSpec)
    ensures Entries(StripInjected(spec).postRKE2Commands) == Without(Entries(spec.postRKE2Commands), IsInjectedCommand)
    ensures forall c :: c in Entries(StripInjected(spec).postRKE2Commands) <==> c in Entries(spec.postRKE2Commands) && c != InjectedCommand
    ensures StripInjected(spec).postRKE2Commands != Some([])
    ensures StripInjected(spec).postRKE2Commands.None? <==> forall c :: c in Entries(spec.postRKE2Commands) ==> c == InjectedCommand
    ensures StripInjected(spec).other == spec.other
  {
    var kept := Without(Entries(spec.postRKE2Commands), IsInjectedCommand);
    if |kept| > 0 {
      assert kept[0] in kept;
    }
  }

  /** Stripping an already stripped spec changes nothing. */
  lemma {:induction false} StripInjectedIdempotent(spec: ConfigSpec)
    ensures StripInjected(StripInjected(spec)) == StripInjected(spec)
  {
    var files := Without(Entries(spec.files), IsInjectedFile);
    var cmds := Without(Entries(spec.postRKE2Commands), IsInjectedCommand);
    WithoutIdempotent(Entries(spec.files), IsInjectedFile);
    WithoutIdempotent(Entries(spec.postRKE2Commands), IsInjectedCommand);
    assert Entries(NilIfEmpty(files)) == files;
    assert Entries(NilIfEmpty(cmds)) == cmds;
  }

  /** A config whose effective spec was written back has the same effective spec. */
  lemma {:induction false} EffectiveSpecIdempotent(config: ConfigSnapshot)
    ensures EffectiveSpec(Normalized(config)) == EffectiveSpec(config)
  {
    if TurtlesSystemAgentAnnotation in config.annotations {
      StripInjectedIdempotent(config.spec);
    }
  }

  /** Without the marker the spec is compared as it is, injected entries included. */
  lemma EffectiveSpecWithoutMarker(config: ConfigSnapshot)
    requires TurtlesSystemAgentAnnotation !in config.annotations
    ensures EffectiveSpec(config) == config.spec
    ensures Normalized(config) == config
  {
  }
}
