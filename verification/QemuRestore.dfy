/** Rewriting a pod template so that a resumed sandbox starts from its snapshot: container
    images, the QEMU restore plan, and the pull secret. */
module QemuRestore {
  import opened Optional

  datatype Mount = Mount(name: string, path: string)

  datatype EnvVar = EnvVar(name: string, value: string, valueFrom: Option<string>)

  datatype Volume = Volume(name: string, emptyDir: bool, sizeLimit: Option<int>, content: string)

  /** The part of a container this code never reads: opaque, or the restore plan it writes. */
  datatype Rest = Opaque(text: string) | RestorePlan(manifestDigest: string, storage: int)

  datatype Container = Container(name: string, image: string, mounts: seq<Mount>, env: seq<EnvVar>, rest: Rest)

  datatype Template = Template(
    annotations: map<string, string>,
    containers: seq<Container>,
    initContainers: seq<Container>,
    volumes: seq<Volume>,
    nodeSelector: map<string, string>,
    pullSecrets: seq<string>,
    rest: string)

  /** The VM part of a snapshot; image is what ImmutableImageReference makes of it, and the
      two flags are the results of validating the manifest and its digest. */
  datatype VirtualMachine = VirtualMachine(
    image: Option<string>,
    manifestValid: bool,
    digestValid: bool,
    manifestDigest: string,
    sizeBytes: int,
    requiredNodeClass: string)

  /** One container's snapshot; immutable is what ImmutableImageReference makes of it. */
  datatype SnapshotImage = SnapshotImage(container: string, uri: string, digest: string, immutable: Option<string>)

  datatype Snapshot = Snapshot(format: string, images: seq<SnapshotImage>, vm: Option<VirtualMachine>)

  const ROOTFS := "rootfs-v1"
  const QEMU := "qemu-v1"
  const RESTORE_NAME := "opensandbox-vmstate-restore"
  const RESTORE_PATH := "/run/opensandbox/vmstate"
  const HEADROOM := 0x400_0000
  const CONTAINER_ANNOTATION := "sandbox.opensandbox.io/qemu-container"
  const NODE_CLASS_LABEL := "sandbox.opensandbox.io/qemu-node-class"
  const MODE_VARIABLE := "OPENSANDBOX_RESTORE_MODE"
  const DIR_VARIABLE := "OPENSANDBOX_VMSTATE_DIR"
  const STATE_VERSION := "qemu-v1"

  function StorageSize(payload: int): int { (if payload < 0 then 0 else payload) + HEADROOM }

  // ---- The pieces.

  /** Index of the first container with the name, or the length. */
  function IndexOf(cs: seq<Container>, name: string): nat {
    if cs == [] then 0 else if cs[0].name == name then 0 else 1 + IndexOf(cs[1..], name)
  }

  lemma {:induction false} IndexOfMeaning(cs: seq<Container>, name: string)
    ensures IndexOf(cs, name) <= |cs|
    ensures IndexOf(cs, name) < |cs| ==> cs[IndexOf(cs, name)].name == name
    ensures forall j :: 0 <= j < IndexOf(cs, name) ==> cs[j].name != name
  {
    if cs != [] && cs[0].name != name {
      IndexOfMeaning(cs[1..], name);
      assert forall j :: 1 <= j < |cs| ==> cs[j] == cs[1..][j - 1];
    }
  }

  lemma {:induction false} IndexOfUnique(cs: seq<Container>, name: string, i: nat)
    requires i < |cs| && cs[i].name == name && forall j :: 0 <= j < i ==> cs[j].name != name
    ensures IndexOf(cs, name) == i
  {
    IndexOfMeaning(cs, name);
  }

  method FindContainer(cs: seq<Container>, name: string) returns (i: int)
    ensures i == if IndexOf(cs, name) < |cs| then IndexOf(cs, name) else -1
  {
    IndexOfMeaning(cs, name);
    for k := 0 to |cs|
      invariant forall j :: 0 <= j < k ==> cs[j].name != name
    {
      if cs[k].name == name {
        IndexOfUnique(cs, name, k);
        return k;
      }
    }
    return -1;
  }

  /** ensureVMStateVolume; None if the reserved name is taken by another kind of volume. */
  function WithVolume(vs: seq<Volume>, size: int): Option<seq<Volume>> {
    if vs == [] then Some([Volume(RESTORE_NAME, true, Some(size), "")])
    else if vs[0].name == RESTORE_NAME then (if vs[0].emptyDir then Some(vs) else None)
    else
      var tail := WithVolume(vs[1..], size);
      if tail.None? then None else Some([vs[0]] + tail.value)
  }

  function Prepend<T>(xs: seq<T>, o: Option<seq<T>>): Option<seq<T>> {
    if o.None? then None else Some(xs + o.value)
  }

  lemma {:induction false} VolumeSkips(vs: seq<Volume>, size: int, i: nat)
    requires i <= |vs| && forall j :: 0 <= j < i ==> vs[j].name != RESTORE_NAME
    ensures WithVolume(vs, size) == Prepend(vs[..i], WithVolume(vs[i..], size))
  {
    if i == 0 {
      assert vs[0..] == vs && forall o: seq<Volume> :: vs[..0] + o == o;
    } else {
      VolumeSkips(vs[1..], size, i - 1);
      assert vs[1..][i - 1..] == vs[i..];
      assert vs[..i] == [vs[0]] + vs[1..][..i - 1];
      var o := WithVolume(vs[i..], size);
      assert o.Some? ==> vs[..i] + o.value == [vs[0]] + (vs[1..][..i - 1] + o.value);
    }
  }

  method EnsureVMStateVolume(vs: seq<Volume>, size: int) returns (r: Option<seq<Volume>>)
    ensures r == WithVolume(vs, size)
  {
    for i := 0 to |vs|
      invariant forall j :: 0 <= j < i ==> vs[j].name != RESTORE_NAME
    {
      if vs[i].name != RESTORE_NAME { continue; }
      VolumeSkips(vs, size, i);
      if !vs[i].emptyDir { return None; }
      assert vs[..i] + vs[i..] == vs;
      return Some(vs);
    }
    VolumeSkips(vs, size, |vs|);
    assert vs[..|vs|] == vs;
    return Some(vs + [Volume(RESTORE_NAME, true, Some(size), "")]);
  }

  /** ensureVMStateMount; None if the reserved volume or path is used otherwise. */
  function WithMount(ms: seq<Mount>): Option<seq<Mount>> {
    if ms == [] then Some([Mount(RESTORE_NAME, RESTORE_PATH)])
    else if ms[0].name == RESTORE_NAME then (if ms[0].path == RESTORE_PATH then Some(ms) else None)
    else if ms[0].path == RESTORE_PATH then None
    else
      var tail := WithMount(ms[1..]);
      if tail.None? then None else Some([ms[0]] + tail.value)
  }

  lemma {:induction false} MountSkips(ms: seq<Mount>, i: nat)
    requires i <= |ms| && forall j :: 0 <= j < i ==> ms[j].name != RESTORE_NAME && ms[j].path != RESTORE_PATH
    ensures WithMount(ms) == Prepend(ms[..i], WithMount(ms[i..]))
  {
    if i == 0 {
      assert ms[0..] == ms && forall o: seq<Mount> :: ms[..0] + o == o;
    } else {
      MountSkips(ms[1..], i - 1);
      assert ms[1..][i - 1..] == ms[i..];
      assert ms[..i] == [ms[0]] + ms[1..][..i - 1];
      var o := WithMount(ms[i..]);
      assert o.Some? ==> ms[..i] + o.value == [ms[0]] + (ms[1..][..i - 1] + o.value);
    }
  }

  method EnsureVMStateMount(ms: seq<Mount>) returns (r: Option<seq<Mount>>)
    ensures r == WithMount(ms)
  {
    for i := 0 to |ms|
      invariant forall j :: 0 <= j < i ==> ms[j].name != RESTORE_NAME && ms[j].path != RESTORE_PATH
    {
      MountSkips(ms, i);
      if ms[i].name == RESTORE_NAME {
        if ms[i].path != RESTORE_PATH { return None; }
        assert ms[..i] + ms[i..] == ms;
        return Some(ms);
      }
      if ms[i].path == RESTORE_PATH { return None; }
    }
    MountSkips(ms, |ms|);
    assert ms[..|ms|] == ms;
    return Some(ms + [Mount(RESTORE_NAME, RESTORE_PATH)]);
  }

  /** setContainerEnv: the first variable of that name, or a new one at the end. */
  function WithEnv(es: seq<EnvVar>, name: string, value: string): seq<EnvVar> {
    if es == [] then [EnvVar(name, value, None)]
    else if es[0].name == name then [EnvVar(name, value, None)] + es[1..]
    else [es[0]] + WithEnv(es[1..], name, value)
  }

  method SetContainerEnv(es: seq<EnvVar>, name: string, value: string) returns (r: seq<EnvVar>)
    ensures r == WithEnv(es, name, value)
  {
    for i := 0 to |es|
      invariant forall j :: 0 <= j < i ==> es[j].name != name
    {
      if es[i].name == name {
        EnvSkips(es, name, value, i);
        assert es[i..][1..] == es[i + 1..];
        assert es[i := EnvVar(name, value, None)] == es[..i] + ([EnvVar(name, value, None)] + es[i + 1..]);
        return es[i := EnvVar(name, value, None)];
      }
    }
    EnvSkips(es, name, value, |es|);
    assert es[..|es|] == es;
    return es + [EnvVar(name, value, None)];
  }

  lemma {:induction false} EnvSkips(es: seq<EnvVar>, name: string, value: string, i: nat)
    requires i <= |es| && forall j :: 0 <= j < i ==> es[j].name != name
    ensures WithEnv(es, name, value) == es[..i] + WithEnv(es[i..], name, value)
  {
    if i == 0 {
      assert es[0..] == es && es[..0] == [];
    } else {
      EnvSkips(es[1..], name, value, i - 1);
      assert es[1..][i - 1..] == es[i..];
      assert es[..i] == [es[0]] + es[1..][..i - 1];
      var rest := WithEnv(es[i..], name, value);
      assert es[..i] + rest == [es[0]] + (es[1..][..i - 1] + rest);
    }
  }

  /** The restore container replaces the first of its name, or goes last. */
  function WithInit(cs: seq<Container>, c: Container): seq<Container> {
    if cs == [] then [c] else if cs[0].name == c.name then [c] + cs[1..] else [cs[0]] + WithInit(cs[1..], c)
  }

  lemma {:induction false} InitSkips(cs: seq<Container>, c: Container, i: nat)
    requires i <= |cs| && forall j :: 0 <= j < i ==> cs[j].name != c.name
    ensures WithInit(cs, c) == cs[..i] + WithInit(cs[i..], c)
  {
    if i == 0 {
      assert cs[0..] == cs && cs[..0] == [];
    } else {
      InitSkips(cs[1..], c, i - 1);
      assert cs[1..][i - 1..] == cs[i..];
      assert cs[..i] == [cs[0]] + cs[1..][..i - 1];
      var rest := WithInit(cs[i..], c);
      assert cs[..i] + rest == [cs[0]] + (cs[1..][..i - 1] + rest);
    }
  }

  method PlaceRestoreInit(cs: seq<Container>, c: Container) returns (r: seq<Container>)
    ensures r == WithInit(cs, c)
  {
    var i := FindContainer(cs, c.name);
    IndexOfMeaning(cs, c.name);
    if i < 0 {
      InitSkips(cs, c, |cs|);
      assert cs[..|cs|] == cs;
      r := cs + [c];
    } else {
      InitSkips(cs, c, i);
      assert cs[i..][1..] == cs[i + 1..];
      assert cs[i := c] == cs[..i] + ([c] + cs[i + 1..]);
      r := cs[i := c];
    }
  }

  // ---- The whole plan.

  function RestoreInit(image: string, vm: VirtualMachine): Container {
    Container(RESTORE_NAME, image, [Mount(RESTORE_NAME, RESTORE_PATH)], [],
      RestorePlan(vm.manifestDigest, StorageSize(vm.sizeBytes)))
  }

  function WithRestoreEnv(es: seq<EnvVar>): seq<EnvVar> {
    WithEnv(WithEnv(es, MODE_VARIABLE, STATE_VERSION), DIR_VARIABLE, RESTORE_PATH)
  }

  predicate NodeClassFits(selector: map<string, string>, required: string) {
    required == "" || NODE_CLASS_LABEL !in selector || selector[NODE_CLASS_LABEL] == "" ||
      selector[NODE_CLASS_LABEL] == required
  }

  function WithNodeClass(selector: map<string, string>, required: string): map<string, string> {
    if required == "" then selector else selector[NODE_CLASS_LABEL := required]
  }

  predicate VmUsable(vm: Option<VirtualMachine>) {
    vm.Some? && vm.value.image.Some? && vm.value.manifestValid && vm.value.digestValid
  }

  function TargetName(t: Template): string {
    if CONTAINER_ANNOTATION in t.annotations then t.annotations[CONTAINER_ANNOTATION] else ""
  }

  /** injectQEMURestore; None where it reports an error. */
  function Inject(t: Template, s: Snapshot): Option<Template> {
    if s.format == "" || s.format == ROOTFS then Some(t)
    else if s.format != QEMU || !VmUsable(s.vm) || TargetName(t) == "" then None
    else
      var vm, i := s.vm.value, IndexOf(t.containers, TargetName(t));
      if i >= |t.containers| then None
      else
        var volumes := WithVolume(t.volumes, StorageSize(vm.sizeBytes));
        var mounts := WithMount(t.containers[i].mounts);
        if volumes.None? || mounts.None? || !NodeClassFits(t.nodeSelector, vm.requiredNodeClass) then None
        else
          Some(t.(volumes := volumes.value,
                  containers := t.containers[
                    i := t.containers[i].(mounts := mounts.value, env := WithRestoreEnv(t.containers[i].env))],
                  initContainers := WithInit(t.initContainers, RestoreInit(vm.image.value, vm)),
                  nodeSelector := WithNodeClass(t.nodeSelector, vm.requiredNodeClass)))
  }

  /** The template object the controller edits in place. */
  class PodTemplate {
    var annotations: map<string, string>
    var containers: seq<Container>
    var initContainers: seq<Container>
    var volumes: seq<Volume>
    var nodeSelector: map<string, string>
    var pullSecrets: seq<string>
    var rest: string

    constructor (t: Template)
      ensures Values() == t
    {
      annotations, containers, initContainers := t.annotations, t.containers, t.initContainers;
      volumes, nodeSelector, pullSecrets, rest := t.volumes, t.nodeSelector, t.pullSecrets, t.rest;
    }

    function Values(): Template
      reads this
    {
      Template(annotations, containers, initContainers, volumes, nodeSelector, pullSecrets, rest)
    }

    /** On an error the template may be half edited; callers then drop it. */
    method InjectQEMURestore(s: Snapshot) returns (ok: bool)
      modifies this
      ensures ok == Inject(old(Values()), s).Some?
      ensures ok ==> Some(Values()) == Inject(old(Values()), s)
    {
      if s.format == "" || s.format == ROOTFS { return true; }
      if s.format != QEMU || s.vm.None? { return false; }
      var vm := s.vm.value;
      if vm.image.None? || !vm.manifestValid || !vm.digestValid { return false; }
      var target := if CONTAINER_ANNOTATION in annotations then annotations[CONTAINER_ANNOTATION] else "";
      if target == "" { return false; }
      var i := FindContainer(containers, target);
      if i < 0 { return false; }
      var vs := EnsureVMStateVolume(volumes, StorageSize(vm.sizeBytes));
      if vs.None? { return false; }
      volumes := vs.value;
      var ms := EnsureVMStateMount(containers[i].mounts);
      if ms.None? { return false; }
      var es := SetContainerEnv(containers[i].env, MODE_VARIABLE, STATE_VERSION);
      es := SetContainerEnv(es, DIR_VARIABLE, RESTORE_PATH);
      containers := containers[i := containers[i].(mounts := ms.value, env := es)];
      initContainers := PlaceRestoreInit(initContainers, RestoreInit(vm.image.value, vm));
      if vm.requiredNodeClass != "" {
        var existing := if NODE_CLASS_LABEL in nodeSelector then nodeSelector[NODE_CLASS_LABEL] else "";
        if existing != "" && existing != vm.requiredNodeClass { return false; }
        nodeSelector := nodeSelector[NODE_CLASS_LABEL := vm.requiredNodeClass];
      }
      return true;
    }
  }

  // ---- Applying it again changes nothing.

  lemma {:induction false} WithVolumeTwice(vs: seq<Volume>, size: int)
    requires WithVolume(vs, size).Some?
    ensures WithVolume(WithVolume(vs, size).value, size) == WithVolume(vs, size)
  {
    if vs != [] && vs[0].name != RESTORE_NAME {
      WithVolumeTwice(vs[1..], size);
      var tail := WithVolume(vs[1..], size).value;
      assert ([vs[0]] + tail)[1..] == tail;
    }
  }

  lemma {:induction false} WithVolumeExtends(vs: seq<Volume>, size: int)
    requires WithVolume(vs, size).Some?
    ensures vs <= WithVolume(vs, size).value && |WithVolume(vs, size).value| <= |vs| + 1
    ensures HasRestoreVolume(WithVolume(vs, size).value)
    ensures |WithVolume(vs, size).value| > |vs| ==> WithVolume(vs, size).value[|vs|].sizeLimit == Some(size)
  {
    var us := WithVolume(vs, size).value;
    if vs == [] || vs[0].name == RESTORE_NAME {
      assert us[0].name == RESTORE_NAME && us[0].emptyDir;
    } else {
      WithVolumeExtends(vs[1..], size);
      assert vs == [vs[0]] + vs[1..];
      var rest := WithVolume(vs[1..], size).value;
      var i :| 0 <= i < |rest| && rest[i].name == RESTORE_NAME && rest[i].emptyDir;
      assert us[i + 1] == rest[i];
    }
  }

  /** The restore volume is there, as an emptyDir. */
  ghost predicate HasRestoreVolume(vs: seq<Volume>) {
    exists i :: 0 <= i < |vs| && vs[i].name == RESTORE_NAME && vs[i].emptyDir
  }

  lemma {:induction false} WithMountExtends(ms: seq<Mount>)
    requires WithMount(ms).Some?
    ensures ms <= WithMount(ms).value && |WithMount(ms).value| <= |ms| + 1
    ensures Mount(RESTORE_NAME, RESTORE_PATH) in WithMount(ms).value
  {
    if ms == [] {
    } else {
      if ms[0].name != RESTORE_NAME {
        WithMountExtends(ms[1..]);
      }
      assert ms == [ms[0]] + ms[1..];
    }
  }

  lemma {:induction false} WithMountTwice(ms: seq<Mount>)
    requires WithMount(ms).Some?
    ensures WithMount(WithMount(ms).value) == WithMount(ms)
  {
    if ms != [] && ms[0].name != RESTORE_NAME {
      WithMountTwice(ms[1..]);
      var tail := WithMount(ms[1..]).value;
      assert ([ms[0]] + tail)[1..] == tail;
    }
  }

  /** The variable is set to the value, and is the first of its name. */
  ghost predicate Sets(es: seq<EnvVar>, name: string, value: string) {
    exists i :: 0 <= i < |es| && es[i] == EnvVar(name, value, None) && forall j :: 0 <= j < i ==> es[j].name != name
  }

  lemma {:induction false} WithEnvSets(es: seq<EnvVar>, name: string, value: string)
    ensures Sets(WithEnv(es, name, value), name, value)
  {
    var r := WithEnv(es, name, value);
    if es == [] || es[0].name == name {
      assert r[0] == EnvVar(name, value, None);
    } else {
      WithEnvSets(es[1..], name, value);
      var tail := WithEnv(es[1..], name, value);
      var i :| 0 <= i < |tail| && tail[i] == EnvVar(name, value, None) &&
                forall j :: 0 <= j < i ==> tail[j].name != name;
      assert r[i + 1] == tail[i];
      assert forall j :: 0 <= j < i + 1 ==> r[j].name != name;
    }
  }

  lemma {:induction false} SettingWhatIsSet(es: seq<EnvVar>, name: string, value: string)
    requires Sets(es, name, value)
    ensures WithEnv(es, name, value) == es
  {
    var i :| 0 <= i < |es| && es[i] == EnvVar(name, value, None) && forall j :: 0 <= j < i ==> es[j].name != name;
    assert es == [es[0]] + es[1..];
    if i == 0 {
    } else {
      assert es[1..][i - 1] == es[i];
      assert forall j :: 0 <= j < i - 1 ==> es[1..][j] == es[j + 1];
      assert Sets(es[1..], name, value);
      SettingWhatIsSet(es[1..], name, value);
    }
  }

  lemma {:induction false} OtherEnvKept(es: seq<EnvVar>, name: string, value: string, other: string, v: string)
    requires name != other && Sets(es, name, value)
    ensures Sets(WithEnv(es, other, v), name, value)
  {
    var i :| 0 <= i < |es| && es[i] == EnvVar(name, value, None) && forall j :: 0 <= j < i ==> es[j].name != name;
    var r := WithEnv(es, other, v);
    if es[0].name == other {
      assert r == [EnvVar(other, v, None)] + es[1..];
      assert r[i] == es[i];
      assert forall j :: 0 <= j < i ==> r[j].name != name;
    } else if i == 0 {
      assert r[0] == es[0];
    } else {
      assert es[1..][i - 1] == es[i];
      assert forall j :: 0 <= j < i - 1 ==> es[1..][j] == es[j + 1];
      assert Sets(es[1..], name, value);
      OtherEnvKept(es[1..], name, value, other, v);
      var tail := WithEnv(es[1..], other, v);
      var k :| 0 <= k < |tail| && tail[k] == EnvVar(name, value, None) &&
                forall j :: 0 <= j < k ==> tail[j].name != name;
      assert r == [es[0]] + tail;
      assert r[k + 1] == tail[k];
      assert forall j :: 0 <= j < k + 1 ==> r[j].name != name;
    }
  }

  lemma {:induction false} WithRestoreEnvTwice(es: seq<EnvVar>)
    ensures WithRestoreEnv(WithRestoreEnv(es)) == WithRestoreEnv(es)
    ensures Sets(WithRestoreEnv(es), MODE_VARIABLE, STATE_VERSION) &&
      Sets(WithRestoreEnv(es), DIR_VARIABLE, RESTORE_PATH)
  {
    var mid := WithEnv(es, MODE_VARIABLE, STATE_VERSION);
    var r := WithRestoreEnv(es);
    assert MODE_VARIABLE != DIR_VARIABLE by { assert MODE_VARIABLE[12] != DIR_VARIABLE[12]; }
    WithEnvSets(es, MODE_VARIABLE, STATE_VERSION);
    OtherEnvKept(mid, MODE_VARIABLE, STATE_VERSION, DIR_VARIABLE, RESTORE_PATH);
    WithEnvSets(mid, DIR_VARIABLE, RESTORE_PATH);
    SettingWhatIsSet(r, MODE_VARIABLE, STATE_VERSION);
    SettingWhatIsSet(r, DIR_VARIABLE, RESTORE_PATH);
  }

  lemma {:induction false} WithInitTwice(cs: seq<Container>, c: Container)
    ensures WithInit(WithInit(cs, c), c) == WithInit(cs, c)
  {
    if cs == [] {
    } else {
      if cs[0].name == c.name {
        assert ([c] + cs[1..])[1..] == cs[1..];
      } else {
        WithInitTwice(cs[1..], c);
        var tail := WithInit(cs[1..], c);
        assert ([cs[0]] + tail)[1..] == tail;
      }
    }
  }

  /** All but the restore container, in order. */
  function Others(cs: seq<Container>, name: string): seq<Container> {
    if cs == [] then [] else (if cs[0].name == name then [] else [cs[0]]) + Others(cs[1..], name)
  }

  lemma {:induction false} WithInitKeepsOthers(cs: seq<Container>, c: Container)
    ensures Others(WithInit(cs, c), c.name) == Others(cs, c.name)
    ensures c in WithInit(cs, c)
  {
    if cs == [] {
    } else {
      if cs[0].name == c.name {
        assert ([c] + cs[1..])[1..] == cs[1..];
      } else {
        WithInitKeepsOthers(cs[1..], c);
        var tail := WithInit(cs[1..], c);
        assert ([cs[0]] + tail)[1..] == tail;
      }
    }
  }

  lemma {:induction false} SameTarget(cs: seq<Container>, name: string, c: Container)
    requires IndexOf(cs, name) < |cs| && c.name == name
    ensures IndexOf(cs[IndexOf(cs, name) := c], name) == IndexOf(cs, name)
  {
    IndexOfMeaning(cs, name);
    IndexOfUnique(cs[IndexOf(cs, name) := c], name, IndexOf(cs, name));
  }

  /** If the restore plan can be injected, injecting it again succeeds and changes nothing. */
  lemma {:induction false} InjectTwice(t: Template, s: Snapshot)
    requires Inject(t, s).Some?
    ensures Inject(Inject(t, s).value, s) == Inject(t, s)
  {
    if s.format == QEMU {
      var vm, i := s.vm.value, IndexOf(t.containers, TargetName(t));
      var u := Inject(t, s).value;
      IndexOfMeaning(t.containers, TargetName(t));
      SameTarget(t.containers, TargetName(t), u.containers[i]);
      WithVolumeTwice(t.volumes, StorageSize(vm.sizeBytes));
      WithMountTwice(t.containers[i].mounts);
      WithRestoreEnvTwice(t.containers[i].env);
      WithInitTwice(t.initContainers, RestoreInit(vm.image.value, vm));
      assert u.containers[i := u.containers[i]] == u.containers;
      assert WithNodeClass(u.nodeSelector, vm.requiredNodeClass) == u.nodeSelector;
    }
  }

  /** What injection leaves alone: every container but the target, the target's image and
      name, the other init containers with their order, and everything else. */
  lemma {:induction false} InjectTouchesOnlyItsOwn(t: Template, s: Snapshot)
    requires Inject(t, s).Some?
    ensures var u := Inject(t, s).value;
      && |u.containers| == |t.containers|
      && (forall j :: 0 <= j < |t.containers| ==>
            u.containers[j].name == t.containers[j].name && u.containers[j].image == t.containers[j].image)
      && (forall j :: 0 <= j < |t.containers| && j != IndexOf(t.containers, TargetName(t)) ==>
            u.containers[j] == t.containers[j])
      && Others(u.initContainers, RESTORE_NAME) == Others(t.initContainers, RESTORE_NAME)
      && u.annotations == t.annotations && u.pullSecrets == t.pullSecrets && u.rest == t.rest
      && t.volumes <= u.volumes && |u.volumes| <= |t.volumes| + 1
      && (forall k :: k != NODE_CLASS_LABEL ==>
            (k in u.nodeSelector <==> k in t.nodeSelector) &&
            (k in t.nodeSelector ==> u.nodeSelector[k] == t.nodeSelector[k]))
  {
    if s.format == QEMU {
      WithInitKeepsOthers(t.initContainers, RestoreInit(s.vm.value.image.value, s.vm.value));
      WithVolumeExtends(t.volumes, StorageSize(s.vm.value.sizeBytes));
    }
  }

  /** What injection installs for a QEMU snapshot: the restore container with this
      snapshot's plan, its volume mounted in the target, the two variables and the node class. */
  lemma {:induction false} InjectInstallsPlan(t: Template, s: Snapshot)
    requires s.format == QEMU && Inject(t, s).Some?
    ensures var u, vm, i := Inject(t, s).value, s.vm.value, IndexOf(t.containers, TargetName(t));
      && vm.image.Some? && RestoreInit(vm.image.value, vm) in u.initContainers
      && (|u.volumes| > |t.volumes| ==>
            u.volumes[|t.volumes|].sizeLimit == Some(if vm.sizeBytes > 0 then vm.sizeBytes + HEADROOM else HEADROOM))
      && i < |u.containers| && u.containers[i].name == TargetName(t)
      && HasRestoreVolume(u.volumes)
      && t.containers[i].mounts <= u.containers[i].mounts && Mount(RESTORE_NAME, RESTORE_PATH) in u.containers[i].mounts
      && Sets(u.containers[i].env, MODE_VARIABLE, STATE_VERSION) &&
        Sets(u.containers[i].env, DIR_VARIABLE, RESTORE_PATH)
      && (vm.requiredNodeClass != "" ==>
            NODE_CLASS_LABEL in u.nodeSelector && u.nodeSelector[NODE_CLASS_LABEL] == vm.requiredNodeClass)
  {
    var vm, i := s.vm.value, IndexOf(t.containers, TargetName(t));
    IndexOfMeaning(t.containers, TargetName(t));
    WithInitKeepsOthers(t.initContainers, RestoreInit(vm.image.value, vm));
    WithVolumeExtends(t.volumes, StorageSize(vm.sizeBytes));
    WithMountExtends(t.containers[i].mounts);
    WithRestoreEnvTwice(t.containers[i].env);
  }

  // ---- When the plan can be injected.

  /** Volume i is the first of the reserved name, and of another kind. */
  ghost predicate VolumeInTheWay(vs: seq<Volume>, i: int) {
    && 0 <= i < |vs| && vs[i].name == RESTORE_NAME && !vs[i].emptyDir
    && forall j :: 0 <= j < i ==> vs[j].name != RESTORE_NAME
  }

  lemma {:induction false} WithVolumeFailsIff(vs: seq<Volume>, size: int)
    ensures WithVolume(vs, size).None? <==> exists i :: VolumeInTheWay(vs, i)
  {
    if vs == [] {
    } else if vs[0].name == RESTORE_NAME {
      if !vs[0].emptyDir {
        assert VolumeInTheWay(vs, 0);
      }
    } else {
      var rest := vs[1..];
      WithVolumeFailsIff(rest, size);
      if i :| VolumeInTheWay(vs, i) {
        assert VolumeInTheWay(rest, i - 1);
      }
      if i :| VolumeInTheWay(rest, i) {
        assert VolumeInTheWay(vs, i + 1);
      }
    }
  }

  /** Mount i is the first of the reserved name or at the reserved path, and not both. */
  ghost predicate MountInTheWay(ms: seq<Mount>, i: int) {
    && 0 <= i < |ms| && (ms[i].name == RESTORE_NAME) != (ms[i].path == RESTORE_PATH)
    && forall j :: 0 <= j < i ==> ms[j].name != RESTORE_NAME && ms[j].path != RESTORE_PATH
  }

  lemma {:induction false} WithMountFailsIff(ms: seq<Mount>)
    ensures WithMount(ms).None? <==> exists i :: MountInTheWay(ms, i)
  {
    if ms == [] {
    } else if ms[0].name == RESTORE_NAME || ms[0].path == RESTORE_PATH {
      if (ms[0].name == RESTORE_NAME) != (ms[0].path == RESTORE_PATH) {
        assert MountInTheWay(ms, 0);
      }
    } else {
      var rest := ms[1..];
      WithMountFailsIff(rest);
      if i :| MountInTheWay(ms, i) {
        assert MountInTheWay(rest, i - 1);
      }
      if i :| MountInTheWay(rest, i) {
        assert MountInTheWay(ms, i + 1);
      }
    }
  }

  /** Container k is the one the annotation names: the first of that name. */
  ghost predicate IsTarget(t: Template, k: int) {
    && 0 <= k < |t.containers| && CONTAINER_ANNOTATION in t.annotations
    && t.annotations[CONTAINER_ANNOTATION] == t.containers[k].name != ""
    && forall j :: 0 <= j < k ==> t.containers[j].name != t.containers[k].name
  }

  /** The template asks for nodes of another class. */
  ghost predicate NodeClassInTheWay(t: Template, vm: VirtualMachine) {
    && vm.requiredNodeClass != "" && NODE_CLASS_LABEL in t.nodeSelector
    && t.nodeSelector[NODE_CLASS_LABEL] !in {"", vm.requiredNodeClass}
  }

  /** A virtual machine can be restored exactly if its snapshot is valid, the annotation
      names a container of the template, and nothing else takes the reserved volume, mount,
      path or node class. */
  lemma {:induction false} InjectSucceedsIff(t: Template, s: Snapshot)
    requires s.format == QEMU
    ensures Inject(t, s).Some? <==>
      && s.vm.Some? && s.vm.value.image.Some? && s.vm.value.manifestValid && s.vm.value.digestValid
      && (forall i :: !VolumeInTheWay(t.volumes, i)) && !NodeClassInTheWay(t, s.vm.value)
      && exists k :: IsTarget(t, k) && forall i :: !MountInTheWay(t.containers[k].mounts, i)
  {
    assert QEMU != "" && QEMU != ROOTFS by { assert QEMU[0] != ROOTFS[0]; }
    var k := IndexOf(t.containers, TargetName(t));
    IndexOfMeaning(t.containers, TargetName(t));
    assert TargetName(t) != "" && k < |t.containers| ==> IsTarget(t, k);
    assert forall l :: IsTarget(t, l) ==> TargetName(t) != "" && k == l;
    if s.vm.Some? {
      WithVolumeFailsIff(t.volumes, StorageSize(s.vm.value.sizeBytes));
    }
    if k < |t.containers| {
      WithMountFailsIff(t.containers[k].mounts);
    }
  }

  // ---- The template of a resumed sandbox.

  /** The image to run per container; None if a digest cannot be resolved. */
  function ImageMap(s: Snapshot, n: nat): Option<map<string, string>>
    requires n <= |s.images|
  {
    if n == 0 then Some(map[])
    else
      var front, c := ImageMap(s, n - 1), s.images[n - 1];
      if front.None? then None
      else if s.format == "" && c.digest == "" then Some(front.value[c.container := c.uri])
      else if c.immutable.None? then None
      else Some(front.value[c.container := c.immutable.value])
  }

  function Images(s: Snapshot): Option<map<string, string>> { ImageMap(s, |s.images|) }

  function WithImages(cs: seq<Container>, images: map<string, string>): seq<Container> {
    if cs == [] then []
    else [if cs[0].name in images then cs[0].(image := images[cs[0].name]) else cs[0]] + WithImages(cs[1..], images)
  }

  function WithPullSecret(secrets: seq<string>, secret: string): seq<string> {
    if secret == "" || secret in secrets then secrets else secrets + [secret]
  }

  /** The template continueResume writes: images, restore plan, pull secret. */
  function Restored(t: Template, s: Snapshot, secret: string): Option<Template> {
    if Images(s).None? then None
    else
      var u := Inject(t.(containers := WithImages(t.containers, Images(s).value)), s);
      if u.None? then None else Some(u.value.(pullSecrets := WithPullSecret(u.value.pullSecrets, secret)))
  }

  lemma {:induction false} WithImagesAt(cs: seq<Container>, images: map<string, string>)
    ensures |WithImages(cs, images)| == |cs|
    ensures forall i :: 0 <= i < |cs| ==>
      WithImages(cs, images)[i] == if cs[i].name in images then cs[i].(image := images[cs[i].name]) else cs[i]
  {
    if cs == [] {
    } else {
      WithImagesAt(cs[1..], images);
      assert forall i :: 1 <= i < |cs| ==> cs[i] == cs[1..][i - 1];
    }
  }

  lemma {:induction false} ImagesAlreadyThere(cs: seq<Container>, images: map<string, string>)
    requires forall i :: 0 <= i < |cs| && cs[i].name in images ==> cs[i].image == images[cs[i].name]
    ensures WithImages(cs, images) == cs
  {
    WithImagesAt(cs, images);
  }

  // ---- What a restored template is, in terms of the snapshot's own entries.

  /** The reference entry k stands for: its own, or for snapshots from before digests the plain one. */
  function Reference(s: Snapshot, k: nat): Option<string>
    requires k < |s.images|
  {
    if s.format == "" && s.images[k].digest == "" then Some(s.images[k].uri) else s.images[k].immutable
  }

  /** Entry k is the last of the first n that speaks of the container. */
  ghost predicate LastFor(s: Snapshot, n: nat, k: int, name: string) {
    0 <= k < n <= |s.images| && s.images[k].container == name && forall j :: k < j < n ==> s.images[j].container != name
  }

  lemma {:induction false} ImageMapMeaning(s: Snapshot, n: nat)
    requires n <= |s.images|
    ensures ImageMap(s, n).Some? <==> forall k :: 0 <= k < n ==> Reference(s, k).Some?
    ensures ImageMap(s, n).Some? ==>
      && (forall name, k :: LastFor(s, n, k, name) ==>
            name in ImageMap(s, n).value && Some(ImageMap(s, n).value[name]) == Reference(s, k))
      && (forall name :: name in ImageMap(s, n).value ==> exists k :: LastFor(s, n, k, name))
  {
    if n == 0 {
    } else {
      ImageMapMeaning(s, n - 1);
      assert ImageMap(s, n).Some? <==> ImageMap(s, n - 1).Some? && Reference(s, n - 1).Some?;
      if ImageMap(s, n).Some? {
        var last := s.images[n - 1].container;
        assert LastFor(s, n, n - 1, last);
        forall name | name in ImageMap(s, n).value
          ensures exists k :: LastFor(s, n, k, name)
        {
          if name != last {
            var k :| LastFor(s, n - 1, k, name);
            assert LastFor(s, n, k, name);
          }
        }
        forall name, k | LastFor(s, n, k, name)
          ensures name in ImageMap(s, n).value && Some(ImageMap(s, n).value[name]) == Reference(s, k)
        {
          assert k < n - 1 ==> LastFor(s, n - 1, k, name);
        }
      }
    }
  }

  /** Every container runs the reference of the snapshot's last entry for it, or what it ran
      before where the snapshot has no entry. */
  ghost predicate RunsSnapshot(t: Template, u: Template, s: Snapshot) {
    && |u.containers| == |t.containers|
    && (forall i :: 0 <= i < |t.containers| ==> u.containers[i].name == t.containers[i].name)
    && (forall i, k :: 0 <= i < |t.containers| && LastFor(s, |s.images|, k, t.containers[i].name) ==>
          Some(u.containers[i].image) == Reference(s, k))
    && (forall i :: 0 <= i < |t.containers| ==>
          (forall k :: 0 <= k < |s.images| ==> s.images[k].container != t.containers[i].name) ==>
            u.containers[i].image == t.containers[i].image)
  }

  /** A restored template runs what was snapshotted. */
  lemma {:induction false} RestoredRunsSnapshot(t: Template, s: Snapshot, secret: string)
    requires Restored(t, s, secret).Some?
    ensures RunsSnapshot(t, Restored(t, s, secret).value, s)
  {
    var images := Images(s).value;
    ImageMapMeaning(s, |s.images|);
    WithImagesAt(t.containers, images);
    InjectTouchesOnlyItsOwn(t.(containers := WithImages(t.containers, images)), s);
  }

  /** The old pull secrets stay where they were, and the configured one is among them or
      added behind them. */
  ghost predicate PullsWith(before: seq<string>, now: seq<string>, secret: string) {
    && before <= now && (secret != "" ==> secret in now)
    && (now != before ==> secret != "" && secret !in before && |now| == |before| + 1)
  }

  lemma {:induction false} RestoredPullsWithSecret(t: Template, s: Snapshot, secret: string)
    requires Restored(t, s, secret).Some?
    ensures PullsWith(t.pullSecrets, Restored(t, s, secret).value.pullSecrets, secret)
  {
    InjectTouchesOnlyItsOwn(t.(containers := WithImages(t.containers, Images(s).value)), s);
  }

  lemma {:induction false} IndexOfByName(cs: seq<Container>, ds: seq<Container>, name: string)
    requires |cs| == |ds| && forall i :: 0 <= i < |cs| ==> cs[i].name == ds[i].name
    ensures IndexOf(cs, name) == IndexOf(ds, name)
  {
    if cs == [] {
    } else {
      IndexOfByName(cs[1..], ds[1..], name);
    }
  }

  /** Two templates that agree except for the images of containers. */
  ghost predicate SameButImages(t: Template, u: Template) {
    && u == t.(containers := u.containers) && |u.containers| == |t.containers|
    && forall i :: 0 <= i < |t.containers| ==> u.containers[i] == t.containers[i].(image := u.containers[i].image)
  }

  lemma {:induction false} InjectIgnoresImages(t: Template, u: Template, s: Snapshot)
    requires SameButImages(t, u)
    ensures Inject(t, s).Some? <==> Inject(u, s).Some?
    ensures Inject(t, s).Some? ==> SameButImages(Inject(t, s).value, Inject(u, s).value)
  {
    IndexOfByName(t.containers, u.containers, TargetName(t));
  }

  /** A template can be restored exactly if every entry has a reference and the restore plan
      can be injected; apart from images and pull secrets it is then the injected one. */
  lemma {:induction false} RestoredIsInjected(t: Template, s: Snapshot, secret: string)
    ensures Restored(t, s, secret).Some? <==>
      Inject(t, s).Some? && forall k :: 0 <= k < |s.images| ==> Reference(s, k).Some?
    ensures Restored(t, s, secret).Some? ==>
      var u := Restored(t, s, secret).value;
      SameButImages(Inject(t, s).value.(pullSecrets := u.pullSecrets), u)
  {
    ImageMapMeaning(s, |s.images|);
    if Images(s).Some? {
      var t1 := t.(containers := WithImages(t.containers, Images(s).value));
      WithImagesAt(t.containers, Images(s).value);
      InjectIgnoresImages(t, t1, s);
    }
  }

  /** Restoring a restored template changes nothing, so the controller's own patch bumps
      the generation at most once. */
  lemma {:induction false} RestoredTwice(t: Template, s: Snapshot, secret: string)
    requires Restored(t, s, secret).Some?
    ensures Restored(Restored(t, s, secret).value, s, secret) == Restored(t, s, secret)
    ensures Inject(Restored(t, s, secret).value, s).Some?
  {
    var images := Images(s).value;
    var t1 := t.(containers := WithImages(t.containers, images));
    var u, v := Inject(t1, s).value, Restored(t, s, secret).value;
    WithImagesAt(t.containers, images);
    InjectTouchesOnlyItsOwn(t1, s);
    assert forall i :: 0 <= i < |u.containers| ==> u.containers[i].name == t.containers[i].name;
    ImagesAlreadyThere(u.containers, images);
    InjectTwice(t1, s);
    InjectIgnoresPullSecrets(u, s, v.pullSecrets);
    assert v == u.(pullSecrets := v.pullSecrets) && v.(containers := v.containers) == v;
  }

  lemma {:induction false} InjectIgnoresPullSecrets(t: Template, s: Snapshot, secrets: seq<string>)
    ensures Inject(t.(pullSecrets := secrets), s) ==
      if Inject(t, s).None? then None else Some(Inject(t, s).value.(pullSecrets := secrets))
  {
  }

  // ---- The loops of continueResume.

  method CollectImages(s: Snapshot) returns (r: Option<map<string, string>>)
    ensures r == Images(s)
  {
    var images: map<string, string> := map[];
    for i := 0 to |s.images|
      invariant ImageMap(s, i) == Some(images)
    {
      var c := s.images[i];
      if s.format == "" && c.digest == "" {
        images := images[c.container := c.uri];
      } else if c.immutable.Some? {
        images := images[c.container := c.immutable.value];
      } else {
        ImageMapMeaning(s, |s.images|);
        assert Reference(s, i).None?;
        return None;
      }
    }
    return Some(images);
  }

  method InstallImages(cs: seq<Container>, images: map<string, string>) returns (r: seq<Container>)
    ensures r == WithImages(cs, images)
  {
    WithImagesAt(cs, images);
    r := cs;
    for i := 0 to |cs|
      invariant |r| == |cs|
      invariant forall j :: 0 <= j < i ==> r[j] == WithImages(cs, images)[j]
      invariant forall j :: i <= j < |cs| ==> r[j] == cs[j]
    {
      if r[i].name in images { r := r[i := r[i].(image := images[r[i].name])]; }
    }
  }

  method EnsureImagePullSecret(secrets: seq<string>, secret: string) returns (r: seq<string>)
    ensures r == WithPullSecret(secrets, secret)
  {
    if secret == "" { return secrets; }
    for i := 0 to |secrets|
      invariant secret !in secrets[..i]
    {
      if secrets[i] == secret { return secrets; }
    }
    return secrets + [secret];
  }

  /** The edits of continueResume on its copy of the template. */
  method RestoreTemplate(t: Template, s: Snapshot, images: map<string, string>, secret: string)
    returns (r: Option<Template>)
    requires Images(s) == Some(images)
    ensures r == Restored(t, s, secret)
  {
    var edited := new PodTemplate(t);
    edited.containers := InstallImages(t.containers, images);
    var ok := edited.InjectQEMURestore(s);
    if !ok { return None; }
    edited.pullSecrets := EnsureImagePullSecret(edited.pullSecrets, secret);
    return Some(edited.Values());
  }
}
