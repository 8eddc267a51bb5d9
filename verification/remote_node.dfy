/** The AWG-aware deploy push on one remote node (awg_push.go, applier_push.go,
    awg_peersync.go). Each remote command either takes full effect or none and its outcome is
    chosen freely, so every contract below speaks about every failure pattern. */
module RemoteNode {
  import opened Text
  import opened AwgConf
  import opened PeerTable

  /** /etc/sing-box/config.json, or /etc/amnezia/amneziawg/<iface>.conf. */
  datatype File = ConfigJson | KernelConf(iface: string)

  /** The sing-box unit, or awg-quick@<iface>. */
  datatype Unit = SingBox | AwgQuick(iface: string)

  /** One conf to push; path and unit both follow from the interface name. */
  datatype ConfFile = ConfFile(iface: string, content: string)

  /** A backup file: the second it was taken in and the file it copies. */
  datatype BackupKey = BackupKey(stamp: nat, file: File)

  datatype PushRecord = PushRecord(file: ConfFile, backup: Option<BackupKey>)

  datatype Outcome = Success | PushRefused | AwgFailed | DeployFailed | RollbackFailed

  /** A command of the push that a recovery, the end of a teardown or the next boot rests on. */
  datatype Safeguard =
    | BackupOf(file: File)
    | RollbackOf(file: File)
    | RestartOf(unit: Unit)
    | StatusOf(unit: Unit)
    | StopOf(unit: Unit)
    | EnableOf(unit: Unit)

  function FileOf(u: Unit): File {
    match u
    case SingBox => ConfigJson
    case AwgQuick(x) => KernelConf(x)
  }

  /** A file is out of reach when its backup or its rollback failed. */
  predicate LostFile(failed: set<Safeguard>, f: File) {
    BackupOf(f) in failed || RollbackOf(f) in failed
  }

  /** A unit is out of reach when its file cannot be rolled back, its restart in a recovery failed
      or its status could not be read before it was stopped. */
  predicate LostUnit(failed: set<Safeguard>, u: Unit) {
    LostFile(failed, FileOf(u)) || RestartOf(u) in failed || StatusOf(u) in failed
  }

  type Disk = map<File, string>
  type Backups = map<BackupKey, string>

  function Get<K, V>(m: map<K, V>, k: K): Option<V> {
    if k in m then Some(m[k]) else None
  }

  function Written(d: Disk, fs: seq<ConfFile>): Disk {
    if fs == [] then d
    else Written(d, fs[..|fs| - 1])[KernelConf(fs[|fs| - 1].iface) := fs[|fs| - 1].content]
  }

  /** The contents of one conf after a rollback in record order whose every command works. */
  function Restored(now: Option<string>, b: Backups, rs: seq<PushRecord>, iface: string): Option<string> {
    if rs == [] then now
    else
      var r := rs[|rs| - 1];
      if r.file.iface == iface && r.backup.Some? && r.backup.value in b then Some(b[r.backup.value])
      else Restored(now, b, rs[..|rs| - 1], iface)
  }

  function IfacesOf(rs: seq<PushRecord>): set<string> {
    if rs == [] then {} else IfacesOf(rs[..|rs| - 1]) + {rs[|rs| - 1].file.iface}
  }

  /** The conf at index i is the only one for its interface. */
  predicate Once(fs: seq<ConfFile>, i: nat)
    requires i < |fs|
  {
    forall j :: 0 <= j < |fs| && j != i ==> fs[j].iface != fs[i].iface
  }

  predicate IsLast(fs: seq<ConfFile>, i: nat)
    requires i < |fs|
  {
    forall j :: i < j < |fs| ==> fs[j].iface != fs[i].iface
  }

  /** What rolling back a complete push leaves in a conf: the contents it had just before its
      last write, or the new contents when there was no file to back up. */
  function Undone(d: Disk, fs: seq<ConfFile>, iface: string): Option<string> {
    if fs == [] then Get(d, KernelConf(iface))
    else if fs[|fs| - 1].iface == iface then
      var before := Get(Written(d, fs[..|fs| - 1]), KernelConf(iface));
      if before.Some? then before else Some(fs[|fs| - 1].content)
    else Undone(d, fs[..|fs| - 1], iface)
  }

  lemma {:induction false} WrittenOutside(d: Disk, fs: seq<ConfFile>, f: File)
    requires forall i :: 0 <= i < |fs| ==> f != KernelConf(fs[i].iface)
    ensures Get(Written(d, fs), f) == Get(d, f)
  {
    if fs != [] {
      WrittenOutside(d, fs[..|fs| - 1], f);
    }
  }

  lemma {:induction false} WrittenLast(d: Disk, fs: seq<ConfFile>, i: nat)
    requires i < |fs| && IsLast(fs, i)
    ensures Get(Written(d, fs), KernelConf(fs[i].iface)) == Some(fs[i].content)
  {
    if i < |fs| - 1 {
      WrittenLast(d, fs[..|fs| - 1], i);
    }
  }

  lemma {:induction false} LastMention(fs: seq<ConfFile>, i: nat) returns (l: nat)
    requires i < |fs|
    ensures i <= l < |fs| && fs[l].iface == fs[i].iface && IsLast(fs, l)
    decreases |fs| - i
  {
    l := i;
    if j :| i < j < |fs| && fs[j].iface == fs[i].iface {
      l := LastMention(fs, j);
    }
  }

  /** A conf that is pushed once and existed before comes back as it was. */
  lemma {:induction false} UndoneOnce(d: Disk, fs: seq<ConfFile>, i: nat)
    requires i < |fs| && Once(fs, i)
    ensures Undone(d, fs, fs[i].iface)
         == if KernelConf(fs[i].iface) in d then Get(d, KernelConf(fs[i].iface)) else Some(fs[i].content)
  {
    if i == |fs| - 1 {
      WrittenOutside(d, fs[..i], KernelConf(fs[i].iface));
    } else {
      UndoneOnce(d, fs[..|fs| - 1], i);
    }
  }

  /** The second-to-last conf of a repeated interface is what the rollback leaves behind. */
  lemma {:induction false} UndoneRepeated(d: Disk, fs: seq<ConfFile>, i: nat, l: nat)
    requires i < l < |fs| && fs[i].iface == fs[l].iface && IsLast(fs, l)
    requires IsLast(fs[..l], i)
    ensures Undone(d, fs, fs[i].iface) == Some(fs[i].content)
    decreases |fs|
  {
    if l == |fs| - 1 {
      WrittenLast(d, fs[..l], i);
    } else {
      assert fs[..|fs| - 1][..l] == fs[..l];
      UndoneRepeated(d, fs[..|fs| - 1], i, l);
    }
  }

  predicate DistinctIfaces(fs: seq<ConfFile>) {
    forall i, j :: 0 <= i < j < |fs| ==> fs[i].iface != fs[j].iface
  }

  ghost predicate RestoresAll(fs: seq<ConfFile>) {
    forall d: Disk, i :: 0 <= i < |fs| && KernelConf(fs[i].iface) in d ==>
      Undone(d, fs, fs[i].iface) == Get(d, KernelConf(fs[i].iface))
  }

  /** The rollback restores every pre-existing conf, whatever its contents, exactly when no
      interface is pushed twice. */
  lemma {:induction false} RollbackRestoresIff(fs: seq<ConfFile>)
    ensures RestoresAll(fs) <==> DistinctIfaces(fs)
  {
    if DistinctIfaces(fs) {
      forall d: Disk, i | 0 <= i < |fs| && KernelConf(fs[i].iface) in d
        ensures Undone(d, fs, fs[i].iface) == Get(d, KernelConf(fs[i].iface))
      {
        UndoneOnce(d, fs, i);
      }
    } else {
      var a, b :| 0 <= a < b < |fs| && fs[a].iface == fs[b].iface;
      var l := LastMention(fs, b);
      var i := LastMention(fs[..l], a);
      UndoneRepeatedAny(fs, i, l);
    }
  }

  lemma {:induction false} UndoneRepeatedAny(fs: seq<ConfFile>, i: nat, l: nat)
    requires i < l < |fs| && fs[i].iface == fs[l].iface && IsLast(fs, l)
    requires IsLast(fs[..l], i)
    ensures !RestoresAll(fs)
  {
    var d: Disk := map[KernelConf(fs[i].iface) := fs[i].content + "x"];
    UndoneRepeated(d, fs, i, l);
    assert KernelConf(fs[i].iface) in d;
    assert Undone(d, fs, fs[i].iface) != Get(d, KernelConf(fs[i].iface));
  }

  /** The first n records: each that is the last of its interface points at a backup of what
      the conf held just before that record's write. */
  ghost predicate BackupsHold(d: Disk, fs: seq<ConfFile>, n: nat, rs: seq<PushRecord>, b: Backups, lost: set<Safeguard>) {
    && |rs| == n <= |fs|
    && (forall i :: 0 <= i < n ==> rs[i].file == fs[i])
    && (forall i :: 0 <= i < n && rs[i].backup.Some? ==> rs[i].backup.value.file == KernelConf(fs[i].iface))
    && (forall i :: 0 <= i < n && rs[i].backup.None? ==> BackupOf(KernelConf(fs[i].iface)) in lost)
    && (forall i :: 0 <= i < n && IsLast(fs[..n], i) && !LostFile(lost, KernelConf(fs[i].iface)) ==>
          && rs[i].backup.Some?
          && Get(b, rs[i].backup.value) == Get(Written(d, fs[..i]), KernelConf(fs[i].iface)))
  }

  /** Records of confs that are pushed once point at a backup of the original contents. */
  ghost predicate OnceHold(d: Disk, fs: seq<ConfFile>, rs: seq<PushRecord>, b: Backups, lost: set<Safeguard>) {
    && |rs| <= |fs|
    && (forall i :: 0 <= i < |rs| ==> rs[i].file == fs[i])
    && (forall i :: 0 <= i < |rs| && rs[i].backup.None? ==> BackupOf(KernelConf(fs[i].iface)) in lost)
    && (forall i :: 0 <= i < |rs| && Once(fs, i) && !LostFile(lost, KernelConf(fs[i].iface)) ==>
          && rs[i].backup.Some?
          && Get(b, rs[i].backup.value) == Get(d, KernelConf(fs[i].iface)))
  }

  lemma {:induction false} HoldsOnce(d: Disk, fs: seq<ConfFile>, n: nat, rs: seq<PushRecord>, b: Backups, lost: set<Safeguard>)
    requires BackupsHold(d, fs, n, rs, b, lost)
    ensures OnceHold(d, fs, rs, b, lost)
  {
    forall i | 0 <= i < n && Once(fs, i) && !LostFile(lost, KernelConf(fs[i].iface))
      ensures rs[i].backup.Some? && Get(b, rs[i].backup.value) == Get(d, KernelConf(fs[i].iface))
    {
      assert IsLast(fs[..n], i);
      WrittenOutside(d, fs[..i], KernelConf(fs[i].iface));
    }
  }

  /** One more backup and record keeps the earlier ones good. */
  lemma {:induction false} BackupsExtend(d: Disk, fs: seq<ConfFile>, n: nat, rs: seq<PushRecord>, b: Backups, lost: set<Safeguard>,
                                         r: PushRecord, b': Backups, lost': set<Safeguard>)
    requires BackupsHold(d, fs, n, rs, b, lost) && n < |fs| && r.file == fs[n]
    requires lost <= lost'
    requires if r.backup.Some? then r.backup.value.file == KernelConf(fs[n].iface) else BackupOf(KernelConf(fs[n].iface)) in lost'
    requires forall k: BackupKey :: k.file != KernelConf(fs[n].iface) ==> Get(b', k) == Get(b, k)
    requires !LostFile(lost', KernelConf(fs[n].iface)) ==>
               r.backup.Some? && Get(b', r.backup.value) == Get(Written(d, fs[..n]), KernelConf(fs[n].iface))
    ensures BackupsHold(d, fs, n + 1, rs + [r], b', lost')
  {
    var rs' := rs + [r];
    forall i | 0 <= i < n + 1 && IsLast(fs[..n + 1], i) && !LostFile(lost', KernelConf(fs[i].iface))
      ensures rs'[i].backup.Some?
      ensures Get(b', rs'[i].backup.value) == Get(Written(d, fs[..i]), KernelConf(fs[i].iface))
    {
      if i < n {
        LastBefore(fs, n, i);
        hide IsLast, Written, Get;
        assert rs'[i] == rs[i];
      }
    }
  }

  lemma {:induction false} LastBefore(fs: seq<ConfFile>, n: nat, i: nat)
    requires i < n < |fs| && IsLast(fs[..n + 1], i)
    ensures IsLast(fs[..n], i) && fs[i].iface != fs[n].iface
  {
    assert fs[..n + 1][n] == fs[n] && fs[..n + 1][i] == fs[i];
    forall j | i < j < n
      ensures fs[..n][j].iface != fs[..n][i].iface
    {
      assert fs[..n + 1][j] == fs[j];
    }
  }

  lemma {:induction false} IfacesOfMember(rs: seq<PushRecord>, i: nat)
    requires i < |rs|
    ensures rs[i].file.iface in IfacesOf(rs)
  {
    if i < |rs| - 1 {
      IfacesOfMember(rs[..|rs| - 1], i);
    }
  }

  lemma {:induction false} IfacesOfOnly(rs: seq<PushRecord>, x: string)
    requires forall i :: 0 <= i < |rs| ==> rs[i].file.iface != x
    ensures x !in IfacesOf(rs)
  {
    if rs != [] {
      IfacesOfOnly(rs[..|rs| - 1], x);
    }
  }

  lemma {:induction false} RestoredOutside(now: Option<string>, b: Backups, rs: seq<PushRecord>, x: string)
    requires forall i :: 0 <= i < |rs| ==> rs[i].file.iface != x
    ensures Restored(now, b, rs, x) == now
  {
    if rs != [] {
      RestoredOutside(now, b, rs[..|rs| - 1], x);
    }
  }

  /** Only the last record of an interface decides, when its backup exists. */
  lemma {:induction false} RestoredByLast(now: Option<string>, b: Backups, rs: seq<PushRecord>, l: nat)
    requires l < |rs| && forall j :: l < j < |rs| ==> rs[j].file.iface != rs[l].file.iface
    ensures Restored(now, b, rs, rs[l].file.iface)
         == if rs[l].backup.Some? && rs[l].backup.value in b then Some(b[rs[l].backup.value])
            else Restored(now, b, rs[..l], rs[l].file.iface)
  {
    if l < |rs| - 1 {
      assert rs[..|rs| - 1][..l] == rs[..l];
      RestoredByLast(now, b, rs[..|rs| - 1], l);
    }
  }

  /** Rolling back a complete push from good backups gives exactly Undone. */
  lemma {:induction false} RestoredIsUndone(d: Disk, fs: seq<ConfFile>, rs: seq<PushRecord>, b: Backups, lost: set<Safeguard>, i: nat)
    requires BackupsHold(d, fs, |fs|, rs, b, lost)
    requires i < |fs| && !LostFile(lost, KernelConf(fs[i].iface))
    ensures Restored(Get(Written(d, fs), KernelConf(fs[i].iface)), b, rs, fs[i].iface) == Undone(d, fs, fs[i].iface)
  {
    var l := LastMention(fs, i);
    assert fs[..|fs|] == fs;
    var now := Get(Written(d, fs), KernelConf(fs[i].iface));
    RestoredByLast(now, b, rs, l);
    UndoneAtLast(d, fs, l);
    WrittenLast(d, fs, l);
    if KernelConf(fs[l].iface) !in Written(d, fs[..l]) {
      FirstMention(d, fs, l);
      RestoredOutside(now, b, rs[..l], fs[l].iface);
    }
  }

  lemma {:induction false} UndoneAtLast(d: Disk, fs: seq<ConfFile>, l: nat)
    requires l < |fs| && IsLast(fs, l)
    ensures var before := Get(Written(d, fs[..l]), KernelConf(fs[l].iface));
            Undone(d, fs, fs[l].iface) == if before.Some? then before else Some(fs[l].content)
    decreases |fs|
  {
    if l < |fs| - 1 {
      assert fs[..|fs| - 1][..l] == fs[..l];
      UndoneAtLast(d, fs[..|fs| - 1], l);
    }
  }

  lemma {:induction false} FirstMention(d: Disk, fs: seq<ConfFile>, l: nat)
    requires l < |fs| && KernelConf(fs[l].iface) !in Written(d, fs[..l])
    ensures forall j :: 0 <= j < l ==> fs[j].iface != fs[l].iface
  {
    forall j | 0 <= j < l
      ensures fs[j].iface != fs[l].iface
    {
      if fs[j].iface == fs[l].iface {
        var m := LastMention(fs[..l], j);
        WrittenLast(d, fs[..l], m);
      }
    }
  }

  /** A conf pushed once is rolled back to its original contents, if it had any. */
  lemma {:induction false} RestoredOnce(now: Option<string>, d: Disk, fs: seq<ConfFile>, rs: seq<PushRecord>, b: Backups, lost: set<Safeguard>, i: nat)
    requires OnceHold(d, fs, rs, b, lost) && i < |rs|
    requires Once(fs, i) && !LostFile(lost, KernelConf(fs[i].iface))
    ensures Restored(now, b, rs, fs[i].iface)
         == if KernelConf(fs[i].iface) in d then Get(d, KernelConf(fs[i].iface)) else now
  {
    RestoredByLast(now, b, rs, i);
    RestoredOutside(now, b, rs[..i], fs[i].iface);
  }

  lemma {:induction false} AssertOne(t: Table, es: seq<Entry>, e: Entry)
    ensures Apply(t, es + [e]) == SetPeer(Apply(t, es), e)
    ensures Keys(es + [e]) == Keys(es) + {e.key}
  {
    assert (es + [e])[..|es|] == es;
    KeysSnoc(es + [e]);
  }

  lemma {:induction false} AppliedKeys(t: Table, es: seq<Entry>)
    ensures Apply(t, es).Keys == t.Keys + Keys(es)
  {
    if es != [] {
      AppliedKeys(t, es[..|es| - 1]);
      KeysSnoc(es);
    }
  }

  lemma {:induction false} SyncedByRemoval(t: Table, es: seq<Entry>)
    ensures Apply(t, es) - (t.Keys - Keys(es)) == Restrict(Apply(t, es), Keys(es))
  {
    AppliedKeys(t, es);
  }

  // ---- The node as a value ----

  /** What the push can see or change on a node, which safeguards fail on it, and which have failed
      since the push began; `loaded` is the config sing-box last started with, `live` the kernel's
      peer table per interface, `restarted` the units (re)started since the push began, `forwarding`
      whether the kernel forwards packets. `works` says that no command fails at all. */
  datatype State = State(files: Disk, backups: Backups, active: set<Unit>, enabled: set<Unit>,
                         live: map<string, Table>, loaded: Option<string>, restarted: set<Unit>, forwarding: bool, works: bool, clock: nat, broken: set<Safeguard>, failed: set<Safeguard>)

  /** The state a push starts from: a later second than any earlier backup, nothing failed yet. */
  ghost function Begun(s: State): State {
    s.(clock := s.clock + 1, failed := {}, restarted := {})
  }

  ghost predicate Valid(s: State) {
    forall k :: k in s.backups ==> k.stamp <= s.clock
  }

  /** The unit runs, and its peer table is the one its conf describes. */
  ghost predicate Serving(s: State, iface: string) {
    && AwgQuick(iface) in s.active
    && KernelConf(iface) in s.files
    && (NoBlank(ParseConf(s.files[KernelConf(iface)]).1) ==>
          Get(s.live, iface) == Some(LoadConf(s.files[KernelConf(iface)])))
  }

  /** The unit comes up again at the next boot, unless enabling it failed. */
  ghost predicate Enabled(s: State, x: string) {
    AwgQuick(x) in s.enabled || EnableOf(AwgQuick(x)) in s.failed
  }

  ghost predicate KernelSame(s: State, t: State, x: string) {
    && Get(t.files, KernelConf(x)) == Get(s.files, KernelConf(x))
    && (AwgQuick(x) in t.active <==> AwgQuick(x) in s.active)
    && (AwgQuick(x) in t.enabled <==> AwgQuick(x) in s.enabled)
    && Get(t.live, x) == Get(s.live, x)
    && (AwgQuick(x) in t.restarted <==> AwgQuick(x) in s.restarted)
    && (LostFile(t.failed, KernelConf(x)) <==> LostFile(s.failed, KernelConf(x)))
    && (LostUnit(t.failed, AwgQuick(x)) <==> LostUnit(s.failed, AwgQuick(x)))
    && (StopOf(AwgQuick(x)) in t.failed <==> StopOf(AwgQuick(x)) in s.failed)
    && (EnableOf(AwgQuick(x)) in t.failed <==> EnableOf(AwgQuick(x)) in s.failed)
  }

  ghost predicate SingBoxSame(s: State, t: State) {
    && Get(t.files, ConfigJson) == Get(s.files, ConfigJson)
    && (SingBox in t.active <==> SingBox in s.active) && t.loaded == s.loaded
    && (LostFile(t.failed, ConfigJson) <==> LostFile(s.failed, ConfigJson))
    && (LostUnit(t.failed, SingBox) <==> LostUnit(s.failed, SingBox))
  }

  /** Nothing fails without a reason: a safeguard that fails is a broken one, or the restart of a
      unit that has no conf. */
  ghost predicate Blamed(s: State, t: State) {
    && t.broken == s.broken && t.works == s.works && (s.forwarding ==> t.forwarding) && s.failed <= t.failed && s.files.Keys <= t.files.Keys
    && forall g :: g in t.failed ==> g in s.failed || g in s.broken || (g.RestartOf? && g.unit.AwgQuick? && FileOf(g.unit) !in s.files)
  }

  lemma {:induction false} BlamedChain(s: State, t: State, u: State)
    requires Blamed(s, t) && Blamed(t, u)
    ensures Blamed(s, u)
  {
  }

  /** Nothing outside the named interfaces changed, and failures only add up. */
  ghost predicate OnlyKernel(s: State, t: State, ifaces: set<string>) {
    && SingBoxSame(s, t)
    && Blamed(s, t)
    && (forall x :: x !in ifaces ==> KernelSame(s, t, x))
  }

  lemma {:induction false} OnlyKernelChain(s: State, t: State, u: State, a: set<string>, b: set<string>)
    requires OnlyKernel(s, t, a) && OnlyKernel(t, u, b)
    ensures OnlyKernel(s, u, a + b)
  {
    BlamedChain(s, t, u);
    hide Blamed;
    forall x | x !in a + b
      ensures KernelSame(s, u, x)
    {
      assert KernelSame(s, t, x) && KernelSame(t, u, x);
    }
  }

  lemma {:induction false} ServingKept(s: State, t: State, x: string)
    requires KernelSame(s, t, x) && Serving(s, x)
    ensures Serving(t, x)
  {
  }

  // ---- Rollback ----

  /** One performRollback of a kernel conf. */
  ghost predicate RolledBackOne(s: State, t: State, r: PushRecord) {
    var x := r.file.iface;
    && OnlyKernel(s, t, {x}) && t.backups == s.backups && t.clock == s.clock && t.enabled == s.enabled
    && (!LostFile(t.failed, KernelConf(x)) ==>
          && r.backup.Some?
          && Get(t.files, KernelConf(x))
             == if r.backup.value in s.backups then Some(s.backups[r.backup.value]) else Get(s.files, KernelConf(x)))
    && (!LostUnit(t.failed, AwgQuick(x)) ==> Serving(t, x))
  }

  /** The effect of rolling the records back: each conf as Restored says unless a command for
      it failed, its unit serving that conf unless the restart failed, the rest untouched. */
  ghost predicate RolledBack(s: State, t: State, rs: seq<PushRecord>) {
    && OnlyKernel(s, t, IfacesOf(rs)) && t.backups == s.backups && t.clock == s.clock && t.enabled == s.enabled
    && (forall x :: x in IfacesOf(rs) && !LostFile(t.failed, KernelConf(x)) ==>
          Get(t.files, KernelConf(x)) == Restored(Get(s.files, KernelConf(x)), s.backups, rs, x))
    && (forall x :: x in IfacesOf(rs) && !LostUnit(t.failed, AwgQuick(x)) ==> Serving(t, x))
  }

  lemma {:induction false} RolledBackStep(s: State, t: State, u: State, rs: seq<PushRecord>, r: PushRecord)
    requires RolledBack(s, t, rs) && RolledBackOne(t, u, r)
    ensures RolledBack(s, u, rs + [r])
  {
    assert (rs + [r])[..|rs|] == rs;
    OnlyKernelChain(s, t, u, IfacesOf(rs), {r.file.iface});
    forall x | x in IfacesOf(rs + [r])
      ensures !LostFile(u.failed, KernelConf(x)) ==>
                Get(u.files, KernelConf(x)) == Restored(Get(s.files, KernelConf(x)), s.backups, rs + [r], x)
      ensures !LostUnit(u.failed, AwgQuick(x)) ==> Serving(u, x)
    {
      if x == r.file.iface {
        if x !in IfacesOf(rs) {
          RestoredUntouched(Get(s.files, KernelConf(x)), s.backups, rs, x);
          assert KernelSame(s, t, x);
        }
      } else {
        assert KernelSame(t, u, x);
      }
    }
  }

  lemma {:induction false} RestoredUntouched(now: Option<string>, b: Backups, rs: seq<PushRecord>, x: string)
    requires x !in IfacesOf(rs)
    ensures Restored(now, b, rs, x) == now
  {
    if rs != [] {
      RestoredUntouched(now, b, rs[..|rs| - 1], x);
    }
  }

  // ---- Writing the kernel confs ----

  /** The unit runs and only the peers of its conf change. */
  ghost predicate Syncable(s: State, f: ConfFile) {
    && AwgQuick(f.iface) in s.active && KernelConf(f.iface) in s.files && f.iface in s.live
    && ParseConf(s.files[KernelConf(f.iface)]).0 == ParseConf(f.content).0
  }

  lemma {:induction false} SyncableKept(s: State, t: State, f: ConfFile)
    requires KernelSame(s, t, f.iface)
    ensures Syncable(t, f) <==> Syncable(s, f)
  {
    hide ParseConf;
  }

  /** One file of pushAWGConfs: synced if possible, backed up, overwritten. */
  ghost predicate WroteOne(s: State, t: State, f: ConfFile, r: PushRecord, synced: bool, ok: bool) {
    var conf := KernelConf(f.iface);
    && Valid(t) && t.clock >= s.clock && r.file == f && t.enabled == s.enabled
    && OnlyKernel(s, t, {f.iface})
    && t.files == (if ok then s.files[conf := f.content] else s.files)
    && (r.backup.Some? ==>
          && r.backup.value == BackupKey(t.clock, conf) && t.failed == s.failed
          && t.backups == if conf in s.files then s.backups[r.backup.value := s.files[conf]] else s.backups)
    && (r.backup.None? ==> t.backups == s.backups && t.failed == s.failed + {BackupOf(conf)})
    && t.active == s.active && t.restarted == s.restarted
    && (ok && synced ==> Serving(t, f.iface))
    && (s.works ==> (synced <==> Syncable(s, f)))
  }

  /** A record without a backup comes from a failed backup. */
  ghost predicate Explained(rs: seq<PushRecord>, failed: set<Safeguard>) {
    forall i :: 0 <= i < |rs| && rs[i].backup.None? ==> BackupOf(KernelConf(rs[i].file.iface)) in failed
  }

  /** What holds after the first n files were written; `pending` still await a restart. */
  ghost predicate WroteMany(s: State, t: State, fs: seq<ConfFile>, n: nat, rs: seq<PushRecord>, pending: set<PushRecord>)
    requires n <= |fs|
  {
    && Valid(t) && t.clock >= s.clock && t.enabled == s.enabled && t.active == s.active && t.restarted == s.restarted
    && OnlyKernel(s, t, IfacesOf(rs))
    && t.files == Written(s.files, fs[..n])
    && BackupsHold(s.files, fs, n, rs, t.backups, t.failed)
    && (forall k :: k in t.backups && k.stamp >= s.clock ==> k.file.KernelConf? && k.file.iface in IfacesOf(rs))
    && (forall i :: 0 <= i < n && IsLast(fs[..n], i) ==> rs[i] in pending || Serving(t, fs[i].iface))
    && (forall i :: 0 <= i < n && s.works && Once(fs, i) ==> (rs[i] in pending <==> !Syncable(s, fs[i])))
  }

  lemma {:induction false} IfacesOfSnoc(rs: seq<PushRecord>, r: PushRecord)
    ensures IfacesOf(rs + [r]) == IfacesOf(rs) + {r.file.iface}
  {
    assert (rs + [r])[..|rs|] == rs;
  }

  /** The backup taken now is a copy of what the conf holds now, also when it holds nothing. */
  lemma {:induction false} FreshBackup(s: State, t: State, u: State, fs: seq<ConfFile>, n: nat, rs: seq<PushRecord>,
                                       pending: set<PushRecord>, r: PushRecord, synced: bool, ok: bool)
    requires n < |fs| && WroteMany(s, t, fs, n, rs, pending) && WroteOne(t, u, fs[n], r, synced, ok)
    requires r.backup.Some?
    ensures Get(u.backups, r.backup.value) == Get(Written(s.files, fs[..n]), KernelConf(fs[n].iface))
  {
    if KernelConf(fs[n].iface) !in t.files {
      FirstMention(s.files, fs, n);
      IfacesOfOnly(rs, fs[n].iface);
    }
  }

  lemma {:induction false} BackupsStep(s: State, t: State, u: State, fs: seq<ConfFile>, n: nat, rs: seq<PushRecord>,
                                       pending: set<PushRecord>, r: PushRecord, synced: bool, ok: bool)
    requires n < |fs| && WroteMany(s, t, fs, n, rs, pending) && WroteOne(t, u, fs[n], r, synced, ok)
    ensures BackupsHold(s.files, fs, n + 1, rs + [r], u.backups, u.failed)
    ensures forall k :: k in u.backups && k.stamp >= s.clock ==> k.file.KernelConf? && k.file.iface in IfacesOf(rs + [r])
  {
    if r.backup.Some? {
      FreshBackup(s, t, u, fs, n, rs, pending, r, synced, ok);
    }
    BackupsExtend(s.files, fs, n, rs, t.backups, t.failed, r, u.backups, u.failed);
    IfacesOfSnoc(rs, r);
  }

  lemma {:induction false} ServingStep(s: State, t: State, u: State, fs: seq<ConfFile>, n: nat, rs: seq<PushRecord>,
                                       pending: set<PushRecord>, r: PushRecord, synced: bool, i: nat)
    requires n < |fs| && WroteMany(s, t, fs, n, rs, pending) && WroteOne(t, u, fs[n], r, synced, true)
    requires i < n && IsLast(fs[..n + 1], i)
    ensures rs[i] in pending || Serving(u, fs[i].iface)
  {
    assert fs[..n + 1][n] == fs[n] && fs[..n + 1][i] == fs[i];
    assert KernelSame(t, u, fs[i].iface);
    assert IsLast(fs[..n], i) by {
      forall j | i < j < n ensures fs[..n][j].iface != fs[..n][i].iface {
        assert fs[..n + 1][j] == fs[j];
      }
    }
    if rs[i] !in pending {
      ServingKept(t, u, fs[i].iface);
    }
  }

  lemma {:induction false} WroteStep(s: State, t: State, u: State, fs: seq<ConfFile>, n: nat, rs: seq<PushRecord>,
                                     pending: set<PushRecord>, r: PushRecord, synced: bool)
    requires n < |fs| && WroteMany(s, t, fs, n, rs, pending) && WroteOne(t, u, fs[n], r, synced, true)
    requires forall q :: q in pending ==> q in rs
    ensures WroteMany(s, u, fs, n + 1, rs + [r], if synced then pending else pending + {r})
  {
    BackupsStep(s, t, u, fs, n, rs, pending, r, synced, true);
    IfacesOfSnoc(rs, r);
    OnlyKernelChain(s, t, u, IfacesOf(rs), {fs[n].iface});
    assert fs[..n + 1][..n] == fs[..n];
    forall i | 0 <= i < n && IsLast(fs[..n + 1], i)
      ensures rs[i] in pending || Serving(u, fs[i].iface)
    {
      ServingStep(s, t, u, fs, n, rs, pending, r, synced, i);
    }
    forall i | 0 <= i < n + 1 && s.works && Once(fs, i)
      ensures (rs + [r])[i] in (if synced then pending else pending + {r}) <==> !Syncable(s, fs[i])
    {
      PendingStep(s, t, u, fs, n, rs, pending, r, synced, i);
    }
  }

  /** With every command working, a conf pushed once awaits a restart exactly when it cannot be
      synced. */
  lemma {:induction false} PendingStep(s: State, t: State, u: State, fs: seq<ConfFile>, n: nat, rs: seq<PushRecord>,
                                       pending: set<PushRecord>, r: PushRecord, synced: bool, i: nat)
    requires n < |fs| && WroteMany(s, t, fs, n, rs, pending) && WroteOne(t, u, fs[n], r, synced, true)
    requires forall q :: q in pending ==> q in rs
    requires i < n + 1 && s.works && Once(fs, i)
    ensures (rs + [r])[i] in (if synced then pending else pending + {r}) <==> !Syncable(s, fs[i])
  {
    assert t.works && r.file == fs[n] && |rs| == n && forall j :: 0 <= j < n ==> rs[j].file == fs[j];
    if i < n {
      assert (rs + [r])[i] == rs[i] && rs[i] != r;
    } else {
      IfacesOfOnly(rs, fs[n].iface);
      SyncableKept(s, t, fs[n]);
      assert forall q :: q in rs ==> q.file.iface != fs[n].iface;
    }
    hide WroteMany, WroteOne, Syncable, OnlyKernel;
  }

  // ---- Restarting, tearing down and restoring units ----

  ghost predicate DiskSame(s: State, t: State) {
    t.files == s.files && t.backups == s.backups && t.clock == s.clock && forall f :: LostFile(t.failed, f) ==> LostFile(s.failed, f)
  }

  /** Units of the records enabled and (re)started in order; on success every one of them serves its
      conf and is enabled. */
  ghost predicate Started(s: State, t: State, rs: seq<PushRecord>, ok: bool) {
    && DiskSame(s, t) && OnlyKernel(s, t, IfacesOf(rs)) && s.enabled <= t.enabled
    && (ok ==> forall x :: x in IfacesOf(rs) ==> AwgQuick(x) in t.restarted)
    && (ok ==> forall x :: x in IfacesOf(rs) ==> Serving(t, x) && Enabled(t, x))
  }

  lemma {:induction false} StartedStep(s: State, t: State, u: State, rs: seq<PushRecord>, r: PushRecord, ok: bool)
    requires Started(s, t, rs, true)
    requires DiskSame(t, u) && OnlyKernel(t, u, {r.file.iface}) && t.enabled <= u.enabled
    requires ok ==> Serving(u, r.file.iface) && Enabled(u, r.file.iface) && AwgQuick(r.file.iface) in u.restarted
    ensures Started(s, u, rs + [r], ok)
  {
    IfacesOfSnoc(rs, r);
    OnlyKernelChain(s, t, u, IfacesOf(rs), {r.file.iface});
    if ok {
      forall x | x in IfacesOf(rs + [r])
        ensures Serving(u, x) && Enabled(u, x) && AwgQuick(x) in u.restarted
      {
        if x != r.file.iface {
          assert KernelSame(t, u, x);
          ServingKept(t, u, x);
        }
      }
    }
  }

  function Members(rs: seq<PushRecord>): set<PushRecord> {
    set r | r in rs
  }

  function Elements(xs: seq<string>): set<string> {
    set i | 0 <= i < |xs| :: xs[i]
  }

  /** Units stopped and disabled unless the command failed; `stopped` lists those that ran before,
      as far as their status could be read. A unit that still runs is as enabled as it was. */
  ghost predicate TornDown(s: State, t: State, ifaces: set<string>, stopped: set<string>) {
    && DiskSame(s, t) && OnlyKernel(s, t, ifaces) && stopped <= ifaces
    && t.active <= s.active && t.enabled <= s.enabled
    && (forall x :: x in stopped ==> AwgQuick(x) in s.active)
    && (forall x :: x in ifaces && AwgQuick(x) in t.active && AwgQuick(x) in s.enabled ==> AwgQuick(x) in t.enabled)
    && (forall x :: x in ifaces && StopOf(AwgQuick(x)) !in t.failed ==> AwgQuick(x) !in t.active && AwgQuick(x) !in t.enabled)
    && (forall x :: x in ifaces && AwgQuick(x) in s.active && !LostUnit(t.failed, AwgQuick(x)) ==>
          x in stopped || AwgQuick(x) in t.active)
  }

  lemma {:induction false} TornDownStep(s: State, t: State, u: State, ifaces: set<string>, stopped: set<string>, x: string, more: set<string>)
    requires TornDown(s, t, ifaces, stopped) && TornDown(t, u, {x}, more)
    ensures TornDown(s, u, ifaces + {x}, stopped + more)
  {
    OnlyKernelChain(s, t, u, ifaces, {x});
    forall y | y in ifaces + {x}
      ensures StopOf(AwgQuick(y)) !in u.failed ==> AwgQuick(y) !in u.active && AwgQuick(y) !in u.enabled
      ensures AwgQuick(y) in s.active && !LostUnit(u.failed, AwgQuick(y)) ==> y in stopped + more || AwgQuick(y) in u.active
      ensures AwgQuick(y) in u.active && AwgQuick(y) in s.enabled ==> AwgQuick(y) in u.enabled
    {
      if y != x {
        assert KernelSame(t, u, y);
      } else if y !in ifaces {
        assert KernelSame(s, t, y);
      }
    }
  }

  /** Units enabled and started again. */
  ghost predicate BroughtBack(s: State, t: State, ifaces: set<string>) {
    && DiskSame(s, t) && OnlyKernel(s, t, ifaces) && s.enabled <= t.enabled
    && (forall x :: x in ifaces && !LostUnit(t.failed, AwgQuick(x)) ==> Serving(t, x) && AwgQuick(x) in t.enabled)
  }

  lemma {:induction false} BroughtBackStep(s: State, t: State, u: State, ifaces: set<string>, x: string)
    requires BroughtBack(s, t, ifaces) && BroughtBack(t, u, {x})
    ensures BroughtBack(s, u, ifaces + {x})
  {
    OnlyKernelChain(s, t, u, ifaces, {x});
    forall y | y in ifaces + {x} && !LostUnit(u.failed, AwgQuick(y))
      ensures Serving(u, y) && AwgQuick(y) in u.enabled
    {
      if y != x {
        assert KernelSame(t, u, y);
        ServingKept(t, u, y);
      }
    }
  }

  // ---- The push as a whole ----

  function Named(fs: seq<ConfFile>): set<string> {
    set i | 0 <= i < |fs| :: fs[i].iface
  }

  lemma {:induction false} RecordsNamed(fs: seq<ConfFile>, rs: seq<PushRecord>)
    requires |rs| <= |fs| && forall i :: 0 <= i < |rs| ==> rs[i].file == fs[i]
    ensures IfacesOf(rs) <= Named(fs)
    ensures |rs| == |fs| ==> IfacesOf(rs) == Named(fs)
  {
    forall x | x in IfacesOf(rs)
      ensures x in Named(fs)
    {
      if x !in Named(fs) {
        assert forall i :: 0 <= i < |rs| ==> rs[i].file.iface == fs[i].iface;
        IfacesOfOnly(rs, x);
      }
    }
    if |rs| == |fs| {
      forall x | x in Named(fs)
        ensures x in IfacesOf(rs)
      {
        var i :| 0 <= i < |fs| && fs[i].iface == x;
        IfacesOfMember(rs, i);
      }
    }
  }

  lemma {:induction false} OnlyKernelWider(s: State, t: State, a: set<string>, b: set<string>)
    requires OnlyKernel(s, t, a) && a <= b
    ensures OnlyKernel(s, t, b)
  {
  }

  /** Whatever did not run was started, and is enabled by that; what ran may only have been synced,
      which leaves it as enabled as it was. */
  ghost predicate EnabledAfter(s: State, t: State, x: string) {
    AwgQuick(x) !in s.active || AwgQuick(x) in s.enabled ==> Enabled(t, x)
  }

  /** pushAWGConfs went through: new contents on disk, usable backups, every unit serving. */
  ghost predicate ConfsPushed(s: State, t: State, fs: seq<ConfFile>, rs: seq<PushRecord>) {
    && Valid(t) && t.clock >= s.clock && s.enabled <= t.enabled
    && OnlyKernel(s, t, Named(fs))
    && t.files == Written(s.files, fs)
    && BackupsHold(s.files, fs, |fs|, rs, t.backups, t.failed)
    && (forall k :: k in t.backups && k.stamp >= s.clock ==> k.file.KernelConf?)
    && (forall x :: x in Named(fs) ==> Serving(t, x) && EnabledAfter(s, t, x))
    && RestartedIff(s, t, fs, {})
    && (fs != [] ==> t.forwarding)
  }

  /** With every command working, a unit whose conf is pushed once is restarted exactly when more
      than its peers change; peers alone are synced without dropping a client. */
  ghost predicate RestartedIff(s: State, t: State, fs: seq<ConfFile>, down: set<string>) {
    forall i :: 0 <= i < |fs| && s.works && Once(fs, i) && fs[i].iface !in down && AwgQuick(fs[i].iface) !in s.restarted ==>
      (AwgQuick(fs[i].iface) in t.restarted <==> !Syncable(s, fs[i]))
  }

  /** The contents of a conf that is pushed once, seen after an undone push. */
  ghost predicate ContentsBack(s: State, t: State, fs: seq<ConfFile>, i: nat)
    requires i < |fs|
  {
    var conf := KernelConf(fs[i].iface);
    Get(t.files, conf) == Get(s.files, conf) || (conf !in s.files && Get(t.files, conf) == Some(fs[i].content))
  }

  /** pushAWGConfs failed: what it wrote is rolled back, and what ran runs again. */
  ghost predicate ConfsUndone(s: State, t: State, fs: seq<ConfFile>) {
    && OnlyKernel(s, t, Named(fs)) && s.enabled <= t.enabled
    && (forall x :: x in Named(fs) && AwgQuick(x) in s.active && !LostUnit(t.failed, AwgQuick(x)) ==> AwgQuick(x) in t.active)
    && (forall i :: 0 <= i < |fs| && Once(fs, i) && !LostFile(t.failed, KernelConf(fs[i].iface)) ==> ContentsBack(s, t, fs, i))
  }

  /** All confs written, pending units started: every named unit serves its new conf. */
  lemma {:induction false} PushThrough(s: State, t: State, u: State, fs: seq<ConfFile>, rs: seq<PushRecord>, pending: seq<PushRecord>)
    requires WroteMany(s, t, fs, |fs|, rs, Members(pending))
    requires Started(t, u, pending, true) && (forall r :: r in pending ==> r in rs) && s.forwarding
    ensures ConfsPushed(s, u, fs, rs)
  {
    hide RestartedIff, Serving, EnabledAfter, Enabled, Once, Syncable, KernelSame, Written, SingBoxSame, IsLast;
    assert fs[..|fs|] == fs;
    RecordsNamed(fs, rs);
    PendingNamed(rs, pending);
    OnlyKernelChain(s, t, u, IfacesOf(rs), IfacesOf(pending));
    assert IfacesOf(rs) + IfacesOf(pending) == Named(fs);
    RestartsThrough(s, t, u, fs, rs, pending);
    forall x | x in Named(fs)
      ensures Serving(u, x) && EnabledAfter(s, u, x)
    {
      ServedInTheEnd(s, t, u, fs, rs, pending, x);
    }
    hide RestartedIff, Serving, EnabledAfter, BackupsHold, OnlyKernel, Written;
  }

  /** A pushed unit was synced, or it was started with its last conf. */
  lemma {:induction false} ServedInTheEnd(s: State, t: State, u: State, fs: seq<ConfFile>, rs: seq<PushRecord>, pending: seq<PushRecord>, x: string)
    requires WroteMany(s, t, fs, |fs|, rs, Members(pending)) && Started(t, u, pending, true) && x in Named(fs)
    ensures Serving(u, x) && EnabledAfter(s, u, x)
  {
    assert fs[..|fs|] == fs;
    var i :| 0 <= i < |fs| && fs[i].iface == x;
    var l := LastMention(fs, i);
    hide Once, Syncable, BackupsHold, Written;
    if x !in IfacesOf(pending) {
      if rs[l] in pending {
        var j :| 0 <= j < |pending| && pending[j] == rs[l];
        IfacesOfMember(pending, j);
      }
      assert KernelSame(t, u, x);
      ServingKept(t, u, x);
    }
  }

  /** Which pending record stands for a conf pushed once. */
  lemma {:induction false} PendingOnce(fs: seq<ConfFile>, rs: seq<PushRecord>, pending: seq<PushRecord>, i: nat)
    requires |rs| == |fs| && i < |fs| && Once(fs, i) && (forall j :: 0 <= j < |rs| ==> rs[j].file == fs[j])
    requires forall r :: r in pending ==> r in rs
    ensures fs[i].iface in IfacesOf(pending) <==> rs[i] in pending
  {
    if rs[i] in pending {
      var j :| 0 <= j < |pending| && pending[j] == rs[i];
      IfacesOfMember(pending, j);
    } else {
      forall j | 0 <= j < |pending|
        ensures pending[j].file.iface != fs[i].iface
      {
        assert pending[j] in rs;
        var k :| 0 <= k < |rs| && rs[k] == pending[j];
      }
      IfacesOfOnly(pending, fs[i].iface);
    }
  }

  lemma {:induction false} RestartsThrough(s: State, t: State, u: State, fs: seq<ConfFile>, rs: seq<PushRecord>, pending: seq<PushRecord>)
    requires WroteMany(s, t, fs, |fs|, rs, Members(pending))
    requires Started(t, u, pending, true) && forall r :: r in pending ==> r in rs
    ensures RestartedIff(s, u, fs, {})
  {
    WrittenBooks(s, t, fs, rs, Members(pending));
    hide WroteMany, Syncable;
    forall i | 0 <= i < |fs| && s.works && Once(fs, i) && AwgQuick(fs[i].iface) !in s.restarted
      ensures AwgQuick(fs[i].iface) in u.restarted <==> !Syncable(s, fs[i])
    {
      PendingOnce(fs, rs, pending, i);
      hide Once;
      RestartedWhenPending(t, u, pending, fs[i].iface);
    }
  }

  lemma {:induction false} RestartedWhenPending(t: State, u: State, pending: seq<PushRecord>, x: string)
    requires Started(t, u, pending, true) && AwgQuick(x) !in t.restarted
    ensures AwgQuick(x) in u.restarted <==> x in IfacesOf(pending)
  {
    hide Serving, Enabled, IfacesOf, LostUnit, LostFile;
    if x !in IfacesOf(pending) {
      assert KernelSame(t, u, x);
    }
  }

  lemma {:induction false} WrittenBooks(s: State, t: State, fs: seq<ConfFile>, rs: seq<PushRecord>, pending: set<PushRecord>)
    requires WroteMany(s, t, fs, |fs|, rs, pending)
    ensures |rs| == |fs| && t.restarted == s.restarted && forall j :: 0 <= j < |rs| ==> rs[j].file == fs[j]
    ensures forall i :: 0 <= i < |fs| && s.works && Once(fs, i) ==> (rs[i] in pending <==> !Syncable(s, fs[i]))
  {
    hide Serving, Syncable, Once, KernelSame, IsLast;
  }

  /** The host was prepared before the confs were pushed. */
  lemma {:induction false} PreparedFirst(s: State, p: State, t: State, fs: seq<ConfFile>)
    requires p == s.(forwarding := p.forwarding) && (s.forwarding ==> p.forwarding)
    ensures forall rs :: ConfsPushed(p, t, fs, rs) ==> ConfsPushed(s, t, fs, rs)
    ensures ConfsUndone(p, t, fs) ==> ConfsUndone(s, t, fs)
  {
    assert OnlyKernel(p, t, Named(fs)) ==> OnlyKernel(s, t, Named(fs)) by {
      if OnlyKernel(p, t, Named(fs)) {
        forall x | x !in Named(fs)
          ensures KernelSame(s, t, x)
        {
          assert KernelSame(p, t, x);
        }
      }
    }
    forall i | 0 <= i < |fs|
      ensures ContentsBack(p, t, fs, i) <==> ContentsBack(s, t, fs, i)
      ensures Syncable(p, fs[i]) <==> Syncable(s, fs[i])
    {
    }
    hide OnlyKernel, Serving, BackupsHold, Once, ContentsBack, Syncable, Written;
  }

  lemma {:induction false} PendingNamed(rs: seq<PushRecord>, pending: seq<PushRecord>)
    requires forall r :: r in pending ==> r in rs
    ensures IfacesOf(pending) <= IfacesOf(rs)
  {
    if pending != [] {
      var r := pending[|pending| - 1];
      assert r in pending;
      var i :| 0 <= i < |rs| && rs[i] == r;
      IfacesOfMember(rs, i);
      PendingNamed(rs, pending[..|pending| - 1]);
    }
  }

  /** Units whose conf is not among the written ones have not gone down. */
  ghost predicate StillRunning(s: State, t: State, written: set<string>) {
    forall x :: x !in written && AwgQuick(x) in s.active ==> AwgQuick(x) in t.active
  }

  /** Rolling back what was written restores every conf pushed once; `w` is the state after a
      failed write or a failed restart, `n` files written. */
  lemma {:induction false} UndoneAfter(s: State, w: State, v: State, fs: seq<ConfFile>, n: nat, rs: seq<PushRecord>)
    requires n <= |fs| && |rs| == n && OnlyKernel(s, w, Named(fs)) && StillRunning(s, w, IfacesOf(rs)) && s.enabled <= w.enabled
    requires w.files == Written(s.files, fs[..n]) && OnceHold(s.files, fs, rs, w.backups, w.failed)
    requires RolledBack(w, v, rs)
    ensures ConfsUndone(s, v, fs)
  {
    RecordsNamed(fs, rs);
    OnlyKernelChain(s, w, v, Named(fs), IfacesOf(rs));
    assert Named(fs) + IfacesOf(rs) == Named(fs);
    forall i | 0 <= i < |fs| && Once(fs, i) && !LostFile(v.failed, KernelConf(fs[i].iface))
      ensures ContentsBack(s, v, fs, i)
    {
      UndoneAt(s, w, v, fs, n, rs, i);
    }
    forall x | x in Named(fs) && AwgQuick(x) in s.active && !LostUnit(v.failed, AwgQuick(x))
      ensures AwgQuick(x) in v.active
    {
      if x !in IfacesOf(rs) {
        assert KernelSame(w, v, x);
      }
    }
  }

  lemma {:induction false} UndoneAt(s: State, w: State, v: State, fs: seq<ConfFile>, n: nat, rs: seq<PushRecord>, i: nat)
    requires n <= |fs| && |rs| == n && i < |fs|
    requires w.files == Written(s.files, fs[..n]) && OnceHold(s.files, fs, rs, w.backups, w.failed)
    requires RolledBack(w, v, rs) && Once(fs, i) && !LostFile(v.failed, KernelConf(fs[i].iface))
    ensures ContentsBack(s, v, fs, i)
  {
    var conf := KernelConf(fs[i].iface);
    if i < n {
      IfacesOfMember(rs, i);
      RestoredOnce(Get(w.files, conf), s.files, fs, rs, w.backups, w.failed, i);
      WrittenLast(s.files, fs[..n], i);
    } else {
      IfacesOfOnly(rs, fs[i].iface);
      assert KernelSame(w, v, fs[i].iface);
      WrittenOutside(s.files, fs[..n], conf);
    }
  }

  /** sing-box was left alone, or it was started again on the config.json that is there now. */
  ghost predicate SingBoxBack(s: State, t: State) {
    || (t.loaded == s.loaded && (SingBox in t.active <==> SingBox in s.active))
    || (SingBox in t.active && t.loaded == Get(t.files, ConfigJson))
  }

  /** pushConfigLocked: only config.json, its backups and the sing-box unit are touched. */
  ghost predicate ConfigPushed(s: State, t: State, cfg: string, out: Outcome) {
    && Valid(t) && t.clock >= s.clock && Blamed(s, t)
    && (forall x :: KernelSame(s, t, x))
    && (forall k: BackupKey :: k.file != ConfigJson ==> Get(t.backups, k) == Get(s.backups, k))
    && (out == Success ==> Get(t.files, ConfigJson) == Some(cfg) && SingBox in t.active && t.loaded == Some(cfg))
    && (out != Success && !LostUnit(t.failed, SingBox) ==> SingBoxBack(s, t))
    && (out != Success && !LostFile(t.failed, ConfigJson) ==>
          || Get(t.files, ConfigJson) == Get(s.files, ConfigJson)
          || (ConfigJson !in s.files && Get(t.files, ConfigJson) == Some(cfg)))
    && (out == RollbackFailed ==> RollbackOf(ConfigJson) in t.failed)
  }

  /** A successful push: all new contents in place, sing-box up with the new config, every pushed unit
      serving its new conf and enabled, every torn-down unit stopped and disabled. */
  ghost predicate PushDone(s: State, t: State, cfg: string, fs: seq<ConfFile>, down: set<string>) {
    && Blamed(s, t)
    && Get(t.files, ConfigJson) == Some(cfg) && SingBox in t.active && t.loaded == Some(cfg)
    && (forall x :: Get(t.files, KernelConf(x)) == Get(Written(s.files, fs), KernelConf(x)))
    && (forall x :: x in Named(fs) && x !in down ==> Serving(t, x) && EnabledAfter(s, t, x))
    && (forall x :: x in down && StopOf(AwgQuick(x)) !in t.failed ==> AwgQuick(x) !in t.active && AwgQuick(x) !in t.enabled)
    && RestartedIff(s, t, fs, down) && (fs != [] ==> t.forwarding)
    && (forall x :: x !in Named(fs) && x !in down ==> KernelSame(s, t, x))
  }

  /** A successful push of a conf in which only peers changed leaves its running unit alone, and the
      unit serves the new peers. */
  lemma {:induction false} PeersOnlyKeepsRunning(s: State, t: State, cfg: string, fs: seq<ConfFile>, down: set<string>, i: nat, p: Params, others: seq<ServerPeer>)
    requires PushDone(s, t, cfg, fs, down) && s.works && s.restarted == {}
    requires i < |fs| && Once(fs, i) && fs[i].iface !in down
    requires PlainValues(p.iface) && PlainPeers(p.peers) && PlainPeers(others)
    requires Get(s.files, KernelConf(fs[i].iface)) == Some(Unlines(ConfLines(p))) && fs[i].content == Unlines(ConfLines(p.(peers := others)))
    requires AwgQuick(fs[i].iface) in s.active && fs[i].iface in s.live
    ensures AwgQuick(fs[i].iface) !in t.restarted && Serving(t, fs[i].iface)
  {
    InterfaceIndependentOfPeers(p, others);
    hide ParseConf, ConfLines, Unlines, PlainValues, PlainPeers, Once, KernelSame, Serving, EnabledAfter, Blamed, Written;
    assert Syncable(s, fs[i]);
  }

  /** A failed push: unless a recovery command for it failed too, config.json and every conf
      pushed once hold what they held before (a file that did not exist may keep its new
      contents), sing-box runs with what it ran with or with its config.json, and every unit that ran
      before runs again, enabled if it was. */
  ghost predicate PushUndone(s: State, t: State, cfg: string, fs: seq<ConfFile>, down: set<string>) {
    && Blamed(s, t)
    && (!LostFile(t.failed, ConfigJson) ==>
          || Get(t.files, ConfigJson) == Get(s.files, ConfigJson)
          || (ConfigJson !in s.files && Get(t.files, ConfigJson) == Some(cfg)))
    && (!LostUnit(t.failed, SingBox) ==> SingBoxBack(s, t))
    && (forall i :: 0 <= i < |fs| && Once(fs, i) && !LostFile(t.failed, KernelConf(fs[i].iface)) ==> ContentsBack(s, t, fs, i))
    && (forall x :: x in down + Named(fs) && AwgQuick(x) in s.active && !LostUnit(t.failed, AwgQuick(x)) ==>
          AwgQuick(x) in t.active && (AwgQuick(x) in s.enabled ==> AwgQuick(x) in t.enabled))
    && (forall x :: x !in Named(fs) && x !in down ==> KernelSame(s, t, x))
  }

  lemma {:induction false} AwgFailureUndone(s: State, t: State, cfg: string, fs: seq<ConfFile>, down: set<string>)
    requires ConfsUndone(s, t, fs)
    ensures PushUndone(s, t, cfg, fs, down)
  {
    forall x | x !in Named(fs)
      ensures KernelSame(s, t, x)
    {
    }
  }

  lemma {:induction false} SuccessDone(s: State, a: State, b: State, t: State, cfg: string, fs: seq<ConfFile>,
                                       rs: seq<PushRecord>, down: set<string>, stopped: set<string>)
    requires ConfsPushed(s, a, fs, rs) && TornDown(a, b, down, stopped) && ConfigPushed(b, t, cfg, Success)
    ensures PushDone(s, t, cfg, fs, down)
  {
    BlamedChain(s, a, b);
    BlamedChain(s, b, t);
    hide Blamed;
    forall i | 0 <= i < |fs| && fs[i].iface !in down
      ensures AwgQuick(fs[i].iface) in t.restarted <==> AwgQuick(fs[i].iface) in a.restarted
    {
      assert KernelSame(a, b, fs[i].iface) && KernelSame(b, t, fs[i].iface);
    }
    hide Syncable, Once;
    forall x
      ensures Get(t.files, KernelConf(x)) == Get(Written(s.files, fs), KernelConf(x))
      ensures x in Named(fs) && x !in down ==> Serving(t, x) && EnabledAfter(s, t, x)
      ensures x in down && StopOf(AwgQuick(x)) !in t.failed ==> AwgQuick(x) !in t.active && AwgQuick(x) !in t.enabled
      ensures x !in Named(fs) && x !in down ==> KernelSame(s, t, x)
    {
      assert KernelSame(b, t, x);
      if x !in down {
        assert KernelSame(a, b, x);
        if x in Named(fs) {
          ServingKept(a, b, x);
          ServingKept(b, t, x);
        } else {
          assert KernelSame(s, a, x);
        }
      }
    }
  }

  /** The failed push is undone, and every pushed conf ends exactly as Undone says, repeated
      interfaces included. The states are those after the confs, the teardown, config.json, the
      restored units and the rollback. */
  lemma {:induction false} ConfigFailureUndone(s: State, a: State, b: State, c: State, d: State, t: State, cfg: string,
                                               fs: seq<ConfFile>, rs: seq<PushRecord>, down: set<string>,
                                               stopped: set<string>, out: Outcome)
    requires ConfsPushed(s, a, fs, rs) && TornDown(a, b, down, stopped) && out != Success
    requires ConfigPushed(b, c, cfg, out) && BroughtBack(c, d, stopped) && RolledBack(d, t, rs)
    requires IfacesOf(rs) == Named(fs)
    ensures PushUndone(s, t, cfg, fs, down)
    ensures ConfsExactlyUndone(s, t, fs) && DownUnitsBack(s, t, fs, down)
  {
    hide RestartedIff, EnabledAfter, Enabled, Syncable, UnitBack, Serving, Restored;
    BlamedChain(s, a, b);
    BlamedChain(s, b, c);
    BlamedChain(s, c, d);
    BlamedChain(s, d, t);
    FailuresAddUp(s, a, b, c, d, t);
    hide Blamed;
    ConfigJsonBack(s, a, b, c, d, t, cfg, out);
    UnitsAfterFailure(s, a, b, c, d, t, cfg, fs, rs, down, stopped, out);
    forall i | 0 <= i < |fs| && !LostFile(t.failed, KernelConf(fs[i].iface))
      ensures Get(t.files, KernelConf(fs[i].iface)) == Undone(s.files, fs, fs[i].iface)
    {
      assert KernelSame(b, c, fs[i].iface);
      BackupsCarried(s.files, fs, |fs|, rs, a.backups, a.failed, d.backups, t.failed);
      ConfRolledBack(s.files, d, t, fs, rs, i);
    }
    ExactIsBack(s, t, fs);
  }

  /** A unit that was to be torn down and whose conf was not pushed: it runs, and is enabled, exactly
      if it ran. One whose stop command failed is as it was. */
  ghost predicate UnitBack(s: State, t: State, x: string) {
    var u := AwgQuick(x);
    && (u in s.active ==> u in t.active && (u in s.enabled ==> u in t.enabled))
    && (StopOf(u) !in t.failed ==> (u in t.active <==> u in s.active) && (u in t.enabled <==> u in s.active))
    && (StopOf(u) !in t.failed && u in s.active ==> Serving(t, x))
  }

  ghost predicate DownUnitsBack(s: State, t: State, fs: seq<ConfFile>, down: set<string>) {
    forall x :: x in down && x !in Named(fs) && !LostUnit(t.failed, AwgQuick(x)) ==> UnitBack(s, t, x)
  }

  /** The units over the whole failed push. */
  lemma {:induction false} UnitsAfterFailure(s: State, a: State, b: State, c: State, d: State, t: State, cfg: string,
                                             fs: seq<ConfFile>, rs: seq<PushRecord>, down: set<string>,
                                             stopped: set<string>, out: Outcome)
    requires ConfsPushed(s, a, fs, rs) && TornDown(a, b, down, stopped)
    requires ConfigPushed(b, c, cfg, out) && BroughtBack(c, d, stopped) && RolledBack(d, t, rs)
    requires IfacesOf(rs) == Named(fs)
    ensures forall x :: x !in Named(fs) ==>
              && (x in down && !LostUnit(t.failed, AwgQuick(x)) ==> UnitBack(s, t, x))
              && (x !in down ==> KernelSame(s, t, x))
    ensures forall x :: x in down + Named(fs) && AwgQuick(x) in s.active && !LostUnit(t.failed, AwgQuick(x)) ==>
              AwgQuick(x) in t.active && (AwgQuick(x) in s.enabled ==> AwgQuick(x) in t.enabled)
  {
    FailuresAddUp(s, a, b, c, d, t);
    hide Blamed, SingBoxSame, DiskSame, BackupsHold, Written, Restored, SingBoxBack, EnabledAfter;
    forall x | x !in Named(fs)
      ensures x in down && !LostUnit(t.failed, AwgQuick(x)) ==> UnitBack(s, t, x)
      ensures x !in down ==> KernelSame(s, t, x)
    {
      assert KernelSame(s, a, x) && KernelSame(b, c, x) && KernelSame(d, t, x);
      assert x !in down ==> KernelSame(a, b, x);
      assert x !in stopped ==> KernelSame(c, d, x);
      OutsideKernel(s, a, b, c, d, t, x, x in down, x in stopped);
    }
    forall x | x in Named(fs) && AwgQuick(x) in s.enabled && !LostUnit(t.failed, AwgQuick(x))
      ensures AwgQuick(x) in t.enabled
    {
      assert KernelSame(b, c, x);
      assert x !in down ==> KernelSame(a, b, x);
      assert x !in stopped ==> KernelSame(c, d, x);
      NamedEnabled(s, a, b, c, d, t, x, x in down, x in stopped);
    }
    assert forall x :: x in Named(fs) && !LostUnit(t.failed, AwgQuick(x)) ==> AwgQuick(x) in t.active;
  }

  lemma {:induction false} FailuresAddUp(s: State, a: State, b: State, c: State, d: State, t: State)
    requires Blamed(s, a) && Blamed(a, b) && Blamed(b, c) && Blamed(c, d) && Blamed(d, t)
    ensures s.failed <= a.failed <= b.failed <= c.failed <= d.failed <= t.failed
  {
  }

  /** Exact contents of every pushed conf after a push whose config.json stage failed. */
  ghost predicate ConfsExactlyUndone(s: State, t: State, fs: seq<ConfFile>) {
    && (forall i :: 0 <= i < |fs| && !LostFile(t.failed, KernelConf(fs[i].iface)) ==>
          Get(t.files, KernelConf(fs[i].iface)) == Undone(s.files, fs, fs[i].iface))
    && (forall x :: x in Named(fs) && !LostUnit(t.failed, AwgQuick(x)) ==> Serving(t, x))
  }

  lemma {:induction false} ExactIsBack(s: State, t: State, fs: seq<ConfFile>)
    requires ConfsExactlyUndone(s, t, fs)
    ensures forall i :: 0 <= i < |fs| && Once(fs, i) && !LostFile(t.failed, KernelConf(fs[i].iface)) ==> ContentsBack(s, t, fs, i)
  {
    forall i | 0 <= i < |fs| && Once(fs, i) && !LostFile(t.failed, KernelConf(fs[i].iface))
      ensures ContentsBack(s, t, fs, i)
    {
      UndoneOnce(s.files, fs, i);
    }
  }

  /** config.json and sing-box over the whole failed push. */
  lemma {:induction false} ConfigJsonBack(s: State, a: State, b: State, c: State, d: State, t: State, cfg: string, out: Outcome)
    requires SingBoxSame(s, a) && SingBoxSame(a, b) && SingBoxSame(c, d) && SingBoxSame(d, t)
    requires ConfigPushed(b, c, cfg, out) && out != Success
    ensures !LostFile(t.failed, ConfigJson) ==>
              || Get(t.files, ConfigJson) == Get(s.files, ConfigJson)
              || (ConfigJson !in s.files && Get(t.files, ConfigJson) == Some(cfg))
    ensures !LostUnit(t.failed, SingBox) ==> SingBoxBack(s, t)
  {
  }

  /** An interface the push wrote no conf for: torn down and brought back, or never touched. */
  lemma {:induction false} OutsideKernel(s: State, a: State, b: State, c: State, d: State, t: State, x: string, down: bool, stopped: bool)
    requires KernelSame(s, a, x) && KernelSame(b, c, x) && KernelSame(d, t, x)
    requires !down ==> KernelSame(a, b, x) && KernelSame(c, d, x)
    requires down && AwgQuick(x) in a.active && !LostUnit(b.failed, AwgQuick(x)) ==> stopped || AwgQuick(x) in b.active
    requires down && StopOf(AwgQuick(x)) !in b.failed ==> AwgQuick(x) !in b.active && AwgQuick(x) !in b.enabled
    requires AwgQuick(x) in b.active && AwgQuick(x) in a.enabled ==> AwgQuick(x) in b.enabled
    requires stopped ==> AwgQuick(x) in a.active
    requires AwgQuick(x) in b.active ==> AwgQuick(x) in a.active
    requires b.failed <= c.failed <= d.failed <= t.failed
    requires stopped && !LostUnit(d.failed, AwgQuick(x)) ==> Serving(d, x) && AwgQuick(x) in d.enabled
    requires !stopped ==> KernelSame(c, d, x)
    ensures down && !LostUnit(t.failed, AwgQuick(x)) ==> UnitBack(s, t, x)
    ensures !down ==> KernelSame(s, t, x)
  {
    if down && !LostUnit(t.failed, AwgQuick(x)) {
      assert !LostUnit(d.failed, AwgQuick(x)) && !LostUnit(b.failed, AwgQuick(x));
      if stopped {
        ServingKept(d, t, x);
      }
      hide Serving, LostUnit, LostFile;
    }
  }

  /** An interface the push wrote a conf for: its unit runs after the push, so a teardown stops it
      and it is brought back. */
  lemma {:induction false} NamedEnabled(s: State, a: State, b: State, c: State, d: State, t: State, x: string, down: bool, stopped: bool)
    requires AwgQuick(x) in s.enabled && s.enabled <= a.enabled && AwgQuick(x) in a.active
    requires KernelSame(b, c, x) && c.enabled <= d.enabled && t.enabled == d.enabled
    requires !down ==> KernelSame(a, b, x)
    requires down && !LostUnit(b.failed, AwgQuick(x)) ==> stopped || AwgQuick(x) in b.active
    requires AwgQuick(x) in b.active && AwgQuick(x) in a.enabled ==> AwgQuick(x) in b.enabled
    requires b.failed <= d.failed <= t.failed && !LostUnit(t.failed, AwgQuick(x))
    requires stopped && !LostUnit(d.failed, AwgQuick(x)) ==> AwgQuick(x) in d.enabled
    ensures AwgQuick(x) in t.enabled
  {
  }

  /** A conf after the final rollback, `d` being the state before it. */
  lemma {:induction false} ConfRolledBack(first: Disk, d: State, t: State, fs: seq<ConfFile>, rs: seq<PushRecord>, i: nat)
    requires RolledBack(d, t, rs) && BackupsHold(first, fs, |fs|, rs, d.backups, t.failed) && i < |fs|
    requires !LostFile(t.failed, KernelConf(fs[i].iface)) && fs[i].iface in IfacesOf(rs)
    requires Get(d.files, KernelConf(fs[i].iface)) == Get(Written(first, fs), KernelConf(fs[i].iface))
    ensures Get(t.files, KernelConf(fs[i].iface)) == Undone(first, fs, fs[i].iface)
  {
    RestoredIsUndone(first, fs, rs, d.backups, t.failed, i);
  }

  lemma {:induction false} BackupsCarried(d: Disk, fs: seq<ConfFile>, n: nat, rs: seq<PushRecord>, b: Backups, lost: set<Safeguard>,
                                          b': Backups, lost': set<Safeguard>)
    requires BackupsHold(d, fs, n, rs, b, lost) && lost <= lost'
    requires forall k: BackupKey :: k.file != ConfigJson ==> Get(b', k) == Get(b, k)
    ensures BackupsHold(d, fs, n, rs, b', lost')
  {
  }
}
