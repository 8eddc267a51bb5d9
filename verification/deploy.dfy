/** The deploy push as the remote commands run (awg_push.go, applier_push.go, awg_peersync.go):
    a node whose files, backups, units and kernel peer tables are changed step by step. Each
    method is proved against the effects defined in RemoteNode. */
module Deploy {
  import opened Text
  import opened AwgConf
  import opened PeerTable
  import opened RemoteNode

  class Node {
    var files: Disk
    var backups: Backups
    var active: set<Unit>
    var enabled: set<Unit>
    var live: map<string, Table>
    var loaded: Option<string>
    ghost var restarted: set<Unit>
    var forwarding: bool
    var clock: nat
    /** The safeguards that may fail on this node; every other command fails freely. */
    const broken: set<Safeguard>
    /** No command fails. */
    const works: bool
    ghost var failed: set<Safeguard>

    ghost function Now(): State
      reads this
    {
      State(files, backups, active, enabled, live, loaded, restarted, forwarding, works, clock, broken, failed)
    }

    // ---- Remote commands ----

    /** systemctl is-active; `read` is false when the command itself failed, which a steady one
        does not. */
    method ServiceActive(u: Unit, steady: bool) returns (running: bool, ghost read: bool)
      ensures steady || works ==> read
      ensures read ==> running == (u in active)
      ensures running ==> u in active
    {
      var ok: bool := *;
      ok := ok || steady || works;
      read := ok;
      running := ok && u in active;
    }

    /** createBackup: a copy named after the current second; no copy when there is no file. */
    method CreateBackup(f: File) returns (backup: Option<BackupKey>)
      requires Valid(Now())
      modifies this`backups, this`clock, this`failed
      ensures Valid(Now()) && clock >= old(clock)
      ensures backup.Some? ==>
                && backup.value == BackupKey(clock, f) && failed == old(failed)
                && backups == if f in files then old(backups)[backup.value := files[f]] else old(backups)
      ensures works ==> backup.Some?
      ensures backup.None? ==> backups == old(backups) && failed == old(failed) + {BackupOf(f)} && BackupOf(f) in broken
    {
      var wait: int :| wait >= 0;
      var ok: bool := *;
      ok := ok || works || BackupOf(f) !in broken;
      clock := clock + wait;
      if ok {
        backup := Some(BackupKey(clock, f));
        if f in files {
          backups := backups[backup.value := files[f]];
        }
      } else {
        backup := None;
        failed := failed + {BackupOf(f)};
      }
    }

    /** Upload a file; it appears whole or not at all. */
    method WriteFile(f: File, content: string) returns (ok: bool)
      modifies this`files
      ensures files == if ok then old(files)[f := content] else old(files)
      ensures works ==> ok
    {
      ok := *;
      ok := ok || works;
      if ok {
        files := files[f := content];
      }
    }

    /** systemctl restart: a kernel unit comes up with the peers of the conf on disk, sing-box with its
        config.json; it may crash right after the command returned. A failed restart may leave the
        unit as it was or stopped. A steady one fails only without that file and does not crash. */
    method Restart(u: Unit, steady: bool) returns (up: bool)
      modifies this`active, this`live, this`loaded, this`restarted
      ensures restarted == old(restarted) + {u}
      ensures forall v :: v != u ==> (v in active <==> v in old(active))
      ensures forall x :: u != AwgQuick(x) ==> Get(live, x) == Get(old(live), x)
      ensures u.AwgQuick? ==> loaded == old(loaded)
      ensures up ==> FileOf(u) in files
      ensures up && (steady || works) ==> u in active
      ensures up && u.AwgQuick? && u in active ==> Serving(Now(), u.iface)
      ensures up && u.SingBox? ==> loaded == Some(files[ConfigJson])
      ensures !up ==> active <= old(active) && live == old(live) && loaded == old(loaded)
      ensures (steady || works) && !up ==> FileOf(u) !in files
    {
      restarted := restarted + {u};
      up := *;
      up := up || steady || works;
      if FileOf(u) !in files {
        up := false;
      }
      if up {
        active := active + {u};
        if u.AwgQuick? {
          live := live[u.iface := LoadConf(files[KernelConf(u.iface)])];
        } else {
          loaded := Some(files[ConfigJson]);
        }
        var crashed: bool := *;
        if crashed && !steady && !works {
          active := active - {u};
        }
      } else {
        var stopped: bool := *;
        if stopped {
          active := active - {u};
        }
      }
    }

    /** probeServiceUp: three looks at the unit; a look may fail. */
    method ProbeServiceUp(u: Unit) returns (up: bool)
      ensures up ==> u in active
      ensures works && u in active ==> up
    {
      up := false;
      for attempt := 0 to 3
        invariant !up && (works && u in active ==> attempt == 0)
      {
        ghost var read;
        up, read := ServiceActive(u, false);
        if up {
          return;
        }
      }
    }

    // ---- Live peer sync ----

    /** The first loop of syncAWGPeers: assert every desired peer, in order. */
    method AssertPeers(iface: string, desired: seq<Peer>) returns (ok: bool, want: set<string>)
      requires iface in live
      modifies this`live
      ensures forall x :: x != iface ==> Get(live, x) == Get(old(live), x)
      ensures works ==> ok
      ensures ok ==> var es := Entries(desired, EVERYWHERE);
                     want == Keys(es) && Get(live, iface) == Some(Apply(old(live)[iface], es))
    {
      ghost var table := live[iface];
      want := {};
      ok := true;
      assert desired[..0] == [];
      for i := 0 to |desired|
        invariant ok && Get(live, iface) == Some(Apply(table, Entries(desired[..i], EVERYWHERE)))
        invariant want == Keys(Entries(desired[..i], EVERYWHERE))
        invariant forall x :: x != iface ==> Get(live, x) == Get(old(live), x)
      {
        var p := desired[i];
        assert desired[..i + 1][..i] == desired[..i];
        ghost var es := Entries(desired[..i], EVERYWHERE);
        if p.publicKey == "" {
          assert Entries(desired[..i + 1], EVERYWHERE) == es;
          continue;
        }
        ok := *;
        ok := ok || works;
        if !ok {
          return;
        }
        var e := Entry(p.publicKey, if p.allowedIPs == "" then EVERYWHERE else AllowedSet(p.allowedIPs));
        assert Entries(desired[..i + 1], EVERYWHERE) == es + [e];
        AssertOne(table, es, e);
        want := want + {p.publicKey};
        live := live[iface := SetPeer(live[iface], e)];
      }
      assert desired[..|desired|] == desired;
    }

    /** The second loop of syncAWGPeers: remove what is live and not wanted, in any order. */
    method RemoveStale(iface: string, listed: set<string>, want: set<string>) returns (ok: bool)
      requires iface in live
      modifies this`live
      ensures forall x :: x != iface ==> Get(live, x) == Get(old(live), x)
      ensures works ==> ok
      ensures ok ==> iface in live && live[iface] == old(live)[iface] - (listed - want)
    {
      ghost var table := live[iface];
      var left := listed - want;
      ok := true;
      while left != {}
        invariant ok && left <= listed - want
        invariant iface in live && live[iface] == table - ((listed - want) - left)
        invariant forall x :: x != iface ==> Get(live, x) == Get(old(live), x)
        decreases left
      {
        var pub :| pub in left;
        ok := *;
        ok := ok || works;
        if !ok {
          return;
        }
        live := live[iface := live[iface] - {pub}];
        left := left - {pub};
      }
    }

    /** syncAWGPeers: assert every desired peer over the live table, then remove the live peers
        that are not desired. */
    method SyncPeers(iface: string, desired: seq<Peer>) returns (ok: bool)
      modifies this`live
      ensures forall x :: x != iface ==> Get(live, x) == Get(old(live), x)
      ensures works && iface in old(live) ==> ok
      ensures ok ==> iface in old(live) && Get(live, iface) == Some(Synced(old(live)[iface], desired))
    {
      ok := *;
      ok := ok || works;
      if !ok || iface !in live {
        return false;
      }
      var listed := live[iface].Keys;
      var want;
      ok, want := AssertPeers(iface, desired);
      if !ok {
        return;
      }
      ok := RemoveStale(iface, listed, want);
      SyncedByRemoval(old(live)[iface], Entries(desired, EVERYWHERE));
    }

    /** tryPeerSync: only a running unit whose interface section is unchanged is synced live, and
        then its peer table is the one a restart from the new conf would load. */
    method TryPeerSync(f: ConfFile) returns (synced: bool)
      modifies this`live
      ensures forall x :: x != f.iface ==> Get(live, x) == Get(old(live), x)
      ensures synced ==>
                && AwgQuick(f.iface) in active && KernelConf(f.iface) in files
                && ParseConf(files[KernelConf(f.iface)]).0 == ParseConf(f.content).0
                && (NoBlank(ParseConf(f.content).1) ==> Get(live, f.iface) == Some(LoadConf(f.content)))
      ensures works ==> (synced <==> Syncable(old(Now()), f))
    {
      ghost var read;
      synced, read := ServiceActive(AwgQuick(f.iface), false);
      if !synced {
        return;
      }
      var catOk: bool := *;
      catOk := catOk || works;
      if !catOk || KernelConf(f.iface) !in files {
        return false;
      }
      var remoteIface, _ := SplitConf(files[KernelConf(f.iface)]);
      var newIface, newPeers := SplitConf(f.content);
      if remoteIface != newIface {
        return false;
      }
      synced := SyncPeers(f.iface, newPeers);
      if synced && NoBlank(newPeers) {
        SyncRefinesRestart(old(live)[f.iface], newPeers);
      }
    }

    // ---- Rollback ----

    /** performRollback: copy the backup over the file if there is one, then restart the unit.
        Only the copy is reported; whether the unit came up is not looked at. */
    method PerformRollback(f: File, backup: Option<BackupKey>, u: Unit) returns (ok: bool)
      modifies this`files, this`active, this`live, this`loaded, this`restarted, this`failed
      requires FileOf(u) == f && (backup.None? ==> BackupOf(f) in failed) && (u.SingBox? ==> f in files)
      ensures Blamed(old(Now()), Now()) && failed <= old(failed) + {RollbackOf(f), RestartOf(u)}
      ensures !ok ==> files == old(files) && LostFile(failed, f)
      ensures !ok && backup.Some? ==> RollbackOf(f) in failed
      ensures ok ==> backup.Some? && (LostFile(failed, f) ==> LostFile(old(failed), f)) &&
                     files == if backup.value in backups then old(files)[f := backups[backup.value]] else old(files)
      ensures forall v :: v != u ==> (v in active <==> v in old(active))
      ensures forall x :: u != AwgQuick(x) ==> Get(live, x) == Get(old(live), x)
      ensures u.AwgQuick? ==> loaded == old(loaded)
      ensures old(restarted) <= restarted <= old(restarted) + {u}
      ensures !LostUnit(failed, u) ==> u in active && if u.AwgQuick? then Serving(Now(), u.iface) else loaded == Get(files, ConfigJson)
    {
      hide Serving;
      if backup.None? {
        return false;
      }
      ok := *;
      ok := ok || RollbackOf(f) !in broken;
      if !ok {
        failed := failed + {RollbackOf(f)};
        return;
      }
      if backup.value in backups {
        files := files[f := backups[backup.value]];
      }
      var up := Restart(u, RestartOf(u) !in broken);
      if !up || u !in active {
        failed := failed + {RestartOf(u)};
      }
    }

    method RollbackOne(r: PushRecord)
      requires r.backup.None? ==> BackupOf(KernelConf(r.file.iface)) in failed
      modifies this`files, this`active, this`live, this`loaded, this`restarted, this`failed
      ensures RolledBackOne(old(Now()), Now(), r)
    {
      hide RolledBackOne, Blamed, LostFile, LostUnit, Serving;
      ghost var s := Now();
      var ok := PerformRollback(KernelConf(r.file.iface), r.backup, AwgQuick(r.file.iface));
      RolledBackOnce(s, Now(), r, ok);
    }

    /** rollbackAWGConfs: every record in order; a failed one is logged and passed over. */
    method RollbackConfs(rs: seq<PushRecord>)
      requires Explained(rs, failed)
      modifies this`files, this`active, this`live, this`loaded, this`restarted, this`failed
      ensures RolledBack(old(Now()), Now(), rs)
    {
      ghost var s := Now();
      assert rs[..0] == [];
      NothingRolledBack(s);
      for n := 0 to |rs|
        invariant RolledBack(s, Now(), rs[..n]) && s.failed <= failed
      {
        hide RolledBack, RolledBackOne;
        ghost var t := Now();
        RollbackOne(rs[n]);
        RolledBackStep(s, t, Now(), rs[..n], rs[n]);
        assert rs[..n + 1] == rs[..n] + [rs[n]];
      }
      assert rs[..|rs|] == rs;
    }

    // ---- Kernel confs ----

    /** One file of pushAWGConfs: sync if possible, back up, overwrite. The sync is decided on
        the conf that is still on disk. */
    method WriteConf(f: ConfFile) returns (r: PushRecord, synced: bool, ok: bool)
      requires Valid(Now())
      modifies this`files, this`backups, this`live, this`clock, this`failed
      ensures WroteOne(old(Now()), Now(), f, r, synced, ok)
      ensures works ==> ok
    {
      hide WroteOne, ParseConf, LoadConf, NoBlank;
      ghost var s := Now();
      synced := TryPeerSync(f);
      ghost var t := Now();
      var backup := CreateBackup(KernelConf(f.iface));
      ghost var u := Now();
      r := PushRecord(f, backup);
      ok := WriteFile(KernelConf(f.iface), f.content);
      WroteInSteps(s, t, u, Now(), f, r, synced, ok);
    }

    /** systemctl enable; the command line goes on when it fails. */
    method Enable(u: Unit)
      modifies this`enabled, this`failed
      ensures u in enabled || EnableOf(u) in failed
      ensures old(enabled) <= enabled <= old(enabled) + {u}
      ensures failed == old(failed) || (failed == old(failed) + {EnableOf(u)} && EnableOf(u) in broken)
    {
      var ok: bool := *;
      if ok || works || EnableOf(u) !in broken {
        enabled := enabled + {u};
      } else {
        failed := failed + {EnableOf(u)};
      }
    }

    /** enableAWGService: enable, restart, then probe. */
    method EnableService(x: string) returns (ok: bool)
      modifies this`active, this`enabled, this`live, this`loaded, this`restarted, this`failed
      ensures DiskSame(old(Now()), Now()) && OnlyKernel(old(Now()), Now(), {x}) && old(enabled) <= enabled
      ensures ok ==> Serving(Now(), x) && Enabled(Now(), x) && AwgQuick(x) in restarted
      ensures works && KernelConf(x) in files ==> ok
    {
      hide DiskSame, OnlyKernel, Serving, Enabled;
      ghost var s := Now();
      Enable(AwgQuick(x));
      ghost var t := Now();
      ok := Restart(AwgQuick(x), false);
      EnabledStep(s, t, Now(), x);
      if ok {
        ok := ProbeServiceUp(AwgQuick(x));
      }
    }

    /** awgConfDirExists and ensureIPForward. */
    method PrepareHost() returns (ok: bool)
      modifies this`forwarding
      ensures old(forwarding) ==> forwarding
      ensures ok ==> forwarding
      ensures works ==> ok
    {
      ok := *;
      ok := ok || works;
      if ok {
        forwarding := true;
      }
    }

    /** pushAWGConfs: write every conf, restart the units that were not synced; any failure
        rolls back what was written. */
    method PushConfs(fs: seq<ConfFile>) returns (records: seq<PushRecord>, ok: bool)
      requires Valid(Now()) && forall k :: k in backups ==> k.stamp < clock
      modifies this
      ensures ok ==> ConfsPushed(old(Now()), Now(), fs, records)
      ensures !ok ==> ConfsUndone(old(Now()), Now(), fs)
      ensures works ==> ok
    {
      hide ConfsUndone, ConfsPushed, RolledBack, OnlyKernel, OnceHold, BackupsHold, Explained, WroteOne, StillRunning, Serving,
           Written;
      records, ok := [], true;
      ghost var first := Now();
      NothingUndone(first, fs);
      if fs == [] {
        NothingToPush(first);
        return;
      }
      ok := PrepareHost();
      ghost var s := Now();
      NothingUndone(s, fs);
      if !ok {
        PreparedFirst(first, s, Now(), fs);
        return;
      }
      var pending: seq<PushRecord> := [];
      assert fs[..0] == [];
      NothingWritten(s, fs);
      for n := 0 to |fs|
        invariant |records| == n && WroteMany(s, Now(), fs, n, records, Members(pending))
        invariant forall r :: r in pending ==> r in records
        invariant forall r :: r in Members(pending) ==> r in records
      {
        ghost var t := Now();
        var r, synced, written := WriteConf(fs[n]);
        if !written {
          WriteFailed(s, t, Now(), fs, n, records, Members(pending), r, synced);
          ghost var w := Now();
          RollbackConfs(records);
          UndoneAfter(s, w, Now(), fs, n, records);
          PreparedFirst(first, s, Now(), fs);
          ok := false;
          return;
        }
        WroteStep(s, t, Now(), fs, n, records, Members(pending), r, synced);
        records := records + [r];
        if !synced {
          assert Members(pending + [r]) == Members(pending) + {r};
          pending := pending + [r];
        }
      }
      ok := StartPending(s, fs, records, pending);
      PreparedFirst(first, s, Now(), fs);
    }

    /** The second loop of pushAWGConfs. */
    method StartPending(ghost s: State, fs: seq<ConfFile>, records: seq<PushRecord>, pending: seq<PushRecord>) returns (ok: bool)
      requires |records| == |fs| && WroteMany(s, Now(), fs, |fs|, records, Members(pending)) && s.forwarding
      requires forall r :: r in pending ==> r in records
      modifies this
      ensures ok ==> ConfsPushed(s, Now(), fs, records)
      ensures !ok ==> ConfsUndone(s, Now(), fs)
      ensures works ==> ok
    {
      hide Started, ConfsPushed, ConfsUndone, WroteMany, OnlyKernel, RolledBack, OnceHold, Serving, DiskSame, Members;
      ghost var w := Now();
      assert pending[..0] == [];
      NothingStarted(w);
      PendingWritten(s, w, fs, records, pending);
      for n := 0 to |pending|
        invariant Started(w, Now(), pending[..n], true) && files == w.files
      {
        ghost var t := Now();
        ok := EnableService(pending[n].file.iface);
        StartedStep(w, t, Now(), pending[..n], pending[n], ok);
        assert pending[..n + 1] == pending[..n] + [pending[n]];
        if !ok {
          StartFailed(s, w, Now(), fs, records, pending, n + 1);
          ghost var v := Now();
          RollbackConfs(records);
          UndoneAfter(s, v, Now(), fs, |fs|, records);
          return;
        }
      }
      assert pending[..|pending|] == pending;
      PushThrough(s, w, Now(), fs, records, pending);
      ok := true;
    }

    // ---- Units freed for userspace endpoints ----

    /** Stop, disable and delete one interface; a failed command is passed over. */
    method TeardownOne(x: string) returns (stopped: bool)
      modifies this`active, this`enabled, this`live, this`failed
      ensures TornDown(old(Now()), Now(), {x}, if stopped then {x} else {})
    {
      hide TornDown;
      ghost var s := Now();
      var u := AwgQuick(x);
      var wasActive, read := ServiceActive(u, StatusOf(u) !in broken);
      if !read {
        failed := failed + {StatusOf(u)};
      }
      var ok: bool := *;
      ok := ok || works || StopOf(u) !in broken;
      if !ok {
        failed := failed + {StopOf(u)};
        NotTornDown(s, Now(), x, read);
        return false;
      }
      active, enabled, live := active - {u}, enabled - {u}, live - {x};
      stopped := wasActive;
      TornDownOne(s, Now(), x, stopped, read);
    }

    /** teardownAWGInterfaces: the units that ran before are returned. */
    method Teardown(ifaces: seq<string>) returns (stopped: seq<string>)
      modifies this`active, this`enabled, this`live, this`failed
      ensures TornDown(old(Now()), Now(), Elements(ifaces), Elements(stopped))
    {
      ghost var s := Now();
      stopped := [];
      NothingTornDown(s);
      assert ifaces[..0] == [];
      for n := 0 to |ifaces|
        invariant TornDown(s, Now(), Elements(ifaces[..n]), Elements(stopped))
      {
        hide TornDown, Elements;
        ghost var t := Now();
        var was := TeardownOne(ifaces[n]);
        TornDownStep(s, t, Now(), Elements(ifaces[..n]), Elements(stopped), ifaces[n], if was then {ifaces[n]} else {});
        ElementsSnoc(ifaces[..n], ifaces[n]);
        ElementsSnoc(stopped, ifaces[n]);
        assert ifaces[..n + 1] == ifaces[..n] + [ifaces[n]];
        assert Elements(stopped) + {} == Elements(stopped);
        if was {
          stopped := stopped + [ifaces[n]];
        }
      }
      assert ifaces[..|ifaces|] == ifaces;
    }

    method RestoreOne(x: string)
      modifies this`active, this`enabled, this`live, this`loaded, this`restarted, this`failed
      ensures BroughtBack(old(Now()), Now(), {x})
    {
      hide BroughtBack, Serving;
      ghost var s := Now();
      var up := Restart(AwgQuick(x), RestartOf(AwgQuick(x)) !in broken);
      ghost var t := Now();
      if up {
        enabled := enabled + {AwgQuick(x)};
      }
      if !up || AwgQuick(x) !in active {
        failed := failed + {RestartOf(AwgQuick(x))};
      }
      BroughtBackOne(s, t, Now(), x, up);
    }

    /** restoreAWGInterfaces: enable and start again. */
    method Restore(ifaces: seq<string>)
      modifies this`active, this`enabled, this`live, this`loaded, this`restarted, this`failed
      ensures BroughtBack(old(Now()), Now(), Elements(ifaces))
    {
      ghost var s := Now();
      assert ifaces[..0] == [];
      NothingTornDown(s);
      for n := 0 to |ifaces|
        invariant BroughtBack(s, Now(), Elements(ifaces[..n]))
      {
        hide BroughtBack, Elements;
        ghost var t := Now();
        RestoreOne(ifaces[n]);
        BroughtBackStep(s, t, Now(), Elements(ifaces[..n]), ifaces[n]);
        ElementsSnoc(ifaces[..n], ifaces[n]);
        assert ifaces[..n + 1] == ifaces[..n] + [ifaces[n]];
      }
      assert ifaces[..|ifaces|] == ifaces;
    }

    // ---- config.json ----

    /** Steps 4 to 6 of pushConfigLocked: check, restart, probe. */
    method CheckAndRestart() returns (up: bool)
      modifies this`active, this`live, this`loaded, this`restarted
      ensures restarted <= old(restarted) + {SingBox} && old(restarted) <= restarted
      ensures works && ConfigJson in files ==> up
      ensures forall v :: v != SingBox ==> (v in active <==> v in old(active))
      ensures forall x :: Get(live, x) == Get(old(live), x)
      ensures up ==> SingBox in active && loaded == Get(files, ConfigJson)
    {
      up := *;
      up := up || works;
      if up {
        up := Restart(SingBox, false);
      }
      if up {
        up := ProbeServiceUp(SingBox);
      }
    }

    /** Steps 1 to 3 of pushConfigLocked: back up, push the rule-set assets, write. */
    method WriteConfig(cfg: string) returns (backup: Option<BackupKey>, ok: bool)
      requires Valid(Now())
      modifies this`files, this`backups, this`clock, this`failed
      ensures ConfigWritten(old(Now()), Now(), cfg, backup, ok)
      ensures works ==> ok
    {
      backup := CreateBackup(ConfigJson);
      ok := *;
      ok := ok || works;
      if ok {
        ok := WriteFile(ConfigJson, cfg);
      }
    }

    /** What pushConfigLocked does after a failed check, restart or probe. */
    method RollbackConfig(backup: Option<BackupKey>) returns (out: Outcome)
      requires ConfigJson in files && (backup.None? ==> BackupOf(ConfigJson) in failed)
      modifies this`files, this`active, this`live, this`loaded, this`restarted, this`failed
      ensures ConfigRolledBack(old(Now()), Now(), backup, out)
    {
      if backup.None? {
        return DeployFailed;
      }
      var back := PerformRollback(ConfigJson, backup, SingBox);
      out := if back then DeployFailed else RollbackFailed;
    }

    /** pushConfigLocked: back up, write, check, restart, probe; roll back from the check on. */
    method PushConfig(cfg: string, validJson: bool) returns (out: Outcome)
      requires Valid(Now()) && forall k :: k in backups && k.file == ConfigJson ==> k.stamp < clock
      modifies this
      ensures ConfigPushed(old(Now()), Now(), cfg, out)
      ensures works && validJson ==> out == Success
    {
      hide ConfigPushed, ConfigWritten, ConfigRolledBack, Valid, KernelSame, Get;
      ghost var s := Now();
      if !validJson {
        ConfigRefused(s, s, cfg, None);
        return PushRefused;
      }
      var backup, written := WriteConfig(cfg);
      ghost var t := Now();
      if !written {
        ConfigRefused(s, t, cfg, backup);
        return PushRefused;
      }
      var up := CheckAndRestart();
      ghost var u := Now();
      if up {
        ConfigUp(s, t, u, cfg, backup);
        return Success;
      }
      out := RollbackConfig(backup);
      ConfigDown(s, t, u, Now(), cfg, backup, out);
    }

    /** pushConfigWithAWGTeardown: kernel confs, unit teardown, config.json; a failure of the last
        undoes the first two. */
    method PushConfigWithAWG(cfg: string, validJson: bool, fs: seq<ConfFile>, down: seq<string>) returns (out: Outcome)
      requires Valid(Now())
      modifies this
      ensures out == Success ==> PushDone(Begun(old(Now())), Now(), cfg, fs, Elements(down))
      ensures out != Success ==> PushUndone(Begun(old(Now())), Now(), cfg, fs, Elements(down))
      ensures out != Success && out != AwgFailed ==> ConfsExactlyUndone(Begun(old(Now())), Now(), fs)
      ensures works && validJson ==> out == Success
      ensures out != Success && out != AwgFailed ==> DownUnitsBack(Begun(old(Now())), Now(), fs, Elements(down))
    {
      hide PushDone, PushUndone, ConfsExactlyUndone, DownUnitsBack, ConfsPushed, ConfsUndone, TornDown, ConfigPushed,
           BroughtBack, RolledBack, Elements, Valid, IfacesOf, Named;
      BegunReady(Now());
      failed := {};
      restarted := {};
      clock := clock + 1;
      ghost var s := Now();
      var records, ok := PushConfs(fs);
      if !ok {
        AwgFailureUndone(s, Now(), cfg, fs, Elements(down));
        return AwgFailed;
      }
      ghost var a := Now();
      var stopped := Teardown(down);
      ghost var b := Now();
      ConfigStampsOld(s, a, b, fs, records, Elements(down), Elements(stopped));
      out := PushConfig(cfg, validJson);
      if out == Success {
        SuccessDone(s, a, b, Now(), cfg, fs, records, Elements(down), Elements(stopped));
        return;
      }
      ghost var c := Now();
      Restore(stopped);
      ghost var d := Now();
      StillExplained(s, a, b, c, d, fs, records, cfg, out, Elements(down), Elements(stopped));
      RollbackConfs(records);
      AllNamed(s, a, fs, records);
      ConfigFailureUndone(s, a, b, c, d, Now(), cfg, fs, records, Elements(down), Elements(stopped), out);
    }
  }

  /** The three commands for one file: sync, backup, write. */
  lemma {:induction false} WroteInSteps(s: State, t: State, u: State, v: State, f: ConfFile, r: PushRecord, synced: bool, ok: bool)
    requires t == s.(live := t.live) && forall x :: x != f.iface ==> Get(t.live, x) == Get(s.live, x)
    requires s.works ==> (synced <==> Syncable(s, f))
    requires synced ==> AwgQuick(f.iface) in s.active && (NoBlank(ParseConf(f.content).1) ==> Get(t.live, f.iface) == Some(LoadConf(f.content)))
    requires Valid(u) && u.clock >= t.clock && r.file == f
    requires u == t.(backups := u.backups, clock := u.clock, failed := u.failed)
    requires r.backup.Some? ==>
               && r.backup.value == BackupKey(u.clock, KernelConf(f.iface)) && u.failed == t.failed
               && u.backups == if KernelConf(f.iface) in t.files then t.backups[r.backup.value := t.files[KernelConf(f.iface)]] else t.backups
    requires r.backup.None? ==> u.backups == t.backups && u.failed == t.failed + {BackupOf(KernelConf(f.iface))} && BackupOf(KernelConf(f.iface)) in s.broken
    requires v == u.(files := if ok then u.files[KernelConf(f.iface) := f.content] else u.files)
    ensures WroteOne(s, v, f, r, synced, ok)
  {
    hide ParseConf, LoadConf, NoBlank, Syncable;
    forall x | x != f.iface
      ensures KernelSame(s, v, x)
    {
    }
  }

  /** Enabling and restarting one unit. */
  lemma {:induction false} EnabledStep(s: State, t: State, u: State, x: string)
    requires t == s.(enabled := t.enabled, failed := t.failed) && s.enabled <= t.enabled <= s.enabled + {AwgQuick(x)}
    requires AwgQuick(x) in t.enabled || EnableOf(AwgQuick(x)) in t.failed
    requires t.failed == s.failed || (t.failed == s.failed + {EnableOf(AwgQuick(x))} && EnableOf(AwgQuick(x)) in s.broken)
    requires u == t.(active := u.active, live := u.live, restarted := t.restarted + {AwgQuick(x)})
    requires forall v :: v != AwgQuick(x) ==> (v in u.active <==> v in t.active)
    requires forall y :: y != x ==> Get(u.live, y) == Get(t.live, y)
    ensures DiskSame(s, u) && OnlyKernel(s, u, {x}) && s.enabled <= u.enabled && Enabled(u, x)
  {
    forall y | y != x
      ensures KernelSame(s, u, y)
    {
    }
    hide KernelSame;
  }

  /** One rollback of a kernel conf. */
  lemma {:induction false} RolledBackOnce(s: State, t: State, r: PushRecord, ok: bool)
    requires t == s.(files := t.files, active := t.active, live := t.live, restarted := t.restarted, failed := t.failed)
    requires Blamed(s, t) && t.failed <= s.failed + {RollbackOf(KernelConf(r.file.iface)), RestartOf(AwgQuick(r.file.iface))}
    requires !ok ==> t.files == s.files && LostFile(t.failed, KernelConf(r.file.iface))
    requires ok ==>
               && r.backup.Some?
               && t.files == if r.backup.value in s.backups then s.files[KernelConf(r.file.iface) := s.backups[r.backup.value]] else s.files
    requires forall v :: v != AwgQuick(r.file.iface) ==> (v in t.active <==> v in s.active)
    requires forall x :: x != r.file.iface ==> Get(t.live, x) == Get(s.live, x)
    requires s.restarted <= t.restarted <= s.restarted + {AwgQuick(r.file.iface)}
    requires !LostUnit(t.failed, AwgQuick(r.file.iface)) ==> Serving(t, r.file.iface)
    ensures RolledBackOne(s, t, r)
  {
    assert s.failed <= t.failed;
    hide Serving, Blamed;
    forall x | x != r.file.iface
      ensures KernelSame(s, t, x)
    {
    }
    hide KernelSame;
  }

  /** One unit of a restore. */
  lemma {:induction false} BroughtBackOne(s: State, t: State, u: State, x: string, up: bool)
    requires t == s.(active := t.active, live := t.live, restarted := s.restarted + {AwgQuick(x)})
    requires forall v :: v != AwgQuick(x) ==> (v in t.active <==> v in s.active)
    requires forall y :: y != x ==> Get(t.live, y) == Get(s.live, y)
    requires u == t.(enabled := if up then t.enabled + {AwgQuick(x)} else t.enabled,
                     failed := if up && AwgQuick(x) in t.active then t.failed else t.failed + {RestartOf(AwgQuick(x))})
    requires if up && AwgQuick(x) in t.active then Serving(t, x) else RestartOf(AwgQuick(x)) in s.broken || KernelConf(x) !in s.files
    ensures BroughtBack(s, u, {x})
  {
    assert up && AwgQuick(x) in t.active ==> Serving(u, x);
    hide Serving, ParseConf, LoadConf, NoBlank;
    forall y | y != x
      ensures KernelSame(s, u, y)
    {
    }
    hide KernelSame;
  }

  /** A stop command that fails leaves the unit alone. */
  lemma {:induction false} NotTornDown(s: State, t: State, x: string, read: bool)
    requires t == s.(failed := (if read then s.failed else s.failed + {StatusOf(AwgQuick(x))}) + {StopOf(AwgQuick(x))})
    requires StopOf(AwgQuick(x)) in s.broken && (!read ==> StatusOf(AwgQuick(x)) in s.broken)
    ensures TornDown(s, t, {x}, {})
  {
    OthersUntouched(s, t, x, read, {StopOf(AwgQuick(x))});
    hide KernelSame;
  }

  lemma {:induction false} TornDownOne(s: State, t: State, x: string, stopped: bool, read: bool)
    requires t == s.(active := s.active - {AwgQuick(x)}, enabled := s.enabled - {AwgQuick(x)}, live := s.live - {x},
                     failed := if read then s.failed else s.failed + {StatusOf(AwgQuick(x))})
    requires stopped ==> AwgQuick(x) in s.active
    requires if read then stopped == (AwgQuick(x) in s.active) else StatusOf(AwgQuick(x)) in s.broken
    ensures TornDown(s, t, {x}, if stopped then {x} else {})
  {
    OthersUntouched(s, t, x, read, {});
    hide KernelSame;
  }

  lemma {:induction false} OthersUntouched(s: State, t: State, x: string, read: bool, more: set<Safeguard>)
    requires t == s.(active := t.active, enabled := t.enabled, live := t.live, failed := t.failed)
    requires (t.active == s.active && t.enabled == s.enabled && t.live == s.live)
             || (t.active == s.active - {AwgQuick(x)} && t.enabled == s.enabled - {AwgQuick(x)} && t.live == s.live - {x})
    requires more <= {StopOf(AwgQuick(x))} && more <= s.broken && (!read ==> StatusOf(AwgQuick(x)) in s.broken)
    requires t.failed == (if read then s.failed else s.failed + {StatusOf(AwgQuick(x))}) + more
    ensures OnlyKernel(s, t, {x}) && DiskSame(s, t)
  {
    forall y | y != x
      ensures KernelSame(s, t, y)
    {
    }
  }

  lemma {:induction false} NothingUndone(s: State, fs: seq<ConfFile>)
    ensures ConfsUndone(s, s, fs)
  {
  }

  lemma {:induction false} NothingWritten(s: State, fs: seq<ConfFile>)
    requires Valid(s) && forall k :: k in s.backups ==> k.stamp < s.clock
    ensures WroteMany(s, s, fs, 0, [], Members([]))
  {
    assert fs[..0] == [];
  }

  lemma {:induction false} BegunReady(s: State)
    requires Valid(s)
    ensures Valid(Begun(s)) && forall k :: k in s.backups ==> k.stamp < Begun(s).clock
  {
  }

  lemma {:induction false} PendingWritten(s: State, w: State, fs: seq<ConfFile>, rs: seq<PushRecord>, pending: seq<PushRecord>)
    requires |rs| == |fs| && WroteMany(s, w, fs, |fs|, rs, Members(pending)) && forall r :: r in pending ==> r in rs
    ensures forall i :: 0 <= i < |pending| ==> KernelConf(pending[i].file.iface) in w.files
  {
    assert fs[..|fs|] == fs;
    assert w.files == Written(s.files, fs) && forall j :: 0 <= j < |rs| ==> rs[j].file == fs[j];
    hide WroteMany;
    forall i | 0 <= i < |pending|
      ensures KernelConf(pending[i].file.iface) in w.files
    {
      assert pending[i] in rs;
      var j :| 0 <= j < |rs| && rs[j] == pending[i];
      var l := LastMention(fs, j);
      WrittenLast(s.files, fs, l);
    }
  }

  lemma {:induction false} NothingStarted(s: State)
    ensures Started(s, s, [], true)
  {
  }

  lemma {:induction false} NothingRolledBack(s: State)
    ensures RolledBack(s, s, [])
  {
  }

  lemma {:induction false} NothingTornDown(s: State)
    ensures TornDown(s, s, Elements([]), Elements([])) && BroughtBack(s, s, Elements([]))
  {
  }

  // ---- The stages of pushConfigLocked ----

  ghost predicate ConfigWritten(s: State, t: State, cfg: string, backup: Option<BackupKey>, ok: bool) {
    && Valid(t) && t.clock >= s.clock
    && t.files == (if ok then s.files[ConfigJson := cfg] else s.files)
    && (backup.Some? ==>
          && backup.value == BackupKey(t.clock, ConfigJson) && t.failed == s.failed
          && t.backups == if ConfigJson in s.files then s.backups[backup.value := s.files[ConfigJson]] else s.backups)
    && (backup.None? ==> t.backups == s.backups && t.failed == s.failed + {BackupOf(ConfigJson)} && BackupOf(ConfigJson) in s.broken)
    && t.active == s.active && t.enabled == s.enabled && t.live == s.live && t.loaded == s.loaded && t.broken == s.broken
    && t.restarted == s.restarted && t.works == s.works && t.forwarding == s.forwarding
  }

  ghost predicate ConfigRolledBack(s: State, t: State, backup: Option<BackupKey>, out: Outcome) {
    && (out == DeployFailed || out == RollbackFailed)
    && t.backups == s.backups && t.clock == s.clock && t.enabled == s.enabled
    && Blamed(s, t) && t.failed <= s.failed + {RollbackOf(ConfigJson), RestartOf(SingBox)}
    && (forall v :: v != SingBox ==> (v in t.active <==> v in s.active))
    && (forall x :: Get(t.live, x) == Get(s.live, x))
    && s.restarted <= t.restarted <= s.restarted + {SingBox}
    && (forall f :: f != ConfigJson ==> Get(t.files, f) == Get(s.files, f))
    && (backup.Some? && !LostFile(t.failed, ConfigJson) ==>
          Get(t.files, ConfigJson)
          == if backup.value in s.backups then Some(s.backups[backup.value]) else Get(s.files, ConfigJson))
    && (!LostUnit(t.failed, SingBox) ==> SingBox in t.active && t.loaded == Get(t.files, ConfigJson))
    && (out == RollbackFailed ==> RollbackOf(ConfigJson) in t.failed)
  }

  lemma {:induction false} ConfigRefused(s: State, t: State, cfg: string, backup: Option<BackupKey>)
    requires Valid(s) && (t == s || ConfigWritten(s, t, cfg, backup, false))
    ensures ConfigPushed(s, t, cfg, PushRefused)
  {
    forall x
      ensures KernelSame(s, t, x)
    {
    }
  }

  lemma {:induction false} WrittenBlamed(s: State, t: State, cfg: string, backup: Option<BackupKey>, ok: bool)
    requires ConfigWritten(s, t, cfg, backup, ok)
    ensures Blamed(s, t)
  {
  }

  lemma {:induction false} ConfigUp(s: State, t: State, u: State, cfg: string, backup: Option<BackupKey>)
    requires ConfigWritten(s, t, cfg, backup, true)
    requires u == t.(active := u.active, live := u.live, loaded := u.loaded, restarted := u.restarted) && t.restarted <= u.restarted <= t.restarted + {SingBox} && SingBox in u.active && u.loaded == Get(u.files, ConfigJson)
    requires forall v :: v != SingBox ==> (v in u.active <==> v in t.active)
    requires forall x :: Get(u.live, x) == Get(t.live, x)
    ensures ConfigPushed(s, u, cfg, Success)
  {
    forall x
      ensures KernelSame(s, u, x)
    {
    }
  }

  lemma {:induction false} ConfigDown(s: State, t: State, u: State, v: State, cfg: string, backup: Option<BackupKey>, out: Outcome)
    requires forall k :: k in s.backups && k.file == ConfigJson ==> k.stamp < s.clock
    requires ConfigWritten(s, t, cfg, backup, true)
    requires u == t.(active := u.active, live := u.live, loaded := u.loaded, restarted := u.restarted) && t.restarted <= u.restarted <= t.restarted + {SingBox}
    requires forall w :: w != SingBox ==> (w in u.active <==> w in t.active)
    requires forall x :: Get(u.live, x) == Get(t.live, x)
    requires ConfigRolledBack(u, v, backup, out)
    ensures ConfigPushed(s, v, cfg, out)
  {
    WrittenBlamed(s, t, cfg, backup, true);
    assert Blamed(t, u);
    BlamedChain(s, t, u);
    BlamedChain(s, u, v);
    KernelAside(s, t, u, v, cfg, backup, out);
    hide Blamed, KernelSame;
  }

  /** Writing and rolling back config.json leaves every kernel interface alone. */
  lemma {:induction false} KernelAside(s: State, t: State, u: State, v: State, cfg: string, backup: Option<BackupKey>, out: Outcome)
    requires ConfigWritten(s, t, cfg, backup, true) && Blamed(s, u)
    requires u == t.(active := u.active, live := u.live, loaded := u.loaded, restarted := u.restarted) && t.restarted <= u.restarted <= t.restarted + {SingBox}
    requires forall w :: w != SingBox ==> (w in u.active <==> w in t.active)
    requires forall x :: Get(u.live, x) == Get(t.live, x)
    requires ConfigRolledBack(u, v, backup, out)
    ensures forall x :: KernelSame(s, v, x)
  {
    FailedGrow(s, u, v);
    hide Blamed;
    forall x
      ensures KernelSame(s, v, x)
    {
      assert Get(v.files, KernelConf(x)) == Get(u.files, KernelConf(x));
    }
  }

  lemma {:induction false} FailedGrow(s: State, u: State, v: State)
    requires Blamed(s, u) && Blamed(u, v)
    ensures s.failed <= u.failed <= v.failed
  {
  }

  lemma {:induction false} ConfigStampsOld(s: State, a: State, b: State, fs: seq<ConfFile>, rs: seq<PushRecord>,
                                           down: set<string>, stopped: set<string>)
    requires ConfsPushed(s, a, fs, rs) && TornDown(a, b, down, stopped)
    ensures Valid(b) && forall k :: k in b.backups && k.file == ConfigJson ==> k.stamp < b.clock
  {
  }

  lemma {:induction false} StillExplained(s: State, a: State, b: State, c: State, d: State, fs: seq<ConfFile>, rs: seq<PushRecord>,
                                          cfg: string, out: Outcome, down: set<string>, stopped: set<string>)
    requires ConfsPushed(s, a, fs, rs) && TornDown(a, b, down, stopped) && ConfigPushed(b, c, cfg, out) && BroughtBack(c, d, stopped)
    ensures Explained(rs, d.failed)
  {
    assert a.failed <= b.failed <= c.failed <= d.failed;
    hide Blamed, KernelSame, Get, Written, LostFile, LostUnit;
  }

  lemma {:induction false} AllNamed(s: State, a: State, fs: seq<ConfFile>, rs: seq<PushRecord>)
    requires ConfsPushed(s, a, fs, rs)
    ensures IfacesOf(rs) == Named(fs)
  {
    RecordsNamed(fs, rs);
  }

  lemma {:induction false} ElementsSnoc(xs: seq<string>, x: string)
    ensures Elements(xs + [x]) == Elements(xs) + {x}
  {
    forall y | y in Elements(xs) + {x}
      ensures y in Elements(xs + [x])
    {
      if y == x {
        assert (xs + [x])[|xs|] == y;
      } else {
        var i :| 0 <= i < |xs| && xs[i] == y;
        assert (xs + [x])[i] == y;
      }
    }
  }

  lemma {:induction false} NothingToPush(s: State)
    requires Valid(s) && forall k :: k in s.backups ==> k.stamp < s.clock
    ensures ConfsPushed(s, s, [], [])
  {
  }

  /** A failed write leaves the earlier records usable for the confs pushed once. */
  lemma {:induction false} WriteFailed(s: State, t: State, u: State, fs: seq<ConfFile>, n: nat, rs: seq<PushRecord>,
                                       pending: set<PushRecord>, r: PushRecord, synced: bool)
    requires n < |fs| && |rs| == n && WroteMany(s, t, fs, n, rs, pending) && WroteOne(t, u, fs[n], r, synced, false)
    ensures OnlyKernel(s, u, Named(fs)) && u.files == Written(s.files, fs[..n]) && StillRunning(s, u, IfacesOf(rs)) && s.enabled <= u.enabled
    ensures OnceHold(s.files, fs, rs, u.backups, u.failed) && Explained(rs, u.failed)
  {
    BackupsStep(s, t, u, fs, n, rs, pending, r, synced, false);
    HoldsOnce(s.files, fs, n + 1, rs + [r], u.backups, u.failed);
    OnceHoldPrefix(s.files, fs, rs, r, u.backups, u.failed);
    RecordsNamed(fs, rs);
    OnlyKernelChain(s, t, u, IfacesOf(rs), {fs[n].iface});
    OnlyKernelWider(s, u, IfacesOf(rs) + {fs[n].iface}, Named(fs));
    forall x | x !in IfacesOf(rs) && AwgQuick(x) in s.active
      ensures AwgQuick(x) in u.active
    {
      assert KernelSame(s, t, x);
      if x != fs[n].iface {
        assert KernelSame(t, u, x);
      }
    }
  }

  lemma {:induction false} OnceHoldPrefix(d: Disk, fs: seq<ConfFile>, rs: seq<PushRecord>, r: PushRecord, b: Backups, lost: set<Safeguard>)
    requires OnceHold(d, fs, rs + [r], b, lost)
    ensures OnceHold(d, fs, rs, b, lost)
  {
    var rs' := rs + [r];
    assert forall i :: 0 <= i < |rs| ==> rs'[i] == rs[i];
  }

  lemma {:induction false} StartFailed(s: State, w: State, v: State, fs: seq<ConfFile>, rs: seq<PushRecord>, pending: seq<PushRecord>, n: nat)
    requires |rs| == |fs| && WroteMany(s, w, fs, |fs|, rs, Members(pending))
    requires n <= |pending| && Started(w, v, pending[..n], false) && forall r :: r in pending ==> r in rs
    ensures OnlyKernel(s, v, Named(fs)) && v.files == Written(s.files, fs[..|fs|]) && StillRunning(s, v, IfacesOf(rs)) && s.enabled <= v.enabled
    ensures OnceHold(s.files, fs, rs, v.backups, v.failed) && Explained(rs, v.failed)
  {
    StartFailedBooks(s, w, v, fs, rs, pending, n);
    RecordsNamed(fs, rs);
    assert forall r :: r in pending[..n] ==> r in rs by {
      assert pending == pending[..n] + pending[n..];
    }
    PendingNamed(rs, pending[..n]);
    hide BackupsHold, OnceHold, Explained, Written, Serving, KernelSame, IfacesOf, Named, Blamed, LostFile;
    OnlyKernelChain(s, w, v, IfacesOf(rs), IfacesOf(pending[..n]));
    OnlyKernelWider(s, v, IfacesOf(rs) + IfacesOf(pending[..n]), Named(fs));
    assert IfacesOf(rs) + IfacesOf(pending[..n]) == IfacesOf(rs);
    OthersRun(s, v, IfacesOf(rs));
  }

  lemma {:induction false} OthersRun(s: State, v: State, ifaces: set<string>)
    requires OnlyKernel(s, v, ifaces)
    ensures StillRunning(s, v, ifaces)
  {
    assert forall x :: x !in ifaces ==> KernelSame(s, v, x);
    hide Blamed, SingBoxSame;
  }

  /** A failed restart leaves the backups and the records as they were. */
  lemma {:induction false} StartFailedBooks(s: State, w: State, v: State, fs: seq<ConfFile>, rs: seq<PushRecord>, pending: seq<PushRecord>, n: nat)
    requires |rs| == |fs| && WroteMany(s, w, fs, |fs|, rs, Members(pending))
    requires n <= |pending| && Started(w, v, pending[..n], false)
    ensures v.files == Written(s.files, fs[..|fs|]) && OnceHold(s.files, fs, rs, v.backups, v.failed) && Explained(rs, v.failed)
  {
    HoldsOnce(s.files, fs, |fs|, rs, w.backups, w.failed);
    assert w.failed <= v.failed;
    hide Serving, KernelSame, IfacesOf, Blamed, Written, IsLast, BackupsHold, Members;
  }
}
