/**
 Applying a change: the database, five rendered files and two running Xray processes move together or are
 put back. Every external step may fail: `fails` decides by its number, and `loads` whether a failed restart
 took effect all the same.
 */
module XrayApply {
  import opened Wrappers
  import opened TrafficTables
  import opened PanelTables
  import opened PortRules
  import opened PanelOperations
  import OrderInvariants
  import PanelRuns

  /** A rendered configuration: the ports it serves and everything else it was rendered from. */
  datatype Rendered = Rendered(ports: seq<nat>, settings: nat)

  /** panel-ports.json, config.json, the client file, client-share.txt and config-backup.json. */
  datatype Files = Files(panelPorts: Option<seq<nat>>, config: Option<Rendered>, client: Option<Rendered>,
                         share: Option<Rendered>, backup: Option<Rendered>)

  /** What one successful rendering leaves. */
  function AllRendered(ports: seq<nat>, settings: nat, withBackup: bool, oldBackup: Option<Rendered>): Files {
    var r := Some(Rendered(ports, settings));
    Files(Some(ports), r, r, r, if withBackup then r else oldBackup)
  }

  function Listing(ports: map<nat, Port>): seq<nat> {
    Ascending(ListenOf(ports, EnabledIds(ports)))
  }

  predicate ExpiresWithin(p: Port, now: nat, later: nat) {
    p.expiresAt.Some? && now < p.expiresAt.value <= later
  }

  /**
   A listing that is rendered at a later clock reading than the automatic disabling holds exactly the enabled
   ports if and only if none of them expires between the two readings.
   */
  lemma ListedLaterExactly(db: Database, now: nat, later: nat)
    requires UniqueListen(db.ports) && ActiveIds(db.ports, db.traffic, now) == EnabledIds(db.ports)
    ensures Payload(db, later) == Listing(db.ports)
      <==> forall id :: id in EnabledIds(db.ports) ==> !ExpiresWithin(db.ports[id], now, later)
  {
    var listed, enabled := ListedIds(db, later), EnabledIds(db.ports);
    forall id | id in enabled ensures id in listed <==> !ExpiresWithin(db.ports[id], now, later) {
      assert id in ActiveIds(db.ports, db.traffic, now);
    }
    if forall id :: id in enabled ==> !ExpiresWithin(db.ports[id], now, later) { assert listed == enabled; }
    if Payload(db, later) == Listing(db.ports) {
      AscendingIsSorted(ListenOf(db.ports, listed));
      AscendingIsSorted(ListenOf(db.ports, enabled));
      forall id | id in enabled ensures id in listed {
        assert db.ports[id].listen in ListenOf(db.ports, enabled);
        assert db.ports[id].listen in ListenOf(db.ports, listed);
      }
    }
  }

  /** The two readings matter: a port that expires between them stays enabled and is not listed. */
  lemma ExpiryBetweenReadings()
    ensures var db := PanelRuns.EMPTY.(ports := map[1 := Port(443, Some(10), None, true, None, None, None)]);
      AutoStopped(db, 5) == db && Payload(AutoStopped(db, 5), 10) != Listing(AutoStopped(db, 5).ports)
  {
    var db := PanelRuns.EMPTY.(ports := map[1 := Port(443, Some(10), None, true, None, None, None)]);
    NothingCleaned(db, 5);
    assert Doomed(db.ports, 5) == {};
    assert AutoStopped(db, 5).ports == db.ports;
    assert ActiveIds(db.ports, db.traffic, 5) == EnabledIds(db.ports) == {1};
    ListedLaterExactly(db, 5, 10);
    assert ExpiresWithin(db.ports[1], 5, 10);
  }

  /** The readings of the clock in one mutation: for the traffic sync, the operation, the disabling, the listing. */
  datatype Readings = Readings(synced: nat, performed: nat, stopped: nat, listed: nat)

  class XrayApplyService {
    const remote: bool             // the node is synchronised over SSH
    const externalReloader: bool   // a watcher restarts the data plane
    const backupEnabled: bool

    var committed: Database
    var files: Files
    var nodeConfig: Option<Rendered>      // what a remote node has on disk
    var running: Option<Rendered>         // what the data plane runs
    var backupRunning: Option<Rendered>
    var pendingApply: bool

    const fails: nat -> bool
    const loads: nat -> bool
    var step: nat

    /** None of the external steps numbered `from` to `to` fails. */
    ghost predicate Fine(from: nat, to: nat) {
      forall k :: from <= k < to ==> !fails(k)
    }

    ghost predicate Reliable(from: nat) {
      forall k :: from <= k ==> !fails(k)
    }

    /** At most one external step fails from `from` on. */
    ghost predicate SingleFault(from: nat) {
      forall j, k :: from <= j < k && fails(j) ==> !fails(k)
    }

    function RenderSteps(): nat { if backupEnabled then 4 else 3 }

    function TestSteps(): nat { if remote then 2 else 1 }

    function SyncSteps(): nat { if remote then TestSteps() else 0 }

    /** Where in an apply the restart of the backup process comes, and where that of the data plane. */
    function BackupStep(): nat { RenderSteps() + TestSteps() }

    function DataPlaneStep(): nat { BackupStep() + if backupEnabled then 1 else 0 }

    /** Whether the panel itself restarts the data plane. */
    predicate Direct(reload: bool) {
      reload && !externalReloader
    }

    /** All external steps of an apply; the commit is the last one. */
    function ApplySteps(reload: bool): nat {
      DataPlaneStep() + (if Direct(reload) then 1 else 0) + 1
    }

    /** The restarts and the sync of a rollback after step number `at` of an apply failed. */
    function RollbackSteps(at: nat, reload: bool): nat {
      (if backupEnabled && at >= BackupStep() then 1 else 0) + SyncSteps()
      + if Direct(reload) && at >= DataPlaneStep() then 1 else 0
    }

    /** Whether the marker for the watcher is there when step number `at` of an apply was the last one made. */
    predicate Pending(before: bool, at: nat, reload: bool) {
      if externalReloader then before || (reload && at >= BackupStep())
      else before && at < ApplySteps(reload) - 1
    }

    /** What holds of every reachable database. */
    ghost predicate Valid()
      reads this
    {
      OrderInvariants.Inv(committed) && PanelRuns.Sound(committed)
    }

    /** panel-ports.json lists exactly the enabled ports, in order. */
    ghost predicate FilesTrackDatabase()
      reads this
    {
      files.panelPorts == Some(Listing(committed.ports))
    }

    /** Both processes run what the files say. */
    ghost predicate InSync()
      reads this
    {
      running == files.config && (remote ==> nodeConfig == files.config)
      && (backupEnabled ==> backupRunning == files.backup)
    }

    /** What a successful apply leaves behind: every file and every process it touches shows these ports. */
    ghost predicate Applied(ports: seq<nat>, settings: nat)
      reads this
    {
      && files.panelPorts == Some(ports)
      && files.config == Some(Rendered(ports, settings)) && files.client == Some(Rendered(ports, settings))
      && files.share == Some(Rendered(ports, settings))
      && (backupEnabled ==> files.backup == Some(Rendered(ports, settings)) && backupRunning == files.backup)
      && (remote ==> nodeConfig == Some(Rendered(ports, settings)))
    }

    /** The processes that were not touched run what `previous` says. */
    ghost predicate InSyncWith(previous: Files, backupTouched: bool, dataPlaneTouched: bool)
      reads this
    {
      (dataPlaneTouched || running == previous.config)
      && (backupEnabled && !backupTouched ==> backupRunning == previous.backup)
    }

    constructor (remote: bool, externalReloader: bool, backupEnabled: bool, db: Database, fails: nat -> bool,
                 loads: nat -> bool)
      ensures committed == db && this.fails == fails && step == 0 && running == None && nodeConfig == None
      ensures this.remote == remote && this.externalReloader == externalReloader && this.backupEnabled == backupEnabled
    {
      this.fails, this.loads, this.step := fails, loads, 0;
      this.remote, this.externalReloader, this.backupEnabled := remote, externalReloader, backupEnabled;
      committed := db;
      files := Files(None, None, None, None, None);
      nodeConfig, running, backupRunning, pendingApply := None, None, None, false;
    }

    // ---- External steps ----

    method Next() returns (ok: bool)
      modifies `step
      ensures ok == !fails(old(step)) && step == old(step) + 1
    {
      ok := !fails(step);
      step := step + 1;
    }

    /** Where the steps from `from` on stopped: at the first that failed, or after `count` of them. */
    ghost predicate Stopped(from: nat, count: nat, ok: bool)
      reads this
    {
      if ok then step == from + count && Fine(from, step)
      else from < step <= from + count && fails(step - 1) && Fine(from, step - 1)
    }

    /** The renderer writes its outputs one after the other and may stop anywhere. */
    method RenderXrayConfig(settings: nat) returns (ok: bool)
      requires files.panelPorts.Some?
      modifies `files, `step
      ensures files.panelPorts == old(files).panelPorts
      ensures ok ==> files == AllRendered(files.panelPorts.value, settings, backupEnabled, old(files).backup)
      ensures Stopped(old(step), RenderSteps(), ok)
    {
      var r := Rendered(files.panelPorts.value, settings);
      ok := Next();
      if !ok { return; }
      files := files.(config := Some(r));
      ok := Next();
      if !ok { return; }
      files := files.(client := Some(r));
      ok := Next();
      if !ok { return; }
      files := files.(share := Some(r));
      if backupEnabled {
        ok := Next();
        if !ok { return; }
        files := files.(backup := Some(r));
      }
    }

    /** A remote node receives the file before it is tested there; a local one tests it in place. */
    method XrayConfigTest() returns (ok: bool)
      modifies `nodeConfig, `step
      ensures ok && remote ==> nodeConfig == files.config
      ensures !remote ==> nodeConfig == old(nodeConfig)
      ensures Stopped(old(step), TestSteps(), ok)
    {
      if remote {
        ok := Next();
        if !ok { return; }
        nodeConfig := files.config;
      }
      ok := Next();
    }

    method RestartBackupXray() returns (ok: bool)
      requires backupEnabled
      modifies `backupRunning, `step
      ensures ok == !fails(old(step)) && step == old(step) + 1
      ensures ok ==> backupRunning == files.backup
    {
      var loaded := loads(step);
      ok := Next();
      if ok || loaded {
        backupRunning := files.backup;
      }
    }

    method RestartDataPlane() returns (ok: bool)
      modifies `running, `step
      ensures ok == !fails(old(step)) && step == old(step) + 1
      ensures ok ==> running == if remote then nodeConfig else files.config
    {
      var loaded := loads(step);
      ok := Next();
      if ok || loaded {
        running := if remote then nodeConfig else files.config;
      }
    }

    // ---- One apply ----

    /** Everything after the listing was written, up to the commit; it stops at the first step that fails. */
    method Activate(settings: nat, reload: bool) returns (ok: bool, backupAttempted: bool, dataPlaneAttempted: bool)
      requires files.panelPorts.Some?
      modifies `files, `nodeConfig, `running, `backupRunning, `pendingApply, `step
      ensures files.panelPorts == old(files).panelPorts
      ensures Stopped(old(step), ApplySteps(reload), ok)
      ensures backupAttempted <==> backupEnabled && step - 1 >= old(step) + BackupStep()
      ensures dataPlaneAttempted <==> Direct(reload) && step - 1 >= old(step) + DataPlaneStep()
      ensures !backupAttempted ==> backupRunning == old(backupRunning)
      ensures !dataPlaneAttempted ==> running == old(running)
      ensures ok ==> files == AllRendered(files.panelPorts.value, settings, backupEnabled, old(files).backup)
      ensures ok && Direct(reload) ==> InSync()
      ensures ok ==> Applied(files.panelPorts.value, settings)
      ensures pendingApply == Pending(old(pendingApply), step - 1 - old(step), reload)
      ensures ok && reload && externalReloader ==> pendingApply
      ensures ok && !externalReloader ==> !pendingApply
    {
      backupAttempted, dataPlaneAttempted := false, false;
      ok := RenderXrayConfig(settings);
      if !ok { return; }
      ok := XrayConfigTest();
      if !ok { return; }
      if reload && externalReloader {
        pendingApply := true;
      }
      ok, backupAttempted, dataPlaneAttempted := RestartAndCommit(reload);
    }

    /** The two restarts, the marker and the commit. */
    method RestartAndCommit(reload: bool) returns (ok: bool, backupAttempted: bool, dataPlaneAttempted: bool)
      modifies `running, `backupRunning, `pendingApply, `step
      ensures Stopped(old(step), ApplySteps(reload) - BackupStep(), ok)
      ensures backupAttempted == backupEnabled
      ensures dataPlaneAttempted <==> Direct(reload) && step - 1 >= old(step) + DataPlaneStep() - BackupStep()
      ensures !backupAttempted ==> backupRunning == old(backupRunning)
      ensures !dataPlaneAttempted ==> running == old(running)
      ensures ok && backupEnabled ==> backupRunning == files.backup
      ensures ok && Direct(reload) ==> running == if remote then nodeConfig else files.config
      ensures externalReloader ==> pendingApply == old(pendingApply)
      ensures !externalReloader ==>
        (pendingApply <==> old(pendingApply) && step - 1 - old(step) < ApplySteps(reload) - BackupStep() - 1)
    {
      backupAttempted, dataPlaneAttempted := false, false;
      if backupEnabled {
        backupAttempted := true;
        ok := RestartBackupXray();
        if !ok { return; }
      }
      if Direct(reload) {
        dataPlaneAttempted := true;
        ok := RestartDataPlane();
        if !ok { return; }
      }
      if !externalReloader {
        pendingApply := false;
      }
      ok := Next();   // the commit itself
    }

    /** Put the files back, then the processes that were touched; what fails in there is only reported. */
    method RollBack(previous: Files, backupAttempted: bool, dataPlaneAttempted: bool)
      requires backupAttempted ==> backupEnabled
      modifies `files, `nodeConfig, `running, `backupRunning, `step
      ensures files == previous && step >= old(step)
      ensures !backupAttempted ==> backupRunning == old(backupRunning)
      ensures !dataPlaneAttempted ==> running == old(running)
      ensures !remote ==> nodeConfig == old(nodeConfig)
      ensures backupAttempted && !fails(old(step)) ==> backupRunning == previous.backup
      ensures var sync := old(step) + if backupAttempted then 1 else 0;
        && (remote && Fine(sync, sync + TestSteps()) ==> nodeConfig == previous.config)
        && (dataPlaneAttempted && Fine(sync, sync + SyncSteps() + 1) ==> running == previous.config)
        && (old(InSyncWith(previous, backupAttempted, dataPlaneAttempted)) ==>
              Fine(old(step), sync + SyncSteps() + (if dataPlaneAttempted then 1 else 0)) ==> InSync())
    {
      files := files.(client := previous.client, share := previous.share);
      files := files.(panelPorts := previous.panelPorts);
      files := files.(config := previous.config);
      files := files.(backup := previous.backup);
      if backupAttempted {
        var restarted := RestartBackupXray();
      }
      var synced := true;
      if remote {
        synced := XrayConfigTest();
      }
      if synced && dataPlaneAttempted {
        synced := RestartDataPlane();
      }
    }

    /**
     `_persist_and_reload_locked`: all or nothing. It succeeds exactly when no step fails. Otherwise, with
     `failed` the first step that does, the database and all five files are what they were; and when none of
     the rollback's restarts and syncs fails after it, so are the processes. Where a watcher restarts the data
     plane, success leaves it the marker.
     */
    method PersistAndReload(tx: Transaction, now: nat, settings: nat, reload: bool)
      returns (ok: bool, ghost failed: nat)
      modifies this, tx
      ensures ok <==> Fine(old(step), old(step) + ApplySteps(reload))
      ensures step >= old(step)
      ensures ok ==> committed == old(tx.db) && tx.db == old(tx.db)
      ensures ok ==> files == AllRendered(Payload(committed, now), settings, backupEnabled, old(files).backup)
      ensures ok ==> Applied(Payload(committed, now), settings)
      ensures ok && Direct(reload) ==> InSync() && running == Some(Rendered(Payload(committed, now), settings))
      ensures ok && reload && externalReloader ==> pendingApply
      ensures ok && !externalReloader ==> !pendingApply
      ensures !Direct(reload) ==> running == old(running)
      ensures !ok ==> old(step) <= failed < old(step) + ApplySteps(reload) && fails(failed) && Fine(old(step), failed)
      ensures pendingApply
           == Pending(old(pendingApply), if ok then ApplySteps(reload) - 1 else failed - old(step), reload)
      ensures !ok ==> committed == old(committed) && tx.db == committed && files == old(files)
      ensures !ok && old(InSync()) && Fine(failed + 1, failed + 1 + RollbackSteps(failed - old(step), reload)) ==>
        InSync()
    {
      var previous := files;
      var payload := Payload(tx.db, now);
      files := files.(panelPorts := Some(payload));
      var backupAttempted, dataPlaneAttempted;
      ok, backupAttempted, dataPlaneAttempted := Activate(settings, reload);
      failed := step - 1;
      if ok {
        committed := tx.db;
      } else {
        tx.db := committed;
        RollBack(previous, backupAttempted, dataPlaneAttempted);
      }
    }

    // ---- The callers ----

    /** Read the access log and the counters, in a transaction of its own. */
    method SyncTrafficState(lines: seq<Option<Hit>>, stats: seq<Stat>, now: nat) returns (ok: bool)
      modifies `committed, `step
      ensures ok == !fails(old(step)) && step == old(step) + 1
      ensures committed == if ok then PanelRuns.Synced(old(committed), lines, stats, now) else old(committed)
      ensures old(FilesTrackDatabase()) ==> FilesTrackDatabase()
      ensures old(Valid()) ==> Valid()
    {
      ok := Next();
      if !ok { return; }
      var logged, _ := SyncAccessLog(committed.traffic, lines);
      var counted := SyncTrafficStats(logged, stats, now);
      if Valid() { PanelRuns.SyncKeepsSound(committed, lines, stats, now); }
      committed := committed.(traffic := counted);
    }

    /** The listing was rendered at `later`: it holds exactly the enabled ports unless one expired since `now`. */
    ghost predicate TracksUnlessExpired(now: nat, later: nat)
      reads this
    {
      FilesTrackDatabase()
      <==> forall id :: id in EnabledIds(committed.ports) ==> !ExpiresWithin(committed.ports[id], now, later)
    }

    /** The end of every mutation: disable what must stop, then apply. */
    method StopAndPersist(tx: Transaction, now: nat, later: nat, settings: nat) returns (ok: bool, ghost failed: nat)
      requires UniqueListen(AutoStopped(tx.db, now).ports)
      modifies this, tx
      ensures ok <==> Fine(old(step), old(step) + ApplySteps(true))
      ensures ok ==> committed == AutoStopped(old(tx.db), now) && TracksUnlessExpired(now, later)
      ensures ok ==> Applied(Payload(committed, later), settings)
      ensures ok && !externalReloader ==> running == Some(Rendered(Payload(committed, later), settings))
      ensures ok ==> ActiveIds(committed.ports, committed.traffic, now) == EnabledIds(committed.ports)
      ensures ok ==> if externalReloader then pendingApply else InSync()
      ensures !ok ==> committed == old(committed) && files == old(files)
      ensures !ok ==> old(step) <= failed && fails(failed)
      ensures !ok && old(InSync()) && Fine(failed + 1, failed + 1 + RollbackSteps(failed - old(step), true)) ==>
        InSync()
    {
      ListedIsEnabledIsActive(tx.db, now);
      var changed := DisableAutoStoppedPorts(tx, now);
      ListedLaterExactly(tx.db, now, later);
      ok, failed := PersistAndReload(tx, later, settings, true);
    }

    /**
     `apply_mutation` and `fulfill_order`: sync the traffic, perform the operation, disable what must stop,
     apply, each at its own reading of the clock. It succeeds exactly when no step fails and the operation is
     allowed. Then panel-ports.json lists exactly the enabled ports if and only if none of them expired between
     disabling and listing; otherwise it is what it was, with the database but for the sync. Unless two steps
     fail, the processes that ran what the files say run what they say now, or are due to.
     */
    method ApplyMutation(op: Operation, lines: seq<Option<Hit>>, stats: seq<Stat>, at: Readings, settings: nat)
      returns (ok: bool, ghost synced: Database)
      requires Valid()
      modifies this
      ensures Valid()
      ensures synced
           == if fails(old(step)) then old(committed) else PanelRuns.Synced(old(committed), lines, stats, at.synced)
      ensures IsMutation(Performed(synced, op, at.performed), at.stopped, ok,
                         Fine(old(step), old(step) + 1 + ApplySteps(true)), committed)
      ensures ok ==> TracksUnlessExpired(at.stopped, at.listed) && Applied(Payload(committed, at.listed), settings)
      ensures ok && !externalReloader ==> running == Some(Rendered(Payload(committed, at.listed), settings))
      ensures !ok ==> committed == synced && files == old(files) && (old(FilesTrackDatabase()) ==> FilesTrackDatabase())
      ensures ok ==> if externalReloader then pendingApply else InSync()
      ensures !ok && old(InSync()) && SingleFault(old(step)) ==> InSync()
    {
      ok := SyncTrafficState(lines, stats, at.synced);
      synced := committed;
      OneMoreStep(old(step), ApplySteps(true));
      if ok {
        ok := PerformAndPersist(op, at, settings, Performed(synced, op, at.performed));
      }
    }

    /** A mutation succeeds exactly when the operation is allowed and no step fails; then it leaves this database. */
    ghost predicate IsMutation(result: Result<Database, Error>, now: nat, ok: bool, fine: bool, after: Database) {
      && (ok <==> result.Ok? && fine)
      && (ok ==> after == AutoStopped(result.value, now)
                 && ActiveIds(after.ports, after.traffic, now) == EnabledIds(after.ports))
    }

    lemma OneMoreStep(from: nat, count: nat)
      ensures Fine(from, from + 1 + count) == (!fails(from) && Fine(from + 1, from + 1 + count))
    {
    }

    /** The operation, the automatic disabling and the apply, in one transaction. */
    method PerformAndPersist(op: Operation, at: Readings, settings: nat, ghost result: Result<Database, Error>)
      returns (ok: bool)
      requires Valid() && result == Performed(committed, op, at.performed)
      modifies this
      ensures Valid()
      ensures IsMutation(result, at.stopped, ok, Fine(old(step), old(step) + ApplySteps(true)), committed)
      ensures ok ==> TracksUnlessExpired(at.stopped, at.listed) && Applied(Payload(committed, at.listed), settings)
      ensures ok && !externalReloader ==> running == Some(Rendered(Payload(committed, at.listed), settings))
      ensures ok ==> if externalReloader then pendingApply else InSync()
      ensures !ok ==> committed == old(committed) && files == old(files)
      ensures !ok && old(InSync()) && SingleFault(old(step)) ==> InSync()
    {
      var tx := new Transaction(committed);
      ok := Perform(tx, op, at.performed);
      if !ok { return; }
      PanelRuns.MutationKeepsSound(committed, op, at.performed, at.stopped);
      ghost var failed;
      ok, failed := StopAndPersist(tx, at.stopped, at.listed, settings);
    }

    /** The maintenance cycle: it applies only when something changed. */
    method DisableAutoStopped(now: nat, later: nat, settings: nat, reload: bool) returns (ok: bool, changed: nat)
      requires Valid()
      modifies this
      ensures Valid()
      ensures ok <==> changed == 0 || Fine(old(step), old(step) + ApplySteps(reload))
      ensures changed == Changes(old(committed), now)
      ensures changed == 0 <==> AutoStopped(old(committed), now) == old(committed)
      ensures committed == if ok then AutoStopped(old(committed), now) else old(committed)
      ensures ok && changed > 0 ==> TracksUnlessExpired(now, later)
      ensures !ok || changed == 0 ==> files == old(files) && (old(FilesTrackDatabase()) ==> FilesTrackDatabase())
      ensures ok && changed > 0 && Direct(reload) ==> InSync()
      ensures ok && changed > 0 && reload && externalReloader ==> pendingApply
      ensures !ok && old(InSync()) && SingleFault(old(step)) ==> InSync()
    {
      var tx := new Transaction(committed);
      ListedIsEnabledIsActive(tx.db, now);
      PanelRuns.DisablingKeepsSound(committed, now);
      changed := DisableAutoStoppedPorts(tx, now);
      ok := true;
      if changed > 0 {
        ListedLaterExactly(tx.db, now, later);
        ghost var failed;
        ok, failed := PersistAndReload(tx, later, settings, reload);
      } else {
        committed := tx.db;
      }
    }

    /** A transaction that only touches orders, customers or plans, such as placing an order. */
    method UpdateState(step: PanelRuns.Step)
      requires Valid() && !step.Mutate? && !step.Disable?
      modifies `committed
      ensures Valid() && committed == PanelRuns.Next(old(committed), step)
      ensures old(FilesTrackDatabase()) ==> FilesTrackDatabase()
    {
      PanelRuns.StepKeepsInv(committed, step);
      PanelRuns.NextIsSound(committed, step);
      committed := PanelRuns.Next(committed, step);
    }

    /** A remote node without a watcher is restarted when the file it had is not the one it gets. */
    predicate RestartsAtStart(before: Option<Rendered>, config: Option<Rendered>) {
      remote && !externalReloader && before != config
    }

    /**
     Rendering, test and, when the test changed the file of a remote node, a restart whose failure is only
     reported.
     */
    method WriteCurrentConfig(later: nat, settings: nat) returns (ok: bool)
      modifies `files, `nodeConfig, `running, `step
      ensures files.panelPorts == Some(Payload(committed, later))
      ensures ok <== Fine(old(step), old(step) + BackupStep())
      ensures ok ==> files == AllRendered(Payload(committed, later), settings, backupEnabled, old(files).backup)
      ensures step >= old(step)
      ensures Fine(old(step), step) && remote ==> nodeConfig == files.config
      ensures Fine(old(step), step) ==>
        running == if RestartsAtStart(old(nodeConfig), files.config) then files.config else old(running)
    {
      files := files.(panelPorts := Some(Payload(committed, later)));
      ok := RenderXrayConfig(settings);
      if !ok { return; }
      var before := nodeConfig;
      var tested := XrayConfigTest();
      ok := tested || remote;
      if tested && !externalReloader && nodeConfig != before {
        var restarted := RestartDataPlane();
      }
    }

    /**
     Start-up: drop expired ports, sync, disable, then write the current listing, each at its own reading of
     the clock. The listing holds exactly the enabled ports if and only if none of them expired meanwhile. The data
     plane runs the new configuration exactly if it did before or is restarted; and it is not restarted when the node
     was sent this configuration while ports were disabled.
     */
    method Bootstrap(lines: seq<Option<Hit>>, stats: seq<Stat>, cleaned: nat, synced: nat, now: nat, later: nat,
                     settings: nat)
      returns (ok: bool)
      requires UniqueListen(committed.ports)
      modifies this
      ensures ok ==>
        committed == AutoStopped(PanelRuns.Synced(Cleaned(old(committed), cleaned), lines, stats, synced), now)
      ensures ok ==> files.panelPorts == Some(Payload(committed, later)) && TracksUnlessExpired(now, later)
      ensures step >= old(step) && (Reliable(old(step)) ==> ok)
      ensures Reliable(old(step)) ==>
        var db := PanelRuns.Synced(Cleaned(old(committed), cleaned), lines, stats, synced);
        && files.config == Some(Rendered(Payload(committed, later), settings))
        && (remote ==> nodeConfig == files.config)
        && running == if RestartsAtStart(SentAtStart(old(nodeConfig), db, now, settings), files.config)
                      then files.config else old(running)
    {
      CleanAtStart(cleaned);
      ok := SyncTrafficState(lines, stats, synced);
      if !ok { return; }
      ok := DisableAtStart(now, settings);
      if !ok { return; }
      ListedLaterExactly(committed, now, later);
      ok := WriteCurrentConfig(later, settings);
    }

    method CleanAtStart(now: nat)
      modifies `committed
      ensures committed == Cleaned(old(committed), now)
    {
      var tx := new Transaction(committed);
      var count := CleanupExpiredPorts(tx, now);
      committed := tx.db;
    }

    /** What the node has on disk once ports were disabled: the configuration without them, if there were any. */
    ghost function SentAtStart(before: Option<Rendered>, db: Database, now: nat, settings: nat): Option<Rendered> {
      if AutoStopped(db, now) == db then before else Some(Rendered(Payload(AutoStopped(db, now), now), settings))
    }

    /** Whatever stopped is disabled; no process is restarted for it yet. */
    method DisableAtStart(now: nat, settings: nat) returns (ok: bool)
      modifies this
      ensures ok && remote ==> nodeConfig == SentAtStart(old(nodeConfig), old(committed), now, settings)
      ensures running == old(running)
      ensures ok ==> committed == AutoStopped(old(committed), now)
      ensures ok ==> ActiveIds(committed.ports, committed.traffic, now) == EnabledIds(committed.ports)
      ensures step >= old(step) && (Reliable(old(step)) ==> ok)
    {
      var tx := new Transaction(committed);
      ListedIsEnabledIsActive(tx.db, now);
      var changed := DisableAutoStoppedPorts(tx, now);
      ok := true;
      if changed > 0 {
        ghost var failed;
        ok, failed := PersistAndReload(tx, now, settings, false);
      }
    }
  }

  // ---- A start-up that leaves the old configuration running ----

  /** A database with one port of a customer and a service, which expires at second 10. */
  function OnePort(enabled: bool): Database {
    PanelRuns.EMPTY.(ports := map[1 := Port(443, Some(10), None, enabled, Some(1), Some(1), None)])
  }

  lemma OnePortListed(listen: nat)
    requires listen == 443
    ensures Payload(OnePort(true), 5) == [listen] && Payload(OnePort(false), 20) == []
  {
    var db, off := OnePort(true), OnePort(false);
    assert ListedIds(db, 5) == {1} && ListenOf(db.ports, {1}) == {listen};
    assert ListedIds(off, 20) == {} && ListenOf(off.ports, {}) == {};
    AscendingIsSorted({listen});
    var rest: set<nat> := {listen} - {Least({listen})};
    assert Least({listen}) == listen && rest == {};
    assert Ascending({listen}) == [listen] + Ascending(rest);
  }

  lemma OnePortStops()
    ensures forall now :: Cleaned(OnePort(true), now) == OnePort(true)
    ensures AutoStopped(OnePort(true), 5) == OnePort(true) && AutoStopped(OnePort(true), 20) == OnePort(false)
  {
    var db := OnePort(true);
    forall now ensures Cleaned(db, now) == db {
      assert Doomed(db.ports, now) == {};
      NothingCleaned(db, now);
    }
    assert Stopped(db.ports, db.traffic, 5) == {} && Stopped(db.ports, db.traffic, 20) == {1};
    assert WithDisabled(db.ports, {}) == db.ports && WithDisabled(db.ports, {1}) == OnePort(false).ports;
  }

  lemma NothingSynced(db: Database, lines: seq<Option<Hit>>, stats: seq<Stat>, now: nat)
    requires lines == [] && stats == []
    ensures PanelRuns.Synced(db, lines, stats, now) == db
  {
  }

  /** One start-up of a remote node that the panel itself restarts, every step at the same reading of the clock. */
  method StartUp(service: XrayApplyService, before: Database, after: Database, now: nat, ports: seq<nat>, settings: nat)
    requires service.remote && !service.externalReloader && service.Reliable(service.step)
    requires service.committed == before && UniqueListen(before.ports)
    requires Cleaned(before, now) == before && AutoStopped(before, now) == after && Payload(after, now) == ports
    modifies service
    ensures service.Reliable(service.step) && service.committed == after
    ensures service.nodeConfig == Some(Rendered(ports, settings))
    ensures service.running
         == if after == before && old(service.nodeConfig) != Some(Rendered(ports, settings))
            then Some(Rendered(ports, settings)) else old(service.running)
  {
    var lines: seq<Option<Hit>>, stats: seq<Stat> := [], [];
    NothingSynced(before, lines, stats, now);
    var ok := service.Bootstrap(lines, stats, now, now, now, now, settings);
  }

  /**
   A start-up in which a port expired is not the end of its traffic: the remote node is sent the configuration
   without it while ports are disabled, so the last step finds nothing to send and restarts nothing.
   */
  method OldConfigRunsOn(settings: nat) returns (sent: Option<Rendered>, running: Option<Rendered>)
    ensures sent == Some(Rendered([], settings)) && running == Some(Rendered([443], settings))
  {
    var service := new XrayApplyService(true, false, false, OnePort(true), _ => false, _ => true);
    OnePortListed(443);
    OnePortStops();
    StartUp(service, OnePort(true), OnePort(true), 5, [443], settings);
    StartUp(service, OnePort(true), OnePort(false), 20, [], settings);
    sent, running := service.nodeConfig, service.running;
  }
}
