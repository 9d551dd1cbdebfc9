/**
 * Every run of deployments, status reports, shadow changes and firmware deletions, over all devices.
 */
module OtaRuns {
  import opened Limits
  import opened Tenancy
  import opened Wrappers
  import opened Shadows
  import opened Ota

  datatype Op =
    | Desire(device: DeviceKey, patch: Fields)
    | ReportState(device: DeviceKey, patch: Fields)
    | ResetState(device: DeviceKey)
    | Deploy(device: DeviceKey, firmware: int, grant: string)
    | ReportDeployment(device: DeviceKey, id: int, reported: Option<int>, status: string)
    | Remove(tenant: string, firmware: int)
    | AddFirmware(key: FirmwareKey, artifact: Firmware)
    | AddDevice(device: DeviceKey)
    | Assign(device: DeviceKey, revision: string)

  function Apply(db: Db, op: Op): Db {
    match op
    case Desire(device, patch) => UpdateDesired(db, device, patch).0
    case ReportState(device, patch) => UpdateReported(db, device, patch).0
    case ResetState(device) => ResetDevice(db, device).0
    case Deploy(device, firmware, grant) => Trigger(db, device, firmware, grant).0
    case ReportDeployment(device, id, reported, status) => ApplyStatus(db, device, id, reported, status).0
    case Remove(tenant, firmware) => DeleteFirmware(db, tenant, firmware).0
    case AddFirmware(key, artifact) => Upload(db, key, artifact).0
    case AddDevice(device) => Register(db, device).0
    case Assign(device, revision) => AssignContract(db, device, revision).0
  }

  /** A system without devices, firmware and deployments. */
  const EMPTY := Db({}, map[], map[], map[], map[], 1)

  function Run(db: Db, ops: seq<Op>): Db
    decreases |ops|
  {
    if ops == [] then db else Apply(Run(db, ops[..|ops| - 1]), ops[|ops| - 1])
  }

  // ---- invariants ----

  predicate RowsOk(db: Db) {
    && db.nextId > 0
    && (forall id :: id in db.deployments ==> 0 < id < db.nextId && id <= I32_MAX && Rank(db.deployments[id].status).Some?)
  }

  /** A live deployment is its device's newest; so there is at most one. */
  predicate LiveIsNewest(db: Db) {
    forall i, j :: i in db.deployments && j in db.deployments
                   && db.deployments[i].device == db.deployments[j].device && Live(db.deployments[i])
                   ==> j <= i
  }

  predicate HasCommand(db: Db, device: DeviceKey) {
    device in db.shadows && db.shadows[device].desired.Object? && OTA in db.shadows[device].desired.fields
  }

  /** The command names deployment `id`: if the row is there it is the device's, and no other row of the device is live. */
  predicate Names(db: Db, device: DeviceKey, id: int) {
    && device in db.shadows
    && Commanded(db.shadows[device].desired) == Some(id)
    && 0 < id < db.nextId
    && (id in db.deployments ==> db.deployments[id].device == device && Live(db.deployments[id]))
    && (forall j :: j in db.deployments && db.deployments[j].device == device ==> j <= id && (Live(db.deployments[j]) ==> j == id))
  }

  predicate CommandsOk(db: Db) {
    forall device :: device in db.shadows && HasCommand(db, device)
                     ==> Commanded(db.shadows[device].desired).Some? && Names(db, device, Commanded(db.shadows[device].desired).value)
  }

  predicate Inv(db: Db) { RowsOk(db) && LiveIsNewest(db) && ShadowsOk(db) && CommandsOk(db) }

  // ---- steps that only change one shadow ----

  /** A stored change keeps the command exactly as it was, or there is no command afterwards. */
  predicate CommandKept(a: Shadow, b: Shadow) {
    && b.desired.Object?
    && (OTA in b.desired.fields ==> a.desired.Object? && OTA in a.desired.fields && b.desired.fields[OTA] == a.desired.fields[OTA])
  }

  lemma ShadowStepInv(db: Db, device: DeviceKey, s: Shadow)
    requires Inv(db) && device in db.shadows && Consistent(s) && CommandKept(db.shadows[device], s)
    ensures Inv(db.(shadows := db.shadows[device := s]))
  {
    var after := db.(shadows := db.shadows[device := s]);
    forall d | d in after.shadows && HasCommand(after, d)
      ensures Commanded(after.shadows[d].desired).Some? && Names(after, d, Commanded(after.shadows[d].desired).value)
    {
      assert HasCommand(db, d);
      assert Commanded(after.shadows[d].desired) == Commanded(db.shadows[d].desired);
    }
  }

  lemma DesireInv(db: Db, device: DeviceKey, patch: Fields)
    requires Inv(db)
    ensures Inv(UpdateDesired(db, device, patch).0)
  {
    if OTA !in patch && device in db.shadows {
      var s := db.shadows[device];
      StepIsConsistent(s, Change.Desire(patch));
      if PatchDesired(s, patch).Updated? {
        MergeAt(s.desired.fields, patch, OTA);
        ShadowStepInv(db, device, PatchDesired(s, patch).shadow);
      }
    }
  }

  lemma ReportStateInv(db: Db, device: DeviceKey, patch: Fields)
    requires Inv(db)
    ensures Inv(UpdateReported(db, device, patch).0)
  {
    if device in db.shadows {
      var s := db.shadows[device];
      StepIsConsistent(s, Change.Report(patch));
      if PatchReported(s, patch).Updated? { ShadowStepInv(db, device, PatchReported(s, patch).shadow); }
    }
  }

  lemma ResetInv(db: Db, device: DeviceKey)
    requires Inv(db)
    ensures Inv(ResetDevice(db, device).0)
  {
    if device in db.shadows {
      var s := db.shadows[device];
      StepIsConsistent(s, Change.Reset);
      if ResetShadow(s).Updated? { ShadowStepInv(db, device, ResetShadow(s).shadow); }
    }
  }

  // ---- deployments ----

  /** A standing command goes on naming its deployment while the device's own rows stay as they are. */
  lemma NamesFrame(a: Db, b: Db, device: DeviceKey, id: int)
    requires Names(a, device, id) && a.nextId <= b.nextId
    requires device in b.shadows && b.shadows[device].desired == a.shadows[device].desired
    requires forall j :: j in b.deployments && b.deployments[j].device == device ==> j in a.deployments && a.deployments[j] == b.deployments[j]
    requires id in b.deployments ==> b.deployments[id].device == device
    ensures Names(b, device, id)
  {
  }

  lemma DeployedNames(db: Db, after: Db, device: DeviceKey, firmware: int)
    requires RowsOk(db) && device in after.shadows && Commanded(after.shadows[device].desired) == Some(db.nextId)
    requires after.deployments == Supersede(db.deployments, device)[db.nextId := Deployment(device, firmware, "pending")]
    requires after.nextId == db.nextId + 1
    ensures Names(after, device, db.nextId)
  {
  }

  lemma DeployedOthers(db: Db, after: Db, device: DeviceKey, firmware: int, d: DeviceKey)
    requires Inv(db) && HasCommand(db, d) && d != device && after.nextId == db.nextId + 1
    requires after.deployments == Supersede(db.deployments, device)[db.nextId := Deployment(device, firmware, "pending")]
    requires d in after.shadows && after.shadows[d] == db.shadows[d]
    ensures Names(after, d, Commanded(after.shadows[d].desired).value)
  {
    NamesFrame(db, after, d, Commanded(db.shadows[d].desired).value);
  }

  lemma SupersedeRows(db: Db, device: DeviceKey, firmware: int)
    requires RowsOk(db) && LiveIsNewest(db) && db.nextId <= I32_MAX
    ensures var after := db.(deployments := Supersede(db.deployments, device)[db.nextId := Deployment(device, firmware, "pending")],
                             nextId := db.nextId + 1);
            RowsOk(after) && LiveIsNewest(after)
  {
  }

  lemma DeployedInv(db: Db, after: Db, device: DeviceKey, firmware: int)
    requires Inv(db) && device in db.shadows && db.nextId <= I32_MAX && after.nextId == db.nextId + 1
    requires after.deployments == Supersede(db.deployments, device)[db.nextId := Deployment(device, firmware, "pending")]
    requires after.shadows.Keys == db.shadows.Keys && Consistent(after.shadows[device])
    requires Commanded(after.shadows[device].desired) == Some(db.nextId)
    requires forall d :: d in db.shadows && d != device ==> after.shadows[d] == db.shadows[d]
    ensures Inv(after)
  {
    SupersedeRows(db, device, firmware);
    assert RowsOk(after) && LiveIsNewest(after);
    forall d | d in after.shadows && HasCommand(after, d)
      ensures Commanded(after.shadows[d].desired).Some? && Names(after, d, Commanded(after.shadows[d].desired).value)
    {
      if d != device {
        assert HasCommand(db, d);
        DeployedOthers(db, after, device, firmware, d);
      } else {
        DeployedNames(db, after, device, firmware);
      }
    }
  }

  lemma DeployInv(db: Db, device: DeviceKey, firmware: int, grant: string)
    requires Inv(db)
    ensures Inv(Trigger(db, device, firmware, grant).0)
  {
    TriggerWrites(db, device, firmware, grant);
    if Trigger(db, device, firmware, grant).1.Ready? {
      TriggerCommands(db, device, firmware, grant);
      DeployedInv(db, Trigger(db, device, firmware, grant).0, device, firmware);
    }
  }

  /** The row a report moves forward; the other rows and devices are untouched. */
  lemma StatusRows(db: Db, device: DeviceKey, id: int, reported: Option<int>, status: string)
    requires RowsOk(db) && LiveIsNewest(db) && Accepts(db, device, id, reported, status)
    ensures var after := db.(deployments := db.deployments[id := db.deployments[id].(status := status)]);
            RowsOk(after) && LiveIsNewest(after)
    ensures Live(db.deployments[id])
  {
  }

  /** What a report leaves of a device's command: its own is withdrawn when it finishes, the rest stand. */
  lemma StatusCommand(db: Db, device: DeviceKey, id: int, reported: Option<int>, status: string, d: DeviceKey)
    requires Inv(db) && device in db.shadows && Accepts(db, device, id, reported, status)
    requires HasCommand(ApplyStatus(db, device, id, reported, status).0, d)
    ensures var after := ApplyStatus(db, device, id, reported, status).0;
            && HasCommand(db, d) && after.shadows[d].desired == db.shadows[d].desired
            && (d == device && after != db && Commanded(db.shadows[d].desired) == Some(id) ==> !IsTerminal(status))
  {
    MergeAt(db.shadows[device].desired.fields, map[OTA := Null], OTA);
  }

  lemma StatusNames(db: Db, device: DeviceKey, id: int, reported: Option<int>, status: string, d: DeviceKey)
    requires Inv(db) && device in db.shadows && Accepts(db, device, id, reported, status)
    requires HasCommand(ApplyStatus(db, device, id, reported, status).0, d)
    ensures var after := ApplyStatus(db, device, id, reported, status).0;
            Commanded(after.shadows[d].desired).Some? && Names(after, d, Commanded(after.shadows[d].desired).value)
  {
    var after := ApplyStatus(db, device, id, reported, status).0;
    StatusCommand(db, device, id, reported, status, d);
    var named := Commanded(db.shadows[d].desired).value;
    assert Names(db, d, named);
    if after != db {
      StatusRows(db, device, id, reported, status);
      if d == device {
        assert named == id;
        TerminalStatuses(status);
      } else {
        NamesFrame(db, after, d, named);
      }
    }
  }

  lemma StatusShadows(db: Db, device: DeviceKey, id: int, reported: Option<int>, status: string)
    requires ShadowsOk(db)
    ensures ShadowsOk(ApplyStatus(db, device, id, reported, status).0)
  {
    if device in db.shadows { StepIsConsistent(db.shadows[device], Change.Desire(map[OTA := Null])); }
  }

  lemma ReportDeploymentInv(db: Db, device: DeviceKey, id: int, reported: Option<int>, status: string)
    requires Inv(db)
    ensures Inv(ApplyStatus(db, device, id, reported, status).0)
  {
    if device in db.shadows && Accepts(db, device, id, reported, status) {
      StatusRows(db, device, id, reported, status);
      StatusShadows(db, device, id, reported, status);
      var after := ApplyStatus(db, device, id, reported, status).0;
      forall d | d in after.shadows && HasCommand(after, d)
        ensures Commanded(after.shadows[d].desired).Some? && Names(after, d, Commanded(after.shadows[d].desired).value)
      {
        StatusNames(db, device, id, reported, status, d);
      }
    }
  }

  lemma RemoveInv(db: Db, tenant: string, firmware: int)
    requires Inv(db)
    ensures Inv(DeleteFirmware(db, tenant, firmware).0)
  {
    var after := DeleteFirmware(db, tenant, firmware).0;
    forall d | d in after.shadows && HasCommand(after, d)
      ensures Commanded(after.shadows[d].desired).Some? && Names(after, d, Commanded(after.shadows[d].desired).value)
    {
      assert HasCommand(db, d);
    }
  }

  lemma FreshShadowOk()
    ensures Consistent(Shadow(Object(map[]), Object(map[]), Object(map[]), FIRST_VERSION))
  {
    assert Missing(map[], map[]) == map[];
  }

  lemma RegisterInv(db: Db, device: DeviceKey)
    requires Inv(db)
    ensures Inv(Register(db, device).0)
  {
    var after := Register(db, device).0;
    FreshShadowOk();
    assert after.deployments == db.deployments && after.nextId == db.nextId;
    forall d | d in after.shadows && HasCommand(after, d)
      ensures Commanded(after.shadows[d].desired).Some? && Names(after, d, Commanded(after.shadows[d].desired).value)
    {
      assert HasCommand(db, d) && after.shadows[d] == db.shadows[d];
      NamesFrame(db, after, d, Commanded(db.shadows[d].desired).value);
    }
  }

  /** Firmware and contracts are not part of what the invariant is about. */
  lemma CatalogInv(db: Db, firmware: map<FirmwareKey, Firmware>, contracts: map<DeviceKey, string>)
    requires Inv(db)
    ensures Inv(db.(firmware := firmware, contracts := contracts))
  {
    var after := db.(firmware := firmware, contracts := contracts);
    forall d | d in after.shadows && HasCommand(after, d)
      ensures Commanded(after.shadows[d].desired).Some? && Names(after, d, Commanded(after.shadows[d].desired).value)
    {
      assert HasCommand(db, d);
    }
  }

  lemma InvStep(db: Db, op: Op)
    requires Inv(db)
    ensures Inv(Apply(db, op))
  {
    match op
    case Desire(device, patch) => DesireInv(db, device, patch);
    case ReportState(device, patch) => ReportStateInv(db, device, patch);
    case ResetState(device) => ResetInv(db, device);
    case Deploy(device, firmware, grant) => DeployInv(db, device, firmware, grant);
    case ReportDeployment(device, id, reported, status) => ReportDeploymentInv(db, device, id, reported, status);
    case Remove(tenant, firmware) => RemoveInv(db, tenant, firmware);
    case AddFirmware(key, artifact) => CatalogInv(db, Upload(db, key, artifact).0.firmware, db.contracts);
    case AddDevice(device) => RegisterInv(db, device);
    case Assign(device, revision) => CatalogInv(db, db.firmware, AssignContract(db, device, revision).0.contracts);
  }

  lemma {:induction false} InvRun(db: Db, ops: seq<Op>)
    requires Inv(db)
    ensures Inv(Run(db, ops))
    decreases |ops|
  {
    if ops != [] {
      InvRun(db, ops[..|ops| - 1]);
      InvStep(Run(db, ops[..|ops| - 1]), ops[|ops| - 1]);
    }
  }

  // ---- results ----

  /** In every run a device has at most one live deployment, and it is the device's newest. */
  lemma OneLiveDeployment(db: Db, ops: seq<Op>, i: int, j: int)
    requires Inv(db)
    requires i in Run(db, ops).deployments && j in Run(db, ops).deployments
    requires Run(db, ops).deployments[i].device == Run(db, ops).deployments[j].device
    requires Live(Run(db, ops).deployments[i])
    ensures j <= i
    ensures Live(Run(db, ops).deployments[j]) ==> i == j
  {
    InvRun(db, ops);
  }

  /**
   * In every run a command in the desired document names the device's live deployment, exactly when
   * the row it names has not been deleted with its firmware.
   */
  lemma CommandNamesLiveDeployment(db: Db, ops: seq<Op>, device: DeviceKey)
    requires Inv(db) && HasCommand(Run(db, ops), device)
    ensures var after := Run(db, ops);
            var named := Commanded(after.shadows[device].desired);
            && named.Some?
            && (named.value in after.deployments
                <==> exists id :: id in after.deployments && after.deployments[id].device == device && Live(after.deployments[id]))
            && (named.value in after.deployments ==>
                  after.deployments[named.value].device == device && Live(after.deployments[named.value]))
  {
    InvRun(db, ops);
    var after := Run(db, ops);
    assert Names(after, device, Commanded(after.shadows[device].desired).value);
  }

  lemma RowsStay(db: Db, op: Op, id: int)
    requires id in db.deployments && !op.Remove?
    ensures id in Apply(db, op).deployments
  {
    match op
    case Desire(_, _) =>
    case ReportState(_, _) =>
    case ResetState(_) =>
    case Deploy(device, firmware, grant) => TriggerWrites(db, device, firmware, grant);
    case ReportDeployment(device, id, reported, status) =>
    case AddFirmware(_, _) =>
    case AddDevice(_) =>
    case Assign(_, _) =>
  }

  /** The only step that takes the row of a standing command away deletes the firmware of that row. */
  lemma OrphanedOnlyByRemoval(db: Db, op: Op, device: DeviceKey, id: int)
    requires CommandsOk(db) && HasCommand(db, device) && Commanded(db.shadows[device].desired) == Some(id) && id in db.deployments
    ensures db.deployments[id].device == device
    ensures id !in Apply(db, op).deployments
            <==> op == Remove(device.tenant, db.deployments[id].firmware)
                 && FirmwareKey(device.tenant, db.deployments[id].firmware) in db.firmware
  {
    assert Names(db, device, id);
    if !op.Remove? { RowsStay(db, op, id); }
  }

  /** A report changes a shadow exactly when it finishes the deployment the device's command names. */
  lemma ReportClearsOnlyItsOwnCommand(db: Db, device: DeviceKey, id: int, reported: Option<int>, status: string)
    requires Inv(db) && device in db.shadows
    ensures var after := Apply(db, ReportDeployment(device, id, reported, status));
            && (after.shadows != db.shadows
                <==> Accepts(db, device, id, reported, status) && IsTerminal(status)
                     && Commanded(db.shadows[device].desired) == Some(id) && db.shadows[device].version < I32_MAX)
            && (after.shadows != db.shadows ==> !HasCommand(after, device) && after.shadows.Keys == db.shadows.Keys)
            && (forall d :: d in db.shadows && d != device ==> d in after.shadows && after.shadows[d] == db.shadows[d])
  {
    var s := db.shadows[device];
    MergeAt(s.desired.fields, map[OTA := Null], OTA);
    var after := Apply(db, ReportDeployment(device, id, reported, status));
    if Accepts(db, device, id, reported, status) && IsTerminal(status)
       && Commanded(s.desired) == Some(id) && s.version < I32_MAX {
      assert after.shadows[device].version == s.version + 1;
    }
  }

  // ---- rows only move forward ----

  predicate Forward(a: Deployment, b: Deployment) {
    && a.device == b.device && a.firmware == b.firmware
    && Rank(a.status).Some? && Rank(b.status).Some? && Rank(a.status).value <= Rank(b.status).value
    && (!Live(a) ==> b == a)
  }

  ghost predicate RowsForward(a: Db, b: Db) {
    && a.nextId <= b.nextId
    && (forall id :: id in a.deployments && id in b.deployments ==> Forward(a.deployments[id], b.deployments[id]))
    && (forall id :: id in b.deployments && id < a.nextId ==> id in a.deployments)
  }

  lemma FailingIsForward(d: Deployment)
    requires Rank(d.status).Some?
    ensures Forward(d, d)
    ensures Live(d) ==> Forward(d, d.(status := "failed"))
  {
  }

  lemma DeployForward(db: Db, device: DeviceKey, firmware: int, grant: string)
    requires RowsOk(db)
    ensures RowsForward(db, Trigger(db, device, firmware, grant).0)
  {
    TriggerWrites(db, device, firmware, grant);
    forall id | id in db.deployments
      ensures Forward(db.deployments[id], db.deployments[id])
      ensures Forward(db.deployments[id], Supersede(db.deployments, device)[id])
    {
      FailingIsForward(db.deployments[id]);
    }
  }

  lemma StatusForward(db: Db, device: DeviceKey, id: int, reported: Option<int>, status: string)
    requires RowsOk(db)
    ensures RowsForward(db, ApplyStatus(db, device, id, reported, status).0)
  {
    if Accepts(db, device, id, reported, status) {
      TerminalStatuses(db.deployments[id].status);
      assert Forward(db.deployments[id], db.deployments[id].(status := status));
    }
  }

  lemma StepForward(db: Db, op: Op)
    requires RowsOk(db)
    ensures RowsForward(db, Apply(db, op))
  {
    match op
    case Desire(_, _) =>
    case ReportState(_, _) =>
    case ResetState(_) =>
    case Deploy(device, firmware, grant) => DeployForward(db, device, firmware, grant);
    case ReportDeployment(device, id, reported, status) => StatusForward(db, device, id, reported, status);
    case Remove(_, _) =>
    case AddFirmware(_, _) =>
    case AddDevice(_) =>
    case Assign(_, _) =>
  }

  lemma ForwardTransitive(a: Db, b: Db, c: Db)
    requires RowsOk(a) && RowsForward(a, b) && RowsForward(b, c)
    ensures RowsForward(a, c)
  {
  }

  /** Through every run statuses never fall back, finished rows never change and numbers are not reused. */
  lemma {:induction false} DeploymentsOnlyMoveForward(db: Db, ops: seq<Op>)
    requires Inv(db)
    ensures RowsForward(db, Run(db, ops))
    decreases |ops|
  {
    if ops != [] {
      var front := ops[..|ops| - 1];
      DeploymentsOnlyMoveForward(db, front);
      InvRun(db, front);
      StepForward(Run(db, front), ops[|ops| - 1]);
      ForwardTransitive(db, Run(db, front), Run(db, ops));
    }
  }

  lemma TriggerSupersedes(db: Db, device: DeviceKey, firmware: int, grant: string, id: int)
    requires RowsOk(db) && Trigger(db, device, firmware, grant).1.Ready?
    ensures var after := Trigger(db, device, firmware, grant).0;
            && after.nextId == db.nextId + 1
            && (id < db.nextId && id in after.deployments && after.deployments[id].device == device ==> !Live(after.deployments[id]))
  {
  }

  lemma FinishedRowIgnoresReports(db: Db, device: DeviceKey, id: int, reported: Option<int>, status: string)
    requires RowsOk(db)
    requires id in db.deployments && db.deployments[id].device == device ==> !Live(db.deployments[id])
    ensures ApplyStatus(db, device, id, reported, status).0 == db
  {
  }

  lemma FinishedRowStaysFinished(db: Db, ops: seq<Op>, device: DeviceKey, id: int)
    requires Inv(db) && id < db.nextId
    requires id in db.deployments && db.deployments[id].device == device ==> !Live(db.deployments[id])
    ensures var later := Run(db, ops);
            id in later.deployments && later.deployments[id].device == device ==> !Live(later.deployments[id])
  {
    DeploymentsOnlyMoveForward(db, ops);
    var later := Run(db, ops);
    if id in later.deployments {
      assert Forward(db.deployments[id], later.deployments[id]);
    }
  }

  lemma FinishedRowIgnoresReportsForever(db: Db, ops: seq<Op>, device: DeviceKey, id: int, reported: Option<int>, status: string)
    requires Inv(db) && id < db.nextId
    requires id in db.deployments && db.deployments[id].device == device ==> !Live(db.deployments[id])
    ensures ApplyStatus(Run(db, ops), device, id, reported, status).0 == Run(db, ops)
  {
    FinishedRowStaysFinished(db, ops, device, id);
    InvRun(db, ops);
    FinishedRowIgnoresReports(Run(db, ops), device, id, reported, status);
  }

  /** Once a device has a newer deployment, reports about its older ones change nothing, ever. */
  lemma SupersededReportsAreIgnored(db: Db, device: DeviceKey, firmware: int, grant: string, deployed: Db, ops: seq<Op>,
                                    id: int, reported: Option<int>, status: string)
    requires Inv(db) && Trigger(db, device, firmware, grant).1.Ready? && deployed == Trigger(db, device, firmware, grant).0
    requires id < db.nextId
    ensures ApplyStatus(Run(deployed, ops), device, id, reported, status).0 == Run(deployed, ops)
  {
    TriggerSupersedes(db, device, firmware, grant, id);
    DeployInv(db, device, firmware, grant);
    FinishedRowIgnoresReportsForever(deployed, ops, device, id, reported, status);
  }

  // ---- a command whose row is gone ----

  predicate Orphaned(db: Db, device: DeviceKey, id: int) {
    && HasCommand(db, device) && Commanded(db.shadows[device].desired) == Some(id)
    && id !in db.deployments && id < db.nextId
  }

  /** Neither a new deployment nor a reset for the device. */
  predicate LeavesDevice(op: Op, device: DeviceKey) {
    !(op.Deploy? && op.device == device) && !(op.ResetState? && op.device == device)
  }

  /** Deleting the firmware of a deployment that was just triggered orphans its command. */
  lemma DeletionOrphans(db: Db, device: DeviceKey, firmware: int, grant: string)
    requires Inv(db) && Trigger(db, device, firmware, grant).1.Ready?
    ensures Orphaned(DeleteFirmware(Trigger(db, device, firmware, grant).0, device.tenant, firmware).0, device, db.nextId)
  {
    TriggerWrites(db, device, firmware, grant);
    TriggerCommands(db, device, firmware, grant);
  }

  /** What a shadow change of the device keeps: the desired document is merged with a patch without the reserved key. */
  lemma OrphanShadow(db: Db, device: DeviceKey, id: int, s: Shadow)
    requires Orphaned(db, device, id)
    requires s.desired.Object? && OTA in s.desired.fields && s.desired.fields[OTA] == db.shadows[device].desired.fields[OTA]
    ensures Orphaned(db.(shadows := db.shadows[device := s]), device, id)
  {
  }

  lemma OrphanDesire(db: Db, device: DeviceKey, id: int, patch: Fields)
    requires Orphaned(db, device, id)
    ensures Orphaned(UpdateDesired(db, device, patch).0, device, id)
  {
    var s := db.shadows[device];
    MergeAt(s.desired.fields, patch, OTA);
    if OTA !in patch && PatchDesired(s, patch).Updated? { OrphanShadow(db, device, id, PatchDesired(s, patch).shadow); }
  }

  lemma OrphanDeploy(db: Db, device: DeviceKey, id: int, other: DeviceKey, firmware: int, grant: string)
    requires Inv(db) && Orphaned(db, device, id) && other != device
    ensures Orphaned(Trigger(db, other, firmware, grant).0, device, id)
  {
    TriggerWrites(db, other, firmware, grant);
    if Trigger(db, other, firmware, grant).1.Ready? { TriggerCommands(db, other, firmware, grant); }
  }

  lemma OrphanReports(db: Db, device: DeviceKey, id: int, d: DeviceKey, i: int, reported: Option<int>, status: string)
    requires Orphaned(db, device, id)
    ensures Orphaned(ApplyStatus(db, d, i, reported, status).0, device, id)
  {
    if Accepts(db, d, i, reported, status) { assert i != id; }
  }

  lemma OrphanReportsState(db: Db, device: DeviceKey, id: int, d: DeviceKey, patch: Fields)
    requires Orphaned(db, device, id)
    ensures Orphaned(UpdateReported(db, d, patch).0, device, id)
  {
    if d == device && PatchReported(db.shadows[d], patch).Updated? {
      OrphanShadow(db, device, id, PatchReported(db.shadows[d], patch).shadow);
    }
  }

  lemma OrphanDesires(db: Db, device: DeviceKey, id: int, d: DeviceKey, patch: Fields)
    requires Orphaned(db, device, id)
    ensures Orphaned(UpdateDesired(db, d, patch).0, device, id)
  {
    if d == device { OrphanDesire(db, device, id, patch); }
  }

  lemma OrphanCatalog(db: Db, op: Op, device: DeviceKey, id: int)
    requires Orphaned(db, device, id) && (op.Remove? || op.AddFirmware? || op.AddDevice? || op.Assign?)
    ensures Orphaned(Apply(db, op), device, id)
  {
  }

  lemma OrphanStep(db: Db, op: Op, device: DeviceKey, id: int)
    requires Inv(db) && Orphaned(db, device, id) && LeavesDevice(op, device)
    ensures Orphaned(Apply(db, op), device, id)
  {
    match op
    case Desire(d, patch) => OrphanDesires(db, device, id, d, patch);
    case ReportState(d, patch) => OrphanReportsState(db, device, id, d, patch);
    case ResetState(_) =>
    case Deploy(d, firmware, grant) => OrphanDeploy(db, device, id, d, firmware, grant);
    case ReportDeployment(d, i, reported, status) => OrphanReports(db, device, id, d, i, reported, status);
    case Remove(_, _) => OrphanCatalog(db, op, device, id);
    case AddFirmware(_, _) => OrphanCatalog(db, op, device, id);
    case AddDevice(_) => OrphanCatalog(db, op, device, id);
    case Assign(_, _) => OrphanCatalog(db, op, device, id);
  }

  /**
   * A command whose deployment was deleted stands through every run without a new deployment or a reset
   * for the device: no report, patch or upload withdraws it.
   */
  lemma {:induction false} OrphanStays(db: Db, ops: seq<Op>, device: DeviceKey, id: int)
    requires Inv(db) && Orphaned(db, device, id)
    requires forall n :: 0 <= n < |ops| ==> LeavesDevice(ops[n], device)
    ensures Orphaned(Run(db, ops), device, id)
    decreases |ops|
  {
    if ops != [] {
      OrphanStays(db, ops[..|ops| - 1], device, id);
      InvRun(db, ops[..|ops| - 1]);
      OrphanStep(Run(db, ops[..|ops| - 1]), ops[|ops| - 1], device, id);
    }
  }

  /** The results hold of every state reachable from an empty system. */
  lemma ReachableOk(ops: seq<Op>)
    ensures Inv(Run(EMPTY, ops))
  {
    InvRun(EMPTY, ops);
  }
}
