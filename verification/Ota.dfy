/**
 * Over-the-air deployments and the command they leave in a device's desired document.
 *
 * A deployment row moves forward through its states; the shadow's `ota` key tells the device which
 * deployment to carry out. Both are written in one transaction under the shadow's row lock, so each
 * operation is one step. Error texts and timestamps are not part of the rows.
 */
module Ota {
  import opened Limits
  import opened Tenancy
  import opened Wrappers
  import opened Shadows

  datatype Deployment = Deployment(device: DeviceKey, firmware: int, status: string)
  datatype FirmwareKey = FirmwareKey(tenant: string, id: int)
  datatype Firmware = Firmware(version: string, url: string, sha256: Option<string>, revision: string)

  /** `contracts` holds the blueprint revision of a device's desired contract. */
  datatype Db = Db(
    devices: set<DeviceKey>,
    contracts: map<DeviceKey, string>,
    firmware: map<FirmwareKey, Firmware>,
    shadows: map<DeviceKey, Shadow>,
    deployments: map<int, Deployment>,
    nextId: int)

  datatype Outcome =
    | DeviceNotFound
    | FirmwareNotFound
    | Incompatible
    | InvalidArtifact
    | Ready(delta: Json, version: int)
    | Stored
    | Ignored
    | Reserved
    | Failed

  // ---- status ----

  function Rank(status: string): Option<nat> {
    if status == "pending" then Some(0)
    else if status == "downloading" then Some(1)
    else if status == "verifying" then Some(2)
    else if status == "installing" then Some(3)
    else if status == "rebooting" then Some(4)
    else if status == "success" || status == "failed" then Some(5)
    else None
  }

  function Lower(c: char): char { if 'A' <= c <= 'Z' then c - 'A' + 'a' else c }

  predicate EqIgnoreCase(a: string, b: string) { |a| == |b| && forall i :: 0 <= i < |a| ==> Lower(a[i]) == Lower(b[i]) }

  predicate IsTerminal(status: string) { EqIgnoreCase(status, "success") || EqIgnoreCase(status, "failed") }

  predicate TransitionAllowed(previous: string, next: string) {
    && !IsTerminal(previous)
    && Rank(previous).Some? && Rank(next).Some? && Rank(next).value >= Rank(previous).value
  }

  /** The rows a new deployment supersedes. */
  predicate Live(d: Deployment) { d.status != "success" && d.status != "failed" }

  /** Ignoring case makes no difference to the statuses that have a rank. */
  lemma TerminalStatuses(status: string)
    requires Rank(status).Some?
    ensures IsTerminal(status) <==> status == "success" || status == "failed"
    ensures IsTerminal(status) <==> Rank(status) == Some(5)
  {
  }

  /** The states of a deployment that is under way, in order. */
  const PROGRESS := ["pending", "downloading", "verifying", "installing", "rebooting"]

  predicate Final(status: string) { status == "success" || status == "failed" }

  predicate UnderWay(status: string, i: int) { 0 <= i < |PROGRESS| && status == PROGRESS[i] }

  lemma ProgressRank(status: string, i: nat)
    requires i < |PROGRESS|
    ensures status == PROGRESS[i] <==> Rank(status) == Some(i)
  {
    assert |PROGRESS[0]| == 7 && |PROGRESS[1]| == 11 && |PROGRESS[2]| == 9 && |PROGRESS[3]| == 10 && |PROGRESS[4]| == 9;
    assert PROGRESS[0][0] == 'p' && PROGRESS[2][0] == 'v' && PROGRESS[4][0] == 'r' && "success"[0] == 's';
  }

  /** A deployment under way moves to its own or a later state or is finished; a finished one does not move. */
  lemma AllowedTransitions(previous: string, next: string)
    ensures TransitionAllowed(previous, next) <==>
              exists i :: UnderWay(previous, i) && (Final(next) || exists j :: i <= j && UnderWay(next, j))
  {
    forall i: nat | i < |PROGRESS| ensures previous == PROGRESS[i] <==> Rank(previous) == Some(i) { ProgressRank(previous, i); }
    forall j: nat | j < |PROGRESS| ensures next == PROGRESS[j] <==> Rank(next) == Some(j) { ProgressRank(next, j); }
    if Rank(previous).Some? { TerminalStatuses(previous); }
    if TransitionAllowed(previous, next) {
      var i := Rank(previous).value;
      assert UnderWay(previous, i);
      if !Final(next) { assert UnderWay(next, Rank(next).value); }
    }
  }

  // ---- artifacts and the command ----

  predicate StartsWith(s: string, prefix: string) { prefix <= s }

  predicate IsHexDigit(c: char) { '0' <= c <= '9' || 'a' <= c <= 'f' || 'A' <= c <= 'F' }

  predicate ValidArtifact(version: string, hash: Option<string>, url: string) {
    && version != "" && |version| <= 63
    && |url| <= 1023
    && (StartsWith(url, "https://") || StartsWith(url, "http://"))
    && hash.Some? && |hash.value| == 64 && (forall i :: 0 <= i < 64 ==> IsHexDigit(hash.value[i]))
  }

  predicate RevisionMatches(revision: Option<string>, artifact: string) {
    revision.Some? && revision.value != "" && revision.value == artifact
  }

  function ArtifactUrl(f: Firmware, grant: string): string { if StartsWith(f.url, "https://") then f.url else grant }

  function Command(f: Firmware, url: string, firmware: int, deployment: int): Json
    requires f.sha256.Some?
  {
    Object(map[
      "firmware_version" := Text(f.version),
      "firmware_url" := Text(url),
      "firmware_update_id" := Integer(firmware),
      "deployment_id" := Integer(deployment),
      "sha256" := Text(f.sha256.value)])
  }

  const OTA := "ota"

  /** The column default of a shadow's version. */
  const FIRST_VERSION := 1


  function Field(v: Json, key: string): Json { if v.Object? && key in v.fields then v.fields[key] else Null }

  function AsI64(v: Json): Option<int> {
    if v.Integer? && -I64_MAX - 1 <= v.i <= I64_MAX then Some(v.i) else None
  }

  /** The deployment the desired document names. */
  function Commanded(desired: Json): Option<int> { AsI64(Field(Field(desired, OTA), "deployment_id")) }

  // ---- operations ----

  function StoreShadow(db: Db, device: DeviceKey, r: Result): (Db, Outcome) {
    match r
    case Updated(s) => (db.(shadows := db.shadows[device := s]), Stored)
    case VersionOverflow => (db, Failed)
  }

  /** The application keeps the `ota` key to itself. */
  function UpdateDesired(db: Db, device: DeviceKey, patch: Fields): (Db, Outcome) {
    if OTA in patch then (db, Reserved)
    else if device !in db.shadows then (db, DeviceNotFound)
    else StoreShadow(db, device, PatchDesired(db.shadows[device], patch))
  }

  function UpdateReported(db: Db, device: DeviceKey, patch: Fields): (Db, Outcome) {
    if device !in db.shadows then (db, DeviceNotFound)
    else StoreShadow(db, device, PatchReported(db.shadows[device], patch))
  }

  function ResetDevice(db: Db, device: DeviceKey): (Db, Outcome) {
    if device !in db.shadows then (db, DeviceNotFound)
    else StoreShadow(db, device, ResetShadow(db.shadows[device]))
  }

  function Supersede(deployments: map<int, Deployment>, device: DeviceKey): map<int, Deployment> {
    map id | id in deployments ::
      if deployments[id].device == device && Live(deployments[id]) then deployments[id].(status := "failed")
      else deployments[id]
  }

  function Assigned(db: Db, device: DeviceKey): Option<string> {
    if device in db.contracts then Some(db.contracts[device]) else None
  }

  /** Why a trigger stops before it writes, if it does. */
  function Obstacle(db: Db, device: DeviceKey, firmware: int, grant: string): Option<Outcome> {
    var key := FirmwareKey(device.tenant, firmware);
    if device !in db.devices then Some(DeviceNotFound)
    else if key !in db.firmware then Some(FirmwareNotFound)
    else
      var f := db.firmware[key];
      if !RevisionMatches(Assigned(db, device), f.revision) then Some(Incompatible)
      else if !ValidArtifact(f.version, f.sha256, ArtifactUrl(f, grant)) then Some(InvalidArtifact)
      else if device !in db.shadows then Some(Failed)
      else None
  }

  function CommandPatch(db: Db, device: DeviceKey, firmware: int, grant: string): Fields
    requires Obstacle(db, device, firmware, grant).None?
  {
    var f := db.firmware[FirmwareKey(device.tenant, firmware)];
    map[OTA := Command(f, ArtifactUrl(f, grant), firmware, db.nextId)]
  }

  /** A deployment number is consumed even when the transaction rolls back. */
  function Trigger(db: Db, device: DeviceKey, firmware: int, grant: string): (Db, Outcome) {
    match Obstacle(db, device, firmware, grant)
    case Some(outcome) => (db, outcome)
    case None =>
      if db.nextId > I32_MAX then (db, Failed)
      else
        match PatchDesired(db.shadows[device], CommandPatch(db, device, firmware, grant))
        case VersionOverflow => (db.(nextId := db.nextId + 1), Failed)
        case Updated(s) =>
          (db.(shadows := db.shadows[device := s],
               deployments := Supersede(db.deployments, device)[db.nextId := Deployment(device, firmware, "pending")],
               nextId := db.nextId + 1),
           Ready(s.delta, s.version))
  }

  /** Whether a status report is for a row of the device, for its firmware, and goes forward. */
  predicate Accepts(db: Db, device: DeviceKey, id: int, firmware: Option<int>, status: string) {
    && id in db.deployments
    && db.deployments[id].device == device
    && firmware == Some(db.deployments[id].firmware)
    && TransitionAllowed(db.deployments[id].status, status)
  }

  function ApplyStatus(db: Db, device: DeviceKey, id: int, firmware: Option<int>, status: string): (Db, Outcome) {
    if device !in db.shadows then (db, Failed)
    else if !Accepts(db, device, id, firmware, status) then (db, Ignored)
    else
      var d := db.(deployments := db.deployments[id := db.deployments[id].(status := status)]);
      if !IsTerminal(status) || Commanded(db.shadows[device].desired) != Some(id) then (d, Stored)
      else
        match PatchDesired(db.shadows[device], map[OTA := Null])
        case VersionOverflow => (db, Failed)
        case Updated(s) => (d.(shadows := db.shadows[device := s]), Stored)
  }

  /** Deleting a firmware update cascades to its deployments, and to nothing else. */
  function DeleteFirmware(db: Db, tenant: string, firmware: int): (Db, Outcome) {
    if FirmwareKey(tenant, firmware) !in db.firmware then (db, FirmwareNotFound)
    else
      (db.(firmware := db.firmware - {FirmwareKey(tenant, firmware)},
           deployments := map id | id in db.deployments && !(db.deployments[id].device.tenant == tenant && db.deployments[id].firmware == firmware)
                            :: db.deployments[id]),
       Stored)
  }

  /** A device is registered together with an empty shadow. */
  function Register(db: Db, device: DeviceKey): (Db, Outcome) {
    if device in db.devices || device in db.shadows then (db, Failed)
    else
      (db.(devices := db.devices + {device},
           shadows := db.shadows[device := Shadow(Object(map[]), Object(map[]), Object(map[]), FIRST_VERSION)]),
       Stored)
  }

  function AssignContract(db: Db, device: DeviceKey, revision: string): (Db, Outcome) {
    if device !in db.devices then (db, DeviceNotFound) else (db.(contracts := db.contracts[device := revision]), Stored)
  }

  function Upload(db: Db, key: FirmwareKey, f: Firmware): (Db, Outcome) {
    if key in db.firmware then (db, Failed) else (db.(firmware := db.firmware[key := f]), Stored)
  }

  // ---- what the operations mean to a caller ----

  predicate ShadowsOk(db: Db) { forall d :: d in db.shadows ==> Consistent(db.shadows[d]) }

  /** A trigger that writes supersedes the device's live row, adds one row and stores one command. */
  lemma TriggerWrites(db: Db, device: DeviceKey, firmware: int, grant: string)
    ensures var (after, outcome) := Trigger(db, device, firmware, grant);
            && db.nextId <= after.nextId <= db.nextId + 1
            && (outcome.Ready? ==>
                  && after.nextId == db.nextId + 1
                  && after.deployments == Supersede(db.deployments, device)[db.nextId := Deployment(device, firmware, "pending")])
            && (!outcome.Ready? ==> after.deployments == db.deployments && after.shadows == db.shadows)
  {
  }

  /** Writing a command makes the desired document name exactly its deployment. */
  lemma CommandIsNamed(s: Shadow, patch: Fields, f: Firmware, url: string, firmware: int, id: int)
    requires Consistent(s) && f.sha256.Some? && 0 < id <= I32_MAX
    requires patch == map[OTA := Command(f, url, firmware, id)]
    requires PatchDesired(s, patch).Updated?
    ensures Consistent(PatchDesired(s, patch).shadow)
    ensures Commanded(PatchDesired(s, patch).shadow.desired) == Some(id)
  {
    StepIsConsistent(s, Change.Desire(patch));
    MergeAt(s.desired.fields, patch, OTA);
  }

  /** A successful trigger leaves the device commanded to carry out the new deployment. */
  lemma TriggerCommands(db: Db, device: DeviceKey, firmware: int, grant: string)
    requires ShadowsOk(db) && 0 < db.nextId && Trigger(db, device, firmware, grant).1.Ready?
    ensures var after := Trigger(db, device, firmware, grant).0;
            && device in db.shadows
            && after.shadows.Keys == db.shadows.Keys
            && Consistent(after.shadows[device])
            && Commanded(after.shadows[device].desired) == Some(db.nextId)
            && db.nextId <= I32_MAX
            && (forall d :: d in db.shadows && d != device ==> after.shadows[d] == db.shadows[d])
  {
    var patch := CommandPatch(db, device, firmware, grant);
    var f := db.firmware[FirmwareKey(device.tenant, firmware)];
    CommandIsNamed(db.shadows[device], patch, f, ArtifactUrl(f, grant), firmware, db.nextId);
  }

  /** Nothing but one device's shadow differs. */
  predicate OnlyShadow(before: Db, after: Db, device: DeviceKey) {
    after == before.(shadows := after.shadows) && after.shadows - {device} == before.shadows - {device}
  }

  /** A stored change: one version up, the shadow consistent if it was; anything else changes nothing. */
  predicate ShadowStored(before: Db, after: Db, device: DeviceKey, outcome: Outcome) {
    && OnlyShadow(before, after, device)
    && (ShadowsOk(before) ==> ShadowsOk(after))
    && (if outcome == Stored then
          device in before.shadows && device in after.shadows && after.shadows[device].version == before.shadows[device].version + 1
        else after == before)
  }

  /** A shadow takes a change exactly when it exists and its version has room. */
  predicate ShadowAnswers(db: Db, device: DeviceKey, outcome: Outcome) {
    if device !in db.shadows then outcome == DeviceNotFound
    else if db.shadows[device].version >= I32_MAX then outcome == Failed
    else outcome == Stored
  }

  lemma UpdateDesiredMeaning(db: Db, device: DeviceKey, patch: Fields)
    ensures var (after, outcome) := UpdateDesired(db, device, patch);
            && ShadowStored(db, after, device, outcome)
            && (if "ota" in patch then outcome == Reserved else ShadowAnswers(db, device, outcome))
            && (device in db.shadows ==> Commanded(after.shadows[device].desired) == Commanded(db.shadows[device].desired))
  {
    if OTA !in patch && device in db.shadows {
      MergeAt(FieldsOf(db.shadows[device].desired), patch, OTA);
      if ShadowsOk(db) { StepIsConsistent(db.shadows[device], Desire(patch)); }
    }
  }

  lemma UpdateReportedMeaning(db: Db, device: DeviceKey, patch: Fields)
    ensures var (after, outcome) := UpdateReported(db, device, patch);
            ShadowStored(db, after, device, outcome) && ShadowAnswers(db, device, outcome)
  {
    if device in db.shadows && ShadowsOk(db) { StepIsConsistent(db.shadows[device], Report(patch)); }
  }

  lemma ResetMeaning(db: Db, device: DeviceKey)
    ensures var (after, outcome) := ResetDevice(db, device);
            && ShadowStored(db, after, device, outcome) && ShadowAnswers(db, device, outcome)
            && (outcome == Stored ==> Commanded(after.shadows[device].desired).None?)
  {
    if device in db.shadows && ShadowsOk(db) { StepIsConsistent(db.shadows[device], Reset); }
  }

  const HEX_DIGITS := "0123456789abcdefABCDEF"

  /** What a device can take: a short version, a link it can follow and a SHA-256 in hexadecimal. */
  predicate Usable(f: Firmware, url: string) {
    && 1 <= |f.version| <= 63 && |url| <= 1023 && ("https://" <= url || "http://" <= url)
    && f.sha256.Some? && |f.sha256.value| == 64 && forall c :: c in f.sha256.value ==> c in HEX_DIGITS
  }

  lemma HexDigits(c: char)
    ensures IsHexDigit(c) <==> c in HEX_DIGITS
  {
    if '0' <= c <= '9' { assert HEX_DIGITS[c as int - '0' as int] == c; }
    if 'a' <= c <= 'f' { assert HEX_DIGITS[10 + c as int - 'a' as int] == c; }
    if 'A' <= c <= 'F' { assert HEX_DIGITS[16 + c as int - 'A' as int] == c; }
  }

  lemma UsableMeaning(f: Firmware, url: string)
    ensures ValidArtifact(f.version, f.sha256, url) <==> Usable(f, url)
  {
    if f.sha256.Some? && |f.sha256.value| == 64 {
      var hash := f.sha256.value;
      forall i | 0 <= i < 64 ensures IsHexDigit(hash[i]) <==> hash[i] in HEX_DIGITS { HexDigits(hash[i]); }
      if forall i :: 0 <= i < 64 ==> IsHexDigit(hash[i]) {
        forall c | c in hash ensures c in HEX_DIGITS { var i :| 0 <= i < 64 && hash[i] == c; }
      }
    }
  }

  /** The firmware's own link if it is a secure one, else the link granted for this deployment. */
  function LinkFor(f: Firmware, grant: string): string { if "https://" <= f.url then f.url else grant }

  /** Which answer a trigger gives. */
  predicate TriggerAnswers(db: Db, device: DeviceKey, firmware: int, grant: string, outcome: Outcome) {
    var key := FirmwareKey(device.tenant, firmware);
    if device !in db.devices then outcome == DeviceNotFound
    else if key !in db.firmware then outcome == FirmwareNotFound
    else
      var f := db.firmware[key];
      if device !in db.contracts || db.contracts[device] != f.revision || f.revision == "" then outcome == Incompatible
      else if !Usable(f, LinkFor(f, grant)) then outcome == InvalidArtifact
      else if device !in db.shadows || db.shadows[device].version >= I32_MAX || db.nextId > I32_MAX then outcome == Failed
      else outcome.Ready?
  }

  /** The command names the firmware, its link and hash, and the deployment. */
  predicate CommandFor(command: Json, f: Firmware, url: string, firmware: int, deployment: int) {
    && Field(command, "firmware_version") == Text(f.version)
    && Field(command, "firmware_url") == Text(url)
    && Field(command, "firmware_update_id") == Integer(firmware)
    && Field(command, "deployment_id") == Integer(deployment)
    && f.sha256.Some? && Field(command, "sha256") == Text(f.sha256.value)
  }

  /** One version up: the patch is merged into the desired side, the reported side stays, and the delta follows. */
  ghost predicate ShadowPatched(before: Shadow, after: Shadow, patch: Fields) {
    && Patched(before.desired, after.desired, patch) && FieldsOf(after.reported) == FieldsOf(before.reported)
    && Outstanding(after.desired, after.reported, after.delta) && after.version == before.version + 1
  }

  lemma ShadowPatchedMeaning(s: Shadow, patch: Fields)
    requires PatchDesired(s, patch).Updated?
    ensures ShadowPatched(s, PatchDesired(s, patch).shadow, patch)
  {
    MergeMeaning(s.desired, patch);
    DeltaMeaning(PatchDesired(s, patch).shadow.desired, PatchDesired(s, patch).shadow.reported);
  }

  /** The desired side carries the command and is otherwise as it was. */
  ghost predicate CommandStored(before: Shadow, after: Shadow, f: Firmware, url: string, firmware: int, id: int) {
    && CommandFor(Field(after.desired, "ota"), f, url, firmware, id)
    && ShadowPatched(before, after, map["ota" := Field(after.desired, "ota")])
    && (0 < id <= I32_MAX ==> Commanded(after.desired) == Some(id))
  }

  lemma CommandStoredMeaning(s: Shadow, patch: Fields, f: Firmware, url: string, firmware: int, id: int)
    requires f.sha256.Some? && patch == map[OTA := Command(f, url, firmware, id)] && PatchDesired(s, patch).Updated?
    ensures CommandStored(s, PatchDesired(s, patch).shadow, f, url, firmware, id)
  {
    ShadowPatchedMeaning(s, patch);
    MergeAt(FieldsOf(s.desired), patch, OTA);
  }

  /** One row more, pending; the device's unfinished rows have failed, and every other row is as it was. */
  predicate RowsSuperseded(before: map<int, Deployment>, after: map<int, Deployment>, device: DeviceKey, firmware: int, id: int) {
    && after.Keys == before.Keys + {id} && after[id] == Deployment(device, firmware, "pending")
    && forall j :: j in before && j != id ==>
         after[j] == if before[j].device == device && !Final(before[j].status) then before[j].(status := "failed") else before[j]
  }

  /** A trigger: a new pending row, commanded; the device's other rows finished, other devices untouched; or nothing. */
  ghost predicate TriggerMeans(before: Db, after: Db, device: DeviceKey, firmware: int, grant: string, outcome: Outcome) {
    if outcome.Ready? then
      var id, key := before.nextId, FirmwareKey(device.tenant, firmware);
      && RowsSuperseded(before.deployments, after.deployments, device, firmware, id)
      && device in before.shadows && device in after.shadows && key in before.firmware
      && var was, now := before.shadows[device], after.shadows[device];
      && CommandStored(was, now, before.firmware[key], LinkFor(before.firmware[key], grant), firmware, id)
      && outcome == Ready(now.delta, now.version)
      && after == before.(deployments := after.deployments, shadows := before.shadows[device := now], nextId := id + 1)
    else after == before.(nextId := after.nextId) && before.nextId <= after.nextId <= before.nextId + 1
  }

  lemma TriggeredExactly(db: Db, device: DeviceKey, firmware: int, grant: string)
    ensures TriggerAnswers(db, device, firmware, grant, Trigger(db, device, firmware, grant).1)
  {
    var key := FirmwareKey(device.tenant, firmware);
    if key in db.firmware { UsableMeaning(db.firmware[key], LinkFor(db.firmware[key], grant)); }
  }

  lemma TriggerMeaning(db: Db, device: DeviceKey, firmware: int, grant: string)
    ensures var (after, outcome) := Trigger(db, device, firmware, grant);
            TriggerMeans(db, after, device, firmware, grant, outcome)
  {
    if Trigger(db, device, firmware, grant).1.Ready? {
      var f := db.firmware[FirmwareKey(device.tenant, firmware)];
      CommandStoredMeaning(db.shadows[device], CommandPatch(db, device, firmware, grant), f, ArtifactUrl(f, grant), firmware, db.nextId);
    }
  }

  /** A device that is registered, assigned a revision and has usable firmware of it can be deployed to. */
  lemma ProvisionedDeviceIsReady(db: Db, device: DeviceKey, firmware: int, f: Firmware, grant: string)
    requires device !in db.devices && device !in db.shadows && FirmwareKey(device.tenant, firmware) !in db.firmware
    requires f.revision != "" && Usable(f, LinkFor(f, grant)) && db.nextId <= I32_MAX
    ensures var registered := Register(db, device).0;
            var assigned' := AssignContract(registered, device, f.revision).0;
            var uploaded := Upload(assigned', FirmwareKey(device.tenant, firmware), f).0;
            Trigger(uploaded, device, firmware, grant).1.Ready?
  {
    UsableMeaning(f, LinkFor(f, grant));
  }

  /** The report is for a row of the device, for its firmware, and goes forward. */
  predicate Reportable(db: Db, device: DeviceKey, id: int, firmware: Option<int>, status: string) {
    && id in db.deployments && db.deployments[id].device == device && firmware == Some(db.deployments[id].firmware)
    && TransitionAllowed(db.deployments[id].status, status)
  }

  /** The report finishes the deployment that the device is commanded to carry out. */
  predicate Withdraws(db: Db, device: DeviceKey, id: int, status: string) {
    device in db.shadows && Final(status) && Commanded(db.shadows[device].desired) == Some(id)
  }

  /** Which answer a report gets. */
  predicate ReportAnswers(db: Db, device: DeviceKey, id: int, firmware: Option<int>, status: string, outcome: Outcome) {
    if device !in db.shadows then outcome == Failed
    else if !Reportable(db, device, id, firmware, status) then outcome == Ignored
    else if Withdraws(db, device, id, status) && db.shadows[device].version >= I32_MAX then outcome == Failed
    else outcome == Stored
  }

  /** A report: only its own row moves, only its own command is withdrawn, and a refusal changes nothing. */
  ghost predicate ReportMeans(before: Db, after: Db, device: DeviceKey, id: int, status: string, outcome: Outcome) {
    if outcome != Stored then after == before
    else
      && id in before.deployments && device in before.shadows
      && after == before.(deployments := before.deployments[id := before.deployments[id].(status := status)], shadows := after.shadows)
      && (if Withdraws(before, device, id, status) then
            && device in after.shadows && after.shadows == before.shadows[device := after.shadows[device]]
            && ShadowPatched(before.shadows[device], after.shadows[device], map["ota" := Null])
            && Commanded(after.shadows[device].desired) == None
          else after.shadows == before.shadows)
  }

  lemma ReportMeaning(db: Db, device: DeviceKey, id: int, firmware: Option<int>, status: string)
    ensures var (after, outcome) := ApplyStatus(db, device, id, firmware, status);
            ReportAnswers(db, device, id, firmware, status, outcome) && ReportMeans(db, after, device, id, status, outcome)
  {
    if device in db.shadows && Accepts(db, device, id, firmware, status) {
      TerminalStatuses(status);
      if PatchDesired(db.shadows[device], map[OTA := Null]).Updated? {
        ShadowPatchedMeaning(db.shadows[device], map[OTA := Null]);
        MergeAt(FieldsOf(db.shadows[device].desired), map[OTA := Null], OTA);
      }
    }
  }

  /** The tables as the repositories update them in place. */
  class DeviceRepository {
    var devices: set<DeviceKey>
    var contracts: map<DeviceKey, string>
    var firmware: map<FirmwareKey, Firmware>
    var shadows: map<DeviceKey, Shadow>
    var deployments: map<int, Deployment>
    var nextId: int

    function View(): Db
      reads this
    {
      Db(devices, contracts, firmware, shadows, deployments, nextId)
    }

    constructor (db: Db)
      ensures View() == db
    {
      devices, contracts, firmware := db.devices, db.contracts, db.firmware;
      shadows, deployments, nextId := db.shadows, db.deployments, db.nextId;
    }

    /** The patch is merged into the desired side, one version up and the command as it was, or nothing changes. */
    method SetDesired(device: DeviceKey, patch: Fields) returns (outcome: Outcome)
      modifies this
      ensures (View(), outcome) == UpdateDesired(old(View()), device, patch)
      ensures ShadowStored(old(View()), View(), device, outcome)
      ensures if "ota" in patch then outcome == Reserved else ShadowAnswers(old(View()), device, outcome)
      ensures outcome == Stored ==>
                && Patched(old(shadows)[device].desired, shadows[device].desired, patch)
                && FieldsOf(shadows[device].reported) == FieldsOf(old(shadows)[device].reported)
                && Outstanding(shadows[device].desired, shadows[device].reported, shadows[device].delta)
      ensures device in shadows ==> Commanded(shadows[device].desired) == Commanded(old(shadows)[device].desired)
    {
      UpdateDesiredMeaning(View(), device, patch);
      if OTA in patch { return Reserved; }
      if device !in shadows { return DeviceNotFound; }
      var r := ApplyDesiredPatch(shadows[device], patch);
      if r.VersionOverflow? { return Failed; }
      shadows := shadows[device := r.shadow];
      return Stored;
    }

    /** The patch is merged into the reported side, one version up, or nothing changes. */
    method SetReported(device: DeviceKey, patch: Fields) returns (outcome: Outcome)
      modifies this
      ensures (View(), outcome) == UpdateReported(old(View()), device, patch)
      ensures ShadowStored(old(View()), View(), device, outcome) && ShadowAnswers(old(View()), device, outcome)
      ensures outcome == Stored ==>
                && Patched(old(shadows)[device].reported, shadows[device].reported, patch)
                && FieldsOf(shadows[device].desired) == FieldsOf(old(shadows)[device].desired)
                && Outstanding(shadows[device].desired, shadows[device].reported, shadows[device].delta)
    {
      UpdateReportedMeaning(View(), device, patch);
      if device !in shadows { return DeviceNotFound; }
      var r := ApplyReportedPatch(shadows[device], patch);
      if r.VersionOverflow? { return Failed; }
      shadows := shadows[device := r.shadow];
      return Stored;
    }

    /** Both sides and the delta are empty and the version one up, or nothing changes. */
    method Reset(device: DeviceKey) returns (outcome: Outcome)
      modifies this
      ensures (View(), outcome) == ResetDevice(old(View()), device)
      ensures ShadowStored(old(View()), View(), device, outcome) && ShadowAnswers(old(View()), device, outcome)
      ensures outcome == Stored ==>
                && shadows[device].desired == Object(map[]) && shadows[device].reported == Object(map[]) && shadows[device].delta == Object(map[])
                && Commanded(shadows[device].desired).None?
    {
      ResetMeaning(View(), device);
      if device !in shadows { return DeviceNotFound; }
      var r := ApplyReset(shadows[device]);
      if r.VersionOverflow? { return Failed; }
      shadows := shadows[device := r.shadow];
      return Stored;
    }

    /**
     * Says exactly when a deployment is started. The device is then commanded to carry it out, with the firmware's
     * version, link and hash, its other live rows have failed, and other devices are untouched; otherwise no row
     * and no shadow changes.
     */
    method TriggerOta(device: DeviceKey, firmwareId: int, grant: string) returns (outcome: Outcome)
      modifies this
      ensures (View(), outcome) == Trigger(old(View()), device, firmwareId, grant)
      ensures TriggerAnswers(old(View()), device, firmwareId, grant, outcome)
      ensures TriggerMeans(old(View()), View(), device, firmwareId, grant, outcome)
    {
      TriggerMeaning(View(), device, firmwareId, grant);
      TriggeredExactly(View(), device, firmwareId, grant);
      var obstacle := Obstacle(View(), device, firmwareId, grant);
      if obstacle.Some? { return obstacle.value; }
      if nextId > I32_MAX { return Failed; }
      var saved := deployments;
      var patch := CommandPatch(View(), device, firmwareId, grant);
      deployments := Supersede(deployments, device);
      deployments := deployments[nextId := Deployment(device, firmwareId, "pending")];
      nextId := nextId + 1;
      var r := ApplyDesiredPatch(shadows[device], patch);
      if r.VersionOverflow? {
        deployments := saved;
        return Failed;
      }
      shadows := shadows[device := r.shadow];
      return Ready(r.shadow.delta, r.shadow.version);
    }

    /** Only the reported row moves, forward; a final report withdraws its own command; a refusal changes nothing. */
    method ReportStatus(device: DeviceKey, id: int, firmwareId: Option<int>, status: string) returns (outcome: Outcome)
      modifies this
      ensures (View(), outcome) == ApplyStatus(old(View()), device, id, firmwareId, status)
      ensures ReportAnswers(old(View()), device, id, firmwareId, status, outcome)
      ensures ReportMeans(old(View()), View(), device, id, status, outcome)
    {
      ReportMeaning(View(), device, id, firmwareId, status);
      if device !in shadows { return Failed; }
      if !Accepts(View(), device, id, firmwareId, status) { return Ignored; }
      var saved := deployments;
      deployments := deployments[id := deployments[id].(status := status)];
      if IsTerminal(status) && Commanded(shadows[device].desired) == Some(id) {
        var r := ApplyDesiredPatch(shadows[device], map[OTA := Null]);
        if r.VersionOverflow? {
          deployments := saved;
          return Failed;
        }
        shadows := shadows[device := r.shadow];
      }
      return Stored;
    }

    /** Nothing deploys or refers to the firmware afterwards; every other deployment and every shadow stays as it is. */
    method RemoveFirmware(tenant: string, firmwareId: int) returns (outcome: Outcome)
      modifies this
      ensures (View(), outcome) == DeleteFirmware(old(View()), tenant, firmwareId)
      ensures outcome == Stored <==> FirmwareKey(tenant, firmwareId) in old(firmware)
      ensures forall device: DeviceKey, grant: string :: device.tenant == tenant ==> !Trigger(View(), device, firmwareId, grant).1.Ready?
      ensures shadows == old(shadows) && forall id :: id in deployments ==> id in old(deployments) && deployments[id] == old(deployments)[id]
      ensures outcome == Stored ==> forall id :: id in old(deployments) ==>
                (id !in deployments <==> old(deployments)[id].device.tenant == tenant && old(deployments)[id].firmware == firmwareId)
    {
      if FirmwareKey(tenant, firmwareId) !in firmware { return FirmwareNotFound; }
      firmware := firmware - {FirmwareKey(tenant, firmwareId)};
      deployments := map id | id in deployments && !(deployments[id].device.tenant == tenant && deployments[id].firmware == firmwareId)
        :: deployments[id];
      return Stored;
    }
  }
}
