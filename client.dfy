/** The per-cycle bookkeeping of the dataplicity agent's `Client`: the disk-poll timer, the
    one-shot metadata flag, the batches each cycle builds, the run loop and the m2m identity
    announcement. The clock, the probes, the random draws and the transport are inputs. */
module DataplicityClient {
  import opened PyModel
  import opened JsonRpcBatch
  import opened DiskSchedule

  const DeviceClass := "tuxtunnel"
  const AuthResult := "authenticate_result"
  const CheckAuth := "device.check_auth"
  const DiskSpaceResult := "set_disk_space_result"
  const SetDiskSpace := "device.set_disk_space"
  const AssociateResult := "associate_result"
  const Associate := "m2m.associate"

  /** The result names of the four metadata calls, in the order they are queued and checked. */
  const MetaResultNames: seq<string> :=
    ["set_agent_version_result", "set_machine_type_result", "set_os_version_result", "set_uname_result"]
  const MetaMethods: seq<string> :=
    ["device.set_agent_version", "device.set_machine_type", "device.set_os_version", "device.set_uname"]

  const SyncIdLength := 12

  /** What `device_meta.get_meta()` reports; the machine type may be missing or empty. */
  datatype Meta = Meta(agentVersion: string, machineType: Value, osVersion: string, uname: string)

  /** What `disk_usage('/')` reports, in bytes. */
  datatype DiskUsage = DiskUsage(total: int, used: int)

  /** Everything one `poll` takes from outside: the clock, the disk probe, the transport's
      replies to the disk batch, the random draws for the sync id, the metadata probe and the
      transport's replies to the sync batch. */
  datatype PollEnv = PollEnv(
    now: int,
    disk: Result<DiskUsage>,
    diskReplies: Replies,
    draws: nat -> nat,
    meta: Result<Meta>,
    syncReplies: Replies)

  // ----- Sync id -----

  /** `make_sync_id`: twelve letters, the i-th picked by the i-th random draw. */
  function MakeSyncId(draws: nat -> nat): (id: string)
    ensures |id| == SyncIdLength
    ensures forall i :: 0 <= i < |id| ==> 'a' <= id[i] <= 'z'
  {
    seq(SyncIdLength, (i: int) requires 0 <= i => ('a' as int + draws(i) % 26) as char)
  }

  /** Every twelve-letter lower-case string is a possible sync id. */
  lemma MakeSyncIdCovers(id: string)
    requires |id| == SyncIdLength
    requires forall i :: 0 <= i < |id| ==> 'a' <= id[i] <= 'z'
    ensures exists draws: nat -> nat :: MakeSyncId(draws) == id
  {
    var draws := (i: nat) => if i < |id| then id[i] as int - 'a' as int else 0;
    assert MakeSyncId(draws) == id;
  }

  // ----- The calls a batch is built from -----

  function TokenValue(authToken: Option<string>): Value {
    if authToken.Some? then Str(authToken.value) else Null
  }

  /** The keyword arguments of `device.check_auth`. */
  function AuthArgs(serial: string, authToken: Option<string>): map<string, Value> {
    map["device_class" := Str(DeviceClass), "serial" := Str(serial), "auth_token" := TokenValue(authToken)]
  }

  /** The four metadata calls queued by `_sync_meta`. */
  function MetaCalls(m: Meta): (r: seq<Call>)
    ensures |r| == 4 && DistinctNames(r)
    ensures forall i :: 0 <= i < 4 ==> r[i].resultName == MetaResultNames[i] && r[i].rpcMethod == MetaMethods[i]
    ensures r[0].args == map["agent_version" := Str(m.agentVersion)]
    ensures r[2].args == map["os_version" := Str(m.osVersion)]
    ensures r[3].args == map["uname" := Str(m.uname)]
    ensures r[1].args.Keys == {"machine_type"} && Truthy(r[1].args["machine_type"])
    ensures Truthy(m.machineType) ==> r[1].args["machine_type"] == m.machineType
    ensures !Truthy(m.machineType) ==> r[1].args["machine_type"] == Str("other")
  {
    [ Call(MetaResultNames[0], MetaMethods[0], map["agent_version" := Str(m.agentVersion)]),
      Call(MetaResultNames[1], MetaMethods[1], map["machine_type" := Or(m.machineType, Str("other"))]),
      Call(MetaResultNames[2], MetaMethods[2], map["os_version" := Str(m.osVersion)]),
      Call(MetaResultNames[3], MetaMethods[3], map["uname" := Str(m.uname)]) ]
  }

  /** The batch `_sync` builds: `check_auth` with the sync id first, then the metadata calls when
      the flag is clear and the metadata probe succeeded. */
  function SyncBatchCalls(serial: string, authToken: Option<string>, syncId: string, sentMeta: bool, meta: Result<Meta>): (r: seq<Call>)
    ensures |r| == if !sentMeta && meta.Success? then 5 else 1
    ensures r[0].resultName == AuthResult && r[0].rpcMethod == CheckAuth
    ensures r[0].args.Keys == {"device_class", "serial", "auth_token", "sync_id"} && r[0].args["device_class"] == Str(DeviceClass)
    ensures r[0].args["serial"] == Str(serial) && r[0].args["auth_token"] == TokenValue(authToken)
    ensures r[0].args["sync_id"] == Str(syncId)
    ensures |r| == 5 ==> r[1..] == MetaCalls(meta.value)
    ensures forall i :: 1 <= i < |r| ==> r[i].rpcMethod != CheckAuth
    ensures DistinctNames(r)
  {
    [Call(AuthResult, CheckAuth, AuthArgs(serial, authToken)["sync_id" := Str(syncId)])]
    + (if !sentMeta && meta.Success? then MetaCalls(meta.value) else [])
  }

  /** The batch `disk_poll` builds: `check_auth`, then `set_disk_space` with the probe's figures. */
  function DiskBatchCalls(serial: string, authToken: Option<string>, d: DiskUsage): (r: seq<Call>)
    ensures |r| == 2 && DistinctNames(r)
    ensures r[0].resultName == AuthResult && r[0].rpcMethod == CheckAuth
    ensures r[0].args.Keys == {"device_class", "serial", "auth_token"} && r[0].args["device_class"] == Str(DeviceClass)
    ensures r[0].args["serial"] == Str(serial) && r[0].args["auth_token"] == TokenValue(authToken)
    ensures r[1].resultName == DiskSpaceResult && r[1].rpcMethod == SetDiskSpace
    ensures r[1].args == map["disk_capacity" := Int(d.total), "disk_used" := Int(d.used)]
  {
    [ Call(AuthResult, CheckAuth, AuthArgs(serial, authToken)),
      Call(DiskSpaceResult, SetDiskSpace, map["disk_capacity" := Int(d.total), "disk_used" := Int(d.used)]) ]
  }

  /** The batch `set_m2m_identity` builds: `check_auth`, then `m2m.associate`; a falsy identity is sent as ''. */
  function M2mBatchCalls(serial: string, authToken: Option<string>, identity: Value): (r: seq<Call>)
    ensures |r| == 2 && DistinctNames(r)
    ensures r[0].resultName == AuthResult && r[0].rpcMethod == CheckAuth
    ensures r[0].args.Keys == {"device_class", "serial", "auth_token"} && r[0].args["device_class"] == Str(DeviceClass)
    ensures r[0].args["serial"] == Str(serial) && r[0].args["auth_token"] == TokenValue(authToken)
    ensures r[1].resultName == AssociateResult && r[1].rpcMethod == Associate
    ensures r[1].args.Keys == {"identity"}
    ensures Truthy(identity) ==> r[1].args["identity"] == identity
    ensures !Truthy(identity) ==> r[1].args["identity"] == Str("")
  {
    [ Call(AuthResult, CheckAuth, AuthArgs(serial, authToken)),
      Call(AssociateResult, Associate, map["identity" := Or(identity, Str(""))]) ]
  }

  // ----- How exceptions are turned into results -----

  /** `sync`: an `Exception` raised by `_sync` is logged and swallowed; anything else goes on. */
  function Isolate(s: Status): (r: Status)
    ensures r.Raised? ==> r == s && !IsException(r.exc)
    ensures s.Raised? && !IsException(s.exc) ==> r == s
    ensures s == Done ==> r == Done
  {
    if s.Raised? && IsException(s.exc) then Done else s
  }

  /** `run_forever`: `SystemExit` and `KeyboardInterrupt` end the run with a normal return;
      any other exception leaves it (after `close`). */
  function RunExit(s: Status): (r: Status)
    ensures r == Done <==> (s == Done || s == Raised(SystemExit) || s == Raised(KeyboardInterrupt))
    ensures r.Raised? ==> r == s
  {
    match s
    case Raised(SystemExit) => Done
    case Raised(KeyboardInterrupt) => Done
    case _ => s
  }

  /** The transport acknowledged both calls of the identity batch. */
  predicate M2mAcknowledged(rp: Replies) {
    rp.sendFault.None? && AuthResult !in rp.resultFaults && AssociateResult !in rp.resultFaults
  }

  /** The outcome of `set_m2m_identity`. Without an auth token the access to `disable_sync`,
      which `Client` does not define, raises. Otherwise it never raises, and it returns the
      identity exactly when both calls were acknowledged, `None` otherwise. */
  function M2mOutcome(authToken: Option<string>, identity: Value, rp: Replies): (r: Outcome<Value>)
    ensures authToken.None? ==> r == Raised(AttributeError("disable_sync"))
    ensures authToken.Some? ==> r.Returned?
    ensures authToken.Some? && M2mAcknowledged(rp) ==> r == Returned(identity)
    ensures authToken.Some? && !M2mAcknowledged(rp) ==> r == Returned(Null)
  {
    // Whatever is raised inside the `try` gives `None`: a remote fault is logged at error
    // severity, an unreachable server at debug severity, and the bare `except:` takes the rest.
    if authToken.None? then Raised(AttributeError("disable_sync"))
    else if rp.sendFault.Some? then Returned(Null)
    else if AuthResult in rp.resultFaults then Returned(Null)
    else if AssociateResult in rp.resultFaults then Returned(Null)
    else Returned(identity)
  }

  /** The outcome of `disk_poll`: nothing happens unless the report is due; then the disk probe
      or the send of the batch may raise. */
  function DiskPollStatus(now: int, nextDue: int, disk: Result<DiskUsage>, rp: Replies): Status {
    if !DiskPollDue(now, nextDue) then Done
    else if disk.Failure? then Raised(disk.error)
    else SendStatus(rp)
  }

  /** The batch `disk_poll` opens, as a value: one when the report is due and the probe
      succeeded, sent exactly when its send did not raise; none otherwise. */
  function DiskPollViews(serial: string, authToken: Option<string>, now: int, nextDue: int,
                         disk: Result<DiskUsage>, rp: Replies): (r: seq<BatchView>)
    ensures |r| == if DiskPollDue(now, nextDue) && disk.Success? then 1 else 0
    ensures |r| == 1 ==> r[0] == BatchView(DiskBatchCalls(serial, authToken, disk.value), false, rp.sendFault.None?)
  {
    if DiskPollDue(now, nextDue) && disk.Success? then
      [BatchView(DiskBatchCalls(serial, authToken, disk.value), false, rp.sendFault.None?)]
    else []
  }

  /** The batch `_sync` opens, as a value: always abandoned, never sent. */
  function SyncView(serial: string, authToken: Option<string>, draws: nat -> nat, sentMeta: bool, meta: Result<Meta>): BatchView {
    BatchView(SyncBatchCalls(serial, authToken, MakeSyncId(draws), sentMeta, meta), true, false)
  }

  /** The batches one `poll` opens, as values, given the due time and the metadata flag in
      force: the disk batch, if any, then the sync batch unless the disk poll raised. */
  function PollViews(serial: string, authToken: Option<string>, env: PollEnv, nextDue: int, sentMeta: bool): seq<BatchView> {
    DiskPollViews(serial, authToken, env.now, nextDue, env.disk, env.diskReplies)
    + (if DiskPollStatus(env.now, nextDue, env.disk, env.diskReplies) == Done
       then [SyncView(serial, authToken, env.draws, sentMeta, env.meta)] else [])
  }

  /** The batch starts with `check_auth`, and if it was sent it carries no metadata call. */
  predicate AuthFirstNoMetaSent(v: BatchView) {
    && |v.calls| > 0 && v.calls[0].rpcMethod == CheckAuth
    && (v.sent ==> forall c :: c in v.calls ==> c.rpcMethod !in MetaMethods)
  }

  /** A poll opens at most two batches; each starts with `check_auth`, and none that was sent
      carries metadata. */
  lemma PollViewsShape(serial: string, authToken: Option<string>, env: PollEnv, nextDue: int, sentMeta: bool)
    ensures |PollViews(serial, authToken, env, nextDue, sentMeta)| <= 2
    ensures forall v :: v in PollViews(serial, authToken, env, nextDue, sentMeta) ==> AuthFirstNoMetaSent(v)
  {
  }

  /** The batches the first `n` polls of a run open: the k-th poll, made in `envs[k]` with due
      time `dues[k]` in force, opens the group `groups[k]`. */
  predicate PollsOpened(serial: string, authToken: Option<string>, envs: seq<PollEnv>, n: nat, dues: seq<int>,
                        sentMeta: bool, groups: seq<seq<BatchView>>) {
    && n == |groups| <= |envs| && n <= |dues|
    && forall k {:trigger groups[k]} :: 0 <= k < n ==> groups[k] == PollViews(serial, authToken, envs[k], dues[k], sentMeta)
  }

  /** Over a whole run, every batch opened starts with `check_auth`, and no batch that was sent
      carries metadata: as written, metadata never leaves the device. */
  lemma {:induction false} RunBatchesShape(serial: string, authToken: Option<string>, envs: seq<PollEnv>, n: nat,
                                           dues: seq<int>, sentMeta: bool, groups: seq<seq<BatchView>>)
    requires PollsOpened(serial, authToken, envs, n, dues, sentMeta, groups)
    ensures forall v :: v in Concat(groups) ==> AuthFirstNoMetaSent(v)
    decreases |groups|
  {
    if groups != [] {
      PollViewsShape(serial, authToken, envs[0], dues[0], sentMeta);
      assert PollsOpened(serial, authToken, envs[1..], n - 1, dues[1..], sentMeta, groups[1..]);
      RunBatchesShape(serial, authToken, envs[1..], n - 1, dues[1..], sentMeta, groups[1..]);
    }
  }

  /** The environments of a run in the order they are used. */
  function Schedule(first: PollEnv, later: seq<PollEnv>): seq<PollEnv> {
    [first] + later
  }

  /** The clock readings of a sequence of poll environments. */
  function PollTimes(envs: seq<PollEnv>): seq<int> {
    seq(|envs|, (k: int) requires 0 <= k < |envs| => envs[k].now)
  }

  /** The due times `dues` were kept by re-arming along the first `n` polls of `envs`. */
  predicate RearmedAlong(rate: int, envs: seq<PollEnv>, n: nat, dues: seq<int>) {
    && n <= |envs| && |dues| == n + 1
    && forall k {:trigger envs[k]} :: 0 <= k < n ==> dues[k + 1] == NextDue(envs[k].now, dues[k], rate)
  }

  /** Re-arming along the polls of a run is re-arming along their clock readings, so the
      schedule lemmas apply to a run: the polls at which a report was due are the schedule's
      report times, and consecutive ones are at least one interval apart. */
  lemma RunDueTimes(rate: int, envs: seq<PollEnv>, n: nat, dues: seq<int>)
    requires RearmedAlong(rate, envs, n, dues)
    ensures Rearmed(rate, PollTimes(envs[..n]), dues)
    ensures DueTimes(PollTimes(envs[..n]), dues) == ReportTimes(dues[0], rate, PollTimes(envs[..n]))
    ensures forall k :: 0 <= k < |DueTimes(PollTimes(envs[..n]), dues)| - 1 ==>
      DueTimes(PollTimes(envs[..n]), dues)[k] + rate <= DueTimes(PollTimes(envs[..n]), dues)[k + 1]
  {
    var nows := PollTimes(envs[..n]);
    assert forall k :: 0 <= k < n ==> nows[k] == envs[k].now;
    RearmedDueTimes(rate, nows, dues);
    RearmedReportsSpaced(rate, nows, dues);
  }

  /** The trace of the first `n` polls of a run made in the environments `envs`: `dues` holds
      the due time in force at each poll, kept by re-arming, followed by the one left after them;
      `outcomes[k]` is what the k-th poll returned and `groups[k]` the batches it opened, given
      the metadata flag `sentMeta`. */
  predicate Traced(serial: string, authToken: Option<string>, rate: int, envs: seq<PollEnv>, n: nat,
                   outcomes: seq<Status>, dues: seq<int>, sentMeta: bool, groups: seq<seq<BatchView>>) {
    && n == |outcomes|
    && RearmedAlong(rate, envs, n, dues)
    && (forall k {:trigger outcomes[k]} :: 0 <= k < n ==>
          outcomes[k] == DiskPollStatus(envs[k].now, dues[k], envs[k].disk, envs[k].diskReplies))
    && PollsOpened(serial, authToken, envs, n, dues, sentMeta, groups)
  }

  /** One more poll extends a re-armed trace by the due time it leaves. */
  lemma RearmedAlongSnoc(rate: int, envs: seq<PollEnv>, n: nat, dues: seq<int>)
    requires RearmedAlong(rate, envs, n, dues) && n < |envs|
    ensures RearmedAlong(rate, envs, n + 1, dues + [NextDue(envs[n].now, dues[n], rate)])
  {
    var dues' := dues + [NextDue(envs[n].now, dues[n], rate)];
    forall k | 0 <= k < n + 1 ensures dues'[k + 1] == NextDue(envs[k].now, dues'[k], rate) {
      if k < n {
        assert dues'[k] == dues[k] && dues'[k + 1] == dues[k + 1];
      }
    }
  }

  /** One more poll extends the batches a run opened by the group it opens. */
  lemma PollsOpenedSnoc(serial: string, authToken: Option<string>, envs: seq<PollEnv>, n: nat, dues: seq<int>,
                        d: int, sentMeta: bool, groups: seq<seq<BatchView>>)
    requires PollsOpened(serial, authToken, envs, n, dues, sentMeta, groups) && n < |envs| && n < |dues|
    ensures PollsOpened(serial, authToken, envs, n + 1, dues + [d], sentMeta,
                        groups + [PollViews(serial, authToken, envs[n], dues[n], sentMeta)])
  {
    var dues', groups' := dues + [d], groups + [PollViews(serial, authToken, envs[n], dues[n], sentMeta)];
    assert forall k :: 0 <= k < n ==> dues'[k] == dues[k] && groups'[k] == groups[k];
  }

  /** The next poll of a run extends its trace by its outcome, the due time it leaves and the
      batches it opens. */
  lemma TracedSnoc(serial: string, authToken: Option<string>, rate: int, envs: seq<PollEnv>, n: nat,
                   outcomes: seq<Status>, dues: seq<int>, sentMeta: bool, groups: seq<seq<BatchView>>)
    requires Traced(serial, authToken, rate, envs, n, outcomes, dues, sentMeta, groups) && n < |envs|
    ensures Traced(serial, authToken, rate, envs, n + 1,
                   outcomes + [DiskPollStatus(envs[n].now, dues[n], envs[n].disk, envs[n].diskReplies)],
                   dues + [NextDue(envs[n].now, dues[n], rate)], sentMeta,
                   groups + [PollViews(serial, authToken, envs[n], dues[n], sentMeta)])
  {
    RearmedAlongSnoc(rate, envs, n, dues);
    PollsOpenedSnoc(serial, authToken, envs, n, dues, NextDue(envs[n].now, dues[n], rate), sentMeta, groups);
    var dues' := dues + [NextDue(envs[n].now, dues[n], rate)];
    var outcomes' := outcomes + [DiskPollStatus(envs[n].now, dues[n], envs[n].disk, envs[n].diskReplies)];
    assert forall k :: 0 <= k < n ==> dues'[k] == dues[k] && outcomes'[k] == outcomes[k];
  }

  /** With an interval that is not negative, re-arming never moves the due time back, whatever
      the clock does. */
  lemma {:induction false} DuesGrow(rate: int, envs: seq<PollEnv>, n: nat, dues: seq<int>, i: nat, j: nat)
    requires RearmedAlong(rate, envs, n, dues) && rate >= 0 && i <= j <= n
    ensures dues[i] <= dues[j]
    decreases j - i
  {
    if i < j {
      DuesGrow(rate, envs, n, dues, i, j - 1);
      assert dues[j] == NextDue(envs[j - 1].now, dues[j - 1], rate);
    }
  }

  /** With an interval that is not negative, any two polls of a run at which a disk report was
      due, consecutive or not, are at least one interval apart, however irregular the clock; so
      in particular are any two polls that opened a disk batch (a due poll whose probe raised
      re-arms the timer but opens none). */
  lemma RunDiskPollsSpaced(serial: string, authToken: Option<string>, rate: int, envs: seq<PollEnv>, n: nat,
                           dues: seq<int>)
    requires RearmedAlong(rate, envs, n, dues) && rate >= 0
    ensures forall k, j :: 0 <= k < j < n && DiskPollDue(envs[k].now, dues[k]) && DiskPollDue(envs[j].now, dues[j]) ==>
      envs[k].now + rate <= envs[j].now
    ensures forall k, j ::
      (&& 0 <= k < j < n
       && DiskPollViews(serial, authToken, envs[k].now, dues[k], envs[k].disk, envs[k].diskReplies) != []
       && DiskPollViews(serial, authToken, envs[j].now, dues[j], envs[j].disk, envs[j].diskReplies) != [])
      ==> envs[k].now + rate <= envs[j].now
  {
    forall k, j | 0 <= k < j < n && DiskPollDue(envs[k].now, dues[k]) && DiskPollDue(envs[j].now, dues[j])
      ensures envs[k].now + rate <= envs[j].now
    {
      DuesGrow(rate, envs, n, dues, k + 1, j);
      assert dues[k + 1] == NextDue(envs[k].now, dues[k], rate);
    }
  }

  // ----- The client -----

  class Client {
    const serial: string
    const authToken: Option<string>
    const diskPollRateSeconds: int
    var nextDiskPollTime: int
    var sentMeta: bool
    var exitEvent: bool
    /** What every batch the client has opened held when its `with` block ended, oldest first. */
    var batches: seq<BatchView>
    /** `_sync_lock` is held. */
    ghost var syncLocked: bool
    ghost var pollCalls: nat
    ghost var closeCalls: nat

    /** The state left by the configuration step: the timer is due at construction time and
        metadata has not been sent. */
    constructor (serial: string, authToken: Option<string>, diskPollRateSeconds: int, now: int)
      ensures this.serial == serial && this.authToken == authToken
      ensures this.diskPollRateSeconds == diskPollRateSeconds
      ensures nextDiskPollTime == now && !sentMeta && !exitEvent && batches == []
      ensures !syncLocked && pollCalls == 0 && closeCalls == 0
    {
      this.serial := serial;
      this.authToken := authToken;
      this.diskPollRateSeconds := diskPollRateSeconds;
      nextDiskPollTime := now;
      sentMeta := false;
      exitEvent := false;
      batches := [];
      syncLocked := false;
      pollCalls := 0;
      closeCalls := 0;
    }

    /** `close`: does nothing but is counted. */
    method Close()
      modifies this
      ensures closeCalls == old(closeCalls) + 1
      ensures nextDiskPollTime == old(nextDiskPollTime) && sentMeta == old(sentMeta)
      ensures exitEvent == old(exitEvent) && batches == old(batches)
      ensures syncLocked == old(syncLocked) && pollCalls == old(pollCalls)
    {
      closeCalls := closeCalls + 1;
    }

    /** `disk_poll`: when the report is due, re-arm the timer from `now`, probe the disk and send
        one batch holding `check_auth` and `set_disk_space`; otherwise change nothing. */
    method DiskPoll(now: int, disk: Result<DiskUsage>, rp: Replies) returns (s: Status)
      modifies this
      ensures s == DiskPollStatus(now, old(nextDiskPollTime), disk, rp)
      ensures nextDiskPollTime == NextDue(now, old(nextDiskPollTime), diskPollRateSeconds)
      ensures DiskPollDue(now, old(nextDiskPollTime)) ==> nextDiskPollTime == now + diskPollRateSeconds
      ensures batches == old(batches) + DiskPollViews(serial, authToken, now, old(nextDiskPollTime), disk, rp)
      ensures sentMeta == old(sentMeta) && exitEvent == old(exitEvent)
      ensures syncLocked == old(syncLocked) && pollCalls == old(pollCalls) && closeCalls == old(closeCalls)
    {
      if !DiskPollDue(now, nextDiskPollTime) {
        return Done;
      }
      nextDiskPollTime := now + diskPollRateSeconds;
      if disk.Failure? {
        return Raised(disk.error);
      }
      var b := new Batch();
      b.CallWithId(AuthResult, CheckAuth, AuthArgs(serial, authToken));
      b.CallWithId(DiskSpaceResult, SetDiskSpace,
                   map["disk_capacity" := Int(disk.value.total), "disk_used" := Int(disk.value.used)]);
      s := b.ExitScope(rp);
      assert b.calls == DiskBatchCalls(serial, authToken, disk.value);
      batches := batches + [b.View()];
    }

    /** `_sync_meta`: with the flag set, return `False` and queue nothing; with it clear, queue the
        four metadata calls if the probe succeeded (a probe failure is logged and swallowed) and
        fall off the end, returning `None`. Either way the result is falsy. */
    method SyncMeta(b: Batch, meta: Result<Meta>) returns (r: Value)
      modifies b
      ensures !Truthy(r)
      ensures sentMeta ==> r == Bool(false) && b.calls == old(b.calls)
      ensures !sentMeta ==> r == Null
      ensures !sentMeta && meta.Success? ==> b.calls == old(b.calls) + MetaCalls(meta.value)
      ensures !sentMeta && meta.Failure? ==> b.calls == old(b.calls)
      ensures b.abandoned == old(b.abandoned) && b.sent == old(b.sent)
    {
      if sentMeta {
        return Bool(false);
      }
      if meta.Success? {
        var m := meta.value;
        b.CallWithId(MetaResultNames[0], MetaMethods[0], map["agent_version" := Str(m.agentVersion)]);
        b.CallWithId(MetaResultNames[1], MetaMethods[1], map["machine_type" := Or(m.machineType, Str("other"))]);
        b.CallWithId(MetaResultNames[2], MetaMethods[2], map["os_version" := Str(m.osVersion)]);
        b.CallWithId(MetaResultNames[3], MetaMethods[3], map["uname" := Str(m.uname)]);
      }
      r := Null;
    }

    /** `_check_meta`: a no-op once metadata is sent; otherwise the flag is set exactly when `check`
        on the four metadata results succeeds. When `check` raises an `Exception`, the handler's
        access to `self.log`, which `Client` does not define, raises in its place. */
    method CheckMeta(rp: Replies) returns (s: Status)
      modifies this
      ensures old(sentMeta) ==> sentMeta && s == Done
      ensures !old(sentMeta) ==> (sentMeta <==> rp.checkFault.None?)
      ensures !old(sentMeta) && rp.checkFault.None? ==> s == Done
      ensures !old(sentMeta) && rp.checkFault.Some? ==>
        s == Raised(if IsException(rp.checkFault.value) then AttributeError("log") else rp.checkFault.value)
      ensures nextDiskPollTime == old(nextDiskPollTime) && exitEvent == old(exitEvent) && batches == old(batches)
      ensures syncLocked == old(syncLocked) && pollCalls == old(pollCalls) && closeCalls == old(closeCalls)
    {
      if sentMeta {
        return Done;
      }
      match rp.checkFault
      case None =>
        sentMeta := true;
        s := Done;
      case Some(e) =>
        if IsException(e) {
          s := Raised(AttributeError("log"));
        } else {
          s := Raised(e);
        }
    }

    /** The part of `_sync` that runs after the `with` block: only a batch that was sent has its
        authentication result read and its metadata checked. */
    method VerifySent(b: Batch, rp: Replies) returns (s: Status)
      modifies this
      ensures !b.sent ==> s == Done && sentMeta == old(sentMeta)
      ensures b.sent && AuthResult in rp.resultFaults ==>
        s == Raised(rp.resultFaults[AuthResult]) && sentMeta == old(sentMeta)
      ensures b.sent && AuthResult !in rp.resultFaults && !old(sentMeta) ==>
        && (sentMeta <==> rp.checkFault.None?)
        && s == (if rp.checkFault.None? then Done
                 else Raised(if IsException(rp.checkFault.value) then AttributeError("log") else rp.checkFault.value))
      ensures b.sent && AuthResult !in rp.resultFaults && old(sentMeta) ==> s == Done
      ensures old(sentMeta) ==> sentMeta
      ensures nextDiskPollTime == old(nextDiskPollTime) && exitEvent == old(exitEvent) && batches == old(batches)
      ensures syncLocked == old(syncLocked) && pollCalls == old(pollCalls) && closeCalls == old(closeCalls)
    {
      if !b.sent {
        return Done;
      }
      s := GetResult(rp, AuthResult);
      if s.Raised? {
        return;
      }
      s := CheckMeta(rp);
    }

    /** `_sync`: opens one batch with `check_auth` first and any metadata calls after it; because
        `_sync_meta` never returns a truthy value, the batch is always abandoned, so it is never
        sent, nothing is checked, nothing raises and the metadata flag does not change. */
    method SyncOnce(draws: nat -> nat, meta: Result<Meta>, rp: Replies) returns (s: Status)
      requires syncLocked
      modifies this
      ensures s == Done
      ensures batches == old(batches) + [SyncView(serial, authToken, draws, old(sentMeta), meta)]
      ensures sentMeta == old(sentMeta) && nextDiskPollTime == old(nextDiskPollTime) && exitEvent == old(exitEvent)
      ensures syncLocked == old(syncLocked) && pollCalls == old(pollCalls) && closeCalls == old(closeCalls)
    {
      var syncId := MakeSyncId(draws);
      var b := new Batch();
      b.CallWithId(AuthResult, CheckAuth, AuthArgs(serial, authToken)["sync_id" := Str(syncId)]);
      var r := SyncMeta(b, meta);
      if !Truthy(r) {
        b.Abandon();
      }
      s := b.ExitScope(rp);
      assert b.calls == SyncBatchCalls(serial, authToken, syncId, old(sentMeta), meta);
      batches := batches + [b.View()];
      if s.Raised? {
        return;
      }
      s := VerifySent(b, rp);
    }

    /** `sync`: runs `_sync` holding the lock and swallows any `Exception` it raises. */
    method Sync(draws: nat -> nat, meta: Result<Meta>, rp: Replies) returns (s: Status)
      requires !syncLocked
      modifies this
      ensures s == Done
      ensures batches == old(batches) + [SyncView(serial, authToken, draws, old(sentMeta), meta)]
      ensures sentMeta == old(sentMeta) && nextDiskPollTime == old(nextDiskPollTime) && exitEvent == old(exitEvent)
      ensures !syncLocked && pollCalls == old(pollCalls) && closeCalls == old(closeCalls)
    {
      syncLocked := true;
      var inner := SyncOnce(draws, meta, rp);
      syncLocked := false;
      s := Isolate(inner);
    }

    /** `poll`: the disk poll, then a sync cycle; an exception from the disk poll skips the sync. */
    method Poll(env: PollEnv) returns (s: Status)
      requires !syncLocked
      modifies this
      ensures s == DiskPollStatus(env.now, old(nextDiskPollTime), env.disk, env.diskReplies)
      ensures nextDiskPollTime == NextDue(env.now, old(nextDiskPollTime), diskPollRateSeconds)
      ensures batches == old(batches) + PollViews(serial, authToken, env, old(nextDiskPollTime), old(sentMeta))
      ensures sentMeta == old(sentMeta) && exitEvent == old(exitEvent)
      ensures !syncLocked && pollCalls == old(pollCalls) + 1 && closeCalls == old(closeCalls)
    {
      pollCalls := pollCalls + 1;
      s := DiskPoll(env.now, env.disk, env.diskReplies);
      if s.Raised? {
        return;
      }
      s := Sync(env.draws, env.meta, env.syncReplies);
    }

    /** The state reached by the first `n` polls of a run made in the environments `envs`, in
        order, from the batch record `start` and the metadata flag `meta0`: the trace `outcomes`,
        `dues`, `groups` is what those polls did, the timer holds the last due time, the flag is
        unchanged and the batches recorded since `start` are the groups those polls opened. */
    ghost predicate RunSoFar(start: seq<BatchView>, meta0: bool, envs: seq<PollEnv>, n: nat, outcomes: seq<Status>,
                             dues: seq<int>, groups: seq<seq<BatchView>>)
      reads this
    {
      && Traced(serial, authToken, diskPollRateSeconds, envs, n, outcomes, dues, meta0, groups)
      && nextDiskPollTime == dues[n]
      && sentMeta == meta0
      && batches == start + Concat(groups)
    }

    /** The next poll of a run, carrying the run's trace along. */
    method TracedPoll(env: PollEnv, ghost start: seq<BatchView>, ghost meta0: bool, ghost envs: seq<PollEnv>, ghost n: nat,
                      ghost outcomes: seq<Status>, ghost dues: seq<int>, ghost groups: seq<seq<BatchView>>)
      returns (s: Status, ghost dues': seq<int>, ghost groups': seq<seq<BatchView>>)
      requires n < |envs| && env == envs[n]
      requires !syncLocked && RunSoFar(start, meta0, envs, n, outcomes, dues, groups)
      modifies this
      ensures RunSoFar(start, meta0, envs, n + 1, outcomes + [s], dues', groups')
      ensures dues' == dues + [nextDiskPollTime]
      ensures exitEvent == old(exitEvent) && !syncLocked
      ensures pollCalls == old(pollCalls) + 1 && closeCalls == old(closeCalls)
    {
      s := Poll(env);
      dues' := dues + [nextDiskPollTime];
      groups' := groups + [PollViews(serial, authToken, env, dues[n], meta0)];
      TracedSnoc(serial, authToken, diskPollRateSeconds, envs, n, outcomes, dues, meta0, groups);
      ConcatSnoc(groups, groups'[n]);
    }

    /** The loop of `run_forever`: poll once, then again after each wait that returns false,
        until a poll raises, the event is found set or the schedule runs out. The polls are made
        in the environments `Schedule(first, later)`; the ghost `outcomes` are their results, in
        order, `dues` the disk-poll due times in force at each of them followed by the one left
        at the end, and `groups` the batches each poll opened. */
    method PollLoop(first: PollEnv, later: seq<PollEnv>)
      returns (o: Status, ghost outcomes: seq<Status>, ghost dues: seq<int>, ghost groups: seq<seq<BatchView>>)
      requires !syncLocked
      modifies this
      ensures 1 <= |outcomes| <= |later| + 1 && o == outcomes[|outcomes| - 1]
      ensures pollCalls == old(pollCalls) + |outcomes| && closeCalls == old(closeCalls)
      ensures forall k :: 0 <= k < |outcomes| - 1 ==> outcomes[k] == Done
      ensures o == Done ==> |outcomes| == (if old(exitEvent) then 1 else |later| + 1)
      ensures old(exitEvent) ==> |outcomes| == 1
      ensures RunSoFar(old(batches), old(sentMeta), Schedule(first, later), |outcomes|, outcomes, dues, groups)
      ensures exitEvent == old(exitEvent) && !syncLocked && dues[0] == old(nextDiskPollTime)
    {
      ghost var firstDues, firstGroups;
      o, firstDues, firstGroups := TracedPoll(first, batches, sentMeta, Schedule(first, later), 0, [], [nextDiskPollTime], []);
      assert [] + [o] == [o];
      o, outcomes, dues, groups := WaitAndPoll(first, later, o, old(batches), old(sentMeta), firstDues, firstGroups);
    }

    /** The `while` of `run_forever`, entered after the first poll, whose outcome is `o0` and
        whose trace is `dues0` and `groups0`: while that poll returned, the event is clear and
        the schedule `later` has another environment, wait (the wait times out) and poll again. */
    method WaitAndPoll(first: PollEnv, later: seq<PollEnv>, o0: Status, ghost start: seq<BatchView>, ghost meta0: bool,
                       ghost dues0: seq<int>, ghost groups0: seq<seq<BatchView>>)
      returns (o: Status, ghost outcomes: seq<Status>, ghost dues: seq<int>, ghost groups: seq<seq<BatchView>>)
      requires !syncLocked && RunSoFar(start, meta0, Schedule(first, later), 1, [o0], dues0, groups0)
      modifies this
      ensures 1 <= |outcomes| <= |later| + 1 && o == outcomes[|outcomes| - 1]
      ensures pollCalls == old(pollCalls) + |outcomes| - 1 && closeCalls == old(closeCalls)
      ensures forall k :: 0 <= k < |outcomes| - 1 ==> outcomes[k] == Done
      ensures o == Done ==> |outcomes| == (if old(exitEvent) then 1 else |later| + 1)
      ensures old(exitEvent) ==> |outcomes| == 1
      ensures RunSoFar(start, meta0, Schedule(first, later), |outcomes|, outcomes, dues, groups)
      ensures exitEvent == old(exitEvent) && !syncLocked && dues[0] == dues0[0]
    {
      ghost var envs := Schedule(first, later);
      o, outcomes, dues, groups := o0, [o0], dues0, groups0;
      var i := 0;
      while o == Done && !exitEvent && i < |later|
        invariant 0 <= i <= |later|
        invariant |outcomes| == i + 1 && outcomes[i] == o
        invariant forall k :: 0 <= k < i ==> outcomes[k] == Done
        invariant pollCalls == old(pollCalls) + i && closeCalls == old(closeCalls)
        invariant exitEvent == old(exitEvent) && (exitEvent ==> i == 0)
        invariant RunSoFar(start, meta0, envs, i + 1, outcomes, dues, groups)
        invariant !syncLocked && dues[0] == dues0[0]
        decreases |later| - i
      {
        assert envs[i + 1] == later[i];
        o, dues, groups := TracedPoll(later[i], start, meta0, envs, i + 1, outcomes, dues, groups);
        outcomes := outcomes + [o];
        i := i + 1;
      }
    }

    /** `run_forever`: the loop, then `close`, which runs exactly once on every path. Waits are
        driven by the schedule: while the event is clear and another poll environment remains,
        the wait times out; once they run out, another thread sets the event. The ghost
        `outcomes` are the results of the polls made, in order, `dues` the disk-poll due times in
        force at each of them followed by the one left at the end, and `groups` the batches each
        poll opened. */
    method RunForever(first: PollEnv, later: seq<PollEnv>)
      returns (r: Status, ghost outcomes: seq<Status>, ghost dues: seq<int>, ghost groups: seq<seq<BatchView>>)
      requires !syncLocked
      modifies this
      ensures closeCalls == old(closeCalls) + 1
      ensures 1 <= |outcomes| <= |later| + 1 && pollCalls == old(pollCalls) + |outcomes|
      ensures forall k :: 0 <= k < |outcomes| - 1 ==> outcomes[k] == Done
      ensures r == RunExit(outcomes[|outcomes| - 1])
      ensures r.Raised? ==> IsException(r.exc)
      ensures outcomes[|outcomes| - 1] == Done ==>
        exitEvent && |outcomes| == (if old(exitEvent) then 1 else |later| + 1)
      ensures outcomes[|outcomes| - 1] != Done ==> exitEvent == old(exitEvent)
      ensures old(exitEvent) ==> |outcomes| == 1
      ensures RearmedAlong(diskPollRateSeconds, Schedule(first, later), |outcomes|, dues)
      ensures dues[0] == old(nextDiskPollTime) && nextDiskPollTime == dues[|outcomes|]
      ensures forall k {:trigger outcomes[k]} :: 0 <= k < |outcomes| ==>
        outcomes[k] == DiskPollStatus(Schedule(first, later)[k].now, dues[k],
                                      Schedule(first, later)[k].disk, Schedule(first, later)[k].diskReplies)
      ensures PollsOpened(serial, authToken, Schedule(first, later), |outcomes|, dues, old(sentMeta), groups)
      ensures batches == old(batches) + Concat(groups)
      ensures sentMeta == old(sentMeta) && !syncLocked
    {
      var o;
      o, outcomes, dues, groups := PollLoop(first, later);
      if o == Done {
        // the last wait returned true: the event is set
        exitEvent := true;
      }
      Close();
      r := RunExit(o);
    }

    /** `set_m2m_identity`: without an auth token, raise before opening any batch; otherwise send
        one batch with `check_auth` first and `m2m.associate` second, and return the identity
        only if both results were acknowledged. */
    method SetM2mIdentity(identity: Value, rp: Replies) returns (r: Outcome<Value>)
      modifies this
      ensures r == M2mOutcome(authToken, identity, rp)
      ensures authToken.None? ==> batches == old(batches)
      ensures authToken.Some? ==>
        batches == old(batches) + [BatchView(M2mBatchCalls(serial, authToken, identity), false, rp.sendFault.None?)]
      ensures nextDiskPollTime == old(nextDiskPollTime) && sentMeta == old(sentMeta) && exitEvent == old(exitEvent)
      ensures syncLocked == old(syncLocked) && pollCalls == old(pollCalls) && closeCalls == old(closeCalls)
    {
      if authToken.None? {
        return Raised(AttributeError("disable_sync"));
      }
      var b := new Batch();
      b.CallWithId(AuthResult, CheckAuth, AuthArgs(serial, authToken));
      b.CallWithId(AssociateResult, Associate, map["identity" := Or(identity, Str(""))]);
      // any exception inside the `try` is logged and the function returns `None`
      var s := b.ExitScope(rp);
      assert b.calls == M2mBatchCalls(serial, authToken, identity);
      batches := batches + [b.View()];
      if s.Raised? {
        return Returned(Null);
      }
      s := GetResult(rp, AuthResult);
      if s.Raised? {
        return Returned(Null);
      }
      s := GetResult(rp, AssociateResult);
      if s.Raised? {
        return Returned(Null);
      }
      r := Returned(identity);
    }
  }

  /** Two runs of a new client, each ended by an interrupt from its first poll: the first by a
      `SystemExit` from the disk probe at or after start-up, the second, at least one interval
      later, by a `KeyboardInterrupt`. Both runs return normally and `close` has run once after
      the first and twice after the second. */
  method InterruptedRuns(serial: string, authToken: Option<string>, rate: int, t0: int,
                         first1: PollEnv, later1: seq<PollEnv>, first2: PollEnv, later2: seq<PollEnv>)
    returns (r1: Status, r2: Status, ghost closes1: nat, ghost closes2: nat)
    requires first1.now >= t0 && first1.disk == Failure(SystemExit)
    requires first2.now >= first1.now + rate && first2.disk == Failure(KeyboardInterrupt)
    ensures r1 == Done && r2 == Done
    ensures closes1 == 1 && closes2 == 2
  {
    var c := new Client(serial, authToken, rate, t0);
    ghost var outcomes, dues, groups;
    r1, outcomes, dues, groups := c.RunForever(first1, later1);
    assert Schedule(first1, later1)[0] == first1;
    assert outcomes[0] == Raised(SystemExit);
    closes1 := c.closeCalls;
    r2, outcomes, dues, groups := c.RunForever(first2, later2);
    assert Schedule(first2, later2)[0] == first2;
    assert outcomes[0] == Raised(KeyboardInterrupt);
    closes2 := c.closeCalls;
  }
}
