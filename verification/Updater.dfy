/**
 The self-updater as a transaction over two files and one service. How every
 command, write and download ends is a parameter, so that each step may fail.
 */
module Updater {
  import opened Prelude
  import SemVer

  type Body = string

  datatype File = Missing | Irregular | Regular(body: Body, mode: nat)

  /** What the service runs: nothing known, nothing, or the files as they were when it
      was started. */
  datatype Running = Unknown | Down | Up(binary: File, service: File)

  datatype Target = BinaryFile | ServiceFile

  datatype Step =
    | StopStep
    | ReloadStep(back: bool)
    | StartStep(back: bool)
    | HealthStep(back: bool, check: nat)

  /** `reloads`: there is a reload command. `restarts`: the start command starts a service
      that is already up anew; a plain start leaves it as it is. */
  datatype Platform = Platform(
    binaryAsset: string,
    serviceAsset: string,
    reloads: bool,
    restarts: bool,
    serviceMode: nat)

  datatype ServiceManager = Systemd | OpenRc | RcD

  function PlatformOf(manager: ServiceManager, binaryAsset: string, serviceAsset: string): Platform {
    match manager
    case Systemd => Platform(binaryAsset, serviceAsset, true, true, 0x1A4)
    case OpenRc => Platform(binaryAsset, serviceAsset, false, false, 0x16D)
    case RcD => Platform(binaryAsset, serviceAsset, false, true, 0x16D)
  }

  datatype Asset = Asset(bytes: nat, sha256: string)

  datatype Options = Options(current: string, requested: string, checkOnly: bool, healthChecks: int,
                             healthInterval: int)

  datatype Write = NewBinary | NewService | OldBinary | OldService

  /** How everything outside the program ends: `works` and `writes` for the commands
      and file replacements, `pauses` for waiting between health checks without being
      cancelled, `output` for what the new binary prints as its version, and
      `trim` for `strings.TrimSpace`. */
  datatype Env = Env(
    privileged: bool,
    configured: bool,
    platform: Option<Platform>,
    advertised: Option<string>,
    lockable: bool,
    unlocks: bool,
    manifest: Option<map<string, Asset>>,
    binaryReply: Option<Body>,
    serviceReply: Option<Body>,
    readable: Target -> bool,
    works: Step -> bool,
    pauses: Step -> bool,
    writes: Write -> WriteOutcome,
    output: Option<string>,
    trim: string -> string,
    digest: Body -> string)

  /** `Refused`: an error before the service was touched; `StopFailed`: it could not be
      stopped; `Undone`: the cause of the failure after a complete rollback;
      `Incomplete`: the error that says so. */
  datatype Outcome = Idle(available: bool) | Updated(available: bool) | Refused | StopFailed | Undone | Incomplete

  const ExecutableMode: nat := 0x1ED

  // ---------- Downloads ----------

  /** The body is the one the manifest names. */
  predicate Verified(asset: Asset, body: Body, digest: Body -> string) {
    |body| == asset.bytes && digest(body) == asset.sha256
  }

  /** Reads at most one byte more than announced; only a reply that is exactly the
      named body comes through. */
  method Download(asset: Asset, reply: Option<Body>, digest: Body -> string) returns (body: Option<Body>)
    ensures body.Some? <==> reply.Some? && Verified(asset, reply.value, digest)
    ensures body.Some? ==> body == reply
  {
    if reply.None? {
      return None;
    }
    var read := if |reply.value| > asset.bytes + 1 then reply.value[..asset.bytes + 1] else reply.value;
    if |read| != asset.bytes {
      return None;
    }
    if digest(read) != asset.sha256 {
      return None;
    }
    body := Some(read);
  }

  // ---------- Health ----------

  function AtLeastOne(checks: int): (n: nat)
    ensures n >= 1 && (checks >= 1 ==> n == checks)
  {
    if checks < 1 then 1 else checks
  }

  /** Every check passes, and no pause between two checks is cut short. */
  predicate Healthy(env: Env, back: bool, checks: int, interval: int) {
    && (forall k :: 0 <= k < AtLeastOne(checks) ==> env.works(HealthStep(back, k)))
    && (interval > 0 ==> forall k :: 0 <= k < AtLeastOne(checks) - 1 ==> env.pauses(HealthStep(back, k)))
  }

  method WaitForSustainedHealth(env: Env, back: bool, checks: int, interval: int) returns (ok: bool)
    ensures ok <==> Healthy(env, back, checks, interval)
  {
    var n := AtLeastOne(checks);
    for check := 0 to n
      invariant forall k :: 0 <= k < check ==> env.works(HealthStep(back, k))
      invariant interval > 0 ==> forall k :: 0 <= k < check && k < n - 1 ==> env.pauses(HealthStep(back, k))
    {
      if !env.works(HealthStep(back, check)) {
        return false;
      }
      if check + 1 == n || interval <= 0 {
        continue;
      }
      if !env.pauses(HealthStep(back, check)) {
        return false;
      }
    }
    ok := true;
  }

  // ---------- What the outcome depends on ----------

  function EffectiveChecks(o: Options): int {
    if o.healthChecks == 0 then 3 else o.healthChecks
  }

  function EffectiveInterval(o: Options): int {
    if o.healthInterval == 0 && o.healthChecks == 0 then 1_000_000_000 else o.healthInterval
  }

  function TargetVersion(o: Options, env: Env): Option<string> {
    if o.requested != [] then Some(o.requested) else env.advertised
  }

  /** The installed version against the target, if everything up to here works. */
  function Order(o: Options, env: Env): Option<int> {
    if env.privileged && env.configured && env.platform.Some? && TargetVersion(o, env).Some?
    then SemVer.OrderOf(o.current, TargetVersion(o, env).value) else None
  }

  /** The manifest lists both assets of the platform and both replies are the bodies
      it names. */
  predicate DownloadsVerify(env: Env) {
    && env.platform.Some? && env.manifest.Some? && env.binaryReply.Some? && env.serviceReply.Some?
    && env.platform.value.binaryAsset in env.manifest.value && env.platform.value.serviceAsset in env.manifest.value
    && Verified(env.manifest.value[env.platform.value.binaryAsset], env.binaryReply.value, env.digest)
    && Verified(env.manifest.value[env.platform.value.serviceAsset], env.serviceReply.value, env.digest)
  }

  predicate Command(env: Env, step: Step) {
    (step.ReloadStep? && env.platform.Some? && !env.platform.value.reloads) || env.works(step)
  }

  /** Everything before the start of the new service succeeds. */
  predicate StartsNew(o: Options, env: Env) {
    && env.writes(NewBinary) == Written && env.writes(NewService) == Written
    && env.output.Some? && TargetVersion(o, env) == Some(env.trim(env.output.value))
    && Command(env, ReloadStep(false))
  }

  /** Both replacements, the version check, the start and all health checks succeed. */
  predicate Installs(o: Options, env: Env) {
    && StartsNew(o, env) && Command(env, StartStep(false))
    && Healthy(env, false, EffectiveChecks(o), EffectiveInterval(o))
  }

  /** The rollback works: the old files, if anything was replaced, the restart and the
      health checks. Its reload is allowed to fail. */
  predicate Restores(o: Options, env: Env, replaced: bool) {
    && (replaced ==> env.writes(OldBinary) == Written && env.writes(OldService) == Written)
    && Command(env, StartStep(true)) && Healthy(env, true, EffectiveChecks(o), EffectiveInterval(o))
  }

  /** What is decided before the lock. */
  datatype Decision = Reject | Report(available: bool) | Proceed(available: bool)

  /** An update goes on to a newer version, or to any version asked for by name. */
  function DecisionOf(order: Option<int>, o: Options): Decision {
    if order.None? then Reject
    else if (o.requested == [] && order.value >= 0) || o.checkOnly then Report(order.value < 0)
    else Proceed(order.value < 0)
  }

  /** How an update ends, from how each of its steps does. */
  function OutcomeOf(decision: Decision, o: Options, env: Env, locked: bool, prepared: bool): (outcome: Outcome)
    ensures outcome.Updated? ==> decision.Proceed? && Installs(o, env) && !locked && prepared
    ensures outcome == Undone ==> Restores(o, env, env.writes(NewBinary) == Written)
  {
    match decision
    case Reject => Refused
    case Report(available) => Idle(available)
    case Proceed(available) =>
      if locked || !env.lockable || !prepared then Refused
      else if !Command(env, StopStep) then StopFailed
      else if Installs(o, env) then Updated(available)
      else if Restores(o, env, env.writes(NewBinary) == Written) then Undone
      else Incomplete
  }

  // ---------- What the decision and the outcome mean ----------

  /** The version an update is about: the one asked for, otherwise the one advertised. */
  predicate About(o: Options, env: Env, target: string) {
    if |o.requested| > 0 then target == o.requested else env.advertised == Some(target)
  }

  /** An update is decided on exactly with the rights, a configuration, a platform and two
      readable versions. For conforming versions it then goes on, unless it only checks, if
      and only if the target was asked for by name or has precedence over the current one;
      and it reports that precedence. */
  lemma DecisionExact(o: Options, env: Env)
    ensures var decision := DecisionOf(Order(o, env), o);
            && (!decision.Reject? <==> && env.privileged && env.configured && env.platform.Some?
                                       && SemVer.ParseOf(o.current).Some?
                                       && exists target :: About(o, env, target) && SemVer.ParseOf(target).Some?)
            && (decision.Proceed? ==> !o.checkOnly)
            && (|o.requested| > 0 && !o.checkOnly && !decision.Reject? ==> decision.Proceed?)
            && forall target :: About(o, env, target) && !decision.Reject? ==>
                 && SemVer.ParseOf(target).Some?
                 && var a, b := SemVer.ParseOf(o.current).value, SemVer.ParseOf(target).value;
                    SemVer.Conforming(a) && SemVer.Conforming(b) ==>
                      && (decision.Proceed? <==> !o.checkOnly && (|o.requested| > 0 || SemVer.Precedes(a, b)))
                      && decision.available == SemVer.Precedes(a, b)
  {
    forall target | About(o, env, target) ensures TargetVersion(o, env) == Some(target) {
    }
    if TargetVersion(o, env).Some? {
      var target := TargetVersion(o, env).value;
      assert About(o, env, target);
      var a, b := SemVer.ParseOf(o.current), SemVer.ParseOf(target);
      if a.Some? && b.Some? && SemVer.Conforming(a.value) && SemVer.Conforming(b.value) {
        SemVer.NegativeIsPrecedence(a.value, b.value);
      }
    }
  }

  /** How many checks in a row have to pass. */
  function ChecksNeeded(o: Options): nat {
    if o.healthChecks > 0 then o.healthChecks else if o.healthChecks == 0 then 3 else 1
  }

  /** An update succeeds exactly when it goes on, gets the lock, is prepared, and each of
      its steps works, with the new binary printing the version it is about. */
  lemma UpdatedExact(decision: Decision, o: Options, env: Env, locked: bool, prepared: bool)
    requires env.platform.Some?
    ensures OutcomeOf(decision, o, env, locked, prepared).Updated?
            <==> && decision.Proceed? && !locked && env.lockable && prepared && env.works(StopStep)
                 && env.writes(NewBinary) == Written && env.writes(NewService) == Written
                 && env.output.Some? && About(o, env, env.trim(env.output.value))
                 && (env.platform.value.reloads ==> env.works(ReloadStep(false))) && env.works(StartStep(false))
                 && (forall k :: 0 <= k < ChecksNeeded(o) ==> env.works(HealthStep(false, k)))
                 && (o.healthInterval > 0 || (o.healthInterval == 0 && o.healthChecks == 0) ==>
                       forall k :: 0 <= k < ChecksNeeded(o) - 1 ==> env.pauses(HealthStep(false, k)))
  {
  }

  /** It is undone exactly when some of these fails after the stop, and the old files can
      be written back, if they were replaced, and the service starts and stays healthy. */
  lemma UndoneExact(decision: Decision, o: Options, env: Env, locked: bool, prepared: bool)
    requires env.platform.Some?
    ensures OutcomeOf(decision, o, env, locked, prepared) == Undone
            <==> && decision.Proceed? && !locked && env.lockable && prepared && env.works(StopStep)
                 && !OutcomeOf(decision, o, env, locked, prepared).Updated?
                 && (env.writes(NewBinary) == Written ==>
                     env.writes(OldBinary) == Written && env.writes(OldService) == Written)
                 && env.works(StartStep(true))
                 && (forall k :: 0 <= k < ChecksNeeded(o) ==> env.works(HealthStep(true, k)))
                 && (o.healthInterval > 0 || (o.healthInterval == 0 && o.healthChecks == 0) ==>
                       forall k :: 0 <= k < ChecksNeeded(o) - 1 ==> env.pauses(HealthStep(true, k)))
  {
  }

  /** Verified downloads have the announced sizes and digests. */
  lemma DownloadsExact(env: Env)
    requires env.platform.Some?
    ensures DownloadsVerify(env)
            <==> && env.manifest.Some? && env.binaryReply.Some? && env.serviceReply.Some?
                 && (forall asset, body :: (asset, body) in {(env.platform.value.binaryAsset, env.binaryReply.value),
                                                             (env.platform.value.serviceAsset,
                                                              env.serviceReply.value)} ==>
                       && asset in env.manifest.value && |body| == env.manifest.value[asset].bytes
                       && env.digest(body) == env.manifest.value[asset].sha256)
  {
    if env.manifest.Some? && env.binaryReply.Some? && env.serviceReply.Some? {
      var both := {(env.platform.value.binaryAsset, env.binaryReply.value),
                   (env.platform.value.serviceAsset, env.serviceReply.value)};
      assert (env.platform.value.binaryAsset, env.binaryReply.value) in both;
      assert (env.platform.value.serviceAsset, env.serviceReply.value) in both;
    }
  }

  // ---------- What the service runs ----------

  /** The downloaded files, running. */
  function NewPair(env: Env): Running
    requires DownloadsVerify(env)
  {
    Up(Regular(env.binaryReply.value, ExecutableMode), Regular(env.serviceReply.value, env.platform.value.serviceMode))
  }

  predicate Restarts(env: Env) {
    env.platform.Some? && env.platform.value.restarts
  }

  /** What a successful start command makes the service run, with these files in place. */
  function AfterStart(env: Env, before: Running, files: Running): Running {
    if Restarts(env) || before == Down then files else before
  }

  /** What the service runs after a complete rollback: the restored files, unless a start
      of the new ones came before it that a plain start does not undo. */
  function UndoneRunning(o: Options, env: Env, restored: Running, installed: Running): Running {
    if Restarts(env) || !StartsNew(o, env) then restored
    else if Command(env, StartStep(false)) then installed
    else Unknown
  }

  /** After a complete rollback the service runs the restored files if and only if the
      start command restarts, or the update failed before the new files were started, or
      these were no different. */
  lemma UndoneRunsRestored(o: Options, env: Env, restored: Running, installed: Running)
    requires restored.Up? && installed.Up?
    ensures UndoneRunning(o, env, restored, installed) == restored
            <==> Restarts(env) || !StartsNew(o, env) || (Command(env, StartStep(false)) && installed == restored)
  {
  }

  /** On OpenRC an update whose new service fails a health check, and whose rollback works
      at every step, returns the cause alone while the service still runs the new files. */
  lemma OpenRcKeepsNew(o: Options, env: Env, available: bool, binaryAsset: string, serviceAsset: string, check: nat,
                       restored: Running,
                       installed: Running)
    requires env.platform == Some(PlatformOf(OpenRc, binaryAsset, serviceAsset)) && env.lockable
             && Command(env, StopStep)
    requires StartsNew(o, env) && Command(env, StartStep(false)) && Restores(o, env, true)
    requires check < AtLeastOne(EffectiveChecks(o)) && !env.works(HealthStep(false, check))
    ensures OutcomeOf(Proceed(available), o, env, false, true) == Undone
    ensures UndoneRunning(o, env, restored, installed) == installed
  {
    assert !Healthy(env, false, EffectiveChecks(o), EffectiveInterval(o));
  }

  // ---------- The machine ----------

  datatype Saved = Saved(body: Body, mode: nat)

  class Machine {
    var binary: File
    var service: File
    var running: Running
    var locked: bool

    function FileAt(target: Target): File
      reads this
    {
      if target == BinaryFile then binary else service
    }

    /** The downloads verify and both installed files can be saved. */
    predicate Prepared(env: Env)
      reads this
    {
      && DownloadsVerify(env) && binary.Regular? && env.readable(BinaryFile) && service.Regular?
      && env.readable(ServiceFile)
    }

    method AtomicWrite(target: Target, body: Body, mode: nat, outcome: WriteOutcome) returns (ok: bool)
      modifies this`binary, this`service
      ensures FileAt(target) == if Renamed(outcome) then Regular(body, mode) else old(FileAt(target))
      ensures target == BinaryFile ==> service == old(service)
      ensures target == ServiceFile ==> binary == old(binary)
      ensures ok <==> outcome == Written
    {
      if Renamed(outcome) {
        if target == BinaryFile {
          binary := Regular(body, mode);
        } else {
          service := Regular(body, mode);
        }
      }
      ok := outcome == Written;
    }

    method SnapshotFile(target: Target, env: Env) returns (saved: Option<Saved>)
      ensures saved.Some? <==> FileAt(target).Regular? && env.readable(target)
      ensures saved.Some? ==> FileAt(target) == Regular(saved.value.body, saved.value.mode)
    {
      match FileAt(target)
      case Regular(body, mode) => saved := if env.readable(target) then Some(Saved(body, mode)) else None;
      case _ => saved := None;
    }

    method RunCommand(step: Step, env: Env) returns (ok: bool)
      modifies this`running
      ensures ok <==> Command(env, step)
      ensures running == match step
                         case StopStep => if ok then Down else Unknown
                         case StartStep(_) => if ok then AfterStart(env, old(running), Up(binary, service)) else Unknown
                         case _ => old(running)
    {
      if step.ReloadStep? && env.platform.Some? && !env.platform.value.reloads {
        return true;
      }
      ok := env.works(step);
      match step
      case StopStep => running := if ok then Down else Unknown;
      case StartStep(_) => running := if ok then AfterStart(env, running, Up(binary, service)) else Unknown;
      case _ =>
    }

    /** Undoes a failed update. It says so exactly when it restored everything. */
    method Rollback(replaced: bool, previousBinary: Saved, previousService: Saved, o: Options, env: Env)
      returns (outcome: Outcome)
      modifies this`binary, this`service, this`running
      ensures outcome == if Restores(o, env, replaced) then Undone else Incomplete
      ensures !replaced ==> binary == old(binary) && service == old(service)
      ensures replaced && Renamed(env.writes(OldBinary)) ==> binary == Regular(previousBinary.body, previousBinary.mode)
      ensures replaced && Renamed(env.writes(OldService)) ==>
              service == Regular(previousService.body, previousService.mode)
      ensures outcome == Undone ==> running == AfterStart(env, old(running), Up(binary, service))
    {
      var binaryOk, serviceOk := true, true;
      if replaced {
        binaryOk := AtomicWrite(BinaryFile, previousBinary.body, previousBinary.mode, env.writes(OldBinary));
        serviceOk := AtomicWrite(ServiceFile, previousService.body, previousService.mode, env.writes(OldService));
      }
      var _ := RunCommand(ReloadStep(true), env);
      var restarted := RunCommand(StartStep(true), env);
      var healthy := true;
      if restarted {
        healthy := WaitForSustainedHealth(env, true, EffectiveChecks(o), EffectiveInterval(o));
      }
      if replaced {
        if !binaryOk || !serviceOk || !restarted || !healthy {
          return Incomplete;
        }
      } else if !restarted || !healthy {
        return Incomplete;
      }
      outcome := Undone;
    }

    /** From the stopped service on. `Undone` means the old files are back, with one
        exception: a first replacement that reported an error after its rename is not
        rolled back, and leaves the new binary beside the old service. */
    method Replace(binaryBody: Body, serviceBody: Body, previousBinary: Saved, previousService: Saved, available: bool,
                   o: Options, env: Env) returns (outcome: Outcome)
      requires env.platform.Some? && TargetVersion(o, env).Some?
      requires binary == Regular(previousBinary.body, previousBinary.mode)
      requires service == Regular(previousService.body, previousService.mode)
      requires running == Down
      modifies this`binary, this`service, this`running
      ensures outcome == if Installs(o, env) then Updated(available)
                         else if Restores(o, env, env.writes(NewBinary) == Written) then Undone else Incomplete
      ensures outcome.Updated? ==>
                binary == Regular(binaryBody, ExecutableMode)
                && service == Regular(serviceBody, env.platform.value.serviceMode)
      ensures outcome == Undone ==>
                && service == old(service)
                && binary == if env.writes(NewBinary) == FailedAfterRename then Regular(binaryBody, ExecutableMode)
                   else old(binary)
      ensures outcome.Updated? ==> running == Up(binary, service)
      ensures outcome == Undone ==>
                running == UndoneRunning(o, env, Up(binary, service),
                                         Up(Regular(binaryBody, ExecutableMode),
                                            Regular(serviceBody, env.platform.value.serviceMode)))
    {
      var replaced := false;
      var ok := AtomicWrite(BinaryFile, binaryBody, ExecutableMode, env.writes(NewBinary));
      if !ok {
        outcome := Rollback(replaced, previousBinary, previousService, o, env);
        return;
      }
      replaced := true;
      ok := AtomicWrite(ServiceFile, serviceBody, env.platform.value.serviceMode, env.writes(NewService));
      if !ok {
        outcome := Rollback(replaced, previousBinary, previousService, o, env);
        return;
      }
      if env.output.None? || env.trim(env.output.value) != TargetVersion(o, env).value {
        outcome := Rollback(replaced, previousBinary, previousService, o, env);
        return;
      }
      ok := RunCommand(ReloadStep(false), env);
      if !ok {
        outcome := Rollback(replaced, previousBinary, previousService, o, env);
        return;
      }
      ok := RunCommand(StartStep(false), env);
      if !ok {
        outcome := Rollback(replaced, previousBinary, previousService, o, env);
        return;
      }
      ok := WaitForSustainedHealth(env, false, EffectiveChecks(o), EffectiveInterval(o));
      if !ok {
        outcome := Rollback(replaced, previousBinary, previousService, o, env);
        return;
      }
      outcome := Updated(available);
    }

    /** Everything before the lock. */
    method Decide(o: Options, env: Env) returns (decision: Decision)
      ensures decision == DecisionOf(Order(o, env), o)
      ensures !decision.Reject? ==> env.platform.Some? && TargetVersion(o, env).Some?
    {
      if !env.privileged {
        return Reject;
      }
      var valid := SemVer.CheckVersion(o.current);
      if !valid {
        return Reject;
      }
      if !env.configured || env.platform.None? {
        return Reject;
      }
      var target := o.requested;
      if target == [] {
        if env.advertised.None? {
          return Reject;
        }
        target := env.advertised.value;
      }
      var comparison := SemVer.CompareVersions(o.current, target);
      if comparison.None? {
        return Reject;
      }
      var available := comparison.value < 0;
      if o.requested == [] && comparison.value >= 0 {
        return Report(available);
      }
      if o.checkOnly {
        return Report(available);
      }
      decision := Proceed(available);
    }

    /** With the lock held. */
    method Install(available: bool, o: Options, env: Env) returns (outcome: Outcome)
      requires env.platform.Some? && TargetVersion(o, env).Some?
      modifies this`binary, this`service, this`running
      ensures var untouched := binary == old(binary) && service == old(service) && running == old(running);
              var prepared := old(Prepared(env));
              && (outcome == Refused <==> !prepared) && (!prepared ==> untouched)
              && (outcome == StopFailed <==> prepared && !Command(env, StopStep))
              && (outcome == StopFailed ==> binary == old(binary) && service == old(service))
              && (prepared && Command(env, StopStep) ==>
                    outcome == if Installs(o, env) then Updated(available)
                               else if Restores(o, env, env.writes(NewBinary) == Written) then Undone else Incomplete)
      ensures outcome.Updated? ==>
                && binary == Regular(env.binaryReply.value, ExecutableMode)
                && service == Regular(env.serviceReply.value, env.platform.value.serviceMode)
      ensures outcome == Undone ==>
                && service == old(service)
                && binary == if env.writes(NewBinary) == FailedAfterRename
                   then Regular(env.binaryReply.value, ExecutableMode)
                             else old(binary)
      ensures outcome.Updated? ==> running == Up(binary, service)
      ensures outcome == Undone ==> running == UndoneRunning(o, env, Up(binary, service), NewPair(env))
    {
      if env.manifest.None? {
        return Refused;
      }
      var assets, selected := env.manifest.value, env.platform.value;
      if selected.binaryAsset !in assets || selected.serviceAsset !in assets {
        return Refused;
      }
      var binaryBody := Download(assets[selected.binaryAsset], env.binaryReply, env.digest);
      if binaryBody.None? {
        return Refused;
      }
      var serviceBody := Download(assets[selected.serviceAsset], env.serviceReply, env.digest);
      if serviceBody.None? {
        return Refused;
      }
      var previousBinary := SnapshotFile(BinaryFile, env);
      if previousBinary.None? {
        return Refused;
      }
      var previousService := SnapshotFile(ServiceFile, env);
      if previousService.None? {
        return Refused;
      }
      var stopped := RunCommand(StopStep, env);
      if !stopped {
        return StopFailed;
      }
      outcome := Replace(binaryBody.value, serviceBody.value, previousBinary.value, previousService.value, available, o,
                         env);
    }

    /** What an update did, whichever step failed. It succeeded with both verified bodies
        in place and running; or both files and modes are as they were (a first replacement
        that fails after its rename excepted) and `UndoneRunning` says what runs; or it says
        that restoring was incomplete. Before both downloads verify nothing is stopped or
        replaced. */
    twostate predicate Ended(decision: Decision, o: Options, env: Env, outcome: Outcome)
      reads this
    {
      var untouched := binary == old(binary) && service == old(service) && running == old(running);
      && outcome == OutcomeOf(decision, o, env, old(locked), old(Prepared(env)))
      && (outcome.Idle? || outcome == Refused || !DownloadsVerify(env) ==> untouched)
      && (outcome == StopFailed ==> binary == old(binary) && service == old(service))
      && (outcome.Updated? ==>
            && DownloadsVerify(env) && running == Up(binary, service)
            && binary == Regular(env.binaryReply.value, ExecutableMode)
            && service == Regular(env.serviceReply.value, env.platform.value.serviceMode))
      && (outcome == Undone ==>
            && DownloadsVerify(env) && running == UndoneRunning(o, env, Up(binary, service), NewPair(env))
            && old(binary).Regular? && old(service).Regular? && service == old(service)
            && binary == (if env.writes(NewBinary) == FailedAfterRename
                          then Regular(env.binaryReply.value, ExecutableMode) else old(binary)))
      && (!decision.Proceed? ==> untouched && locked == old(locked))
      && (old(locked) ==> locked) && (env.unlocks ==> locked == old(locked))
    }

    /** From the decision on. */
    method Finish(decision: Decision, o: Options, env: Env) returns (outcome: Outcome)
      requires decision.Proceed? ==> env.platform.Some? && TargetVersion(o, env).Some?
      modifies this
      ensures Ended(decision, o, env, outcome)
    {
      if decision.Reject? {
        return Refused;
      }
      if decision.Report? {
        return Idle(decision.available);
      }
      if locked || !env.lockable {
        return Refused;
      }
      locked := true;
      outcome := Install(decision.available, o, env);
      locked := !env.unlocks;
    }

    method Run(o: Options, env: Env) returns (outcome: Outcome)
      modifies this
      ensures Ended(DecisionOf(Order(o, env), o), o, env, outcome)
      ensures o.checkOnly ==>
                binary == old(binary) && service == old(service) && running == old(running) && locked == old(locked)
    {
      var decision := Decide(o, env);
      outcome := Finish(decision, o, env);
    }
  }
}
