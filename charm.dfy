/** The charm of lib/charm.py: the install and start handlers and the helpers that
    shell out. Running a command is modelled as appending it to the host's log. */
module Charm {
  import opened Wrappers
  import opened Commands

  /** The host the charm runs on, seen through the commands it was asked to run. */
  class Host {
    var commands: seq<Command>

    constructor ()
      ensures commands == []
    {
      commands := [];
    }

    /** Runs one command: `subprocess.call`, `check_call` or `check_output`. */
    method Run(c: Command)
      modifies this
      ensures commands == old(commands) + [c]
    {
      commands := commands + [c];
    }
  }

  /** One delivery of a lifecycle event; `Defer` asks for it to be delivered again. */
  class LifecycleEvent {
    var deferred: bool

    constructor ()
      ensures !deferred
    {
      deferred := false;
    }

    method Defer()
      modifies this
      ensures deferred
    {
      deferred := true;
    }
  }

  /** `log(message, level)`: build the `juju-log` command and run it. */
  method Log(host: Host, message: string, level: Option<string>)
    modifies host
    ensures host.commands == old(host.commands) + [Exec(LogArgv(message, level))]
  {
    var command := ["juju-log"];
    if LevelGiven(level) {
      command := command + ["-l", level.value];
    }
    var cut := if |message| < MaxArgStrLen then |message| else MaxArgStrLen;
    command := command + [message[..cut]];
    assert command == LogArgv(message, level);
    host.Run(Exec(command));
  }

  /** `status_set(state, message)`: an invalid state raises before anything runs. */
  method StatusSet(host: Host, state: string, message: string) returns (outcome: Outcome<StatusError>)
    modifies host
    ensures outcome.Fail? <==> state !in ValidWorkloadStates
    ensures outcome.Fail? ==> outcome.error == InvalidWorkloadState(state) && host.commands == old(host.commands)
    ensures outcome.Pass? ==> host.commands == old(host.commands) + [Exec(["status-set", state, message])]
  {
    match StatusSetArgv(state, message)
    case Failure(e) =>
      outcome := Fail(e);
    case Success(argv) =>
      host.Run(Exec(argv));
      outcome := Pass;
  }

  /** `apt_install(packages, options)`: log what is installed, then run `apt-get`. */
  method AptInstall(host: Host, packages: seq<string>, options: Option<seq<string>>)
    modifies host
    ensures host.commands == old(host.commands)
      + [Exec(LogArgv(AptLogMessage(packages, AptOptions(options)), None)),
         Exec(AptInstallArgv(packages, options))]
  {
    var opts := if options.None? then [DefaultAptOption] else options.value;
    var command := ["apt-get", "--assume-yes"];
    command := command + opts;
    command := command + ["install"];
    command := command + packages;
    Log(host, AptLogMessage(packages, opts), None);
    host.Run(Exec(command));
  }

  /** `snap_install(snapname, **kw)`: log what is installed, then run `snap install`. */
  method SnapInstall(host: Host, snapname: string, o: SnapOptions)
    modifies host
    ensures host.commands == old(host.commands)
      + [Exec(LogArgv(SnapLogMessage(snapname), None)), Exec(SnapInstallArgv(snapname, o))]
  {
    var cmd := ["snap", "install"];
    cmd := cmd + SnapArgs(o);
    cmd := cmd + [snapname];
    Log(host, SnapLogMessage(snapname), None);
    host.Run(Exec(cmd));
  }

  /** The package the charm installs and waits for. */
  const Snap := "microk8s"

  /** Adds the `ubuntu` user to the `microk8s` group; its failure is ignored. */
  const UsermodLine := "sudo usermod -a -G microk8s ubuntu"

  /** The auxiliary package installed once the snap is present. */
  const AuxiliaryPackages := ["hello"]

  /** What `on_install` runs. */
  function InstallCommands(): seq<Command> {
    [ Exec(LogArgv(SnapLogMessage(Snap), None)),
      Exec(SnapInstallArgv(Snap, DefaultSnapOptions)),
      Exec(LogArgv("on_install: installing", None)) ]
  }

  /** What `on_start` runs once the package is present: the start log, the group
      change, the auxiliary install and the `active` status. */
  function ConfigureCommands(): seq<Command> {
    [ Exec(LogArgv("on_start: starting", None)),
      Shell(UsermodLine),
      Exec(LogArgv(AptLogMessage(AuxiliaryPackages, [DefaultAptOption]), None)),
      Exec(AptInstallArgv(AuxiliaryPackages, None)),
      Exec(["status-set", "active", "Ready!"]) ]
  }

  /** The charm: the persisted `ready` flag and the host it acts on. */
  class Charm {
    const host: Host
    /** `self.state.ready`, kept by the orchestrator across restarts. */
    var ready: bool
    /** The package-installed fact observed by each `start` so far. */
    ghost var startFacts: seq<bool>

    /** `ready` holds exactly when the latest `start` found the package installed. */
    ghost predicate Valid()
      reads this
    {
      ready <==> |startFacts| > 0 && startFacts[|startFacts| - 1]
    }

    constructor (host: Host)
      ensures Valid() && this.host == host
      ensures !ready && startFacts == []
    {
      this.host := host;
      ready := false;
      startFacts := [];
    }

    /** `on_install`: install the snap unconditionally; `ready` is left alone. */
    method OnInstall(event: LifecycleEvent)
      requires Valid()
      modifies host
      ensures Valid() && ready == old(ready) && startFacts == old(startFacts)
      ensures host.commands == old(host.commands) + InstallCommands()
    {
      SnapInstall(host, Snap, DefaultSnapOptions);
      Log(host, "on_install: installing", None);
    }

    /** `on_start`: without the package, defer and mark not ready; with it, mark
        ready, configure the host and report `active`. */
    method OnStart(event: LifecycleEvent, installed: bool)
      requires Valid()
      modifies this, host, event
      ensures Valid() && startFacts == old(startFacts) + [installed]
      ensures ready == installed
      ensures !installed ==> event.deferred
      ensures installed ==> event.deferred == old(event.deferred)
      ensures !installed ==> host.commands == old(host.commands) + [Exec(LogArgv("on_start: starting", None))]
      ensures installed ==> host.commands == old(host.commands) + ConfigureCommands()
    {
      Log(host, "on_start: starting", None);
      startFacts := startFacts + [installed];
      if !installed {
        event.Defer();
        ready := false;
        return;
      }
      ready := true;
      host.Run(Shell(UsermodLine));
      AptInstall(host, AuxiliaryPackages, None);
      var outcome := StatusSet(host, "active", "Ready!");
    }
  }
}
