/** Whole deliveries of lifecycle events to a freshly deployed charm, and what the
    host and the stored state look like afterwards. */
module Scenarios {
  import opened Wrappers
  import opened Commands
  import opened Charm

  /** `install`, then `start` with the package present: one snap install, the
      group change and the auxiliary install, then `active`/`Ready!` last. */
  method InstallThenStart() returns (commands: seq<Command>, ready: bool, deferred: bool)
    ensures ready && !deferred
    ensures multiset(commands)[Exec(SnapInstallArgv(Snap, DefaultSnapOptions))] == 1
    ensures Shell(UsermodLine) in commands
    ensures Exec(AptInstallArgv(["hello"], None)) in commands
    ensures |commands| > 0 && commands[|commands| - 1] == Exec(["status-set", "active", "Ready!"])
  {
    var host := new Host();
    var charm := new Charm(host);
    var install := new LifecycleEvent();
    charm.OnInstall(install);
    var start := new LifecycleEvent();
    charm.OnStart(start, true);
    commands, ready, deferred := host.commands, charm.ready, start.deferred;
    var snap := Exec(SnapInstallArgv(Snap, DefaultSnapOptions));
    assert commands == InstallCommands() + ConfigureCommands();
    assert |snap.argv| == 4;
    assert multiset(commands) == multiset(InstallCommands()) + multiset(ConfigureCommands());
  }

  /** `start` alone with the package absent: ready stays false, redelivery is
      requested, and nothing but the start log runs, so no status is reported
      and no configuration is attempted. */
  method StartWithoutPackage() returns (commands: seq<Command>, ready: bool, deferred: bool)
    ensures !ready && deferred
    ensures |commands| == 1 && commands[0].Exec? && |commands[0].argv| == 2 && commands[0].argv[0] == "juju-log"
  {
    var host := new Host();
    var charm := new Charm(host);
    var start := new LifecycleEvent();
    charm.OnStart(start, false);
    commands, ready, deferred := host.commands, charm.ready, start.deferred;
  }

  /** `start` before the package exists is deferred; after `install` the
      redelivered `start` converges to ready, and a further `start` keeps it. */
  method DeferredStartConverges() returns (readyAfter: seq<bool>, deferredAt: seq<bool>)
    ensures readyAfter == [false, true, true]
    ensures deferredAt == [true, false, false]
  {
    var host := new Host();
    var charm := new Charm(host);
    var first := new LifecycleEvent();
    charm.OnStart(first, false);
    readyAfter, deferredAt := [charm.ready], [first.deferred];
    var install := new LifecycleEvent();
    charm.OnInstall(install);
    var again := new LifecycleEvent();
    charm.OnStart(again, true);
    readyAfter, deferredAt := readyAfter + [charm.ready], deferredAt + [again.deferred];
    var later := new LifecycleEvent();
    charm.OnStart(later, true);
    readyAfter, deferredAt := readyAfter + [charm.ready], deferredAt + [later.deferred];
  }
}
