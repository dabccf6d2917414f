# microk8s charm: install/start reconciliation and host commands

A Dafny model of the Juju charm in `lib/charm.py`. The charm installs the
`microk8s` snap when it receives the `install` event. On `start` it checks
whether the snap is present. If it is absent, the charm marks itself not ready
and defers the event. If it is present, the charm marks itself ready, adds the
`ubuntu` user to the `microk8s` group, installs the `hello` package and reports
`active` / `Ready!`.

Every host action in the source goes through `subprocess`. The model does not
run anything. Running a command is the `Charm.Host` object appending a
`Command` to its `commands` log. A command is an argument vector (`Exec`) or a
shell line (`Shell`).

Modules:

- `Wrappers`: `Option`, `Result` and `Outcome`. These stand for `None` defaults
  and raised exceptions.
- `Decimal`: renders a revision number the way `'{}'.format(n)` does. It also
  has a parser that undoes the rendering.
- `Commands`: pure builders of the argument vectors of `snap install`
  (`_snap_args`), `apt-get install`, `juju-log` and `status-set`.
- `SnapProperties`: lemmas about the snap flags. They cover the defaults, the
  fixed order, how many times each flag appears, the `connect` argument being
  ignored and the revision reading back.
- `CommandProperties`: lemmas about the `apt-get`, `juju-log` and `status-set`
  commands.
- `Charm`: the `Host` executor, the `LifecycleEvent` with its `defer()` flag,
  the module-level helpers `log`, `status_set`, `apt_install` and
  `snap_install` as methods that build a command and run it, and the `Charm`
  class with its persisted `ready` field and the `on_install` and `on_start`
  handlers.
- `Scenarios`: whole event deliveries to a freshly deployed charm.

The object invariant `Charm.Charm.Valid()` keeps a ghost history of the
installed-fact seen by each `start`. It states that `ready` holds exactly when
the latest `start` found the package. So `ready` implies that some `start` saw
the package installed.

Points where the code's behaviour is easy to misread, and which the model follows:

- `log` truncates the message to its first 131072 characters, because Python
  slices a `str` by code point. The kernel limit the constant comes from counts
  bytes, so a message of multi-byte characters can still exceed it.
- `if level:` treats an empty-string level like no level, so `-l` is added only
  for a non-empty level.
- `apt_install` replaces only a missing `options` (`None`) with the default
  option. An explicit empty list adds no option.
- `on_start` logs `on_start: starting` before it checks for the package, so even
  a deferred start runs one `juju-log` command.

## Model

| member | source | states |
|---|---|---|
| Decimal.NatToString | lib/charm.py:144-145 | the revision is rendered as a non-empty string of decimal digits with no leading zero |
| Decimal.ParseNatToString | lib/charm.py:144-145 | parsing the rendered revision gives back the number, so the rendering loses nothing |
| Commands.SnapArgs | lib/charm.py:132-145 | the channel flag `--channel=<channel>` comes first and is followed by at most five optional flags |
| Commands.SnapInstallArgv | lib/charm.py:118-121 | the command is `snap install`, then exactly the `_snap_args` flags, then the snap name as the last argument |
| Commands.AptOptions | lib/charm.py:102-103 | a missing `options` becomes the single force-confold option; a given list, even an empty one, is used as it is |
| Commands.AptInstallArgv | lib/charm.py:96-110 | the command is `apt-get --assume-yes`, then the options, then `install`, then the packages in their given order |
| Commands.LogArgv | lib/charm.py:80-91 | the command starts with `juju-log` and has `-l <level>` only for a non-empty level; the last argument is a prefix of the message, at most 131072 long, and is the whole message when the message fits |
| Commands.StatusSetArgv | lib/charm.py:71-78 | the call fails with an invalid-state error exactly when the state is not one of maintenance, blocked, waiting or active; otherwise the command is `status-set <state> <message>` |
| SnapProperties.SnapArgsDefault | lib/charm.py:132-135 | with every keyword at its default the flags are exactly `--channel=stable`, and `snap_install('microk8s')` runs `snap install --channel=stable microk8s` |
| SnapProperties.SnapArgsDevmodeRevision | lib/charm.py:132-145 | `devmode=True, revision=42` gives `--channel=stable --devmode --revision=42` in that order |
| SnapProperties.SnapArgsIgnoresConnect | lib/charm.py:132-145 | the `connect` argument never changes the flags |
| SnapProperties.SnapArgsOrdered | lib/charm.py:135-145 | the first flag is the channel; after it, every flag is one of devmode, jailmode, dangerous, classic or revision, in that fixed order, each at most once |
| SnapProperties.SnapArgsFlagCounts | lib/charm.py:136-143 | `--devmode`, `--jailmode` and `--classic` each occur once when their option is set and never otherwise; `--dangerous` occurs exactly once when `dangerous` or `force_dangerous` is set, and never otherwise |
| SnapProperties.SnapArgsRevision | lib/charm.py:144-145 | the revision read back from the flags equals the requested revision, and there is no revision flag without one |
| CommandProperties.AptDefaultOptionOnlyWhenOmitted | lib/charm.py:102-107 | omitting `options` adds the force-confold option before `install`; an explicit empty list adds nothing |
| CommandProperties.LogTruncationIdempotent | lib/charm.py:90-91 | logging the truncated argument again gives the same command |
| CommandProperties.LogShortMessageWhole | lib/charm.py:82-91 | a message within the bound is passed whole, after the optional level |
| CommandProperties.StatusSetStates | lib/charm.py:71-78 | each of the four states gives `status-set <state> <message>`; `error` and `Active` are refused |
| Charm.Log | lib/charm.py:80-94 | builds the command step by step and runs exactly the `juju-log` command of the message and level |
| Charm.StatusSet | lib/charm.py:62-78 | an invalid state fails with the invalid-state error and runs nothing; a valid state runs exactly `status-set <state> <message>` |
| Charm.AptInstall | lib/charm.py:96-116 | runs the log of the packages and effective options, then the `apt-get` command, and nothing else |
| Charm.SnapInstall | lib/charm.py:118-123 | runs the `Installing <name> from store` log, then the `snap install` command, and nothing else |
| Charm.LifecycleEvent.Defer | lib/charm.py:50 | the event is marked for redelivery |
| Charm.Charm.constructor | lib/charm.py:32-39 | a fresh charm has seen no `start` and reads as not ready (the source leaves `ready` unset until then) |
| Charm.Charm.OnInstall | lib/charm.py:42-44 | installs the snap from the stable channel, then logs; `ready` and the start history stay as they were |
| Charm.Charm.OnStart | lib/charm.py:46-60 | `ready` becomes the installed-fact. Without the package the event is deferred and only the start log runs. With the package it does not defer, and runs the start log, the group change, the `hello` install and `status-set active Ready!` last. The invariant is kept |
| Scenarios.InstallThenStart | lib/charm.py:42-60 | `install` then `start` with the package present: ready, not deferred, the snap installed exactly once, the group change and the `hello` install attempted, and `status-set active Ready!` as the last command |
| Scenarios.StartWithoutPackage | lib/charm.py:46-52 | `start` alone without the package: not ready, deferred, and only one `juju-log` command runs, so there is no status report and no configuration |
| Scenarios.DeferredStartConverges | lib/charm.py:42-60 | a deferred `start`, then `install`, then two `start`s with the package present: ready is false, true, true and only the first start is deferred |

## Left out

- Process execution and exit codes (lib/charm.py:55-58, 78, 94, 116, 123). A command runs by being appended to `Host.commands`. A non-zero exit from `check_call` or `check_output` would raise and abort the handler. The model does not capture that.
- Charm.AptInstall: a failing `apt-get` is not modelled, so its contract always reports the command as run.
- Charm.SnapInstall: a failing `snap install` is not modelled, and neither is the captured output.
- Charm.StatusSet: only the invalid-state error is modelled. A failing `status-set` process is not.
- The `usermod` shell line is recorded as an opaque `Shell` command. Its failure is ignored in the source as well.
- `_is_snap_installed` (lib/charm.py:125-130) is not modelled. It indexes `check_output` instead of calling it, so as written it always raises. It also ignores its argument. The model takes whether the package is installed as the `installed` parameter of `OnStart`.
- The Juju framework is not modelled: `CharmBase`, `framework.observe`, event delivery and redelivery, and `StoredState` persistence (lib/charm.py:1-6, 27-39). `StoredState` is the plain `ready` field. `event.defer()` sets a flag on the event object.
- `Microk8sReadyEvent` and `Microk8sCharmEvents` are never emitted (lib/charm.py:20-25). The imports `yaml`, `base64`, `Path` and `Enum` are unused.
- The `isinstance(packages, collections.abc.Sequence)` error (lib/charm.py:109-112) is not modelled. Packages are a `seq<string>`, so that branch cannot be reached.
- The `repr()` of non-string log messages (lib/charm.py:85-86) is not modelled. Messages are strings.
- `_snap_args` tests `devmode is True` and the other flags by identity, not truthiness (lib/charm.py:136-143). So a truthy non-`True` value such as `devmode=1` yields no flag in the source. The model's options are `bool`, so such inputs cannot be expressed.
- Charm.Charm.constructor: the source never initialises `state.ready` (lib/charm.py:32). It is absent until the first `start`. The model stores `false` instead, so "absent" and "not ready" are not told apart.
- Commands.AptLogMessage: Python's `repr` of a list is modelled only for strings without quotes or backslashes. Escaping and the switch to double quotes are not modelled.
- Commands.SnapArgs: revisions are natural numbers. Other values that `format` would render, such as strings, are not modelled.
