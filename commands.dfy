/** The argument vectors that lib/charm.py hands to `subprocess`: `snap install`,
    `apt-get install`, `juju-log` and `status-set`. Every builder here is pure;
    running the command is the executor's business (module Charm). */
module Commands {
  import opened Wrappers
  import opened Decimal

  /** A command given to the host: an argument vector, or a line for the shell. */
  datatype Command = Exec(argv: seq<string>) | Shell(line: string)

  // ---------------------------------------------------------------------------
  // snap install
  // ---------------------------------------------------------------------------

  /** The keyword arguments of `_snap_args`. `connect` is accepted and never used. */
  datatype SnapOptions = SnapOptions(
    channel: string,
    devmode: bool,
    jailmode: bool,
    dangerous: bool,
    forceDangerous: bool,
    connect: Option<string>,
    classic: bool,
    revision: Option<nat>)

  /** Every keyword argument left at its default. */
  const DefaultSnapOptions := SnapOptions("stable", false, false, false, false, None, false, None)

  const ChannelPrefix := "--channel="
  const RevisionPrefix := "--revision="

  predicate IsRevisionFlag(arg: string) {
    RevisionPrefix <= arg
  }

  /** `[arg]` when `on` holds, nothing otherwise: one conditional `yield`. */
  function Optional(on: bool, arg: string): (r: seq<string>)
    ensures on ==> r == [arg]
    ensures !on ==> r == []
  {
    if on then [arg] else []
  }

  /** The `--revision=N` flag, yielded only when a revision is given. */
  function RevisionFlag(revision: Option<nat>): (r: seq<string>)
    ensures |r| == if revision.Some? then 1 else 0
  {
    match revision
    case None => []
    case Some(n) => [RevisionPrefix + NatToString(n)]
  }

  /** The flags `_snap_args` yields after the channel, in the order it yields them. */
  function OptionalSnapFlags(o: SnapOptions): (r: seq<string>)
    ensures |r| <= 5
  {
    Optional(o.devmode, "--devmode")
    + (Optional(o.jailmode, "--jailmode")
    + (Optional(o.forceDangerous || o.dangerous, "--dangerous")
    + (Optional(o.classic, "--classic")
    + RevisionFlag(o.revision))))
  }

  /** Everything `_snap_args` yields: the channel first, then the optional flags. */
  function SnapArgs(o: SnapOptions): (r: seq<string>)
    ensures 1 <= |r| <= 6
    ensures r[0] == ChannelPrefix + o.channel
    ensures r[1..] == OptionalSnapFlags(o)
  {
    [ChannelPrefix + o.channel] + OptionalSnapFlags(o)
  }

  /** The position of an optional flag in the fixed order devmode, jailmode,
      dangerous, classic, revision; 0 for anything that is not one of them. */
  function FlagRank(arg: string): nat {
    if arg == "--devmode" then 1
    else if arg == "--jailmode" then 2
    else if arg == "--dangerous" then 3
    else if arg == "--classic" then 4
    else if IsRevisionFlag(arg) then 5
    else 0
  }

  /** Every element is an optional flag and ranks strictly rise: fixed order, each at most once. */
  predicate StrictlyRanked(args: seq<string>) {
    && (forall i :: 0 <= i < |args| ==> 0 < FlagRank(args[i]))
    && (forall i, j :: 0 <= i < j < |args| ==> FlagRank(args[i]) < FlagRank(args[j]))
  }

  /** The revision carried by the first `--revision=` flag, read back as a number. */
  function RevisionIn(args: seq<string>): (r: Option<nat>)
    ensures r.Some? ==> exists i :: 0 <= i < |args| && IsRevisionFlag(args[i])
  {
    if |args| == 0 then None
    else if IsRevisionFlag(args[0]) then ParseNat(args[0][|RevisionPrefix|..])
    else RevisionIn(args[1..])
  }

  /** The argument vector of `snap_install(snapname, **kw)`. */
  function SnapInstallArgv(snapname: string, o: SnapOptions): (r: seq<string>)
    ensures |r| >= 4
    ensures r[..2] == ["snap", "install"]
    ensures r[2..|r| - 1] == SnapArgs(o)
    ensures r[|r| - 1] == snapname
  {
    ["snap", "install"] + SnapArgs(o) + [snapname]
  }

  /** The message `snap_install` logs before it runs. */
  function SnapLogMessage(snapname: string): string {
    "Installing " + snapname + " from store"
  }

  // ---------------------------------------------------------------------------
  // apt-get install
  // ---------------------------------------------------------------------------

  /** The option `apt_install` uses when it is given none: keep old config files. */
  const DefaultAptOption := "--option=Dpkg::Options::=--force-confold"

  /** `options`, with `None` replaced by the default; an explicit empty list stays empty. */
  function AptOptions(options: Option<seq<string>>): (r: seq<string>)
    ensures options.None? ==> r == [DefaultAptOption]
    ensures options.Some? ==> r == options.value
  {
    match options
    case None => [DefaultAptOption]
    case Some(given) => given
  }

  /** The argument vector of `apt_install(packages, options)`. */
  function AptInstallArgv(packages: seq<string>, options: Option<seq<string>>): (r: seq<string>)
    ensures var opts := AptOptions(options);
      && |r| == 3 + |opts| + |packages|
      && r[..2] == ["apt-get", "--assume-yes"]
      && r[2..2 + |opts|] == opts
      && r[2 + |opts|] == "install"
      && r[3 + |opts|..] == packages
  {
    ["apt-get", "--assume-yes"] + AptOptions(options) + ["install"] + packages
  }

  /** Python's `repr` of a string without quotes or backslashes in it. */
  function ReprString(s: string): string {
    "'" + s + "'"
  }

  function JoinReprs(items: seq<string>): string
    decreases |items|
  {
    if |items| == 0 then ""
    else if |items| == 1 then ReprString(items[0])
    else ReprString(items[0]) + ", " + JoinReprs(items[1..])
  }

  /** Python's `str` of a list of strings: `['a', 'b']`. */
  function ReprList(items: seq<string>): string {
    "[" + JoinReprs(items) + "]"
  }

  /** The message `apt_install` logs before it runs. */
  function AptLogMessage(packages: seq<string>, options: seq<string>): string {
    "Installing " + ReprList(packages) + " with options: " + ReprList(options)
  }

  // ---------------------------------------------------------------------------
  // juju-log
  // ---------------------------------------------------------------------------

  /** `MAX_ARG_STRLEN`, the kernel's bound on one argument: PAGE_SIZE * 32. */
  const MaxArgStrLen: nat := 131072

  /** `if level:` is false for `None` and for the empty string. */
  predicate LevelGiven(level: Option<string>) {
    level.Some? && level.value != ""
  }

  /** The argument vector of `log(message, level)`. */
  function LogArgv(message: string, level: Option<string>): (r: seq<string>)
    ensures |r| == if LevelGiven(level) then 4 else 2
    ensures r[0] == "juju-log"
    ensures LevelGiven(level) ==> r[1] == "-l" && r[2] == level.value
    ensures r[|r| - 1] <= message && |r[|r| - 1]| <= MaxArgStrLen
    ensures |r[|r| - 1]| == if |message| <= MaxArgStrLen then |message| else MaxArgStrLen
  {
    ["juju-log"]
    + (if LevelGiven(level) then ["-l", level.value] else [])
    + [message[..if |message| < MaxArgStrLen then |message| else MaxArgStrLen]]
  }

  // ---------------------------------------------------------------------------
  // status-set
  // ---------------------------------------------------------------------------

  /** The workload states `status-set` accepts. */
  const ValidWorkloadStates := ["maintenance", "blocked", "waiting", "active"]

  /** `ValueError('... is not a valid workload state')`. */
  datatype StatusError = InvalidWorkloadState(state: string)

  /** The argument vector of `status_set(state, message)`, or the error it raises first. */
  function StatusSetArgv(state: string, message: string): (r: Result<seq<string>, StatusError>)
    ensures r.Failure? <==> state !in ValidWorkloadStates
    ensures r.Failure? ==> r.error == InvalidWorkloadState(state)
    ensures r.Success? ==> r.value == ["status-set", state, message]
  {
    if state !in ValidWorkloadStates then Failure(InvalidWorkloadState(state))
    else Success(["status-set", state, message])
  }
}
