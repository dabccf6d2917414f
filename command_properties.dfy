/** What `apt_install`, `log` and `status_set` promise about the commands they build. */
module CommandProperties {
  import opened Wrappers
  import opened Commands

  /** Only a missing `options` argument brings in the keep-old-config option;
      an explicit empty list adds no option at all. */
  lemma AptDefaultOptionOnlyWhenOmitted(packages: seq<string>)
    ensures AptInstallArgv(packages, None)
         == ["apt-get", "--assume-yes", DefaultAptOption, "install"] + packages
    ensures AptInstallArgv(packages, Some([])) == ["apt-get", "--assume-yes", "install"] + packages
  {
  }

  /** Truncation is idempotent: logging the argument `log` produced yields the same command. */
  lemma LogTruncationIdempotent(message: string, level: Option<string>)
    ensures var r := LogArgv(message, level);
      LogArgv(r[|r| - 1], level) == r
  {
    var r := LogArgv(message, level);
    var last := r[|r| - 1];
    assert last[..|last|] == last;
    var again := LogArgv(last, level);
    assert again[|again| - 1] == last;
    assert again[..|again| - 1] == r[..|r| - 1];
    assert again == again[..|again| - 1] + [last];
    assert r == r[..|r| - 1] + [last];
  }

  /** A message within the bound is passed on whole, after the optional level. */
  lemma LogShortMessageWhole(message: string, level: Option<string>)
    requires |message| <= MaxArgStrLen
    ensures LogArgv(message, level)
         == ["juju-log"] + (if LevelGiven(level) then ["-l", level.value] else []) + [message]
  {
    assert message[..|message|] == message;
  }

  /** The four accepted states give a command; anything else, such as `error`, is refused. */
  lemma StatusSetStates(message: string)
    ensures forall state | state in ValidWorkloadStates ::
      StatusSetArgv(state, message) == Success(["status-set", state, message])
    ensures StatusSetArgv("error", message) == Failure(InvalidWorkloadState("error"))
    ensures StatusSetArgv("Active", message).Failure?
  {
  }
}
