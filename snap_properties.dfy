/** What `_snap_args` and `snap_install` promise about the flags they produce. */
module SnapProperties {
  import opened Wrappers
  import opened Decimal
  import opened Commands

  /** With every keyword argument at its default, only the channel flag is produced. */
  lemma SnapArgsDefault()
    ensures SnapArgs(DefaultSnapOptions) == ["--channel=stable"]
    ensures SnapInstallArgv("microk8s", DefaultSnapOptions) == ["snap", "install", "--channel=stable", "microk8s"]
  {
    assert ChannelPrefix + "stable" == "--channel=stable";
  }

  /** `devmode=True, revision=42` gives the channel, devmode and revision flags, in that order. */
  lemma SnapArgsDevmodeRevision()
    ensures SnapArgs(DefaultSnapOptions.(devmode := true, revision := Some(42)))
         == ["--channel=stable", "--devmode", "--revision=42"]
  {
    assert ChannelPrefix + "stable" == "--channel=stable";
    assert NatToString(42) == "42";
    assert RevisionPrefix + "42" == "--revision=42";
  }

  /** The `connect` argument never contributes a flag. */
  lemma SnapArgsIgnoresConnect(o: SnapOptions, connect: Option<string>)
    ensures SnapArgs(o.(connect := connect)) == SnapArgs(o)
  {
  }

  /** The channel flag is none of the optional flags. */
  lemma ChannelFlagUnranked(channel: string)
    ensures FlagRank(ChannelPrefix + channel) == 0
  {
    var arg := ChannelPrefix + channel;
    assert arg[2] == 'c';
    assert !IsRevisionFlag(arg) by { assert RevisionPrefix[2] == 'r'; }
  }

  /** The revision flag ranks last. */
  lemma RevisionFlagRank(revision: Option<nat>)
    ensures forall i :: 0 <= i < |RevisionFlag(revision)| ==> FlagRank(RevisionFlag(revision)[i]) == 5
  {
  }

  predicate RanksAbove(args: seq<string>, k: nat) {
    forall i :: 0 <= i < |args| ==> k < FlagRank(args[i])
  }

  /** Yielding a flag in front of flags that all rank above it keeps the ranks rising. */
  lemma PrependOptional(on: bool, arg: string, rest: seq<string>, k: nat)
    requires k < FlagRank(arg)
    requires StrictlyRanked(rest) && RanksAbove(rest, FlagRank(arg))
    ensures StrictlyRanked(Optional(on, arg) + rest)
    ensures RanksAbove(Optional(on, arg) + rest, k)
  {
  }

  /** After the channel, flags appear only in the fixed order devmode, jailmode,
      dangerous, classic, revision, and each at most once. */
  lemma {:induction false} SnapArgsOrdered(o: SnapOptions)
    ensures FlagRank(SnapArgs(o)[0]) == 0
    ensures StrictlyRanked(SnapArgs(o)[1..])
  {
    ChannelFlagUnranked(o.channel);
    var rev := RevisionFlag(o.revision);
    RevisionFlagRank(o.revision);
    assert StrictlyRanked(rev);
    var t4 := Optional(o.classic, "--classic") + rev;
    PrependOptional(o.classic, "--classic", rev, 3);
    var t3 := Optional(o.forceDangerous || o.dangerous, "--dangerous") + t4;
    PrependOptional(o.forceDangerous || o.dangerous, "--dangerous", t4, 2);
    var t2 := Optional(o.jailmode, "--jailmode") + t3;
    PrependOptional(o.jailmode, "--jailmode", t3, 1);
    PrependOptional(o.devmode, "--devmode", t2, 0);
  }

  lemma FixedFlagsAreNotRevisions()
    ensures !IsRevisionFlag("--devmode") && !IsRevisionFlag("--jailmode")
    ensures !IsRevisionFlag("--dangerous") && !IsRevisionFlag("--classic")
  {
    assert RevisionPrefix[2] == 'r' && "--dangerous"[2] == 'd';
  }

  /** Revision lookup passes over leading arguments that are not revision flags. */
  lemma {:induction false} RevisionInSkips(front: seq<string>, rest: seq<string>)
    requires forall i :: 0 <= i < |front| ==> !IsRevisionFlag(front[i])
    ensures RevisionIn(front + rest) == RevisionIn(rest)
  {
    if |front| > 0 {
      assert (front + rest)[0] == front[0];
      assert (front + rest)[1..] == front[1..] + rest;
      RevisionInSkips(front[1..], rest);
    } else {
      assert front + rest == rest;
    }
  }

  /** How often `flag` occurs after one conditional `yield`. */
  lemma CountAfterOptional(on: bool, arg: string, rest: seq<string>, flag: string)
    ensures multiset(Optional(on, arg) + rest)[flag]
         == (if on && arg == flag then 1 else 0) + multiset(rest)[flag]
  {
  }

  /** The revision flag is none of the boolean flags. */
  lemma RevisionFlagNotBoolean(revision: Option<nat>, flag: string)
    requires 0 < FlagRank(flag) < 5
    ensures multiset(RevisionFlag(revision))[flag] == 0
  {
  }

  /** How often a flag occurs after the channel: once per enabled `yield` that produces it. */
  lemma {:induction false} OptionalFlagCount(o: SnapOptions, flag: string)
    requires multiset(RevisionFlag(o.revision))[flag] == 0
    ensures multiset(OptionalSnapFlags(o))[flag]
         == (if o.devmode && flag == "--devmode" then 1 else 0)
          + (if o.jailmode && flag == "--jailmode" then 1 else 0)
          + (if (o.forceDangerous || o.dangerous) && flag == "--dangerous" then 1 else 0)
          + (if o.classic && flag == "--classic" then 1 else 0)
  {
  }

  /** A boolean flag is never the channel flag, so it is counted after the channel. */
  lemma BooleanFlagCount(o: SnapOptions, flag: string)
    requires 0 < FlagRank(flag) < 5
    ensures multiset(SnapArgs(o))[flag] == multiset(OptionalSnapFlags(o))[flag]
  {
    ChannelFlagUnranked(o.channel);
    assert multiset(SnapArgs(o)) == multiset{ChannelPrefix + o.channel} + multiset(OptionalSnapFlags(o));
  }


  /** The four boolean flags are pairwise different: by length, or at their third character. */
  lemma BooleanFlagsDistinct()
    ensures "--devmode" != "--jailmode" && "--devmode" != "--dangerous" && "--devmode" != "--classic"
    ensures "--jailmode" != "--dangerous" && "--jailmode" != "--classic"
    ensures "--dangerous" != "--classic"
  {
  }

  /** Each boolean flag is present exactly once when its option is set and absent
      otherwise; `--dangerous` is present exactly once when either `dangerous` or
      `force_dangerous` is set, so the two options never produce a duplicate. */
  lemma SnapArgsFlagCounts(o: SnapOptions)
    ensures multiset(SnapArgs(o))["--devmode"] == if o.devmode then 1 else 0
    ensures multiset(SnapArgs(o))["--jailmode"] == if o.jailmode then 1 else 0
    ensures multiset(SnapArgs(o))["--dangerous"] == if o.dangerous || o.forceDangerous then 1 else 0
    ensures multiset(SnapArgs(o))["--classic"] == if o.classic then 1 else 0
  {
    BooleanFlagsDistinct();
    assert multiset(SnapArgs(o))["--devmode"] == if o.devmode then 1 else 0 by {
      assert FlagRank("--devmode") == 1;
      BooleanFlagCount(o, "--devmode");
      RevisionFlagNotBoolean(o.revision, "--devmode");
      OptionalFlagCount(o, "--devmode");
    }
    assert multiset(SnapArgs(o))["--jailmode"] == if o.jailmode then 1 else 0 by {
      assert FlagRank("--jailmode") == 2;
      BooleanFlagCount(o, "--jailmode");
      RevisionFlagNotBoolean(o.revision, "--jailmode");
      OptionalFlagCount(o, "--jailmode");
    }
    assert multiset(SnapArgs(o))["--dangerous"] == if o.dangerous || o.forceDangerous then 1 else 0 by {
      assert FlagRank("--dangerous") == 3;
      BooleanFlagCount(o, "--dangerous");
      RevisionFlagNotBoolean(o.revision, "--dangerous");
      OptionalFlagCount(o, "--dangerous");
    }
    assert FlagRank("--classic") == 4;
    BooleanFlagCount(o, "--classic");
    RevisionFlagNotBoolean(o.revision, "--classic");
    OptionalFlagCount(o, "--classic");
  }

  /** The flags before the revision flag: the channel and the boolean flags. */
  function FlagsBeforeRevision(o: SnapOptions): seq<string> {
    [ChannelPrefix + o.channel] + OptionalSnapFlags(o.(revision := None))
  }

  lemma SnapArgsSplitAtRevision(o: SnapOptions)
    ensures SnapArgs(o) == FlagsBeforeRevision(o) + RevisionFlag(o.revision)
  {
    var rev := RevisionFlag(o.revision);
    var c, g := Optional(o.classic, "--classic"), Optional(o.forceDangerous || o.dangerous, "--dangerous");
    var j, d := Optional(o.jailmode, "--jailmode"), Optional(o.devmode, "--devmode");
    assert c + rev == (c + []) + rev;
    assert g + ((c + []) + rev) == (g + (c + [])) + rev;
    assert j + ((g + (c + [])) + rev) == (j + (g + (c + []))) + rev;
    assert d + ((j + (g + (c + []))) + rev) == (d + (j + (g + (c + [])))) + rev;
    assert OptionalSnapFlags(o) == OptionalSnapFlags(o.(revision := None)) + rev;
  }

  lemma NoRevisionFlagBeforeRevision(o: SnapOptions)
    ensures forall i :: 0 <= i < |FlagsBeforeRevision(o)| ==> !IsRevisionFlag(FlagsBeforeRevision(o)[i])
  {
    var front := FlagsBeforeRevision(o);
    ChannelFlagUnranked(o.channel);
    FixedFlagsAreNotRevisions();
    forall i | 0 <= i < |front| ensures !IsRevisionFlag(front[i]) {
      assert front[i] in front;
    }
  }

  /** The revision flag, when present, reads back as the requested revision;
      without a revision there is no revision flag. */
  lemma {:induction false} SnapArgsRevision(o: SnapOptions)
    ensures RevisionIn(SnapArgs(o)) == o.revision
    ensures o.revision.None? ==> forall i :: 0 <= i < |SnapArgs(o)| ==> !IsRevisionFlag(SnapArgs(o)[i])
  {
    var rev := RevisionFlag(o.revision);
    SnapArgsSplitAtRevision(o);
    NoRevisionFlagBeforeRevision(o);
    RevisionInSkips(FlagsBeforeRevision(o), rev);
    if o.revision.None? {
      assert SnapArgs(o) == FlagsBeforeRevision(o);
    } else {
      assert rev[0][|RevisionPrefix|..] == NatToString(o.revision.value);
      ParseNatToString(o.revision.value);
    }
  }
}
