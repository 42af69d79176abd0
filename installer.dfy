/** The installer object: the configuration it collects and edits, the
    commands it issues, and the configuration files it saves and loads. */
module Installer {
  import opened Options
  import opened PyStr
  import opened Settings
  import opened Commands
  import opened Menus
  import opened Disks
  import opened Layout
  import opened Steps

  /** The file `save_config` and `load_config` use when given no name. */
  const ConfigFile: string := "dev_arch_config.json"

  /** The phrase that lets the installation start. */
  const Confirmation: string := "YES I UNDERSTAND"

  /** The development tools always installed. */
  const DevToolsList: seq<string> := ["git", "github-cli", "lazygit", "tmux", "fzf", "ripgrep", "bat", "btop"]

  /** The groups the main user joins. */
  const UserGroups: seq<string> := ["wheel", "audio", "video", "storage", "optical", "network", "docker"]

  /** The listing shown before the disk menu. */
  const ListBlockDevices: Command := Exec(["lsblk", "-o", "NAME,SIZE,TYPE,FSTYPE,MOUNTPOINT"])

  /** The listing `get_disks` parses. */
  const ListDisks: Command := Exec(["lsblk", "-ndo", "NAME,SIZE,TYPE"])

  /** One round of a password prompt: the entry and its confirmation, as
      typed. */
  datatype Attempt = Attempt(entry: string, confirmation: string)

  /** Both lines of a round agree once stripped. */
  predicate Matches(a: Attempt) {
    Strip(a.entry) == Strip(a.confirmation)
  }

  /** The round at which a password prompt stops, looking from round
      `from` on: the first whose two lines agree; `None` when no round does
      (the prompt never ends). */
  function FirstMatch(attempts: seq<Attempt>, from: nat): (r: Option<nat>)
    requires from <= |attempts|
    ensures r.Some? ==> from <= r.value < |attempts| && Matches(attempts[r.value])
    ensures r.Some? ==> forall j :: from <= j < r.value ==> !Matches(attempts[j])
    ensures r.None? ==> forall j :: from <= j < |attempts| ==> !Matches(attempts[j])
    decreases |attempts| - from
  {
    if from == |attempts| then None
    else if Matches(attempts[from]) then Some(from)
    else FirstMatch(attempts, from + 1)
  }

  /** The secret a prompt stores: the stripped entry of the first agreeing
      round. */
  function Secret(attempts: seq<Attempt>): Option<string> {
    match FirstMatch(attempts, 0)
    case Some(i) => Some(Strip(attempts[i].entry))
    case None => None
  }

  /** A prompt stores a secret exactly when some round agrees, and what it
      stores is the stripped entry of an agreeing round. */
  lemma SecretAgreed(attempts: seq<Attempt>)
    ensures Secret(attempts).Some? <==> exists j :: 0 <= j < |attempts| && Matches(attempts[j])
    ensures Secret(attempts).Some? ==>
      exists j :: 0 <= j < |attempts| && Matches(attempts[j]) && Secret(attempts).value == Strip(attempts[j].entry)
  {
    if Secret(attempts).Some? {
      var i := FirstMatch(attempts, 0).value;
      assert Matches(attempts[i]);
    }
  }

  /** Mismatched rounds before an agreeing one change nothing: the prompt
      asks again and stores the later secret. */
  lemma SecretAfterMismatch(bad: seq<Attempt>, good: Attempt, rest: seq<Attempt>)
    requires forall j :: 0 <= j < |bad| ==> !Matches(bad[j])
    requires Matches(good)
    ensures Secret(bad + [good] + rest) == Some(Strip(good.entry))
  {
    var all := bad + [good] + rest;
    assert all[|bad|] == good;
    assert forall j :: 0 <= j < |bad| ==> all[j] == bad[j];
  }

  /** The `while True` loop of a password prompt: it reads rounds until the
      two lines agree and returns the stripped entry. */
  method ConfirmSecret(attempts: seq<Attempt>) returns (secret: Option<string>)
    ensures secret == Secret(attempts)
  {
    var i := 0;
    while i < |attempts|
      invariant 0 <= i <= |attempts|
      invariant forall j :: 0 <= j < i ==> !Matches(attempts[j])
    {
      var pwd1 := Strip(attempts[i].entry);
      var pwd2 := Strip(attempts[i].confirmation);
      if pwd1 == pwd2 {
        assert Matches(attempts[i]);
        return Some(pwd1);
      }
      i := i + 1;
    }
    return None;
  }

  /** The answers `configure_storage` reads, in prompt order (those for
      questions that are not asked are ignored). */
  datatype StorageAnswers = StorageAnswers(
    disk: string, scheme: string, swap: string, home: string, filesystem: string,
    compression: string, snapshots: string, encrypt: string)

  datatype SystemAnswers = SystemAnswers(hostname: string, region: string, city: string, locale: string, keymap: string)

  datatype UserAnswers = UserAnswers(disableRoot: string, username: string, shell: string)

  datatype HyprlandAnswers = HyprlandAnswers(theme: string, animations: string, displayManager: string)

  datatype DevelopmentAnswers = DevelopmentAnswers(languages: string, editors: string, terminal: string, docker: string)

  datatype ApplicationAnswers = ApplicationAnswers(browser: string, discord: string)

  datatype ToolAnswers = ToolAnswers(bootloader: string, cpu: string, firewall: string, bluetooth: string, aur: string)

  /** `c1` agrees with `c0` on every key outside `written`. */
  predicate Keeps(c0: Config, c1: Config, written: set<Key>) {
    forall k :: k !in written ==> (k in c1 <==> k in c0) && (k in c0 ==> c1[k] == c0[k])
  }

  /** The schemes that ask for swap, and those that ask for a home size. */
  predicate SwapScheme(scheme: string) {
    scheme == "1" || scheme == "3" || scheme == "4"
  }

  predicate HomeScheme(scheme: string) {
    scheme == "1" || scheme == "4"
  }

  /** The keys `configure_storage` writes for a scheme and a filesystem. */
  function StorageKeys(scheme: string, fs: string): set<Key> {
    {Disk, PartitionScheme, SwapSize, Filesystem, EncryptionPassword}
      + (if HomeScheme(scheme) then {HomeSize} else {})
      + (if fs == "btrfs" then {BtrfsCompression, BtrfsSnapshots} else {})
  }

  /** The configuration after the writes of `configure_storage`: the home
      size only for the schemes that ask for it, the btrfs options only for
      btrfs, where the compression `none` is stored as `None`. */
  function StorageSettings(c: Config, disk: string, scheme: string, swap: Value, home: string,
                           fs: string, compression: string, snapshots: bool, encryption: Value): (r: Config)
    ensures StorageKeys(scheme, fs) <= r.Keys
    ensures Is(r, Disk, disk) && Is(r, PartitionScheme, scheme) && Is(r, Filesystem, fs)
    ensures r[SwapSize] == swap && r[EncryptionPassword] == encryption
    ensures HomeScheme(scheme) ==> Is(r, HomeSize, home)
    ensures fs == "btrfs" ==>
              r[BtrfsCompression] == (if compression == "none" then Null else Str(compression))
              && r[BtrfsSnapshots] == Flag(snapshots)
  {
    var c1 := c[Disk := Str(disk)][PartitionScheme := Str(scheme)][SwapSize := swap];
    var c2 := if HomeScheme(scheme) then c1[HomeSize := Str(home)] else c1;
    var c3 := c2[Filesystem := Str(fs)];
    var c4 := if fs == "btrfs" then
                c3[BtrfsCompression := if compression != "none" then Str(compression) else Null]
                  [BtrfsSnapshots := Flag(snapshots)]
              else c3;
    c4[EncryptionPassword := encryption]
  }

  /** `configure_storage` writes no key outside its own. */
  lemma StorageSettingsKeeps(c: Config, disk: string, scheme: string, swap: Value, home: string,
                             fs: string, compression: string, snapshots: bool, encryption: Value)
    ensures Keeps(c, StorageSettings(c, disk, scheme, swap, home, fs, compression, snapshots, encryption),
                  StorageKeys(scheme, fs))
  {
  }

  /** The configuration after the writes of `configure_users`: a disabled
      root (`None`) stores the password `!` and sets `disable_root`; the
      users map becomes the one main user. */
  function UserSettings(c: Config, root: Option<string>, user: UserEntry): (r: Config)
    ensures Keeps(c, r, if root.None? then {RootPassword, DisableRoot, Users} else {RootPassword, Users})
    ensures RootPassword in r && Users in r && (root.None? ==> DisableRoot in r)
    ensures root.None? ==> Is(r, RootPassword, "!") && r[DisableRoot] == Flag(true)
    ensures root.Some? ==> Is(r, RootPassword, root.value)
    ensures r[Users] == UserMap([user])
  {
    var c1 := if root.None? then c[RootPassword := Str("!")][DisableRoot := Flag(true)]
              else c[RootPassword := Str(root.value)];
    c1[Users := UserMap([user])]
  }

  /** How `perform_installation` ends. */
  datatype Outcome =
    | Cancelled          // the confirmation phrase was not typed
    | Completed          // all twelve steps ran
    | StepFailed(step: nat)  // the step that raised; none after it ran
    | MissingDisk        // no disk in the configuration: the warning itself raises

  /** Step 1, `partition_disk`, records the partitions once its commands have
      run; a configuration without a disk string raises before any. */
  function Partitioning(c: Config): Config {
    match Required(c, Disk)
    case Some(disk) => Partitioned(c, disk)
    case None => c
  }

  /** Step 2, `format_partitions`, records the root device. */
  function Formatting(c: Config): Config {
    match Required(c, RootPartition)
    case Some(root) => Formatted(c, root)
    case None => c
  }

  /** After a completed preparation, the completed step 2 adds the root
      device to what a stop in its `mkfs` leaves. */
  lemma FormattingAfterPrep(c: Config, root: string, pos: nat, failing: set<nat>)
    requires Required(c, RootPartition) == Some(root) && Succeeds(PrepPlan(c), pos, failing)
    ensures Formatting(c) == FormatFailed(c, pos, failing)[FormattedRoot := Str(RootDevice(c, root))]
  {
  }

  /** The plans of steps 1 to 3 (partitioning, formatting, mounting) when
      the installation starts on `c`. A step is reached only when the ones
      before it completed, so step 2 sees the partitions step 1 recorded and
      step 3 also the root device step 2 recorded. */
  function DiskPlans(c: Config): (ps: seq<Plan>)
    ensures |ps| == 3
  {
    [PartitionPlan(c), FormatPlan(Partitioning(c)), MountPlan(Formatting(Partitioning(c)))]
  }

  /** The plans of steps 4 to 7 (base system, file system table, system
      settings, boot loader) on the configuration the first two steps left. */
  function SystemPlans(c: Config, out: Command -> string): (ps: seq<Plan>)
    ensures |ps| == 4
  {
    [BasePlan(c), FstabPlan(), BaseSystemPlan(c), BootloaderPlan(c, out)]
  }

  /** The plans of steps 8 to 12 (accounts, desktop, development tools,
      applications, services); no step after the second writes a key. */
  function DesktopPlans(c: Config): (ps: seq<Plan>)
    ensures |ps| == 5
  {
    [UsersPlan(c), HyprlandPlan(c), DevToolsPlan(c), AppsPlan(c), ServicesPlan(c)]
  }

  /** The twelve plans of `perform_installation` on `c`, in order. */
  function InstallPlans(c: Config, out: Command -> string): (ps: seq<Plan>)
    ensures |ps| == 12 && ps[0] == PartitionPlan(c)
  {
    var c2 := Formatting(Partitioning(c));
    DiskPlans(c) + SystemPlans(c2, out) + DesktopPlans(c2)
  }

  /** The configuration after an installation that stopped in step
      `failedAt` (`None` when all twelve steps completed), its formatting
      commands starting at log position `formatPos`. */
  function ConfigAfter(c: Config, formatPos: nat, failing: set<nat>, failedAt: Option<nat>): Config {
    if failedAt == Some(1) then c
    else if failedAt == Some(2) then FormatFailed(Partitioning(c), formatPos, failing)
    else Formatting(Partitioning(c))
  }

  /** The result of running plans in order: the commands issued, and the
      number (from 1) of the plan that did not complete, if any. */
  datatype Run = Run(log: seq<Command>, failedAt: Option<nat>)

  /** All the commands of a list of plans, in order. */
  function Flatten(ps: seq<Plan>): seq<Command> {
    if ps == [] then [] else ps[0].cmds + Flatten(ps[1..])
  }

  /** A run preceded by the commands `done` of `n` plans that completed. */
  function After(done: seq<Command>, n: nat, run: Run): Run {
    Run(done + run.log, if run.failedAt.Some? then Some(run.failedAt.value + n) else None)
  }

  /** Runs plans in order, the first command going to log position `pos`:
      each plan's commands are issued until one fails, and a plan that does
      not complete ends the run (the `except` of `perform_installation`). */
  function RunPlans(ps: seq<Plan>, pos: nat, failing: set<nat>): (r: Run)
    ensures r.failedAt.Some? ==> 1 <= r.failedAt.value <= |ps|
    decreases |ps|
  {
    if ps == [] then Run([], None)
    else if !Succeeds(ps[0], pos, failing) then Run(Issued(ps[0].cmds, pos, failing), Some(1))
    else After(ps[0].cmds, 1, RunPlans(ps[1..], pos + |ps[0].cmds|, failing))
  }

  /** Logs are concatenated in either grouping. */
  lemma LogAssoc(a: seq<Command>, b: seq<Command>, c: seq<Command>)
    ensures a + b + c == a + (b + c)
  {
  }

  /** The commands before plan `j + 1` are those of the first plan and
      those before plan `j` of the rest. */
  lemma FlattenPrefix(ps: seq<Plan>, j: nat)
    requires ps != [] && j < |ps|
    ensures Flatten(ps[..j + 1]) == ps[0].cmds + Flatten(ps[1..][..j])
  {
    assert ps[..j + 1][1..] == ps[1..][..j];
  }

  /** Every plan of `ps` completes, each starting where the commands of the
      plans before it end. */
  predicate AllComplete(ps: seq<Plan>, pos: nat, failing: set<nat>)
    decreases |ps|
  {
    ps == [] || (Succeeds(ps[0], pos, failing) && AllComplete(ps[1..], pos + |ps[0].cmds|, failing))
  }

  /** A run completes exactly when every plan completes, and then it has
      issued all their commands. */
  lemma {:induction false} RunPlansCompleted(ps: seq<Plan>, pos: nat, failing: set<nat>)
    ensures RunPlans(ps, pos, failing).failedAt.None? <==> AllComplete(ps, pos, failing)
    ensures RunPlans(ps, pos, failing).failedAt.None? ==> RunPlans(ps, pos, failing).log == Flatten(ps)
    decreases |ps|
  {
    if ps != [] {
      RunPlansCompleted(ps[1..], pos + |ps[0].cmds|, failing);
    }
  }

  /** When the plans before `p` all complete and `p` does not, the run
      stops in `p`: it has issued the commands of the plans before it, then
      those of `p` up to the one that failed. */
  lemma {:induction false} RunPlansFailed(pre: seq<Plan>, p: Plan, post: seq<Plan>, pos: nat, failing: set<nat>)
    requires AllComplete(pre, pos, failing) && !Succeeds(p, pos + |Flatten(pre)|, failing)
    ensures RunPlans(pre + [p] + post, pos, failing) ==
      Run(Flatten(pre) + Issued(p.cmds, pos + |Flatten(pre)|, failing), Some(|pre| + 1))
    decreases |pre|
  {
    var ps := pre + [p] + post;
    if pre == [] {
      assert ps == [p] + post && ps[0] == p;
    } else {
      var pos' := pos + |pre[0].cmds|;
      var rest := Flatten(pre[1..]);
      assert ps[0] == pre[0] && ps[1..] == pre[1..] + [p] + post;
      assert pos + |Flatten(pre)| == pos' + |rest|;
      RunPlansFailed(pre[1..], p, post, pos', failing);
      assert RunPlans(ps, pos, failing) == After(pre[0].cmds, 1, RunPlans(pre[1..] + [p] + post, pos', failing));
      assert Flatten(pre) == pre[0].cmds + rest;
      LogAssoc(pre[0].cmds, rest, Issued(p.cmds, pos' + |rest|, failing));
    }
  }

  /** The run stops at the first failing command: no command but the last
      one issued fails, and in a completed run none does. */
  lemma {:induction false} RunStopsAtFirstFailure(ps: seq<Plan>, pos: nat, failing: set<nat>)
    ensures var r := RunPlans(ps, pos, failing);
      forall i :: 0 <= i < |r.log| - 1 ==> !FailsAt(r.log[i], pos + i, failing)
    ensures var r := RunPlans(ps, pos, failing);
      r.failedAt.None? ==> forall i :: 0 <= i < |r.log| ==> !FailsAt(r.log[i], pos + i, failing)
    decreases |ps|
  {
    if ps != [] {
      IssuedStops(ps[0].cmds, pos, failing);
    }
    if ps != [] && Succeeds(ps[0], pos, failing) {
      var p := ps[0];
      var rest := RunPlans(ps[1..], pos + |p.cmds|, failing);
      RunStopsAtFirstFailure(ps[1..], pos + |p.cmds|, failing);
      var log := p.cmds + rest.log;
      forall i | 0 <= i < |log| && (i < |log| - 1 || rest.failedAt.None?)
        ensures !FailsAt(log[i], pos + i, failing)
      {
        if i >= |p.cmds| {
          assert log[i] == rest.log[i - |p.cmds|];
        }
      }
    }
  }


  /** Where an installation stands: the configuration, the command log,
      and the number of the step that raised, once one has. */
  datatype Progress = Progress(config: Config, log: seq<Command>, failed: Option<nat>)

  /** Step `k` runs plan `p` unless an earlier step raised: its commands
      are logged until one fails, and when it completes the configuration
      becomes `next`. */
  function Then(s: Progress, k: nat, p: Plan, next: Config, failing: set<nat>): (t: Progress)
    ensures s.failed.Some? ==> t == s
    ensures s.failed.None? ==> t.log == s.log + Issued(p.cmds, |s.log|, failing)
    ensures s.failed.None? ==> t.failed.None? == Succeeds(p, |s.log|, failing)
    ensures s.failed.None? ==> t.config == if t.failed.None? then next else s.config
    ensures t.failed.Some? ==> t.failed == s.failed || t.failed == Some(k)
  {
    if s.failed.Some? then s
    else
      var log := s.log + Issued(p.cmds, |s.log|, failing);
      if Succeeds(p, |s.log|, failing) then Progress(next, log, None) else Progress(s.config, log, Some(k))
  }

  /** Steps `k`, `k + 1`, ... run plans `ps` in turn, step `k + i` leaving
      the configuration `nexts[i]` when it completes. */
  function RunSteps(s: Progress, k: nat, ps: seq<Plan>, nexts: seq<Config>, failing: set<nat>): Progress
    requires |nexts| == |ps|
    decreases |ps|
  {
    if ps == [] then s else RunSteps(Then(s, k, ps[0], nexts[0], failing), k + 1, ps[1..], nexts[1..], failing)
  }

  /** `n` times the same configuration. */
  function Same(c: Config, n: nat): (cs: seq<Config>)
    ensures |cs| == n && forall i :: 0 <= i < n ==> cs[i] == c
  {
    seq(n, _ => c)
  }

  /** The configurations steps 1 to 3 leave when they complete: the first
      two record keys, the third none. */
  function DiskNexts(c: Config): (cs: seq<Config>)
    ensures |cs| == 3
  {
    var c2 := Formatting(Partitioning(c));
    [Partitioning(c), c2, c2]
  }

  /** The configuration each of the twelve steps leaves when it completes. */
  function Nexts(c: Config): (cs: seq<Config>)
    ensures |cs| == 12
  {
    var c2 := Formatting(Partitioning(c));
    DiskNexts(c) + Same(c2, 4) + Same(c2, 5)
  }

  /** Where an installation stands once step 2, started on `c1` at log
      position `pos`, has stopped: the configuration holds what
      `format_partitions` wrote before it stopped. */
  function FormatStop(s: Progress, c1: Config, pos: nat, failing: set<nat>): Progress {
    if s.failed == Some(2) then s.(config := FormatFailed(c1, pos, failing)) else s
  }

  /** Steps 1 to 3 from the configuration `c` and the log `log`. */
  function DiskStages(c: Config, log: seq<Command>, failing: set<nat>): Progress {
    var c1 := Partitioning(c);
    var c2 := Formatting(c1);
    var s1 := Then(Progress(c, log, None), 1, PartitionPlan(c), c1, failing);
    var s2 := FormatStop(Then(s1, 2, FormatPlan(c1), c2, failing), c1, |s1.log|, failing);
    Then(s2, 3, MountPlan(c2), c2, failing)
  }

  /** Steps 4 to 7 after `s`, on the configuration `s` holds. */
  function SystemStages(s: Progress, failing: set<nat>, out: Command -> string): Progress {
    var c := s.config;
    var s4 := Then(s, 4, BasePlan(c), c, failing);
    var s5 := Then(s4, 5, FstabPlan(), c, failing);
    var s6 := Then(s5, 6, BaseSystemPlan(c), c, failing);
    Then(s6, 7, BootloaderPlan(c, out), c, failing)
  }

  /** Steps 8 to 12 after `s`, on the configuration `s` holds. */
  function DesktopStages(s: Progress, failing: set<nat>): Progress {
    var c := s.config;
    var s8 := Then(s, 8, UsersPlan(c), c, failing);
    var s9 := Then(s8, 9, HyprlandPlan(c), c, failing);
    var s10 := Then(s9, 10, DevToolsPlan(c), c, failing);
    var s11 := Then(s10, 11, AppsPlan(c), c, failing);
    Then(s11, 12, ServicesPlan(c), c, failing)
  }

  /** `perform_installation` after the confirmation: its twelve steps from
      the configuration `c` and the log `log`. */
  function Install(c: Config, log: seq<Command>, failing: set<nat>, out: Command -> string): Progress {
    DesktopStages(SystemStages(DiskStages(c, log, failing), failing, out), failing)
  }

  /** Once a step has raised, no later step runs. */
  lemma {:induction false} StepsAfterFailure(s: Progress, k: nat, ps: seq<Plan>, nexts: seq<Config>, failing: set<nat>)
    requires |nexts| == |ps| && s.failed.Some?
    ensures RunSteps(s, k, ps, nexts, failing) == s
    decreases |ps|
  {
    if ps != [] {
      StepsAfterFailure(s, k + 1, ps[1..], nexts[1..], failing);
    }
  }

  /** Running two lists of steps is running the first and then, numbered
      after it, the second. */
  lemma {:induction false} StepsAppend(s: Progress, k: nat, ps: seq<Plan>, qs: seq<Plan>,
                                       ns: seq<Config>, ms: seq<Config>, failing: set<nat>)
    requires |ns| == |ps| && |ms| == |qs|
    ensures RunSteps(s, k, ps + qs, ns + ms, failing) == RunSteps(RunSteps(s, k, ps, ns, failing), k + |ps|, qs, ms, failing)
    decreases |ps|
  {
    if ps == [] {
      assert ps + qs == qs && ns + ms == ms;
    } else {
      assert (ps + qs)[1..] == ps[1..] + qs && (ns + ms)[1..] == ns[1..] + ms;
      StepsAppend(Then(s, k, ps[0], ns[0], failing), k + 1, ps[1..], qs, ns[1..], ms, failing);
    }
  }

  /** One step on its own. */
  lemma StepsOne(s: Progress, k: nat, ps: seq<Plan>, ns: seq<Config>, failing: set<nat>)
    requires |ps| == |ns| == 1
    ensures RunSteps(s, k, ps, ns, failing) == Then(s, k, ps[0], ns[0], failing)
  {
    assert ps[1..] == [];
  }

  /** The first step, then the others. */
  lemma StepsFirst(s: Progress, k: nat, ps: seq<Plan>, ns: seq<Config>, failing: set<nat>)
    requires |ps| == |ns| >= 1
    ensures RunSteps(s, k, ps, ns, failing) == RunSteps(Then(s, k, ps[0], ns[0], failing), k + 1, ps[1..], ns[1..], failing)
  {
  }

  /** Steps 1 to 3 are the first three of the twelve, with what step 2
      writes before it stops. */
  lemma DiskStagesSteps(c: Config, log: seq<Command>, failing: set<nat>, pos: nat)
    requires pos == |log| + |PartitionPlan(c).cmds|
    ensures DiskStages(c, log, failing) ==
      FormatStop(RunSteps(Progress(c, log, None), 1, DiskPlans(c), DiskNexts(c), failing), Partitioning(c), pos, failing)
  {
    var ps := DiskPlans(c);
    var ns := DiskNexts(c);
    var c1 := Partitioning(c);
    var s1 := Then(Progress(c, log, None), 1, ps[0], ns[0], failing);
    var s2 := Then(s1, 2, ps[1], ns[1], failing);
    var r3 := RunSteps(Progress(c, log, None), 1, ps, ns, failing);
    StepsFirst(Progress(c, log, None), 1, ps, ns, failing);
    StepsFirst(s1, 2, ps[1..], ns[1..], failing);
    StepsOne(s2, 3, ps[1..][1..], ns[1..][1..], failing);
    if s2.failed == Some(2) {
      ThenCompleted(Progress(c, log, None), 1, ps[0], ns[0], failing);
      assert ps[0] == PartitionPlan(c) && |s1.log| == pos;
      assert r3 == s2;
      assert DiskStages(c, log, failing) == FormatStop(s2, c1, pos, failing);
    } else {
      assert DiskStages(c, log, failing) == r3;
    }
  }

  /** A step that completes logs all its commands. */
  lemma ThenCompleted(s: Progress, k: nat, p: Plan, next: Config, failing: set<nat>)
    requires s.failed.None? && Then(s, k, p, next, failing).failed.None?
    ensures |Then(s, k, p, next, failing).log| == |s.log| + |p.cmds|
  {
  }

  /** Four steps in a row. */
  lemma StepsFour(s: Progress, k: nat, ps: seq<Plan>, ns: seq<Config>, failing: set<nat>)
    requires |ps| == |ns| == 4
    ensures RunSteps(s, k, ps, ns, failing) ==
      Then(Then(Then(Then(s, k, ps[0], ns[0], failing), k + 1, ps[1], ns[1], failing),
                k + 2, ps[2], ns[2], failing), k + 3, ps[3], ns[3], failing)
  {
    var s1 := Then(s, k, ps[0], ns[0], failing);
    var s2 := Then(s1, k + 1, ps[1], ns[1], failing);
    var s3 := Then(s2, k + 2, ps[2], ns[2], failing);
    StepsFirst(s, k, ps, ns, failing);
    StepsFirst(s1, k + 1, ps[1..], ns[1..], failing);
    StepsFirst(s2, k + 2, ps[2..], ns[2..], failing);
    assert ps[1..][1..] == ps[2..] && ns[1..][1..] == ns[2..];
    StepsOne(s3, k + 3, ps[3..], ns[3..], failing);
    assert ps[2..][1..] == ps[3..] && ns[2..][1..] == ns[3..];
  }

  /** Five steps in a row. */
  lemma StepsFive(s: Progress, k: nat, ps: seq<Plan>, ns: seq<Config>, failing: set<nat>)
    requires |ps| == |ns| == 5
    ensures RunSteps(s, k, ps, ns, failing) ==
      Then(RunSteps(s, k, ps[..4], ns[..4], failing), k + 4, ps[4], ns[4], failing)
  {
    assert ps == ps[..4] + ps[4..] && ns == ns[..4] + ns[4..];
    StepsAppend(s, k, ps[..4], ps[4..], ns[..4], ns[4..], failing);
    StepsOne(RunSteps(s, k, ps[..4], ns[..4], failing), k + 4, ps[4..], ns[4..], failing);
  }

  /** Steps 4 to 7 are the twelve's next four, on the configuration
      reached. */
  lemma SystemStagesSteps(s: Progress, failing: set<nat>, out: Command -> string)
    ensures SystemStages(s, failing, out) == RunSteps(s, 4, SystemPlans(s.config, out), Same(s.config, 4), failing)
  {
    var c := s.config;
    StepsFourSame(s, 4, BasePlan(c), FstabPlan(), BaseSystemPlan(c), BootloaderPlan(c, out), c, failing);
  }

  /** Four steps in a row that leave the configuration as it is. */
  lemma StepsFourSame(s: Progress, k: nat, p0: Plan, p1: Plan, p2: Plan, p3: Plan, c: Config, failing: set<nat>)
    ensures RunSteps(s, k, [p0, p1, p2, p3], Same(c, 4), failing) ==
      Then(Then(Then(Then(s, k, p0, c, failing), k + 1, p1, c, failing), k + 2, p2, c, failing), k + 3, p3, c, failing)
  {
    var ns := Same(c, 4);
    assert ns[0] == c && ns[1] == c && ns[2] == c && ns[3] == c;
    StepsFour(s, k, [p0, p1, p2, p3], ns, failing);
  }

  /** Steps 8 to 12 are the twelve's last five. */
  lemma DesktopStagesSteps(s: Progress, failing: set<nat>)
    ensures DesktopStages(s, failing) == RunSteps(s, 8, DesktopPlans(s.config), Same(s.config, 5), failing)
  {
    var c := s.config;
    StepsFiveSame(s, 8, UsersPlan(c), HyprlandPlan(c), DevToolsPlan(c), AppsPlan(c), ServicesPlan(c), c, failing);
  }

  /** Five steps in a row that leave the configuration as it is. */
  lemma StepsFiveSame(s: Progress, k: nat, p0: Plan, p1: Plan, p2: Plan, p3: Plan, p4: Plan, c: Config, failing: set<nat>)
    ensures RunSteps(s, k, [p0, p1, p2, p3, p4], Same(c, 5), failing) ==
      Then(Then(Then(Then(Then(s, k, p0, c, failing), k + 1, p1, c, failing), k + 2, p2, c, failing),
                k + 3, p3, c, failing), k + 4, p4, c, failing)
  {
    var ps := [p0, p1, p2, p3, p4];
    var ns := Same(c, 5);
    StepsFive(s, k, ps, ns, failing);
    assert ps[..4] == [p0, p1, p2, p3] && ns[..4] == Same(c, 4);
    StepsFourSame(s, k, p0, p1, p2, p3, c, failing);
  }

  /** Three groups of steps, each run only when the one before completed,
      are the twelve in a row. */
  lemma StepsGroups(s0: Progress, a: seq<Plan>, b: seq<Plan>, d: seq<Plan>,
                    na: seq<Config>, nb: seq<Config>, nd: seq<Config>, t3: Progress, t7: Progress, t12: Progress,
                    failing: set<nat>)
    requires |na| == |a| == 3 && |nb| == |b| == 4 && |nd| == |d| == 5
    requires t3 == RunSteps(s0, 1, a, na, failing)
    requires t7 == if t3.failed.Some? then t3 else RunSteps(t3, 4, b, nb, failing)
    requires t12 == if t7.failed.Some? then t7 else RunSteps(t7, 8, d, nd, failing)
    ensures t12 == RunSteps(s0, 1, a + b + d, na + nb + nd, failing)
  {
    StepsAppend(s0, 1, a, b, na, nb, failing);
    StepsAppend(s0, 1, a + b, d, na + nb, nd, failing);
    if t3.failed.Some? {
      StepsAfterFailure(t3, 4, b, nb, failing);
    }
    if t7.failed.Some? {
      StepsAfterFailure(t7, 8, d, nd, failing);
    }
  }

  /** The three groups of steps, when step 2 writes nothing before it
      stops, are the twelve plans run as steps 1 to 12. */
  lemma InstallStepsPlain(c: Config, log: seq<Command>, failing: set<nat>, out: Command -> string)
    ensures var r3 := RunSteps(Progress(c, log, None), 1, DiskPlans(c), DiskNexts(c), failing);
      DesktopStages(SystemStages(r3, failing, out), failing) ==
        RunSteps(Progress(c, log, None), 1, InstallPlans(c, out), Nexts(c), failing)
  {
    var c2 := Formatting(Partitioning(c));
    var s0 := Progress(c, log, None);
    var r3 := RunSteps(s0, 1, DiskPlans(c), DiskNexts(c), failing);
    var t7 := SystemStages(r3, failing, out);
    DiskStagesSteps(c, log, failing, |log| + |PartitionPlan(c).cmds|);
    if r3.failed.None? {
      SystemStagesSteps(r3, failing, out);
      if t7.failed.None? {
        DesktopStagesSteps(t7, failing);
      }
    }
    StepsGroups(s0, DiskPlans(c), SystemPlans(c2, out), DesktopPlans(c2),
                DiskNexts(c), Same(c2, 4), Same(c2, 5), r3, t7, DesktopStages(t7, failing), failing);
  }

  /** Steps 4 to 12 do not run once an earlier step has stopped. */
  lemma LaterStagesSkipped(s: Progress, failing: set<nat>, out: Command -> string)
    requires s.failed.Some?
    ensures DesktopStages(SystemStages(s, failing, out), failing) == s
  {
  }

  /** Steps 4 to 12 never stop in step 2. */
  lemma LaterStagesNotStep2(s: Progress, failing: set<nat>, out: Command -> string)
    requires s.failed != Some(2)
    ensures DesktopStages(SystemStages(s, failing, out), failing).failed != Some(2)
  {
  }

  /** The installation is the twelve plans run as steps 1 to 12, with what
      step 2 writes before it stops. */
  lemma InstallSteps(c: Config, log: seq<Command>, failing: set<nat>, out: Command -> string, pos: nat)
    requires pos == |log| + |PartitionPlan(c).cmds|
    ensures Install(c, log, failing, out) ==
      FormatStop(RunSteps(Progress(c, log, None), 1, InstallPlans(c, out), Nexts(c), failing), Partitioning(c), pos, failing)
  {
    var r3 := RunSteps(Progress(c, log, None), 1, DiskPlans(c), DiskNexts(c), failing);
    var t3 := DiskStages(c, log, failing);
    DiskStagesSteps(c, log, failing, pos);
    InstallStepsPlain(c, log, failing, out);
    if r3.failed == Some(2) {
      LaterStagesSkipped(t3, failing, out);
      LaterStagesSkipped(r3, failing, out);
    } else {
      LaterStagesNotStep2(r3, failing, out);
    }
  }

  /** The configuration after steps that stopped in the `j`-th of them
      (`j` from 1): the one the step before it left, or `c` when the first
      step stopped; after steps that all completed, the last one's. */
  function Reached(c: Config, nexts: seq<Config>, failedAt: Option<nat>): Config
    requires failedAt.Some? ==> 1 <= failedAt.value <= |nexts|
  {
    match failedAt
    case Some(j) => if j == 1 then c else nexts[j - 2]
    case None => if nexts == [] then c else nexts[|nexts| - 1]
  }

  /** A step that completed, followed by steps that reached a
      configuration, reaches it too. */
  lemma ReachedLater(c: Config, nexts: seq<Config>, failedAt: Option<nat>)
    requires nexts != [] && (failedAt.Some? ==> 1 <= failedAt.value <= |nexts| - 1)
    ensures Reached(nexts[0], nexts[1..], failedAt) ==
      Reached(c, nexts, if failedAt.Some? then Some(failedAt.value + 1) else None)
  {
  }

  /** The inductive step of `StepsRun` when the first step completes. */
  lemma StepsRunCompleted(s: Progress, k: nat, ps: seq<Plan>, nexts: seq<Config>, failing: set<nat>)
    requires |nexts| == |ps| && ps != [] && s.failed.None? && k >= 1 && Succeeds(ps[0], |s.log|, failing)
    requires var t := Then(s, k, ps[0], nexts[0], failing);
      var r' := RunPlans(ps[1..], |t.log|, failing);
      RunSteps(t, k + 1, ps[1..], nexts[1..], failing) ==
        Progress(Reached(t.config, nexts[1..], r'.failedAt), t.log + r'.log,
                 if r'.failedAt.Some? then Some(r'.failedAt.value + k) else None)
    ensures var r := RunPlans(ps, |s.log|, failing);
      RunSteps(s, k, ps, nexts, failing) ==
        Progress(Reached(s.config, nexts, r.failedAt), s.log + r.log,
                 if r.failedAt.Some? then Some(r.failedAt.value + k - 1) else None)
  {
    var p := ps[0];
    var t := Then(s, k, p, nexts[0], failing);
    assert t == Progress(nexts[0], s.log + p.cmds, None);
    var r' := RunPlans(ps[1..], |s.log| + |p.cmds|, failing);
    var r := RunPlans(ps, |s.log|, failing);
    assert r == After(p.cmds, 1, r');
    ReachedLater(s.config, nexts, r'.failedAt);
    LogAssoc(s.log, p.cmds, r'.log);
  }

  /** Steps numbered from `k` are the plain run of their plans, from the
      log position where the log ends: the same commands, the failing step
      renumbered, and the configuration the last completed step left. */
  lemma {:induction false} StepsRun(s: Progress, k: nat, ps: seq<Plan>, nexts: seq<Config>, failing: set<nat>)
    requires |nexts| == |ps| && s.failed.None? && k >= 1
    ensures var r := RunPlans(ps, |s.log|, failing);
      RunSteps(s, k, ps, nexts, failing) ==
        Progress(Reached(s.config, nexts, r.failedAt), s.log + r.log,
                 if r.failedAt.Some? then Some(r.failedAt.value + k - 1) else None)
    decreases |ps|
  {
    var r := RunPlans(ps, |s.log|, failing);
    if ps == [] {
      assert s.log + [] == s.log;
    } else {
      var p := ps[0];
      var t := Then(s, k, p, nexts[0], failing);
      assert RunSteps(s, k, ps, nexts, failing) == RunSteps(t, k + 1, ps[1..], nexts[1..], failing);
      if Succeeds(p, |s.log|, failing) {
        StepsRun(t, k + 1, ps[1..], nexts[1..], failing);
        StepsRunCompleted(s, k, ps, nexts, failing);
      } else {
        assert r == Run(Issued(p.cmds, |s.log|, failing), Some(1));
        StepsAfterFailure(t, k + 1, ps[1..], nexts[1..], failing);
      }
    }
  }

  /** The configuration the twelve steps reach is the one the first two
      record. */
  lemma ReachedNexts(c: Config, pos: nat, failing: set<nat>, failedAt: Option<nat>)
    requires failedAt.Some? ==> 1 <= failedAt.value <= 12
    ensures failedAt != Some(2) ==> Reached(c, Nexts(c), failedAt) == ConfigAfter(c, pos, failing, failedAt)
    ensures failedAt == Some(2) ==> Reached(c, Nexts(c), failedAt) == Partitioning(c)
  {
    var ns := Nexts(c);
    var c2 := Formatting(Partitioning(c));
    assert ns[0] == Partitioning(c);
    if failedAt.Some? && failedAt.value >= 3 {
      var j := failedAt.value - 2;
      assert ns[j] == c2;
    }
    assert ns[11] == c2;
  }

  /** The installation is the plain run of the twelve plans: it issues the
      run's commands, stops in the same step, and leaves the configuration
      the steps before that one recorded, plus what step 2, whose commands
      start at log position `formatPos`, wrote before it stopped. */
  lemma InstallIsRun(c: Config, log: seq<Command>, failing: set<nat>, out: Command -> string, formatPos: nat)
    requires formatPos == |log| + |PartitionPlan(c).cmds|
    ensures var r := RunPlans(InstallPlans(c, out), |log|, failing);
      Install(c, log, failing, out) == Progress(ConfigAfter(c, formatPos, failing, r.failedAt), log + r.log, r.failedAt)
  {
    var r := RunPlans(InstallPlans(c, out), |log|, failing);
    InstallReaches(c, log, failing, out, formatPos);
    StopReached(c, formatPos, failing, r.failedAt, log + r.log);
  }

  /** The installation is the plain run of the twelve plans, with the
      configurations of `Nexts` and what step 2 writes before it stops. */
  lemma InstallReaches(c: Config, log: seq<Command>, failing: set<nat>, out: Command -> string, pos: nat)
    requires pos == |log| + |PartitionPlan(c).cmds|
    ensures var r := RunPlans(InstallPlans(c, out), |log|, failing);
      r.failedAt.Some? ==> 1 <= r.failedAt.value <= 12
    ensures var r := RunPlans(InstallPlans(c, out), |log|, failing);
      Install(c, log, failing, out) ==
        FormatStop(Progress(Reached(c, Nexts(c), r.failedAt), log + r.log, r.failedAt), Partitioning(c), pos, failing)
  {
    var r := RunPlans(InstallPlans(c, out), |log|, failing);
    InstallSteps(c, log, failing, out, pos);
    StepsRun(Progress(c, log, None), 1, InstallPlans(c, out), Nexts(c), failing);
    var rs := RunSteps(Progress(c, log, None), 1, InstallPlans(c, out), Nexts(c), failing);
    assert rs == Progress(Reached(c, Nexts(c), r.failedAt), log + r.log, r.failedAt);
  }

  /** Steps that reached the configurations of `Nexts`, with what step 2
      writes before it stops, reach `ConfigAfter`. */
  lemma StopReached(c: Config, formatPos: nat, failing: set<nat>, failedAt: Option<nat>, log: seq<Command>)
    requires failedAt.Some? ==> 1 <= failedAt.value <= 12
    ensures FormatStop(Progress(Reached(c, Nexts(c), failedAt), log, failedAt), Partitioning(c), formatPos, failing) ==
      Progress(ConfigAfter(c, formatPos, failing, failedAt), log, failedAt)
  {
    var p := Progress(Reached(c, Nexts(c), failedAt), log, failedAt);
    if failedAt == Some(2) {
      FormatStopWrites(p, Partitioning(c), formatPos, failing);
    } else {
      ReachedNexts(c, formatPos, failing, failedAt);
      FormatStopKeeps(p, Partitioning(c), formatPos, failing);
    }
  }

  /** A stop in step 2 carries what `format_partitions` wrote. */
  lemma FormatStopWrites(s: Progress, c1: Config, pos: nat, failing: set<nat>)
    requires s.failed == Some(2)
    ensures FormatStop(s, c1, pos, failing) == Progress(FormatFailed(c1, pos, failing), s.log, s.failed)
  {
  }

  /** Any other outcome is left as it is. */
  lemma FormatStopKeeps(s: Progress, c1: Config, pos: nat, failing: set<nat>)
    requires s.failed != Some(2)
    ensures FormatStop(s, c1, pos, failing) == s
  {
  }

  /** The first command of a run is the first command of its first plan. */
  lemma RunPlansHead(ps: seq<Plan>, pos: nat, failing: set<nat>)
    requires ps != [] && ps[0].cmds != []
    ensures RunPlans(ps, pos, failing).log != [] && RunPlans(ps, pos, failing).log[0] == ps[0].cmds[0]
  {
    if Succeeds(ps[0], pos, failing) {
      assert RunPlans(ps, pos, failing).log == ps[0].cmds + RunPlans(ps[1..], pos + |ps[0].cmds|, failing).log;
    }
  }

  /** A run of plans whose first is the partitioning of `c` (as the
      installation's are) stops in the first step without issuing a command
      when the disk is not a string; otherwise, the first command issued
      wipes the chosen disk. */
  lemma RunStartsWithWipe(c: Config, ps: seq<Plan>, pos: nat, failing: set<nat>)
    requires ps != [] && ps[0] == PartitionPlan(c)
    ensures var r := RunPlans(ps, pos, failing);
      Required(c, Disk).None? ==> r.log == [] && r.failedAt == Some(1)
    ensures var r := RunPlans(ps, pos, failing);
      Required(c, Disk).Some? ==> r.log != [] && r.log[0] == Exec(["wipefs", "-af", Required(c, Disk).value])
  {
    if Required(c, Disk).Some? {
      RunPlansHead(ps, pos, failing);
    }
  }

  /** A completed installation has recorded the partitions and the root
      device: with an encryption password the root is the mapper device
      and `encrypted_root` is set. */
  lemma CompletedRunConfig(c: Config, disk: string, pos: nat, failing: set<nat>)
    requires Required(c, Disk) == Some(disk)
    ensures var parted := Partitioned(c, disk);
      ConfigAfter(c, pos, failing, None) == Formatted(parted, parted[RootPartition].s)
    ensures var done := ConfigAfter(c, pos, failing, None);
      Enabled(c, EncryptionPassword) ==> done[FormattedRoot] == Str("/dev/mapper/cryptroot") && done[EncryptedRoot] == Flag(true)
  {
    var c1 := Partitioning(c);
    assert c1 == Partitioned(c, disk);
    assert Required(c1, RootPartition) == Some(c1[RootPartition].s);
    assert Enabled(c1, EncryptionPassword) == Enabled(c, EncryptionPassword);
  }

  /** The installer: its configuration, the log of commands it has issued,
      and the configuration files on disk. The environment is fixed when
      the installer is made: which log positions hold a failing command, and
      what each command prints. */
  class DevArchInstaller {
    var config: Config
    var log: seq<Command>
    var files: map<string, Config>
    const failing: set<nat>
    const stdoutOf: Command -> string

    /** A fresh installer: the two default keys, nothing issued yet. */
    constructor(failing: set<nat>, stdoutOf: Command -> string, files: map<string, Config>)
      ensures config == InitialConfig() && log == [] && this.files == files
      ensures this.failing == failing && this.stdoutOf == stdoutOf
    {
      config := InitialConfig();
      log := [];
      this.files := files;
      this.failing := failing;
      this.stdoutOf := stdoutOf;
    }

    /** `run_cmd`: issues one command; it succeeds unless the environment
        makes it fail at this position. */
    method RunCmd(cmd: Command) returns (ok: bool, out: string)
      modifies this`log
      ensures log == old(log) + [cmd]
      ensures ok <==> !FailsAt(cmd, |old(log)|, failing)
      ensures out == stdoutOf(cmd)
    {
      ok := !FailsAt(cmd, |log|, failing);
      out := stdoutOf(cmd);
      log := log + [cmd];
    }

    /** Issues the commands of a plan in order until one fails; the step
        succeeds when none fails and it does not raise afterwards. */
    method RunPlan(p: Plan) returns (ok: bool)
      modifies this`log
      ensures log == old(log) + Issued(p.cmds, |old(log)|, failing)
      ensures ok == Succeeds(p, |old(log)|, failing)
    {
      var start := |log|;
      var i := 0;
      while i < |p.cmds|
        invariant 0 <= i <= |p.cmds|
        invariant log == old(log) + p.cmds[..i]
        invariant forall j :: 0 <= j < i ==> !FailsAt(p.cmds[j], start + j, failing)
      {
        var succeeded, _ := RunCmd(p.cmds[i]);
        if !succeeded {
          FirstFailureAt(p.cmds, start, failing, i);
          assert log == old(log) + p.cmds[..i + 1];
          return false;
        }
        i := i + 1;
      }
      assert p.cmds[..i] == p.cmds;
      FirstFailureAt(p.cmds, start, failing, i);
      return !p.raises;
    }

    /** `get_disks`: lists the block devices and keeps the disks; a failing
        `lsblk` gives no disks. */
    method GetDisks() returns (disks: seq<DiskInfo>)
      modifies this`log
      ensures log == old(log) + [ListDisks]
      ensures disks == LsblkDisks(!FailsAt(ListDisks, |old(log)|, failing), stdoutOf(ListDisks))
    {
      var ok, out := RunCmd(ListDisks);
      if !ok {
        return [];
      }
      disks := ParseLsblk(out);
    }

    /** The disk question of `configure_storage`: the block devices are
        shown, the disks listed, and the answer picks one of them; `None`
        when there is no disk or the answer is not a usable index. */
    method ChooseDisk(answer: string) returns (path: Option<string>)
      modifies this`log
      ensures log == old(log) + [ListBlockDevices, ListDisks]
      ensures var disks := LsblkDisks(!FailsAt(ListDisks, |old(log)| + 1, failing), stdoutOf(ListDisks));
        path == (if disks == [] then None else SelectDisk(disks, answer))
    {
      var _, _ := RunCmd(ListBlockDevices);
      var disks := GetDisks();
      assert log == old(log) + [ListBlockDevices, ListDisks] by {
        assert [ListBlockDevices] + [ListDisks] == [ListBlockDevices, ListDisks];
      }
      if disks == [] {
        return None;
      }
      path := SelectDisk(disks, answer);
    }

    /** `configure_storage`. It ends the program (`ok` false) when no disk
        is found, when the disk answer is not a number of the list (or a
        negative index into it), when the filesystem answer is not 1 to 4,
        and when an encryption password prompt never gets two agreeing
        entries. Otherwise it stores the disk, the scheme, the swap size
        with `G` appended (only schemes 1, 3 and 4 ask), the home size
        (schemes 1 and 4), the filesystem, the btrfs options, and the
        encryption password or `None`; every other key is kept. */
    method ConfigureStorage(ramGb: nat, a: StorageAnswers, attempts: seq<Attempt>) returns (ok: bool)
      modifies this`log, this`config
      ensures log == old(log) + [ListBlockDevices, ListDisks]
      ensures var disks := LsblkDisks(!FailsAt(ListDisks, |old(log)| + 1, failing), stdoutOf(ListDisks));
        ok <==> disks != [] && SelectDisk(disks, a.disk).Some?
                && FilesystemFor(Answer(a.filesystem, "2")).Some?
                && (Agrees(a.encrypt) ==> Secret(attempts).Some?)
      ensures !ok ==> config == old(config)
      ensures ok ==>
        var disks := LsblkDisks(!FailsAt(ListDisks, |old(log)| + 1, failing), stdoutOf(ListDisks));
        var scheme := Answer(a.scheme, "1");
        config == StorageSettings(old(config), SelectDisk(disks, a.disk).value, scheme,
          if SwapScheme(scheme) then Str(Answer(a.swap, NatToString(ramGb)) + "G") else Null,
          Answer(a.home, "50%"), FilesystemFor(Answer(a.filesystem, "2")).value,
          Answer(a.compression, "zstd"), Agrees(a.snapshots),
          if Agrees(a.encrypt) then Str(Secret(attempts).value) else Null)
    {
      var disk := ChooseDisk(a.disk);
      if disk.None? {
        return false;
      }
      var scheme := Answer(a.scheme, "1");
      var swap := if SwapScheme(scheme) then Str(Answer(a.swap, NatToString(ramGb)) + "G") else Null;
      var fs := FilesystemFor(Answer(a.filesystem, "2"));
      if fs.None? {
        return false;
      }
      var encryption := Null;
      if Agrees(a.encrypt) {
        var secret := ConfirmSecret(attempts);
        if secret.None? {
          return false;
        }
        encryption := Str(secret.value);
      }
      ghost var disks := LsblkDisks(!FailsAt(ListDisks, |old(log)| + 1, failing), stdoutOf(ListDisks));
      assert disk == SelectDisk(disks, a.disk);
      assert encryption == (if Agrees(a.encrypt) then Str(Secret(attempts).value) else Null);
      StoreStorage(disk.value, scheme, swap, Answer(a.home, "50%"), fs.value,
        Answer(a.compression, "zstd"), Agrees(a.snapshots), encryption);
      ok := true;
    }

    /** The answers of `configure_storage` written into the configuration. */
    method StoreStorage(disk: string, scheme: string, swap: Value, home: string,
                        fs: string, compression: string, snapshots: bool, encryption: Value)
      modifies this`config
      ensures config == StorageSettings(old(config), disk, scheme, swap, home, fs, compression, snapshots, encryption)
    {
      config := StorageSettings(config, disk, scheme, swap, home, fs, compression, snapshots, encryption);
    }

    /** `configure_system`: the host name (`arch-dev` by default), the time
        zone, and a locale and key map that are always among the listed
        ones. */
    method ConfigureSystem(a: SystemAnswers)
      modifies this`config
      ensures config == old(config)
        [Hostname := Str(Answer(a.hostname, "arch-dev"))]
        [Timezone := Str(TimezoneFor(Answer(a.region, "1"), a.city))]
        [Locale := Str(MenuPick(Answer(a.locale, "1"), Locales, "en_US.UTF-8"))]
        [Keymap := Str(MenuPick(Answer(a.keymap, "1"), Layouts, "us"))]
    {
      var locale := MenuPick(Answer(a.locale, "1"), Locales, "en_US.UTF-8");
      var keymap := MenuPick(Answer(a.keymap, "1"), Layouts, "us");
      assert locale in Locales && keymap in Layouts by {
        assert Locales[0] == "en_US.UTF-8" && Layouts[0] == "us";
      }
      config := config[Hostname := Str(Answer(a.hostname, "arch-dev"))]
        [Timezone := Str(TimezoneFor(Answer(a.region, "1"), a.city))]
        [Locale := Str(locale)][Keymap := Str(keymap)];
    }

    /** `configure_users`. A disabled root stores the password `!` and sets
        `disable_root`; otherwise the root password is the secret of its
        prompt. The users map is replaced by the one main user, whose
        password is the secret of its prompt, with sudo, the standard groups
        and the chosen shell. `ok` is false when a prompt never gets two
        agreeing entries. */
    method ConfigureUsers(a: UserAnswers, rootAttempts: seq<Attempt>, userAttempts: seq<Attempt>) returns (ok: bool)
      modifies this`config
      ensures ok <==> (Agrees(a.disableRoot) || Secret(rootAttempts).Some?) && Secret(userAttempts).Some?
      ensures !ok ==> config == old(config)
      ensures ok ==> config == UserSettings(old(config),
        if Agrees(a.disableRoot) then None else Secret(rootAttempts),
        UserEntry(Strip(a.username), UserRec(Secret(userAttempts).value, true, UserGroups,
          MenuPick(Answer(a.shell, "1"), Shells, "zsh"))))
    {
      var root := None;
      if !Agrees(a.disableRoot) {
        root := ConfirmSecret(rootAttempts);
        if root.None? {
          return false;
        }
      }
      var username := Strip(a.username);
      var password := ConfirmSecret(userAttempts);
      if password.None? {
        return false;
      }
      var shell := MenuPick(Answer(a.shell, "1"), Shells, "zsh");
      config := UserSettings(config, root, UserEntry(username, UserRec(password.value, true, UserGroups, shell)));
      ok := true;
    }

    /** `configure_hyprland`: the theme and display manager come from their
        tables, an unknown answer giving the default. */
    method ConfigureHyprland(a: HyprlandAnswers)
      modifies this`config
      ensures config == old(config)
        [HyprlandTheme := Str(LookupOr(ThemeMap, Answer(a.theme, "1"), "catppuccin"))]
        [HyprlandAnimations := Str(Answer(a.animations, "2"))]
        [DisplayManager := Str(LookupOr(DisplayManagerMap, Answer(a.displayManager, "1"), "sddm"))]
    {
      var theme := LookupOr(ThemeMap, Answer(a.theme, "1"), "catppuccin");
      var dm := LookupOr(DisplayManagerMap, Answer(a.displayManager, "1"), "sddm");
      assert theme in ThemeMap.Values && dm in DisplayManagerMap.Values by {
        assert ThemeMap["1"] == "catppuccin" && DisplayManagerMap["1"] == "sddm";
      }
      config := config[HyprlandTheme := Str(theme)][HyprlandAnimations := Str(Answer(a.animations, "2"))]
        [DisplayManager := Str(dm)];
    }

    /** `configure_development`: the language packages of the comma list,
        the editors, a listed terminal, Docker, and the fixed tools. */
    method ConfigureDevelopment(a: DevelopmentAnswers)
      modifies this`config
      ensures config == old(config)
        [DevLanguages := List(LanguagesOf(SplitOn(Answer(a.languages, "1,2,5"), ',')))]
        [Editors := List(EditorsFor(Answer(a.editors, "1,2")))]
        [Terminal := Str(MenuPick(Answer(a.terminal, "1"), Terminals, "kitty"))]
        [InstallDocker := Flag(Agrees(a.docker))]
        [DevTools := List(DevToolsList)]
    {
      var langs := SelectLanguages(Answer(a.languages, "1,2,5"));
      var terminal := MenuPick(Answer(a.terminal, "1"), Terminals, "kitty");
      assert terminal in Terminals by {
        assert Terminals[0] == "kitty";
      }
      config := config[DevLanguages := List(langs)][Editors := List(EditorsFor(Answer(a.editors, "1,2")))]
        [Terminal := Str(terminal)][InstallDocker := Flag(Agrees(a.docker))][DevTools := List(DevToolsList)];
    }

    /** `configure_applications`: a listed browser, Discord, Thunar and mpv. */
    method ConfigureApplications(a: ApplicationAnswers)
      modifies this`config
      ensures config == old(config)
        [Browser := Str(MenuPick(Answer(a.browser, "1"), Browsers, "firefox"))]
        [InstallDiscord := Flag(Agrees(a.discord))]
        [FileManager := Str("thunar")]
        [MediaApps := List(["mpv"])]
    {
      var browser := MenuPick(Answer(a.browser, "1"), Browsers, "firefox");
      assert browser in Browsers by {
        assert Browsers[0] == "firefox";
      }
      config := config[Browser := Str(browser)][InstallDiscord := Flag(Agrees(a.discord))]
        [FileManager := Str("thunar")][MediaApps := List(["mpv"])];
    }

    /** `configure_system_tools`: GRUB only for the answer 1, Intel microcode
        only for the answer 1 (an empty answer means AMD), the firewall,
        Bluetooth, and yay unless another answer than 1 is typed. */
    method ConfigureSystemTools(a: ToolAnswers)
      modifies this`config
      ensures config == old(config)
        [Bootloader := Str(if Answer(a.bootloader, "2") == "1" then "grub" else "systemd-boot")]
        [Microcode := Str(if Strip(a.cpu) == "1" then "intel-ucode" else "amd-ucode")]
        [NetworkManager := Str("NetworkManager")]
        [EnableFirewall := Flag(Agrees(a.firewall))]
        [EnableBluetooth := Flag(Agrees(a.bluetooth))]
        [AurHelper := Str(if Answer(a.aur, "1") == "1" then "yay" else "paru")]
    {
      var bootloader := if Answer(a.bootloader, "2") == "1" then "grub" else "systemd-boot";
      var microcode := if Strip(a.cpu) == "1" then "intel-ucode" else "amd-ucode";
      var aur := if Answer(a.aur, "1") == "1" then "yay" else "paru";
      config := config[Bootloader := Str(bootloader)][Microcode := Str(microcode)]
        [NetworkManager := Str("NetworkManager")][EnableFirewall := Flag(Agrees(a.firewall))]
        [EnableBluetooth := Flag(Agrees(a.bluetooth))][AurHelper := Str(aur)];
    }

    /** `save_config` as written: the masking loop rewrites the users'
        passwords in the live configuration, and the file receives the live
        configuration with every other secret in the clear. `None` when the
        users value cannot be walked (the loop raises). */
    method SaveConfig(filename: string) returns (saved: Option<string>)
      modifies this`config, this`files
      ensures Users in old(config) && !Walkable(old(config)[Users]) ==>
        saved.None? && config == old(config) && files == old(files)
      ensures (Users in old(config) ==> Walkable(old(config)[Users])) ==>
        var name := if filename == "" then ConfigFile else filename;
        saved == Some(name) && config == UsersMasked(old(config)) && files == old(files)[name := UsersMasked(old(config))]
    {
      var name := if filename == "" then ConfigFile else filename;
      if Users in config && !Walkable(config[Users]) {
        return None;
      }
      config := UsersMasked(config);
      files := files[name := config];
      saved := Some(name);
    }

    /** `save_config` writing the masked copy and leaving the configuration
        alone. */
    method SaveConfigFixed(filename: string) returns (saved: Option<string>)
      modifies this`files
      ensures Users in old(config) && !Walkable(old(config)[Users]) ==> saved.None? && files == old(files)
      ensures (Users in old(config) ==> Walkable(old(config)[Users])) ==>
        var name := if filename == "" then ConfigFile else filename;
        saved == Some(name) && files == old(files)[name := Masked(old(config))] && SecretsHidden(files[name])
    {
      var name := if filename == "" then ConfigFile else filename;
      if Users in config && !Walkable(config[Users]) {
        return None;
      }
      files := files[name := Masked(config)];
      saved := Some(name);
    }

    /** `load_config`: a missing file leaves everything as it was and gives
        false; otherwise the file's contents replace the configuration. */
    method LoadConfig(filename: string) returns (loaded: bool)
      modifies this`config
      ensures var name := if filename == "" then ConfigFile else filename;
        loaded == (name in old(files)) && config == (if loaded then old(files)[name] else old(config))
    {
      var name := if filename == "" then ConfigFile else filename;
      if name !in files {
        return false;
      }
      config := files[name];
      return true;
    }

    /** `display_config` as written: the summary shown hides every secret,
        but building it rewrites the users' passwords in the live
        configuration. `None` when the users value cannot be walked. */
    method DisplayConfig() returns (shown: Option<Config>)
      modifies this`config
      ensures Users in old(config) && !Walkable(old(config)[Users]) ==> shown.None? && config == old(config)
      ensures (Users in old(config) ==> Walkable(old(config)[Users])) ==>
        shown == Some(Masked(old(config))) && config == UsersMasked(old(config))
      ensures shown.Some? ==> SecretsHidden(shown.value)
    {
      if Users in config && !Walkable(config[Users]) {
        return None;
      }
      shown := Some(Masked(config));
      config := UsersMasked(config);
    }

    /** `display_config` masking a copy of its own, so the configuration is
        left as it was. */
    method DisplayConfigFixed() returns (shown: Option<Config>)
      ensures (Users in config ==> Walkable(config[Users])) <==> shown.Some?
      ensures shown.Some? ==> shown.value == Masked(config) && SecretsHidden(shown.value)
    {
      if Users in config && !Walkable(config[Users]) {
        return None;
      }
      shown := Some(Masked(config));
    }

    /** Step 1, `partition_disk`: the partitions are recorded once all its
        commands have run. */
    method PartitionDisk() returns (ok: bool)
      modifies this`log, this`config
      ensures log == old(log) + Issued(PartitionPlan(old(config)).cmds, |old(log)|, failing)
      ensures ok == Succeeds(PartitionPlan(old(config)), |old(log)|, failing)
      ensures config == if ok then Partitioning(old(config)) else old(config)
    {
      ok := RunPlan(PartitionPlan(config));
      if ok {
        config := Partitioned(config, Required(config, Disk).value);
      }
    }

    /** Step 2, `format_partitions`: `encrypted_root` is set as soon as the
        preparation has run with an encryption password, and the root
        device is recorded once the file system is made. */
    method FormatPartitions() returns (ok: bool)
      modifies this`log, this`config
      ensures log == old(log) + Issued(FormatPlan(old(config)).cmds, |old(log)|, failing)
      ensures ok == Succeeds(FormatPlan(old(config)), |old(log)|, failing)
      ensures config == if ok then Formatting(old(config)) else FormatFailed(old(config), |old(log)|, failing)
    {
      var c := config;
      ghost var start := |log|;
      ok := RunPlan(PrepPlan(c));
      if !ok {
        FormatStopsInPrep(c, start, failing);
        return;
      }
      FormatAfterPrep(c, start, failing);
      ghost var log1 := log;
      if Enabled(c, EncryptionPassword) {
        config := config[EncryptedRoot := Flag(true)];
      }
      assert config == FormatFailed(c, start, failing);
      var root := Required(c, RootPartition).value;
      var m := MkfsPlan(c, RootDevice(c, root));
      ok := RunPlan(m);
      LogAssoc(old(log), PrepPlan(c).cmds, Issued(m.cmds, |log1|, failing));
      if ok {
        config := config[FormattedRoot := Str(RootDevice(c, root))];
        FormattingAfterPrep(c, root, start, failing);
      }
    }

    /** Steps 3 to 12 write no key: each issues its plan. */
    method MountPartitions() returns (ok: bool)
      modifies this`log
      ensures log == old(log) + Issued(MountPlan(old(config)).cmds, |old(log)|, failing)
      ensures ok == Succeeds(MountPlan(old(config)), |old(log)|, failing)
    {
      ok := RunPlan(MountPlan(config));
    }

    method InstallBase() returns (ok: bool)
      modifies this`log
      ensures log == old(log) + Issued(BasePlan(old(config)).cmds, |old(log)|, failing)
      ensures ok == Succeeds(BasePlan(old(config)), |old(log)|, failing)
    {
      ok := RunPlan(BasePlan(config));
    }

    method GenerateFstab() returns (ok: bool)
      modifies this`log
      ensures log == old(log) + Issued(FstabPlan().cmds, |old(log)|, failing)
      ensures ok == Succeeds(FstabPlan(), |old(log)|, failing)
    {
      ok := RunPlan(FstabPlan());
    }

    method ConfigureBaseSystem() returns (ok: bool)
      modifies this`log
      ensures log == old(log) + Issued(BaseSystemPlan(old(config)).cmds, |old(log)|, failing)
      ensures ok == Succeeds(BaseSystemPlan(old(config)), |old(log)|, failing)
    {
      ok := RunPlan(BaseSystemPlan(config));
    }

    method InstallBootloader() returns (ok: bool)
      modifies this`log
      ensures log == old(log) + Issued(BootloaderPlan(old(config), stdoutOf).cmds, |old(log)|, failing)
      ensures ok == Succeeds(BootloaderPlan(old(config), stdoutOf), |old(log)|, failing)
    {
      ok := RunPlan(BootloaderPlan(config, stdoutOf));
    }

    method CreateUsers() returns (ok: bool)
      modifies this`log
      ensures log == old(log) + Issued(UsersPlan(old(config)).cmds, |old(log)|, failing)
      ensures ok == Succeeds(UsersPlan(old(config)), |old(log)|, failing)
    {
      ok := RunPlan(UsersPlan(config));
    }

    method InstallHyprland() returns (ok: bool)
      modifies this`log
      ensures log == old(log) + Issued(HyprlandPlan(old(config)).cmds, |old(log)|, failing)
      ensures ok == Succeeds(HyprlandPlan(old(config)), |old(log)|, failing)
    {
      ok := RunPlan(HyprlandPlan(config));
    }

    method InstallDevTools() returns (ok: bool)
      modifies this`log
      ensures log == old(log) + Issued(DevToolsPlan(old(config)).cmds, |old(log)|, failing)
      ensures ok == Succeeds(DevToolsPlan(old(config)), |old(log)|, failing)
    {
      ok := RunPlan(DevToolsPlan(config));
    }

    method InstallApplications() returns (ok: bool)
      modifies this`log
      ensures log == old(log) + Issued(AppsPlan(old(config)).cmds, |old(log)|, failing)
      ensures ok == Succeeds(AppsPlan(old(config)), |old(log)|, failing)
    {
      ok := RunPlan(AppsPlan(config));
    }

    method ConfigureServices() returns (ok: bool)
      modifies this`log
      ensures log == old(log) + Issued(ServicesPlan(old(config)).cmds, |old(log)|, failing)
      ensures ok == Succeeds(ServicesPlan(old(config)), |old(log)|, failing)
    {
      ok := RunPlan(ServicesPlan(config));
    }

    /** `perform_installation`: the warning names the disk (a configuration
        without one raises there), nothing is issued unless the stripped
        confirmation is exactly the phrase, and then the twelve steps run
        in order until one raises; only the first two change the
        configuration. */
    method PerformInstallation(confirm: string) returns (r: Outcome)
      modifies this`log, this`config
      ensures Disk !in old(config) ==> r == MissingDisk && log == old(log) && config == old(config)
      ensures Disk in old(config) && Strip(confirm) != Confirmation ==>
        r == Cancelled && log == old(log) && config == old(config)
      ensures Disk in old(config) && Strip(confirm) == Confirmation ==>
        var s := Install(old(config), old(log), failing, stdoutOf);
        log == s.log && config == s.config && r == (if s.failed.Some? then StepFailed(s.failed.value) else Completed)
    {
      if Disk !in config {
        return MissingDisk;
      }
      if Strip(confirm) != Confirmation {
        return Cancelled;
      }
      var failed := DiskSteps();
      if failed.None? {
        failed := SystemSteps();
        if failed.None? {
          failed := DesktopSteps();
        }
      }
      return if failed.Some? then StepFailed(failed.value) else Completed;
    }

    /** Steps 1 to 3 of `perform_installation`: partitioning, formatting
        and mounting, the only steps that record anything in the
        configuration. */
    method DiskSteps() returns (failed: Option<nat>)
      modifies this`log, this`config
      ensures Progress(config, log, failed) == DiskStages(old(config), old(log), failing)
    {
      ghost var c0 := config;
      ghost var c1 := Partitioning(c0);
      ghost var c2 := Formatting(c1);
      ghost var s := Then(Progress(c0, log, None), 1, PartitionPlan(c0), c1, failing);
      var ok := PartitionDisk();
      if !ok { return Some(1); }
      assert Progress(config, log, None) == s;
      s := FormatStop(Then(s, 2, FormatPlan(c1), c2, failing), c1, |log|, failing);
      ok := FormatPartitions();
      if !ok { return Some(2); }
      assert Progress(config, log, None) == s;
      s := Then(s, 3, MountPlan(c2), c2, failing);
      ok := MountPartitions();
      if !ok { return Some(3); }
      assert Progress(config, log, None) == s;
      return None;
    }

    /** Steps 4 to 7 of `perform_installation`: the base system, the file
        system table, the system settings and the boot loader. */
    method SystemSteps() returns (failed: Option<nat>)
      modifies this`log
      ensures Progress(config, log, failed) == SystemStages(Progress(config, old(log), None), failing, stdoutOf)
    {
      ghost var c := config;
      ghost var s := Then(Progress(c, log, None), 4, BasePlan(c), c, failing);
      var ok := InstallBase();
      if !ok { return Some(4); }
      assert Progress(config, log, None) == s;
      s := Then(s, 5, FstabPlan(), c, failing);
      ok := GenerateFstab();
      if !ok { return Some(5); }
      assert Progress(config, log, None) == s;
      s := Then(s, 6, BaseSystemPlan(c), c, failing);
      ok := ConfigureBaseSystem();
      if !ok { return Some(6); }
      assert Progress(config, log, None) == s;
      s := Then(s, 7, BootloaderPlan(c, stdoutOf), c, failing);
      ok := InstallBootloader();
      if !ok { return Some(7); }
      assert Progress(config, log, None) == s;
      return None;
    }

    /** Steps 8 to 12 of `perform_installation`: the accounts, the desktop,
        the development tools, the applications and the services. */
    method DesktopSteps() returns (failed: Option<nat>)
      modifies this`log
      ensures Progress(config, log, failed) == DesktopStages(Progress(config, old(log), None), failing)
    {
      ghost var c := config;
      ghost var s := Then(Progress(c, log, None), 8, UsersPlan(c), c, failing);
      var ok := CreateUsers();
      if !ok { return Some(8); }
      assert Progress(config, log, None) == s;
      s := Then(s, 9, HyprlandPlan(c), c, failing);
      ok := InstallHyprland();
      if !ok { return Some(9); }
      assert Progress(config, log, None) == s;
      s := Then(s, 10, DevToolsPlan(c), c, failing);
      ok := InstallDevTools();
      if !ok { return Some(10); }
      assert Progress(config, log, None) == s;
      s := Then(s, 11, AppsPlan(c), c, failing);
      ok := InstallApplications();
      if !ok { return Some(11); }
      assert Progress(config, log, None) == s;
      s := Then(s, 12, ServicesPlan(c), c, failing);
      ok := ConfigureServices();
      if !ok { return Some(12); }
      assert Progress(config, log, None) == s;
      return None;
    }

    /** The flow of a new installation after the questions: the summary is
        shown, the configuration is saved unless the answer is `n`, and the
        installation runs when the answer is `y`. */
    method ReviewAndInstall(save: string, filename: string, proceed: string, confirm: string)
      returns (r: Option<Outcome>)
      requires Users in config ==> Walkable(config[Users])
      modifies this`log, this`config, this`files
      ensures Lower(Strip(proceed)) != "y" ==> r.None? && log == old(log) && config == UsersMasked(old(config))
      ensures Lower(Strip(proceed)) == "y" && Disk !in old(config) ==> r == Some(MissingDisk) && log == old(log) && config == UsersMasked(old(config))
      ensures Lower(Strip(proceed)) == "y" && Disk in old(config) && Strip(confirm) != Confirmation ==>
        r == Some(Cancelled) && log == old(log) && config == UsersMasked(old(config))
      ensures Lower(Strip(proceed)) == "y" && Disk in old(config) && Strip(confirm) == Confirmation ==>
        var s := Install(UsersMasked(old(config)), old(log), failing, stdoutOf);
        log == s.log && config == s.config && r == Some(if s.failed.Some? then StepFailed(s.failed.value) else Completed)
      ensures Lower(Strip(save)) != "n" ==>
        files == old(files)[(if Strip(filename) == "" then ConfigFile else Strip(filename)) := UsersMasked(old(config))]
      ensures Lower(Strip(save)) == "n" ==> files == old(files)
    {
      UsersMaskedIdempotent(config);
      var _ := DisplayConfig();
      if Lower(Strip(save)) != "n" {
        var _ := SaveConfig(Strip(filename));
      }
      if Lower(Strip(proceed)) == "y" {
        var outcome := PerformInstallation(confirm);
        return Some(outcome);
      }
      return None;
    }
  }

  /** After the summary has been shown, the password step sets every user's
      password to the mask instead of the password typed. */
  lemma DisplayedUsersGetMask(c: Config, i: nat)
    requires Users in c && c[Users].UserMap? && i < |c[Users].entries|
    requires RootAccountCommands(UsersMasked(c)).Some?
    ensures Chpasswd(c[Users].entries[i].name, Mask) in UsersPlan(UsersMasked(c)).cmds
  {
    var m := UsersMasked(c);
    UsersGetPasswords(m, i);
  }

  /** A saved configuration, loaded back, still holds the root, encryption
      and Wi-Fi passwords in the clear, but every user's password is the
      mask. */
  lemma SavedSecrets(c: Config)
    requires Users in c ==> Walkable(c[Users])
    ensures var saved := UsersMasked(c);
      (RootPassword in c ==> saved[RootPassword] == c[RootPassword])
      && (EncryptionPassword in c ==> saved[EncryptionPassword] == c[EncryptionPassword])
      && (WifiPassword in c ==> saved[WifiPassword] == c[WifiPassword])
      && (Users in c && c[Users].UserMap? ==>
            forall i :: 0 <= i < |saved[Users].entries| ==> saved[Users].entries[i].rec.password == Mask)
  {
  }
}
