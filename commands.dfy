/** The commands the installer issues, and how a run of them ends. A step of
    the installation is a list of commands followed, possibly, by an
    exception the step raises after them; its commands are issued one by one
    until one of them fails. */
module Commands {
  import opened PyStr

  datatype Command =
      /** `run_cmd(argv)`: waits for the command, and a non-zero exit status
          raises `CalledProcessError`. */
    | Exec(argv: seq<string>)
      /** `Popen(argv).communicate(input)`: the exit status is never looked
          at, so this command cannot stop a run. */
    | Feed(argv: seq<string>, input: string)

  /** `chroot(script)`: a shell script run inside the new system. */
  function Chroot(script: string): (c: Command)
    ensures c.Exec? && |c.argv| == 5 && c.argv[4] == script
  {
    Exec(["arch-chroot", "/mnt", "bash", "-c", script])
  }

  /** The chroot command that installs `pkgs` with pacman. */
  function Pacman(pkgs: seq<string>): Command {
    Chroot("pacman -S --noconfirm " + Join(pkgs, " "))
  }

  /** What a step would issue if nothing failed, and whether it then raises. */
  datatype Plan = Plan(cmds: seq<Command>, raises: bool)

  /** The environment: `failing` holds the positions in the command log at
      which a checked command exits with a non-zero status. */
  predicate FailsAt(c: Command, pos: nat, failing: set<nat>) {
    c.Exec? && pos in failing
  }

  /** The number of commands that run before the first failing one, when
      the first of `cmds` goes to log position `start`. */
  function FirstFailure(cmds: seq<Command>, start: nat, failing: set<nat>): (k: nat)
    ensures k <= |cmds|
    decreases |cmds|
  {
    if cmds == [] || FailsAt(cmds[0], start, failing) then 0
    else 1 + FirstFailure(cmds[1..], start + 1, failing)
  }

  /** The commands before the first failure run, and the one at it
      fails. */
  lemma {:induction false} FirstFailureStops(cmds: seq<Command>, start: nat, failing: set<nat>)
    ensures var k := FirstFailure(cmds, start, failing);
      (forall j :: 0 <= j < k ==> !FailsAt(cmds[j], start + j, failing))
      && (k < |cmds| ==> FailsAt(cmds[k], start + k, failing))
    decreases |cmds|
  {
    if cmds != [] && !FailsAt(cmds[0], start, failing) {
      FirstFailureStops(cmds[1..], start + 1, failing);
      var k := FirstFailure(cmds, start, failing);
      forall j | 0 < j < k
        ensures !FailsAt(cmds[j], start + j, failing)
      {
        assert cmds[j] == cmds[1..][j - 1];
      }
    }
  }

  /** Conversely, a position before which no command fails and at which
      one fails (or the end) is the first failure. */
  lemma {:induction false} FirstFailureAt(cmds: seq<Command>, start: nat, failing: set<nat>, i: nat)
    requires i <= |cmds|
    requires forall j :: 0 <= j < i ==> !FailsAt(cmds[j], start + j, failing)
    requires i < |cmds| ==> FailsAt(cmds[i], start + i, failing)
    ensures FirstFailure(cmds, start, failing) == i
    decreases i
  {
    if i > 0 {
      assert !FailsAt(cmds[0], start, failing);
      forall j | 0 <= j < i - 1
        ensures !FailsAt(cmds[1..][j], start + 1 + j, failing)
      {
        assert cmds[1..][j] == cmds[j + 1];
      }
      FirstFailureAt(cmds[1..], start + 1, failing, i - 1);
    }
  }

  /** The commands of a step that actually run: all of them up to and
      including the first that fails. */
  function Issued(cmds: seq<Command>, start: nat, failing: set<nat>): seq<Command> {
    var k := FirstFailure(cmds, start, failing);
    if k < |cmds| then cmds[..k + 1] else cmds
  }

  /** The commands issued are a prefix of the step's in which only the last
      may fail, and the last does fail unless all were issued; all are
      issued, none failing, exactly when no command of the step fails. */
  lemma IssuedStops(cmds: seq<Command>, start: nat, failing: set<nat>)
    ensures var r := Issued(cmds, start, failing);
      r <= cmds
      && (forall j :: 0 <= j < |r| - 1 ==> !FailsAt(r[j], start + j, failing))
      && (r == cmds || (r != [] && FailsAt(r[|r| - 1], start + |r| - 1, failing)))
      && (FirstFailure(cmds, start, failing) == |cmds| <==>
            r == cmds && forall j :: 0 <= j < |r| ==> !FailsAt(r[j], start + j, failing))
  {
    FirstFailureStops(cmds, start, failing);
  }

  /** Where the first failure of two command lists in a row lies: within
      the first, or, when all of the first runs, within the second. */
  lemma {:induction false} FirstFailureConcat(a: seq<Command>, b: seq<Command>, start: nat, failing: set<nat>)
    ensures FirstFailure(a + b, start, failing) ==
      if FirstFailure(a, start, failing) < |a| then FirstFailure(a, start, failing)
      else |a| + FirstFailure(b, start + |a|, failing)
    decreases |a|
  {
    if a == [] {
      assert a + b == b;
    } else {
      assert (a + b)[0] == a[0];
      assert (a + b)[1..] == a[1..] + b;
      FirstFailureConcat(a[1..], b, start + 1, failing);
    }
  }

  /** Two command lists in a row issue what the first issues, followed,
      when none of the first fails, by what the second issues. */
  lemma IssuedConcat(a: seq<Command>, b: seq<Command>, start: nat, failing: set<nat>)
    ensures Issued(a + b, start, failing) ==
      if FirstFailure(a, start, failing) < |a| then Issued(a, start, failing)
      else a + Issued(b, start + |a|, failing)
  {
    FirstFailureConcat(a, b, start, failing);
    var k := FirstFailure(a, start, failing);
    if k < |a| {
      assert (a + b)[..k + 1] == a[..k + 1];
    } else {
      var kb := FirstFailure(b, start + |a|, failing);
      if kb < |b| {
        assert (a + b)[..|a| + kb + 1] == a + b[..kb + 1];
      }
    }
  }

  /** A step completes when none of its commands fails and it does not
      raise afterwards. */
  predicate Succeeds(p: Plan, start: nat, failing: set<nat>) {
    !p.raises && FirstFailure(p.cmds, start, failing) == |p.cmds|
  }

  /** How many commands run the program `tool`. */
  function CountTool(cmds: seq<Command>, tool: string): (n: nat)
    ensures n <= |cmds|
    ensures n == 0 <==> forall j :: 0 <= j < |cmds| ==> !(cmds[j].Exec? && cmds[j].argv != [] && cmds[j].argv[0] == tool)
  {
    if cmds == [] then 0
    else (if cmds[0].Exec? && cmds[0].argv != [] && cmds[0].argv[0] == tool then 1 else 0) + CountTool(cmds[1..], tool)
  }

  lemma {:induction false} CountToolConcat(a: seq<Command>, b: seq<Command>, tool: string)
    ensures CountTool(a + b, tool) == CountTool(a, tool) + CountTool(b, tool)
  {
    if a != [] {
      assert (a + b)[1..] == a[1..] + b;
      CountToolConcat(a[1..], b, tool);
    } else {
      assert a + b == b;
    }
  }
}
