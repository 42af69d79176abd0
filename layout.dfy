/** The first three installation steps: partitioning the chosen disk,
    formatting (with optional LUKS encryption of the root partition) and
    mounting. Each is a plan of commands computed from the configuration,
    plus the keys the step writes back once its commands have run. */
module Layout {
  import opened Options
  import opened PyStr
  import opened Settings
  import opened Commands

  /** `parted -s disk args...`. */
  function Parted(disk: string, args: seq<string>): Command {
    Exec(["parted", "-s", disk] + args)
  }

  /** A size in MiB as parted reads it. */
  function MiB(n: int): string {
    IntToString(n) + "MiB"
  }

  /** `int(swap_size.rstrip('G'))`: the swap size in GiB, `None` when the
      value is not a string or `int` raises. */
  function SwapGiB(v: Value): Option<int> {
    if v.Str? then ParseInt(RStripChar(v.s, 'G')) else None
  }

  /** Where the swap partition ends: 513 MiB plus the size in MiB. */
  function SwapEndMiB(gib: int): int {
    513 + gib * 1024
  }

  /** The four commands that wipe the disk, write a GPT label and create the
      512 MiB EFI partition. */
  function WipeAndEfi(disk: string): seq<Command> {
    [Exec(["wipefs", "-af", disk]),
     Parted(disk, ["mklabel", "gpt"]),
     Parted(disk, ["mkpart", "primary", "fat32", "1MiB", "513MiB"]),
     Parted(disk, ["set", "1", "esp", "on"])]
  }

  /** Where the partition after swap starts: the end of swap when there is
      a swap size, 513 MiB otherwise; `None` when reading the swap size
      raises. */
  function RootStart(c: Config): (r: Option<string>)
    ensures !Enabled(c, SwapSize) ==> r == Some("513MiB")
    ensures Enabled(c, SwapSize) ==> (r.Some? <==> SwapGiB(c[SwapSize]).Some?)
  {
    if !Enabled(c, SwapSize) then Some("513MiB")
    else match SwapGiB(c[SwapSize])
      case Some(n) => Some(MiB(SwapEndMiB(n)))
      case None => None
  }

  /** The swap partition, from 513 MiB to `start`, when there is a swap size. */
  function SwapCommands(c: Config, disk: string, start: string): seq<Command> {
    if Enabled(c, SwapSize) then [Parted(disk, ["mkpart", "primary", "linux-swap", "513MiB", start])] else []
  }

  /** Root from `start` to the end, or to 50% followed by a second partition
      from 50% to the end when there is a home size. */
  function RootCommands(disk: string, fs: string, start: string, home: bool): seq<Command> {
    if home then [Parted(disk, ["mkpart", "primary", fs, start, "50%"]),
                  Parted(disk, ["mkpart", "primary", fs, "50%", "100%"])]
    else [Parted(disk, ["mkpart", "primary", fs, start, "100%"])]
  }

  /** `partition_disk`: the commands it issues and whether it raises (a
      missing disk or filesystem, or a swap size `int` cannot read). */
  function PartitionPlan(c: Config): Plan {
    match Required(c, Disk)
    case None => Plan([], true)
    case Some(disk) =>
      match RootStart(c)
      case None => Plan(WipeAndEfi(disk), true)
      case Some(start) =>
        match Required(c, Filesystem)
        case None => Plan(WipeAndEfi(disk) + SwapCommands(c, disk, start), true)
        case Some(fs) =>
          Plan(WipeAndEfi(disk) + SwapCommands(c, disk, start) + RootCommands(disk, fs, start, Enabled(c, HomeSize)), false)
  }

  /** The keys `partition_disk` writes once its commands have run: the EFI
      partition is the disk's first, swap (when there is a swap size) its
      second, root the next one. No home partition is recorded. */
  function Partitioned(c: Config, disk: string): (r: Config)
    ensures r.Keys == c.Keys + {EfiPartition, RootPartition} + (if Enabled(c, SwapSize) then {SwapPartition} else {})
    ensures r[EfiPartition] == Str(disk + "1")
    ensures Enabled(c, SwapSize) ==> r[SwapPartition] == Str(disk + "2") && r[RootPartition] == Str(disk + "3")
    ensures !Enabled(c, SwapSize) ==> r[RootPartition] == Str(disk + "2")
    ensures forall k :: k in c && k !in {EfiPartition, RootPartition, SwapPartition} ==> r[k] == c[k]
  {
    var swap := Enabled(c, SwapSize);
    var r := c[EfiPartition := Str(disk + "1")][RootPartition := Str(disk + if swap then "3" else "2")];
    if swap then r[SwapPartition := Str(disk + "2")] else r
  }

  /** The `mkpart` commands of a list, in order: partition `i + 1` of the
      disk is the one the `i`-th of them creates. */
  function Mkparts(cmds: seq<Command>): (ms: seq<seq<string>>)
    ensures |ms| <= |cmds|
  {
    if cmds == [] then [] else MkpartOf(cmds[0]) + Mkparts(cmds[1..])
  }

  /** The partition one command creates: the arguments after `mkpart` of a
      `parted` command, and nothing for any other command. */
  function MkpartOf(c: Command): (ms: seq<seq<string>>)
    ensures |ms| <= 1
  {
    if c.Exec? && |c.argv| >= 4 && c.argv[0] == "parted" && c.argv[3] == "mkpart" then [c.argv[4..]] else []
  }

  lemma {:induction false} MkpartsConcat(a: seq<Command>, b: seq<Command>)
    ensures Mkparts(a + b) == Mkparts(a) + Mkparts(b)
  {
    if a == [] {
      assert a + b == b;
    } else {
      assert (a + b)[1..] == a[1..] + b;
      MkpartsConcat(a[1..], b);
    }
  }

  lemma MkpartsHead(disk: string)
    ensures Mkparts(WipeAndEfi(disk)) == [["primary", "fat32", "1MiB", "513MiB"]]
  {
    var h := WipeAndEfi(disk);
    assert MkpartOf(h[0]) == [];
    MkpartOne(disk, ["mklabel", "gpt"]);
    MkpartOne(disk, ["mkpart", "primary", "fat32", "1MiB", "513MiB"]);
    MkpartOne(disk, ["set", "1", "esp", "on"]);
    assert Mkparts(h[3..]) == MkpartOf(h[3]) + Mkparts(h[4..]);
    assert Mkparts(h[2..]) == MkpartOf(h[2]) + Mkparts(h[3..]);
    assert Mkparts(h[1..]) == MkpartOf(h[1]) + Mkparts(h[2..]);
    assert Mkparts(h) == MkpartOf(h[0]) + Mkparts(h[1..]);
  }

  lemma MkpartOne(disk: string, args: seq<string>)
    ensures MkpartOf(Parted(disk, args)) == if |args| >= 1 && args[0] == "mkpart" then [args[1..]] else []
  {
    var c := Parted(disk, args);
    if |args| >= 1 {
      assert c.argv[4..] == args[1..];
    }
  }

  /** The swap answer as the collector stores it: the number typed, followed
      by the `G` the collector appends (one more when the user typed a `G`
      too). */
  lemma SwapAnswer(n: int, extra: nat)
    ensures SwapGiB(Str(IntToString(n) + Repeat('G', extra + 1))) == Some(n)
  {
    RStripCharRepeat(IntToString(n), 'G', extra + 1);
    ParseIntRoundTrip(n);
  }

  /** The partitions created, in order: EFI, swap when there is a swap size,
      root, and a further partition after root when there is a home size. */
  lemma PartitionLayout(c: Config, disk: string, fs: string, start: string)
    requires Required(c, Disk) == Some(disk) && Required(c, Filesystem) == Some(fs)
    requires RootStart(c) == Some(start)
    ensures !PartitionPlan(c).raises
    ensures Mkparts(PartitionPlan(c).cmds) ==
      [["primary", "fat32", "1MiB", "513MiB"]]
      + (if Enabled(c, SwapSize) then [["primary", "linux-swap", "513MiB", start]] else [])
      + (if Enabled(c, HomeSize) then [["primary", fs, start, "50%"], ["primary", fs, "50%", "100%"]]
         else [["primary", fs, start, "100%"]])
  {
    var swap := SwapCommands(c, disk, start);
    var root := RootCommands(disk, fs, start, Enabled(c, HomeSize));
    assert PartitionPlan(c).cmds == WipeAndEfi(disk) + swap + root;
    MkpartsConcat(WipeAndEfi(disk) + swap, root);
    MkpartsConcat(WipeAndEfi(disk), swap);
    MkpartsHead(disk);
    SwapMkparts(c, disk, start);
    RootMkparts(disk, fs, start, Enabled(c, HomeSize));
  }

  /** The swap partition's `mkpart`, when there is a swap size. */
  lemma SwapMkparts(c: Config, disk: string, start: string)
    ensures Mkparts(SwapCommands(c, disk, start)) ==
      if Enabled(c, SwapSize) then [["primary", "linux-swap", "513MiB", start]] else []
  {
    if Enabled(c, SwapSize) {
      MkpartsSingle(Parted(disk, ["mkpart", "primary", "linux-swap", "513MiB", start]));
      MkpartOne(disk, ["mkpart", "primary", "linux-swap", "513MiB", start]);
    }
  }

  /** The root partition's `mkpart`, and the one after it with a home size. */
  lemma RootMkparts(disk: string, fs: string, start: string, home: bool)
    ensures Mkparts(RootCommands(disk, fs, start, home)) ==
      if home then [["primary", fs, start, "50%"], ["primary", fs, "50%", "100%"]]
      else [["primary", fs, start, "100%"]]
  {
    var root := RootCommands(disk, fs, start, home);
    MkpartOne(disk, ["mkpart", "primary", fs, start, if home then "50%" else "100%"]);
    MkpartsSingle(root[0]);
    if home {
      MkpartOne(disk, ["mkpart", "primary", fs, "50%", "100%"]);
      MkpartsSingle(root[1]);
      assert root == [root[0]] + [root[1]];
      MkpartsConcat([root[0]], [root[1]]);
    }
  }

  lemma MkpartsSingle(cmd: Command)
    ensures Mkparts([cmd]) == MkpartOf(cmd)
  {
    assert [cmd][1..] == [];
  }

  /** The layout with a swap size of `n` GiB and no home size: partition 1
      is EFI from 1 MiB to 513 MiB, partition 2 swap from 513 MiB to
      513 + 1024n MiB, partition 3 root from there to the end; the keys name
      them `disk1`, `disk2` and `disk3`. */
  lemma LayoutWithSwap(c: Config, disk: string, fs: string, n: int, extra: nat)
    requires Required(c, Disk) == Some(disk) && Required(c, Filesystem) == Some(fs)
    requires SwapSize in c && c[SwapSize] == Str(IntToString(n) + Repeat('G', extra + 1))
    requires !Enabled(c, HomeSize)
    ensures !PartitionPlan(c).raises
    ensures Mkparts(PartitionPlan(c).cmds) ==
      [["primary", "fat32", "1MiB", "513MiB"],
       ["primary", "linux-swap", "513MiB", MiB(513 + n * 1024)],
       ["primary", fs, MiB(513 + n * 1024), "100%"]]
    ensures var r := Partitioned(c, disk);
      r[EfiPartition] == Str(disk + "1") && r[SwapPartition] == Str(disk + "2") && r[RootPartition] == Str(disk + "3")
      && (HomePartition in r <==> HomePartition in c)
  {
    SwapAnswer(n, extra);
    var s := c[SwapSize].s;
    assert s != "" by {
      assert |s| >= |Repeat('G', extra + 1)|;
    }
    assert Enabled(c, SwapSize);
    var start := MiB(SwapEndMiB(n));
    assert RootStart(c) == Some(start);
    PartitionLayout(c, disk, fs, start);
    var efi, swap, root := ["primary", "fat32", "1MiB", "513MiB"], ["primary", "linux-swap", "513MiB", start],
                           ["primary", fs, start, "100%"];
    assert Mkparts(PartitionPlan(c).cmds) == [efi] + [swap] + [root];
    assert [efi] + [swap] + [root] == [efi, swap, root];
  }

  /** The layout without swap and without a home size: EFI, then root from
      513 MiB to the end as `disk2`, and no swap partition key. */
  lemma LayoutWithoutSwap(c: Config, disk: string, fs: string)
    requires Required(c, Disk) == Some(disk) && Required(c, Filesystem) == Some(fs)
    requires !Enabled(c, SwapSize) && !Enabled(c, HomeSize)
    ensures !PartitionPlan(c).raises
    ensures Mkparts(PartitionPlan(c).cmds) ==
      [["primary", "fat32", "1MiB", "513MiB"], ["primary", fs, "513MiB", "100%"]]
    ensures var r := Partitioned(c, disk);
      r[EfiPartition] == Str(disk + "1") && r[RootPartition] == Str(disk + "2")
      && (SwapPartition in r <==> SwapPartition in c)
  {
    PartitionLayout(c, disk, fs, "513MiB");
  }

  /** With a home size, one more partition is created after root (from 50%
      to the end), but `partition_disk` records no key for it. */
  lemma HomeCreatedNotRecorded(c: Config, disk: string, fs: string)
    requires Required(c, Disk) == Some(disk) && Required(c, Filesystem) == Some(fs)
    requires RootStart(c).Some?
    requires Enabled(c, HomeSize)
    ensures !PartitionPlan(c).raises
    ensures var ms := Mkparts(PartitionPlan(c).cmds);
      |ms| == (if Enabled(c, SwapSize) then 4 else 3) && ms[|ms| - 1] == ["primary", fs, "50%", "100%"]
    ensures HomePartition in Partitioned(c, disk) <==> HomePartition in c
  {
    PartitionLayout(c, disk, fs, RootStart(c).value);
  }

  /** The path of partition `k` of `disk` as the kernel names it: a disk
      whose name ends in a digit (`/dev/nvme0n1`, `/dev/mmcblk0`) takes a `p`
      before the number. */
  function PartitionName(disk: string, k: nat): (p: string)
    ensures disk != [] && IsDigit(disk[|disk| - 1]) ==> p == disk + "p" + NatToString(k)
    ensures (disk == [] || !IsDigit(disk[|disk| - 1])) ==> p == disk + NatToString(k)
  {
    if disk != [] && IsDigit(disk[|disk| - 1]) then disk + "p" + NatToString(k) else disk + NatToString(k)
  }

  /** As written, an NVMe disk gets partition keys the kernel never creates:
      `/dev/nvme0n1` becomes `/dev/nvme0n11` instead of `/dev/nvme0n1p1`. */
  lemma NvmePartitionKeys(c: Config)
    ensures Partitioned(c, "/dev/nvme0n1")[EfiPartition] == Str("/dev/nvme0n11")
    ensures PartitionName("/dev/nvme0n1", 1) == "/dev/nvme0n1p1"
    ensures PartitionName("/dev/sda", 1) == "/dev/sda1"
  {
    assert NatToString(1) == "1";
  }

  /** The partition keys with kernel partition names and a recorded home
      partition: with a home size, the partition after root is `home`. */
  function PartitionedFixed(c: Config, disk: string): (r: Config)
    ensures r.Keys == c.Keys + {EfiPartition, RootPartition}
      + (if Enabled(c, SwapSize) then {SwapPartition} else {}) + (if Enabled(c, HomeSize) then {HomePartition} else {})
    ensures r[EfiPartition] == Str(PartitionName(disk, 1))
    ensures Enabled(c, SwapSize) ==> r[SwapPartition] == Str(PartitionName(disk, 2))
    ensures r[RootPartition] == Str(PartitionName(disk, if Enabled(c, SwapSize) then 3 else 2))
    ensures Enabled(c, HomeSize) ==> r[HomePartition] == Str(PartitionName(disk, if Enabled(c, SwapSize) then 4 else 3))
    ensures forall k :: k in c && k !in {EfiPartition, RootPartition, SwapPartition, HomePartition} ==> r[k] == c[k]
  {
    var root: nat := if Enabled(c, SwapSize) then 3 else 2;
    var a := c[EfiPartition := Str(PartitionName(disk, 1))][RootPartition := Str(PartitionName(disk, root))];
    var b := if Enabled(c, SwapSize) then a[SwapPartition := Str(PartitionName(disk, 2))] else a;
    if Enabled(c, HomeSize) then b[HomePartition := Str(PartitionName(disk, root + 1))] else b
  }

  /** The first part of `format_partitions`: the EFI file system, swap, and
      the LUKS format and open of the root partition when there is an
      encryption password. */
  function PrepPlan(c: Config): (p: Plan)
    ensures !p.raises ==> Required(c, RootPartition).Some?
    ensures !p.raises && Enabled(c, EncryptionPassword) ==> Required(c, EncryptionPassword).Some?
  {
    match Required(c, EfiPartition)
    case None => Plan([], true)
    case Some(efi) =>
      var a := [Exec(["mkfs.fat", "-F32", efi])];
      if Enabled(c, SwapPartition) && Required(c, SwapPartition).None? then Plan(a, true)
      else
        var b := a + (if Enabled(c, SwapPartition)
                      then var sp := Required(c, SwapPartition).value; [Exec(["mkswap", sp]), Exec(["swapon", sp])]
                      else []);
        match Required(c, RootPartition)
        case None => Plan(b, true)
        case Some(root) =>
          if !Enabled(c, EncryptionPassword) then Plan(b, false)
          else
            match Required(c, EncryptionPassword)
            case None => Plan(b, true)
            case Some(pw) =>
              Plan(b + [Feed(["cryptsetup", "luksFormat", root], pw + "\n"),
                        Feed(["cryptsetup", "open", root, "cryptroot"], pw + "\n")], false)
  }

  /** The device the root file system goes on. */
  function RootDevice(c: Config, root: string): string {
    if Enabled(c, EncryptionPassword) then "/dev/mapper/cryptroot" else root
  }

  /** The `mkfs` command for a filesystem name, when it is one of the four
      the installer knows. */
  function MkfsCommand(fs: string, dev: string): (r: Option<Command>)
    ensures r.Some? <==> fs in {"ext4", "btrfs", "xfs", "f2fs"}
    ensures r.Some? ==> r.value.Exec? && |r.value.argv| == 3 && r.value.argv[0] == "mkfs." + fs && r.value.argv[|r.value.argv| - 1] == dev
  {
    if fs == "ext4" then Some(Exec(["mkfs.ext4", "-F", dev]))
    else if fs == "btrfs" then Some(Exec(["mkfs.btrfs", "-f", dev]))
    else if fs == "xfs" then Some(Exec(["mkfs.xfs", "-f", dev]))
    else if fs == "f2fs" then Some(Exec(["mkfs.f2fs", "-f", dev]))
    else None
  }

  /** The second part of `format_partitions`: the root file system. */
  function MkfsPlan(c: Config, dev: string): Plan {
    match Required(c, Filesystem)
    case None => Plan([], true)
    case Some(fs) =>
      match MkfsCommand(fs, dev)
      case Some(cmd) => Plan([cmd], false)
      case None => Plan([], false)
  }

  /** `format_partitions`: the preparation, then the root file system on the
      device `RootDevice` names. */
  function FormatPlan(c: Config): (p: Plan)
    ensures PrepPlan(c).cmds <= p.cmds
    ensures PrepPlan(c).raises ==> p == PrepPlan(c)
  {
    var prep := PrepPlan(c);
    match Required(c, RootPartition)
    case Some(root) =>
      if prep.raises then prep
      else
        var m := MkfsPlan(c, RootDevice(c, root));
        Plan(prep.cmds + m.cmds, m.raises)
    case None => prep
  }

  /** The keys `format_partitions` writes: `encrypted_root` is set when there
      is an encryption password, and `formatted_root` names the mapper
      device then and the root partition otherwise. */
  function Formatted(c: Config, root: string): (r: Config)
    ensures r.Keys == c.Keys + {FormattedRoot} + (if Enabled(c, EncryptionPassword) then {EncryptedRoot} else {})
    ensures root != "/dev/mapper/cryptroot" ==>
      (r[FormattedRoot] == Str("/dev/mapper/cryptroot") <==> Enabled(c, EncryptionPassword))
    ensures !Enabled(c, EncryptionPassword) ==> r[FormattedRoot] == Str(root)
    ensures Enabled(c, EncryptionPassword) ==>
      r[FormattedRoot] == Str("/dev/mapper/cryptroot") && r[EncryptedRoot] == Flag(true)
    ensures forall k :: k in c && k !in {FormattedRoot, EncryptedRoot} ==> r[k] == c[k]
    ensures !Enabled(c, EncryptionPassword) && EncryptedRoot in c ==> r[EncryptedRoot] == c[EncryptedRoot]
  {
    var a := if Enabled(c, EncryptionPassword) then c[EncryptedRoot := Flag(true)] else c;
    a[FormattedRoot := Str(RootDevice(c, root))]
  }

  /** What `format_partitions` leaves when it stops before recording the
      root device, its commands starting at log position `pos` (see
      `FormatFailedWrites`). */
  function FormatFailed(c: Config, pos: nat, failing: set<nat>): Config {
    if Enabled(c, EncryptionPassword) && Succeeds(PrepPlan(c), pos, failing) then c[EncryptedRoot := Flag(true)] else c
  }

  /** Once the preparation has run with an encryption password,
      `encrypted_root` is already set when `format_partitions` stops; a stop
      within the preparation leaves the configuration as it was, and no
      other key is ever written. */
  lemma FormatFailedWrites(c: Config, pos: nat, failing: set<nat>)
    ensures var r := FormatFailed(c, pos, failing);
      r.Keys == c.Keys + (if Enabled(c, EncryptionPassword) && Succeeds(PrepPlan(c), pos, failing) then {EncryptedRoot} else {})
    ensures Enabled(c, EncryptionPassword) && Succeeds(PrepPlan(c), pos, failing) ==>
      FormatFailed(c, pos, failing)[EncryptedRoot] == Flag(true)
    ensures forall k :: k in c && k != EncryptedRoot ==> FormatFailed(c, pos, failing)[k] == c[k]
    ensures !Succeeds(PrepPlan(c), pos, failing) ==> FormatFailed(c, pos, failing) == c
  {
  }

  /** With an encryption password, a `mkfs` that fails after the LUKS
      commands stops the step with `encrypted_root` set and no root device
      recorded: everything the completed step writes except
      `formatted_root`. */
  lemma EncryptedBeforeMkfs(c: Config, root: string, fs: string, pos: nat, failing: set<nat>)
    requires Required(c, RootPartition) == Some(root) && Required(c, Filesystem) == Some(fs)
    requires fs in {"ext4", "btrfs", "xfs", "f2fs"} && Enabled(c, EncryptionPassword)
    requires Succeeds(PrepPlan(c), pos, failing) && pos + |PrepPlan(c).cmds| in failing
    requires FormattedRoot !in c
    ensures !Succeeds(FormatPlan(c), pos, failing)
    ensures FormatFailed(c, pos, failing)[EncryptedRoot] == Flag(true)
    ensures FormatFailed(c, pos, failing) == Formatted(c, root) - {FormattedRoot}
  {
    var prep := PrepPlan(c).cmds;
    var m := MkfsPlan(c, RootDevice(c, root));
    FormatPlanAfterPrep(c, root);
    FirstFailureConcat(prep, m.cmds, pos, failing);
    assert FailsAt(m.cmds[0], pos + |prep|, failing);
    FormatFailedPartial(c, root, pos, failing);
  }

  /** Once the preparation does not raise, formatting is the preparation
      followed by the `mkfs` plan on the root device. */
  lemma FormatPlanAfterPrep(c: Config, root: string)
    requires Required(c, RootPartition) == Some(root) && !PrepPlan(c).raises
    ensures var m := MkfsPlan(c, RootDevice(c, root));
      FormatPlan(c) == Plan(PrepPlan(c).cmds + m.cmds, m.raises)
  {
  }

  /** A preparation that stops stops the formatting with the same
      commands. */
  lemma FormatStopsInPrep(c: Config, start: nat, failing: set<nat>)
    requires !Succeeds(PrepPlan(c), start, failing)
    ensures Issued(FormatPlan(c).cmds, start, failing) == Issued(PrepPlan(c).cmds, start, failing)
    ensures !Succeeds(FormatPlan(c), start, failing)
  {
    var prep := PrepPlan(c);
    if !prep.raises {
      var root := Required(c, RootPartition).value;
      var m := MkfsPlan(c, RootDevice(c, root));
      FormatPlanAfterPrep(c, root);
      IssuedConcat(prep.cmds, m.cmds, start, failing);
      FirstFailureConcat(prep.cmds, m.cmds, start, failing);
    }
  }

  /** After a completed preparation, formatting issues its commands and
      then those of the `mkfs` plan, and completes exactly when that plan
      does. */
  lemma FormatAfterPrep(c: Config, start: nat, failing: set<nat>)
    requires Succeeds(PrepPlan(c), start, failing)
    ensures var prep := PrepPlan(c).cmds;
      var m := MkfsPlan(c, RootDevice(c, Required(c, RootPartition).value));
      Issued(FormatPlan(c).cmds, start, failing) == prep + Issued(m.cmds, start + |prep|, failing)
      && (Succeeds(FormatPlan(c), start, failing) <==> Succeeds(m, start + |prep|, failing))
  {
    var prep := PrepPlan(c).cmds;
    var root := Required(c, RootPartition).value;
    var m := MkfsPlan(c, RootDevice(c, root));
    FormatPlanAfterPrep(c, root);
    IssuedConcat(prep, m.cmds, start, failing);
    FirstFailureConcat(prep, m.cmds, start, failing);
  }

  /** After a completed preparation with an encryption password, the
      partial write is the completed one without `formatted_root`. */
  lemma FormatFailedPartial(c: Config, root: string, pos: nat, failing: set<nat>)
    requires Enabled(c, EncryptionPassword) && Succeeds(PrepPlan(c), pos, failing) && FormattedRoot !in c
    ensures FormatFailed(c, pos, failing) == Formatted(c, root) - {FormattedRoot}
  {
    var r := FormatFailed(c, pos, failing);
    var f := Formatted(c, root) - {FormattedRoot};
    assert r.Keys == f.Keys;
  }

  /** Formatting issues exactly one `mkfs` for the chosen filesystem, on the
      mapper device when encrypting and on the root partition otherwise, and
      none for a filesystem name it does not know. */
  lemma OneMkfs(c: Config, root: string, fs: string)
    requires Required(c, RootPartition) == Some(root) && Required(c, Filesystem) == Some(fs)
    requires fs != "fat" && !PrepPlan(c).raises
    ensures !FormatPlan(c).raises
    ensures CountTool(FormatPlan(c).cmds, "mkfs." + fs) == (if fs in {"ext4", "btrfs", "xfs", "f2fs"} then 1 else 0)
    ensures fs in {"ext4", "btrfs", "xfs", "f2fs"} ==>
      var m := MkfsPlan(c, RootDevice(c, root)).cmds;
      |m| == 1 && m[0].argv[|m[0].argv| - 1] == (if Enabled(c, EncryptionPassword) then "/dev/mapper/cryptroot" else root)
  {
    var p := PrepPlan(c).cmds;
    var m := MkfsPlan(c, RootDevice(c, root)).cmds;
    var tool := "mkfs." + fs;
    PrepPlanCommands(c);
    forall j | 0 <= j < |p|
      ensures !(p[j].Exec? && p[j].argv != [] && p[j].argv[0] == tool)
    {
      NotMkfs(p[j], fs);
    }
    CountToolConcat(p, m, tool);
    if |m| == 1 {
      assert m[1..] == [];
    }
  }

  /** The commands of the preparation: the `mkfs.fat`, `mkswap`, `swapon`
      commands and the fed `cryptsetup` ones. */
  predicate PrepCommand(cmd: Command) {
    cmd.Feed? || (|cmd.argv| >= 1 && cmd.argv[0] in {"mkfs.fat", "mkswap", "swapon"})
  }

  lemma PrepPlanCommands(c: Config)
    ensures forall j :: 0 <= j < |PrepPlan(c).cmds| ==> PrepCommand(PrepPlan(c).cmds[j])
  {
  }

  /** A preparation command never runs the `mkfs` of a filesystem other
      than `fat`. */
  lemma NotMkfs(cmd: Command, fs: string)
    requires PrepCommand(cmd) && fs != "fat"
    ensures !(cmd.Exec? && cmd.argv != [] && cmd.argv[0] == "mkfs." + fs)
  {
    var tool := "mkfs." + fs;
    assert tool[5..] == fs && "mkfs.fat"[5..] == "fat";
    assert tool[2] == 'f' && "mkswap"[2] == 's' && "swapon"[2] == 'a';
  }

  /** `mount_partitions`: root on `/mnt`, EFI on `/mnt/boot`, and the home
      partition on `/mnt/home` only when `home_partition` is set. */
  function MountPlan(c: Config): Plan {
    match Required(c, FormattedRoot)
    case None => Plan([], true)
    case Some(root) =>
      var a := [Exec(["mount", root, "/mnt"]), Exec(["mkdir", "-p", "/mnt/boot"])];
      match Required(c, EfiPartition)
      case None => Plan(a, true)
      case Some(efi) =>
        var b := a + [Exec(["mount", efi, "/mnt/boot"])];
        if !Enabled(c, HomePartition) then Plan(b, false)
        else
          match Required(c, HomePartition)
          case None => Plan(b + [Exec(["mkdir", "-p", "/mnt/home"])], true)
          case Some(home) => Plan(b + [Exec(["mkdir", "-p", "/mnt/home"]), Exec(["mount", home, "/mnt/home"])], false)
  }

  /** Whether a command mounts something on `/mnt/home`. */
  predicate MountsHome(cmd: Command) {
    cmd.Exec? && |cmd.argv| == 3 && cmd.argv[0] == "mount" && cmd.argv[2] == "/mnt/home"
  }

  /** `/mnt/home` is mounted exactly when `home_partition` is set. */
  lemma MountsHomeIff(c: Config)
    requires Required(c, FormattedRoot).Some? && Required(c, EfiPartition).Some?
    ensures (exists j :: 0 <= j < |MountPlan(c).cmds| && MountsHome(MountPlan(c).cmds[j]))
            <==> Enabled(c, HomePartition) && Required(c, HomePartition).Some?
  {
    var cmds := MountPlan(c).cmds;
    if Enabled(c, HomePartition) && Required(c, HomePartition).Some? {
      assert MountsHome(cmds[|cmds| - 1]);
    } else {
      forall j | 0 <= j < |cmds| ensures !MountsHome(cmds[j]) {
        assert cmds[j].argv[|cmds[j].argv| - 1] in {"/mnt", "/mnt/boot", "/mnt/home"};
      }
    }
  }

  /** As written, the home partition created for a home size is never
      mounted: after partitioning and formatting, `home_partition` is still
      missing, so no command mounts `/mnt/home`. */
  lemma HomeNeverMounted(c: Config, disk: string, root: string)
    requires HomePartition !in c && Enabled(c, HomeSize)
    ensures var m := Formatted(Partitioned(c, disk), root);
      forall j :: 0 <= j < |MountPlan(m).cmds| ==> !MountsHome(MountPlan(m).cmds[j])
  {
    var m := Formatted(Partitioned(c, disk), root);
    assert HomePartition !in m;
    MountsHomeIff(m);
  }

  /** With the home partition recorded, the partition created after root is
      mounted on `/mnt/home`. */
  lemma HomeMountedFixed(c: Config, disk: string, root: string)
    requires Enabled(c, HomeSize)
    ensures var m := Formatted(PartitionedFixed(c, disk), root);
      var home := PartitionName(disk, if Enabled(c, SwapSize) then 4 else 3);
      Exec(["mount", home, "/mnt/home"]) in MountPlan(m).cmds
  {
    var m := Formatted(PartitionedFixed(c, disk), root);
    var home := PartitionName(disk, if Enabled(c, SwapSize) then 4 else 3);
    assert m[HomePartition] == Str(home);
    var cmds := MountPlan(m).cmds;
    assert cmds[|cmds| - 1] == Exec(["mount", home, "/mnt/home"]);
  }
}
