/** Disk discovery and disk choice: the records `get_disks` builds from the
    output of `lsblk -ndo NAME,SIZE,TYPE`, and the menu that picks one. */
module Disks {
  import opened Options
  import opened PyStr

  /** One record of the disk list: the device name, its path under `/dev`
      and the size column as `lsblk` prints it. */
  datatype DiskInfo = DiskInfo(name: string, path: string, size: string)

  /** One output line: a disk when it has at least three whitespace-separated
      fields and the third is `disk`; the name and size are the first two. */
  function DiskOfLine(line: string): (r: Option<DiskInfo>)
    ensures r.Some? <==> |SplitFields(line)| >= 3 && SplitFields(line)[2] == "disk"
    ensures r.Some? ==> r.value.path == "/dev/" + r.value.name
    ensures r.Some? ==> r.value.name == SplitFields(line)[0] && r.value.size == SplitFields(line)[1]
  {
    var parts := SplitFields(line);
    if |parts| >= 3 && parts[2] == "disk" then Some(DiskInfo(parts[0], "/dev/" + parts[0], parts[1]))
    else None
  }

  /** The disks of a list of lines, in line order. */
  function DisksOf(lines: seq<string>): (ds: seq<DiskInfo>)
    ensures |ds| <= |lines|
    ensures forall d :: d in ds ==> d.path == "/dev/" + d.name
  {
    if lines == [] then []
    else DisksOf(lines[..|lines| - 1]) + LineDisks(lines[|lines| - 1])
  }

  /** What one line adds to the list: its disk, or nothing. */
  function LineDisks(line: string): (ds: seq<DiskInfo>)
    ensures |ds| <= 1
    ensures ds != [] <==> DiskOfLine(line).Some?
    ensures ds != [] ==> ds[0] == DiskOfLine(line).value
  {
    match DiskOfLine(line)
    case Some(d) => [d]
    case None => []
  }

  /** `get_disks`: nothing when `lsblk` fails (the error is swallowed),
      otherwise the disks among the lines of its stripped output. */
  function LsblkDisks(ok: bool, stdout: string): (ds: seq<DiskInfo>)
    ensures !ok ==> ds == []
    ensures ok ==> ds == DisksOf(SplitOn(Strip(stdout), '\n'))
  {
    if ok then DisksOf(SplitOn(Strip(stdout), '\n')) else []
  }

  /** The loop of `get_disks` over the lines of the `lsblk` output. */
  method ParseLsblk(stdout: string) returns (disks: seq<DiskInfo>)
    ensures disks == LsblkDisks(true, stdout)
  {
    var lines := SplitOn(Strip(stdout), '\n');
    disks := [];
    var i := 0;
    while i < |lines|
      invariant 0 <= i <= |lines|
      invariant disks == DisksOf(lines[..i])
    {
      var parts := SplitFields(lines[i]);
      DisksOfStep(lines, i);
      if |parts| >= 3 && parts[2] == "disk" {
        var d := DiskInfo(parts[0], "/dev/" + parts[0], parts[1]);
        assert LineDisks(lines[i]) == [d];
        disks := disks + [d];
      } else {
        assert LineDisks(lines[i]) == [];
      }
      assert disks == DisksOf(lines[..i + 1]);
      i := i + 1;
    }
    assert lines[..i] == lines;
  }

  lemma DisksOfStep(lines: seq<string>, i: nat)
    requires i < |lines|
    ensures DisksOf(lines[..i + 1]) == DisksOf(lines[..i]) + LineDisks(lines[i])
  {
    assert lines[..i + 1][..i] == lines[..i];
  }

  /** The disks of consecutive blocks of lines are the disks of each block,
      in order. */
  lemma {:induction false} DisksOfConcat(a: seq<string>, b: seq<string>)
    ensures DisksOf(a + b) == DisksOf(a) + DisksOf(b)
    decreases |b|
  {
    if b == [] {
      assert a + b == a;
    } else {
      var b' := b[..|b| - 1];
      assert (a + b)[..|a + b| - 1] == a + b';
      assert (a + b)[|a + b| - 1] == b[|b| - 1];
      DisksOfConcat(a, b');
    }
  }

  /** A record is in the list exactly when some line describes it. */
  lemma DisksOfExact(lines: seq<string>, d: DiskInfo)
    ensures d in DisksOf(lines) <==> exists i :: 0 <= i < |lines| && DiskOfLine(lines[i]) == Some(d)
  {
    if d in DisksOf(lines) {
      DiskFromLine(lines, d);
    }
    if exists i :: 0 <= i < |lines| && DiskOfLine(lines[i]) == Some(d) {
      var i :| 0 <= i < |lines| && DiskOfLine(lines[i]) == Some(d);
      DiskListed(lines, i, d);
    }
  }

  lemma {:induction false} DiskFromLine(lines: seq<string>, d: DiskInfo)
    requires d in DisksOf(lines)
    ensures exists i :: 0 <= i < |lines| && DiskOfLine(lines[i]) == Some(d)
  {
    var init, last := lines[..|lines| - 1], lines[|lines| - 1];
    assert DisksOf(lines) == DisksOf(init) + LineDisks(last);
    if d in DisksOf(init) {
      DiskFromLine(init, d);
      var i :| 0 <= i < |init| && DiskOfLine(init[i]) == Some(d);
      assert lines[i] == init[i];
    } else {
      assert DiskOfLine(lines[|lines| - 1]) == Some(d);
    }
  }

  lemma {:induction false} DiskListed(lines: seq<string>, i: nat, d: DiskInfo)
    requires i < |lines| && DiskOfLine(lines[i]) == Some(d)
    ensures d in DisksOf(lines)
  {
    var init, last := lines[..|lines| - 1], lines[|lines| - 1];
    assert DisksOf(lines) == DisksOf(init) + LineDisks(last);
    if i < |init| {
      assert init[i] == lines[i];
      DiskListed(init, i, d);
    } else {
      assert d in LineDisks(last);
    }
  }

  /** Three words in front of a list of words make a list of words. */
  lemma WordsPrefixed(a: string, b: string, c: string, rest: seq<string>)
    requires IsWord(a) && IsWord(b) && IsWord(c)
    requires forall i :: 0 <= i < |rest| ==> IsWord(rest[i])
    ensures forall i :: 0 <= i < |[a, b, c] + rest| ==> IsWord(([a, b, c] + rest)[i])
  {
    var ws := [a, b, c] + rest;
    forall i | 0 <= i < |ws| ensures IsWord(ws[i]) {
      if i >= 3 {
        assert ws[i] == rest[i - 3];
      }
    }
  }

  /** A line of words joined by spaces parses as the fields it was built
      from: a disk exactly when the third word is `disk`. */
  lemma DiskOfWords(ws: seq<string>)
    requires |ws| >= 3
    requires forall i :: 0 <= i < |ws| ==> IsWord(ws[i])
    ensures DiskOfLine(Join(ws, " ")) == if ws[2] == "disk" then Some(DiskInfo(ws[0], "/dev/" + ws[0], ws[1])) else None
  {
    SplitFieldsWords(ws);
  }

  /** A line built from a name, a size, the type `disk` and any further
      columns parses back to that disk. */
  lemma DiskLineRoundTrip(name: string, size: string, rest: seq<string>)
    requires IsWord(name) && IsWord(size)
    requires forall i :: 0 <= i < |rest| ==> IsWord(rest[i])
    ensures DiskOfLine(Join([name, size, "disk"] + rest, " ")) == Some(DiskInfo(name, "/dev/" + name, size))
  {
    var ws := [name, size, "disk"] + rest;
    assert IsWord("disk");
    WordsPrefixed(name, size, "disk", rest);
    DiskOfWords(ws);
    assert ws[0] == name && ws[1] == size && ws[2] == "disk";
  }

  /** A line whose third column is another type (a partition, a ROM drive)
      is not a disk. */
  lemma NotDiskLine(name: string, size: string, kind: string, rest: seq<string>)
    requires IsWord(name) && IsWord(size) && IsWord(kind) && kind != "disk"
    requires forall i :: 0 <= i < |rest| ==> IsWord(rest[i])
    ensures DiskOfLine(Join([name, size, kind] + rest, " ")).None?
  {
    var ws := [name, size, kind] + rest;
    WordsPrefixed(name, size, kind, rest);
    DiskOfWords(ws);
    assert ws[2] == kind;
  }

  /** Python's `xs[k]`: a negative index counts from the end, anything out
      of range raises `IndexError` (`None`). */
  function PyIndex<T>(xs: seq<T>, k: int): (r: Option<T>)
    ensures r.Some? <==> -|xs| <= k < |xs|
    ensures 0 <= k < |xs| ==> r == Some(xs[k])
    ensures -|xs| <= k < 0 ==> r == Some(xs[|xs| + k])
  {
    if 0 <= k < |xs| then Some(xs[k])
    else if -|xs| <= k < 0 then Some(xs[|xs| + k])
    else None
  }

  /** The disk path `configure_storage` stores: `disks[int(choice) - 1]`,
      with `None` where `int` or the index raises. */
  function SelectDisk(disks: seq<DiskInfo>, choice: string): (r: Option<string>)
    ensures r.Some? <==> ParseInt(choice).Some? && -|disks| < ParseInt(choice).value <= |disks|
    ensures r.Some? ==>
      var k := ParseInt(choice).value - 1;
      r.value == (if k >= 0 then disks[k] else disks[|disks| + k]).path
  {
    match ParseInt(choice)
    case None => None
    case Some(n) =>
      match PyIndex(disks, n - 1)
      case Some(d) => Some(d.path)
      case None => None
  }

  /** Whatever the answer, the path stored is the path of a listed disk. */
  lemma SelectDiskListedOnly(disks: seq<DiskInfo>, choice: string)
    ensures SelectDisk(disks, choice).Some? ==> exists d :: d in disks && SelectDisk(disks, choice).value == d.path
  {
    if SelectDisk(disks, choice).Some? {
      var k := ParseInt(choice).value - 1;
      var d := if k >= 0 then disks[k] else disks[|disks| + k];
      assert d in disks;
    }
  }

  /** Typing the number of a listed disk picks that disk. */
  lemma SelectDiskListed(disks: seq<DiskInfo>, n: nat)
    requires 1 <= n <= |disks|
    ensures SelectDisk(disks, NatToString(n)) == Some(disks[n - 1].path)
  {
    ParseDigits(NatToString(n));
  }

  /** As written, the answer `0` is accepted and picks the LAST disk, since
      `disks[-1]` is the last element; `-1` picks the one before it. */
  lemma SelectDiskZero(disks: seq<DiskInfo>)
    requires |disks| >= 2
    ensures SelectDisk(disks, "0") == Some(disks[|disks| - 1].path)
    ensures SelectDisk(disks, "-1") == Some(disks[|disks| - 2].path)
  {
    assert NatToString(0) == "0";
    ParseDigits("0");
    ParseIntRoundTrip(-1);
    assert IntToString(-1) == "-1";
  }

  /** The disk choice with the range check the menu announces (1 to the
      number of disks): anything else is refused. */
  function SelectDiskChecked(disks: seq<DiskInfo>, choice: string): (r: Option<string>)
    ensures r.Some? <==> ParseInt(choice).Some? && 1 <= ParseInt(choice).value <= |disks|
    ensures r.Some? ==> r.value == disks[ParseInt(choice).value - 1].path
  {
    match ParseInt(choice)
    case Some(n) => if 1 <= n <= |disks| then Some(disks[n - 1].path) else None
    case None => None
  }

  /** The checked choice agrees with the written one on every answer it
      accepts, and refuses `0`. */
  lemma SelectDiskCheckedAgrees(disks: seq<DiskInfo>, choice: string)
    ensures SelectDiskChecked(disks, choice).Some? ==> SelectDisk(disks, choice) == SelectDiskChecked(disks, choice)
    ensures SelectDiskChecked(disks, "0").None?
  {
    ParseDigits("0");
  }
}
