/** The decisions the VM resource of internal/resources/vm.go takes around
    its API calls: reading sizes, picking the OS disk and its size, the
    generation, the delete options, the power transition and its time
    limits, the power-state match and the "not found" heuristic. Terraform
    attributes are `Option`s (`None` for null); the API calls are left to
    the caller, which passes in what they answered. */
module VmRules {
  import opened Outcomes
  import opened Strings
  import opened Strconv

  /** `!v.IsNull() && v.ValueString() != ""`: a string attribute that was
      given a non-empty value. */
  predicate Given(v: Option<string>)
  {
    v.Some? && v.value != ""
  }

  /** `ValueString()`: the empty string for a null attribute. */
  function ValueString(v: Option<string>): string
  {
    if v.Some? then v.value else ""
  }

  // ---------------------------------------------------------------------
  // Sizes

  /** Lines 541-543: a trailing `MB` is dropped, then a trailing `GB` is
      dropped and remembered. */
  function Unit(t: string): (r: (string, bool))
    ensures r.0 + (if r.1 then "GB" else "") + (if HasSuffix(t, "MB") then "MB" else "") == t
  {
    var t1 := if HasSuffix(t, "MB") then t[..|t| - 2] else t;
    if HasSuffix(t1, "GB") then (t1[..|t1| - 2], true) else (t1, false)
  }

  /** Lines 538-549, `toMB`: the text is upper-cased and trimmed, its unit
      dropped, and what is left, trimmed again, must be a decimal `int`;
      gigabytes are multiplied by 1024 with 64-bit wrap-around. */
  function ToMB(s: string): (r: Option<int>)
    ensures r.Some? ==> MinInt64 <= r.value <= MaxInt64
  {
    var u := Unit(TrimSpace(Upper(s)));
    match Atoi(TrimSpace(u.0))
    case None => None
    case Some(n) => Some(if u.1 then Wrap64(n * 1024) else n)
  }

  /** The number `Itoa` writes, then white space: trimming leaves the
      number. */
  lemma NumberTrimmed(n: int, sep: string)
    requires AllSpace(sep)
    ensures TrimSpace(Itoa(n) + sep) == Itoa(n)
  {
    ItoaIsPlain(n);
    TrimTrailingSpace(Itoa(n), sep);
  }

  /** The upper-cased, trimmed text of a number, white space and a unit
      (none, or two letters). */
  lemma SizeText(n: int, sep: string, unit: string)
    requires AllSpace(sep)
    requires unit == "" || Upper(unit) == "MB" || Upper(unit) == "GB"
    ensures TrimSpace(Upper(Itoa(n) + sep + unit)) == if unit == "" then Itoa(n) else Itoa(n) + sep + Upper(unit)
  {
    var x := Itoa(n);
    ItoaIsPlain(n);
    UpperAppend(x + sep, unit);
    UpperAppend(x, sep);
    assert Upper(sep) == sep by {
      assert forall i :: 0 <= i < |sep| ==> UpperChar(sep[i]) == sep[i];
    }
    if unit == "" {
      assert x + sep + unit == x + sep;
      NumberTrimmed(n, sep);
    } else {
      var t := x + sep + Upper(unit);
      assert t[0] == x[0] && t[|t| - 1] == 'B';
      assert t + [] == t;
      TrimTrailingSpace(t, []);
    }
  }

  /** Where the unit is found: at the end, `MB` before `GB`. */
  lemma UnitFound(v: string)
    requires v != [] && v[|v| - 1] != 'B'
    ensures Unit(v) == (v, false)
    ensures Unit(v + "MB") == (v, false)
    ensures Unit(v + "GB") == (v, true)
    ensures Unit(v + "GBMB") == (v, true)
    ensures Unit(v + "MBGB") == (v + "MB", true)
  {
    UnitFoundOnce(v);
    UnitFoundTwice(v);
  }

  /** A text with no unit, or with one. */
  lemma UnitFoundOnce(v: string)
    requires v != [] && v[|v| - 1] != 'B'
    ensures Unit(v) == (v, false)
    ensures Unit(v + "MB") == (v, false)
    ensures Unit(v + "GB") == (v, true)
  {
    assert !HasSuffix(v, "MB") && !HasSuffix(v, "GB") by {
      assert v[|v| - 1] != "MB"[1];
    }
    assert Unit(v + "MB") == (v, false) by {
      assert (v + "MB")[|v|..] == "MB" && (v + "MB")[..|v|] == v;
    }
    assert (v + "GB")[|v|..] == "GB" && (v + "GB")[..|v|] == v;
    assert !HasSuffix(v + "GB", "MB") by { assert (v + "GB")[|v|] == 'G'; }
  }

  /** A text with both units, in either order. */
  lemma UnitFoundTwice(v: string)
    requires v != [] && v[|v| - 1] != 'B'
    ensures Unit(v + "GBMB") == (v, true)
    ensures Unit(v + "MBGB") == (v + "MB", true)
  {
    GigabytesThenMegabytes(v);
    MegabytesThenGigabytes(v);
  }

  /** `MB` is dropped first, and then `GB`. */
  lemma GigabytesThenMegabytes(v: string)
    ensures Unit(v + "GBMB") == (v, true)
  {
    var t := v + "GBMB";
    assert HasSuffix(t, "MB") by { assert t[|t| - 2..] == "MB"; }
    var t1 := t[..|t| - 2];
    assert t1 == v + "GB";
    assert HasSuffix(t1, "GB") by { assert t1[|t1| - 2..] == "GB"; }
    assert t1[..|t1| - 2] == v;
  }

  /** With `GB` last, `MB` is not at the end and stays in the number. */
  lemma MegabytesThenGigabytes(v: string)
    ensures Unit(v + "MBGB") == (v + "MB", true)
  {
    var t := v + "MBGB";
    assert t[|t| - 2..] == "GB";
    assert !HasSuffix(t, "MB") by { assert t[|t| - 2] == 'G'; }
    assert HasSuffix(t, "GB");
    assert t[..|t| - 2] == v + "MB";
  }

  /** The last character of a number followed by white space. */
  lemma NumberEnd(n: int, sep: string)
    requires AllSpace(sep)
    ensures var v := Itoa(n) + sep; v != [] && v[|v| - 1] != 'B'
  {
    var v := Itoa(n) + sep;
    if sep == [] {
      assert v[|v| - 1] == Itoa(n)[|Itoa(n)| - 1];
    } else {
      assert v[|v| - 1] == sep[|sep| - 1];
    }
  }

  /** A number with no unit, or in megabytes, is read as megabytes; the
      unit may be in any case and follow white space. */
  lemma ToMBMegabytes(n: int, sep: string, unit: string)
    requires MinInt64 <= n <= MaxInt64
    requires AllSpace(sep)
    requires unit == "" || Upper(unit) == "MB"
    ensures ToMB(Itoa(n) + sep + unit) == Some(n)
  {
    var x := Itoa(n);
    AtoiItoa(n);
    SizeText(n, sep, unit);
    NumberEnd(n, sep);
    NumberEnd(n, []);
    assert x + [] == x;
    UnitFound(x);
    UnitFound(x + sep);
    NumberTrimmed(n, sep);
    NumberTrimmed(n, []);
    if unit == "" {
      assert Unit(TrimSpace(Upper(x + sep + unit))) == (x, false);
    } else {
      assert Unit(TrimSpace(Upper(x + sep + unit))) == (x + sep, false);
    }
  }

  /** A number in gigabytes is multiplied by 1024, wrapping around past 64
      bits; the unit may be in any case and follow white space. */
  lemma ToMBGigabytes(n: int, sep: string, unit: string)
    requires MinInt64 <= n <= MaxInt64
    requires AllSpace(sep)
    requires Upper(unit) == "GB"
    ensures ToMB(Itoa(n) + sep + unit) == Some(Wrap64(n * 1024))
    ensures MinInt64 <= n * 1024 <= MaxInt64 ==> ToMB(Itoa(n) + sep + unit) == Some(n * 1024)
  {
    var x := Itoa(n);
    AtoiItoa(n);
    SizeText(n, sep, unit);
    NumberEnd(n, sep);
    UnitFound(x + sep);
    NumberTrimmed(n, sep);
    assert Unit(TrimSpace(Upper(x + sep + unit))) == (x + sep, true);
    assert ToMB(x + sep + unit) == Some(Wrap64(n * 1024));
  }

  /** The unit letters, once upper-cased and trimmed, stay at the end of
      the number. */
  lemma SuffixText(n: int, suffix: string)
    requires suffix == "GBMB" || suffix == "MBGB"
    ensures TrimSpace(Upper(Itoa(n) + suffix)) == Itoa(n) + suffix
  {
    var x := Itoa(n);
    ItoaIsPlain(n);
    UpperAppend(x, suffix);
    assert Upper(suffix) == suffix;
    var a := x + suffix;
    assert a + [] == a && a[0] == x[0];
    TrimTrailingSpace(a, []);
  }

  /** `MB` is stripped before `GB`, so "…GBMB" is read as gigabytes. */
  lemma ToMBGigabytesThenMegabytes(n: int)
    requires MinInt64 <= n <= MaxInt64
    ensures ToMB(Itoa(n) + "GBMB") == Some(Wrap64(n * 1024))
  {
    var x := Itoa(n);
    AtoiItoa(n);
    SuffixText(n, "GBMB");
    NumberEnd(n, []);
    assert x + [] == x;
    UnitFound(x);
    NumberTrimmed(n, []);
    assert Unit(TrimSpace(Upper(x + "GBMB"))) == (x, true);
  }

  /** `MB` is stripped before `GB`, so "…MBGB" keeps an `MB` in front of
      `GB` and is not a number. */
  lemma ToMBMegabytesThenGigabytes(n: int)
    requires MinInt64 <= n <= MaxInt64
    ensures ToMB(Itoa(n) + "MBGB") == None
  {
    var x := Itoa(n);
    var m := x + "MB";
    ItoaIsPlain(n);
    assert TrimSpace(Upper(x + "MBGB")) == x + "MBGB" by {
      SuffixText(n, "MBGB");
    }
    assert Unit(x + "MBGB") == (m, true) by {
      NumberEnd(n, []);
      assert x + [] == x;
      UnitFound(x);
    }
    assert TrimSpace(m) == m by {
      assert m + [] == m && m[0] == x[0];
      TrimTrailingSpace(m, []);
    }
    assert Atoi(m) == None by {
      assert Unsigned(m)[|Unsigned(m)| - 1] == 'B';
    }
    assert Unit(TrimSpace(Upper(x + "MBGB"))) == (m, true);
  }

  /** Lines 173-176: the startup memory, when `memory` is given and reads as
      a size. */
  function MemoryMB(memory: Option<string>): (r: Option<int>)
    ensures r.Some? ==> Given(memory) && r == ToMB(memory.value)
    ensures Given(memory) && ToMB(memory.value).Some? ==> r.Some?
  {
    if Given(memory) then ToMB(memory.value) else None
  }

  /** Lines 201-219: the size in GB of a new OS disk. Megabytes are divided
      by 1024 rounding toward zero, and anything under 1 GB, zero or
      negative becomes 1. */
  function OsDiskSizeGB(size: Option<string>): (r: Option<int>)
    ensures r.Some? <==> Given(size) && ToMB(size.value).Some?
    ensures r.Some? ==> r.value >= 1
    ensures r.Some? && ToMB(size.value).value >= 1024 ==>
      r.value * 1024 <= ToMB(size.value).value < r.value * 1024 + 1024
    ensures r.Some? && ToMB(size.value).value < 1024 ==> r.value == 1
  {
    if Given(size) then
      match ToMB(size.value)
      case None => None
      case Some(mb) =>
        var g := GoQuo(mb, 1024);
        Some(if g <= 0 then 1 else g)
    else None
  }

  /** Lines 338-343: the size in GB passed when attaching a disk. It is
      set only when the whole number of gigabytes is positive. */
  function AttachSizeGB(size: Option<string>): (r: Option<int>)
    ensures r.Some? <==> Given(size) && ToMB(size.value).Some? && ToMB(size.value).value >= 1024
    ensures r.Some? ==> r.value >= 1 && r.value * 1024 <= ToMB(size.value).value < r.value * 1024 + 1024
  {
    if Given(size) then
      match ToMB(size.value)
      case None => None
      case Some(mb) =>
        var g := GoQuo(mb, 1024);
        if g > 0 then Some(g) else None
    else None
  }

  /** The two floors differ only below 1 GB: where the attach size is set
      the new-disk size equals it, and where a readable size gives no
      attach size it is under 1024 MB and the new disk gets 1 GB. */
  lemma SizeFloors(size: Option<string>)
    ensures AttachSizeGB(size).Some? ==> OsDiskSizeGB(size) == AttachSizeGB(size)
    ensures AttachSizeGB(size).None? && OsDiskSizeGB(size).Some? ==>
      OsDiskSizeGB(size) == Some(1) && ToMB(size.value).value < 1024
  {
  }

  /** A whole number of gigabytes, at least one, is the size on both
      paths. */
  lemma SizeOfGigabytes(n: int)
    requires 1 <= n <= MaxInt64 / 1024
    ensures OsDiskSizeGB(Some(Itoa(n) + "GB")) == Some(n)
    ensures AttachSizeGB(Some(Itoa(n) + "GB")) == Some(n)
  {
    var g := Itoa(n) + "GB";
    var mb := n * 1024;
    assert ToMB(g) == Some(mb) by {
      ToMBGigabytes(n, "", "GB");
      assert Itoa(n) + "" + "GB" == g;
    }
    assert GoQuo(mb, 1024) == n by {
      assert mb / 1024 == n;
    }
    SizesOf(g, mb);
  }

  /** Below a gigabyte, only the new disk has a size, of 1 GB. */
  lemma SizeBelowAGigabyte(mb: int)
    requires 0 <= mb < 1024
    ensures OsDiskSizeGB(Some(Itoa(mb) + "MB")) == Some(1)
    ensures AttachSizeGB(Some(Itoa(mb) + "MB")) == None
  {
    var m := Itoa(mb) + "MB";
    assert ToMB(m) == Some(mb) by {
      ToMBMegabytes(mb, "", "MB");
      assert Itoa(mb) + "" + "MB" == m;
    }
    assert GoQuo(mb, 1024) == 0;
    SizesOf(m, mb);
  }

  /** Both sizes once the text is known to read as `mb` megabytes. */
  lemma SizesOf(size: string, mb: int)
    requires size != "" && ToMB(size) == Some(mb)
    ensures OsDiskSizeGB(Some(size)) == Some(if GoQuo(mb, 1024) <= 0 then 1 else GoQuo(mb, 1024))
    ensures AttachSizeGB(Some(size)) == if GoQuo(mb, 1024) > 0 then Some(GoQuo(mb, 1024)) else None
  {
  }

  // ---------------------------------------------------------------------
  // Disks

  /** A `disk` block, with the attributes the rules look at. */
  datatype Disk = Disk(
    boot: Option<bool>,
    purpose: Option<string>,
    size: Option<string>,
    path: Option<string>,
    cloneFrom: Option<string>,
    sourcePath: Option<string>,
    readOnly: Option<bool>,
    protect: Option<bool>)

  /** Lines 192 and 325: a disk marked `boot`, or whose purpose is `os` in
      any case. */
  predicate IsOsDisk(d: Disk)
  {
    d.boot == Some(true) || (d.purpose.Some? && EqualFold(d.purpose.value, "os"))
  }

  /** The first OS disk at or after `from`. */
  function FirstOsDisk(disks: seq<Disk>, from: nat): (r: Option<nat>)
    requires from <= |disks|
    ensures r.Some? ==> from <= r.value < |disks| && IsOsDisk(disks[r.value])
    ensures r.Some? ==> forall j :: from <= j < r.value ==> !IsOsDisk(disks[j])
    ensures r.None? ==> forall j :: from <= j < |disks| ==> !IsOsDisk(disks[j])
    decreases |disks| - from
  {
    if from == |disks| then None
    else if IsOsDisk(disks[from]) then Some(from)
    else FirstOsDisk(disks, from + 1)
  }

  /** Lines 187-196 and 321-327: the disk Create works with, the first OS
      disk, else the first disk. */
  function ChosenDisk(disks: seq<Disk>): (i: nat)
    requires disks != []
    ensures i < |disks|
    ensures forall j :: 0 <= j < i ==> !IsOsDisk(disks[j])
    ensures IsOsDisk(disks[i]) || (i == 0 && forall j :: 0 <= j < |disks| ==> !IsOsDisk(disks[j]))
  {
    match FirstOsDisk(disks, 0)
    case Some(i) => i
    case None => 0
  }

  /** The loop of lines 189-196 (and 323-327): scan for an OS disk, stop
      at the first one, fall back to the first disk. */
  method ChooseDisk(disks: seq<Disk>) returns (i: nat)
    requires disks != []
    ensures i == ChosenDisk(disks)
  {
    var chosen: Option<nat> := None;
    var k := 0;
    while k < |disks|
      invariant 0 <= k <= |disks|
      invariant chosen.None?
      invariant forall j :: 0 <= j < k ==> !IsOsDisk(disks[j])
    {
      if IsOsDisk(disks[k]) {
        chosen := Some(k);
        break;
      }
      k := k + 1;
    }
    i := if chosen.Some? then chosen.value else 0;
  }

  /** A disk that brings its own VHD, by cloning or attaching. */
  predicate Cloned(d: Disk) { Given(d.cloneFrom) }

  predicate Attached(d: Disk) { Given(d.sourcePath) }

  /** The `new_vhd_path` and `new_vhd_size_gb` as line 228 leaves them,
      before auto-placement (lines 230-245) and cloning (line 271) may
      replace the path. */
  datatype NewVhd = NewVhd(path: Option<string>, sizeGB: Option<int>)

  /** Lines 181-184: the legacy attributes, a path when non-empty and a
      size when positive. */
  function LegacyVhd(newVhdPath: Option<string>, newVhdSizeGB: Option<int>): NewVhd
  {
    NewVhd(if Given(newVhdPath) then newVhdPath else None,
           if newVhdSizeGB.Some? && newVhdSizeGB.value > 0 then newVhdSizeGB else None)
  }

  /** Lines 186-228: with `disk` blocks, the chosen disk's path and size
      replace the legacy ones when it is neither cloned nor attached, each
      only when it is set and readable. */
  function PlannedVhd(newVhdPath: Option<string>, newVhdSizeGB: Option<int>, disks: seq<Disk>): (r: NewVhd)
    ensures r.sizeGB.Some? ==> r.sizeGB.value >= 1
    ensures r.path.Some? ==> r.path.value != ""
    ensures r.path == LegacyVhd(newVhdPath, newVhdSizeGB).path
      || (disks != [] && r.path == disks[ChosenDisk(disks)].path)
    ensures r.sizeGB == LegacyVhd(newVhdPath, newVhdSizeGB).sizeGB
      || (disks != [] && r.sizeGB == OsDiskSizeGB(disks[ChosenDisk(disks)].size))
  {
    var legacy := LegacyVhd(newVhdPath, newVhdSizeGB);
    if disks == [] then legacy
    else
      var d := disks[ChosenDisk(disks)];
      if Cloned(d) || Attached(d) then legacy
      else
        var size := OsDiskSizeGB(d.size);
        NewVhd(if Given(d.path) then d.path else legacy.path,
               if size.Some? then size else legacy.sizeGB)
  }

  /** Lines 186-228 as they run: the selection loop, then the overrides. */
  method PlanNewVhd(newVhdPath: Option<string>, newVhdSizeGB: Option<int>, disks: seq<Disk>) returns (r: NewVhd)
    ensures r == PlannedVhd(newVhdPath, newVhdSizeGB, disks)
  {
    var path := if Given(newVhdPath) then newVhdPath else None;
    var size := if newVhdSizeGB.Some? && newVhdSizeGB.value > 0 then newVhdSizeGB else None;
    if |disks| > 0 {
      var i := ChooseDisk(disks);
      var chosen := disks[i];
      var szGB := OsDiskSizeGB(chosen.size);
      if !Cloned(chosen) && !Attached(chosen) {
        if szGB.Some? { size := szGB; }
        if Given(chosen.path) { path := chosen.path; }
      }
    }
    r := NewVhd(path, size);
  }

  /** The attach call of lines 328-355: the source path, read-only flag and
      optional size. */
  datatype Attach = Attach(sourcePath: string, readOnly: bool, sizeGB: Option<int>)

  /** Lines 321-355: after creation, the chosen disk is attached when it
      names a source path; read-only defaults to false, and the size is
      set only from 1024 MB up. */
  function AttachRequest(disks: seq<Disk>): (r: Option<Attach>)
    ensures r.Some? <==> disks != [] && Attached(disks[ChosenDisk(disks)])
    ensures r.Some? ==> r.value.sourcePath != "" && Some(r.value.sourcePath) == disks[ChosenDisk(disks)].sourcePath
    ensures r.Some? ==> (r.value.readOnly <==> disks[ChosenDisk(disks)].readOnly == Some(true))
    ensures r.Some? ==> r.value.sizeGB == AttachSizeGB(disks[ChosenDisk(disks)].size)
    ensures r.Some? ==> var size := disks[ChosenDisk(disks)].size;
      (r.value.sizeGB.Some? <==> Given(size) && ToMB(size.value).Some? && ToMB(size.value).value >= 1024)
    ensures r.Some? && r.value.sizeGB.Some? ==> r.value.sizeGB.value >= 1
  {
    if disks == [] then None
    else
      var d := disks[ChosenDisk(disks)];
      if Attached(d) then
        Some(Attach(d.sourcePath.value, d.readOnly == Some(true), AttachSizeGB(d.size)))
      else None
  }

  /** Lines 321-343 as they run: the selection loop again, then the attach
      parameters. */
  method PlanAttach(disks: seq<Disk>) returns (r: Option<Attach>)
    ensures r == AttachRequest(disks)
  {
    r := None;
    if |disks| > 0 {
      var i := ChooseDisk(disks);
      var chosen := disks[i];
      if Attached(chosen) {
        var ro := false;
        if chosen.readOnly.Some? { ro := chosen.readOnly.value; }
        r := Some(Attach(chosen.sourcePath.value, ro, AttachSizeGB(chosen.size)));
      }
    }
  }

  /** Both places pick the same disk: when it is attached after creation,
      the new VHD was not taken from it, and the legacy attributes stand. */
  lemma AttachedDiskIsNotCreated(newVhdPath: Option<string>, newVhdSizeGB: Option<int>, disks: seq<Disk>)
    requires AttachRequest(disks).Some?
    ensures PlannedVhd(newVhdPath, newVhdSizeGB, disks) == LegacyVhd(newVhdPath, newVhdSizeGB)
  {
  }

  /** The OS disk is the one Create sizes: a readable size on an OS disk
      that is neither cloned nor attached becomes the new VHD's size, ahead
      of `new_vhd_size_gb`. */
  lemma OsDiskSizeWins(newVhdPath: Option<string>, newVhdSizeGB: Option<int>, disks: seq<Disk>, i: nat)
    requires i < |disks| && IsOsDisk(disks[i]) && forall j :: 0 <= j < i ==> !IsOsDisk(disks[j])
    requires !Cloned(disks[i]) && !Attached(disks[i]) && OsDiskSizeGB(disks[i].size).Some?
    ensures PlannedVhd(newVhdPath, newVhdSizeGB, disks).sizeGB == OsDiskSizeGB(disks[i].size)
  {
    var c := ChosenDisk(disks);
    assert IsOsDisk(disks[c]);
    assert c == i;
  }

  /** Without `disk` blocks the legacy attributes stand (line 187). */
  lemma NoDisksKeepLegacy(newVhdPath: Option<string>, newVhdSizeGB: Option<int>)
    ensures PlannedVhd(newVhdPath, newVhdSizeGB, []) == LegacyVhd(newVhdPath, newVhdSizeGB)
  {
  }

  /** A cloned chosen disk brings its own VHD (lines 198 and 225): the
      legacy attributes stand. */
  lemma ClonedDiskIsNotCreated(newVhdPath: Option<string>, newVhdSizeGB: Option<int>, disks: seq<Disk>)
    requires disks != [] && Cloned(disks[ChosenDisk(disks)])
    ensures PlannedVhd(newVhdPath, newVhdSizeGB, disks) == LegacyVhd(newVhdPath, newVhdSizeGB)
  {
  }

  /** Lines 221-227: the chosen disk's path, when set, replaces
      `new_vhd_path` unless the disk is cloned or attached. */
  lemma DiskPathWins(newVhdPath: Option<string>, newVhdSizeGB: Option<int>, disks: seq<Disk>)
    requires disks != []
    requires Given(disks[ChosenDisk(disks)].path)
    requires !Cloned(disks[ChosenDisk(disks)]) && !Attached(disks[ChosenDisk(disks)])
    ensures PlannedVhd(newVhdPath, newVhdSizeGB, disks).path == disks[ChosenDisk(disks)].path
  {
  }

  /** Lines 200-226: the chosen disk's readable size, in whole gigabytes,
      replaces `new_vhd_size_gb` unless the disk is cloned or attached. */
  lemma DiskSizeWins(newVhdPath: Option<string>, newVhdSizeGB: Option<int>, disks: seq<Disk>)
    requires disks != []
    requires OsDiskSizeGB(disks[ChosenDisk(disks)].size).Some?
    requires !Cloned(disks[ChosenDisk(disks)]) && !Attached(disks[ChosenDisk(disks)])
    ensures PlannedVhd(newVhdPath, newVhdSizeGB, disks).sizeGB == OsDiskSizeGB(disks[ChosenDisk(disks)].size)
  {
  }

  /** Lines 200-227: a path or size the chosen disk leaves unset, or a size
      that does not parse, keeps the legacy attribute. */
  lemma UnsetDiskFieldsKeepLegacy(newVhdPath: Option<string>, newVhdSizeGB: Option<int>, disks: seq<Disk>)
    requires disks != []
    ensures !Given(disks[ChosenDisk(disks)].path) ==>
      PlannedVhd(newVhdPath, newVhdSizeGB, disks).path == LegacyVhd(newVhdPath, newVhdSizeGB).path
    ensures OsDiskSizeGB(disks[ChosenDisk(disks)].size).None? ==>
      PlannedVhd(newVhdPath, newVhdSizeGB, disks).sizeGB == LegacyVhd(newVhdPath, newVhdSizeGB).sizeGB
  {
  }

  /** Line 196: with no OS disk the first disk is the one whose path and
      size apply. */
  lemma FirstDiskWithoutOsDisk(newVhdPath: Option<string>, newVhdSizeGB: Option<int>, disks: seq<Disk>)
    requires disks != [] && forall j :: 0 <= j < |disks| ==> !IsOsDisk(disks[j])
    requires !Cloned(disks[0]) && !Attached(disks[0])
    ensures ChosenDisk(disks) == 0
    ensures Given(disks[0].path) ==> PlannedVhd(newVhdPath, newVhdSizeGB, disks).path == disks[0].path
    ensures OsDiskSizeGB(disks[0].size).Some? ==>
      PlannedVhd(newVhdPath, newVhdSizeGB, disks).sizeGB == OsDiskSizeGB(disks[0].size)
  {
  }

  /** Lines 177-178: generation 2 unless a positive one is given. */
  function Generation(generation: Option<int>): (g: int)
    ensures g >= 1
    ensures generation.Some? && generation.value > 0 ==> g == generation.value
    ensures generation.None? || generation.value <= 0 ==> g == 2
  {
    if generation.Some? && generation.value > 0 then generation.value else 2
  }

  // ---------------------------------------------------------------------
  // Delete

  predicate Protected(d: Disk)
  {
    d.protect == Some(true)
  }

  /** Lines 505-519: the options of the delete call. `force` is always set;
      the disks are deleted only when the lifecycle asks for it and no disk
      is protected. */
  method DeleteOptions(deleteDisks: Option<bool>, disks: seq<Disk>) returns (force: bool, delDisks: bool)
    ensures force
    ensures delDisks <==> deleteDisks == Some(true) && forall j :: 0 <= j < |disks| ==> !Protected(disks[j])
  {
    force := true;
    delDisks := false;
    if deleteDisks.Some? {
      delDisks := deleteDisks.value;
    }
    if delDisks && |disks| > 0 {
      var k := 0;
      while k < |disks|
        invariant 0 <= k <= |disks|
        invariant delDisks && deleteDisks == Some(true)
        invariant forall j :: 0 <= j < k ==> !Protected(disks[j])
      {
        if Protected(disks[k]) {
          delDisks := false;
          break;
        }
        k := k + 1;
      }
    }
  }

  // ---------------------------------------------------------------------
  // Power

  /** What `applyDesiredPower` asks of the API. */
  datatype PowerCall = NoPowerCall | Start(timeoutSec: int) | Stop(force: bool, turnOff: bool, timeoutSec: int)

  /** Lines 557-559: the power timeout, 240 seconds unless a positive one
      is given. */
  function PowerTimeout(waitTimeoutSec: Option<int>): (t: int)
    ensures t > 0
    ensures waitTimeoutSec.Some? && waitTimeoutSec.value > 0 ==> t == waitTimeoutSec.value
    ensures waitTimeoutSec.None? || waitTimeoutSec.value <= 0 ==> t == 240
  {
    var t := if waitTimeoutSec.Some? then waitTimeoutSec.value else 0;
    if t <= 0 then 240 else t
  }

  /** Lines 552-572: `running` starts the VM and `stopped` stops it, both in
      any case; a stop method `turnoff` turns the VM off, `force` forces
      it, anything else shuts it down gracefully. A null name or any other
      power value asks for nothing. */
  function DesiredPower(name: Option<string>, power: Option<string>, stopMethod: Option<string>,
                        waitTimeoutSec: Option<int>): (c: PowerCall)
    ensures c.Start? <==> name.Some? && Lower(ValueString(power)) == "running"
    ensures c.Stop? <==> name.Some? && Lower(ValueString(power)) == "stopped"
    ensures c.Stop? ==> (c.turnOff <==> Lower(ValueString(stopMethod)) == "turnoff")
    ensures c.Stop? ==> (c.force <==> Lower(ValueString(stopMethod)) == "force")
    ensures c.Stop? ==> !(c.force && c.turnOff)
    ensures !c.NoPowerCall? ==> c.timeoutSec == PowerTimeout(waitTimeoutSec)
  {
    if name.None? then NoPowerCall
    else
      var desired := Lower(ValueString(power));
      var how := Lower(ValueString(stopMethod));
      var timeout := PowerTimeout(waitTimeoutSec);
      if desired == "running" then Start(timeout)
      else if desired == "stopped" then
        var turnOff := how == "turnoff";
        var force := !turnOff && how == "force";
        Stop(force, turnOff, timeout)
      else NoPowerCall
  }

  /** Lines 574-584: whether a reported state is the desired one, ignoring
      case: `running` or `on` for running, `off` or `stopped` for stopped. */
  predicate PowerStateMatches(desired: string, state: string)
    ensures PowerStateMatches(desired, state) ==> Lower(desired) == "running" || Lower(desired) == "stopped"
  {
    var d := Lower(desired);
    var s := Lower(state);
    (d == "running" && (s == "running" || s == "on")) || (d == "stopped" && (s == "off" || s == "stopped"))
  }

  /** Lines 577 and 581: both sides are lower-cased, so lower-casing
      them beforehand changes nothing. */
  lemma PowerStateIgnoresCase(desired: string, state: string)
    ensures PowerStateMatches(desired, state) <==> PowerStateMatches(Lower(desired), Lower(state))
  {
    LowerLower(desired);
    LowerLower(state);
  }

  /** No state counts as both running and stopped, and each desired state
      is reached by exactly its two spellings. */
  lemma PowerStatesDisjoint(state: string)
    ensures !(PowerStateMatches("running", state) && PowerStateMatches("stopped", state))
    ensures PowerStateMatches("running", state) <==> Lower(state) == "running" || Lower(state) == "on"
    ensures PowerStateMatches("stopped", state) <==> Lower(state) == "off" || Lower(state) == "stopped"
  {
    assert Lower("running") == "running" && Lower("stopped") == "stopped";
  }

  /** Lines 382-386: the window for checking CPU and memory after
      creation: 20 seconds, or a positive `wait_timeout_seconds`, never
      above 120. */
  function VerifyWindow(waitTimeoutSec: Option<int>): (w: int)
    ensures 1 <= w <= 120
    ensures waitTimeoutSec.Some? && waitTimeoutSec.value > 0 ==> w == if waitTimeoutSec.value > 120 then 120 else waitTimeoutSec.value
    ensures waitTimeoutSec.None? || waitTimeoutSec.value <= 0 ==> w == 20
  {
    var w := if waitTimeoutSec.Some? && waitTimeoutSec.value > 0 then waitTimeoutSec.value else 20;
    if w > 120 then 120 else w
  }

  // ---------------------------------------------------------------------
  // "Not found"

  /** The phrases that mark an error as a missing VM, in lower case. */
  const NotFoundPhrases: seq<string> := ["not found", "does not exist", "objectnotfound"]

  /** Lines 460-461 and 523-524: an error whose lower-cased text contains
      one of the phrases. */
  function LooksNotFound(msg: string): (b: bool)
    ensures b <==> exists i: nat, p :: p in NotFoundPhrases && OccursAt(Lower(msg), p, i)
  {
    var e := Lower(msg);
    Contains(e, "not found") || Contains(e, "does not exist") || Contains(e, "objectnotfound")
  }

  /** A phrase in any case, anywhere in the message, is recognised. */
  lemma NotFoundAnyCase(before: string, phrase: string, after: string)
    requires Lower(phrase) in NotFoundPhrases
    ensures LooksNotFound(before + phrase + after)
  {
    LowerAppend(before + phrase, after);
    LowerAppend(before, phrase);
    var e := Lower(before + phrase + after);
    assert e == Lower(before) + Lower(phrase) + Lower(after);
    assert e[|before|..|before| + |phrase|] == Lower(phrase);
    assert OccursAt(e, Lower(phrase), |before|);
  }

  /** What Read does with the state after `GetVm`. */
  datatype ReadOutcome = Removed | Kept | ReadFailed(detail: string)

  /** Lines 447-470: an unnamed VM is dropped without a call; a `GetVm`
      error drops it when the status is 404 or the text looks like "not
      found", and is reported otherwise. */
  function ReadVm(name: Option<string>, status: int, err: Option<string>): (r: ReadOutcome)
    ensures r.ReadFailed? <==> Given(name) && err.Some? && status != 404 && !LooksNotFound(err.value)
    ensures r.ReadFailed? ==> r.detail == err.value
    ensures r.Kept? <==> Given(name) && err.None?
  {
    if !Given(name) then Removed
    else if err.None? then Kept
    else if status == 404 || LooksNotFound(err.value) then Removed
    else ReadFailed(err.value)
  }

  /** Lines 501-503: Delete skips the delete call for an unnamed VM, or when
      `GetVm` failed with status 404. */
  predicate DeleteSkipped(name: Option<string>, status: int, err: Option<string>)
    ensures Given(name) && err.None? ==> !DeleteSkipped(name, status, err)
    ensures Given(name) && DeleteSkipped(name, status, err) ==> err.Some? && status == 404
  {
    !Given(name) || (err.Some? && status == 404)
  }

  /** Lines 520-529: the error Delete reports from the delete call, none
      when it looks like "not found". */
  function DeleteError(err: Option<string>): (r: Option<string>)
    ensures r.Some? <==> err.Some? && !LooksNotFound(err.value)
    ensures r.Some? ==> r == err
  {
    if err.Some? && !LooksNotFound(err.value) then err else None
  }

  /** Unlike Read, Delete does not apply the heuristic to `GetVm`: a
      not-found message with another status still reaches the delete call,
      where the heuristic applies to the delete's own error. */
  lemma DeleteProbesOnlyByStatus(name: Option<string>, status: int, msg: string)
    requires Given(name) && status != 404 && LooksNotFound(msg)
    ensures ReadVm(name, status, Some(msg)) == Removed
    ensures !DeleteSkipped(name, status, Some(msg))
    ensures DeleteError(Some(msg)) == None
  {
  }
}
