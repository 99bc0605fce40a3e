/** The `hypervapiv2_disk_plan` data source of
    internal/sources/disk_plan.go: it asks the server to place a disk and,
    when that call fails, synthesizes a plan itself from the roots of the
    effective policy. The two API calls are passed in as what they
    answered, and `filepath.Join` as a function. */
module DiskPlan {
  import opened Outcomes
  import opened Strings

  /** The configuration attributes Read looks at; `None` is null. */
  datatype Config = Config(vmName: Option<string>, purpose: Option<string>, preferRoot: Option<string>,
                           ext: Option<string>)

  /** A disk plan, as the server returns it or as the fallback builds it. */
  datatype Plan = Plan(path: string, reason: string, matchedRoot: string, normalizedPath: string,
                       writable: bool, freeGBAfter: int, host: string, warnings: seq<string>)

  /** The computed attributes Read stores. */
  datatype State = State(id: string, path: string, reason: string, matchedRoot: string, normalizedPath: string,
                         writable: bool, freeGBAfter: int, host: string, warnings: seq<string>)

  /** `ValueString()`: the empty string for a null attribute. */
  function ValueString(v: Option<string>): string
  {
    if v.Some? then v.value else ""
  }

  const NoRoots := "no allowed roots in effective policy"
  const FallbackReason := "fallback:client:first_allowed_root"
  const FallbackWarning := "server:plan-disk unavailable; used client fallback"
  const DefaultExt := "vhdx"

  // ---------------------------------------------------------------------
  // The root

  /** The first root at or after `from` equal to `prefer` ignoring case. */
  function FirstFold(roots: seq<string>, prefer: string, from: nat): (r: Option<nat>)
    requires from <= |roots|
    ensures r.Some? ==> from <= r.value < |roots| && EqualFold(roots[r.value], prefer)
    ensures r.Some? ==> forall j :: from <= j < r.value ==> !EqualFold(roots[j], prefer)
    ensures r.None? ==> forall j :: from <= j < |roots| ==> !EqualFold(roots[j], prefer)
    decreases |roots| - from
  {
    if from == |roots| then None
    else if EqualFold(roots[from], prefer) then Some(from)
    else FirstFold(roots, prefer, from + 1)
  }

  /** Lines 110-115: the root the fallback uses, in the policy's own
      spelling; the empty string stands for none. The first root equal to
      `prefer_root` ignoring case wins, and the first root is the fallback
      when there is no such root or it is empty. */
  function ChosenRoot(roots: seq<string>, prefer: Option<string>): (r: string)
    ensures r == "" || r in roots
    ensures r == "" <==> (
      || roots == []
      || (&& roots[0] == ""
          && (|| prefer.None?
              || forall j :: 0 <= j < |roots| && EqualFold(roots[j], prefer.value) ==>
                   (roots[j] == "" || exists i :: 0 <= i < j && EqualFold(roots[i], prefer.value)))))
  {
    var preferred := if prefer.Some? then FirstFold(roots, prefer.value, 0) else None;
    var root := if preferred.Some? then roots[preferred.value] else "";
    if root == "" && |roots| > 0 then roots[0] else root
  }

  /** The first root matching the preference, when not empty, is chosen as
      the policy spells it. */
  lemma PreferredRootWins(roots: seq<string>, prefer: string, k: nat)
    requires k < |roots| && EqualFold(roots[k], prefer) && roots[k] != ""
    requires forall j :: 0 <= j < k ==> !EqualFold(roots[j], prefer)
    ensures ChosenRoot(roots, Some(prefer)) == roots[k]
  {
    var f := FirstFold(roots, prefer, 0);
    assert f.Some?;
    assert f.value == k;
  }

  /** Without a preference, or when no root matches it, the first root is
      chosen. */
  lemma FirstRootOtherwise(roots: seq<string>, prefer: Option<string>)
    requires roots != []
    requires prefer.Some? ==> forall j :: 0 <= j < |roots| ==> !EqualFold(roots[j], prefer.value)
    ensures ChosenRoot(roots, prefer) == roots[0]
  {
  }

  /** The scan of line 113: stop at the first root equal to the preference
      ignoring case; then fall back to the first root. */
  method ChooseRoot(roots: seq<string>, prefer: Option<string>) returns (root: string)
    ensures root == ChosenRoot(roots, prefer)
  {
    root := "";
    if prefer.Some? {
      var pr := prefer.value;
      var k := 0;
      while k < |roots|
        invariant 0 <= k <= |roots|
        invariant root == ""
        invariant forall j :: 0 <= j < k ==> !EqualFold(roots[j], pr)
      {
        if EqualFold(roots[k], pr) {
          root := roots[k];
          break;
        }
        k := k + 1;
      }
    }
    if root == "" && |roots| > 0 {
      root := roots[0];
    }
  }

  // ---------------------------------------------------------------------
  // The plan

  /** Lines 120-121: the extension, `vhdx` unless a non-empty one is given. */
  function Extension(ext: Option<string>): (e: string)
    ensures e != ""
    ensures ext.Some? && ext.value != "" ==> e == ext.value
    ensures ext.None? || ext.value == "" ==> e == DefaultExt
  {
    if ext.Some? && ext.value != "" then ext.value else DefaultExt
  }

  /** Lines 109-133: the plan built without the server, or the error that
      no root is left. */
  function Fallback(config: Config, roots: seq<string>, join: (string, string) -> string): (r: Result<Plan>)
    ensures r.Err? <==> ChosenRoot(roots, config.preferRoot) == ""
    ensures r.Err? ==> r.error == NoRoots
    ensures r.Ok? ==> var root := ChosenRoot(roots, config.preferRoot);
      && root in roots
      && r.value.path == join(root, ValueString(config.vmName) + "." + Extension(config.ext))
      && r.value.normalizedPath == r.value.path
      && r.value.matchedRoot == root
      && r.value.writable && r.value.freeGBAfter == 0 && r.value.host == ""
      && r.value.reason == FallbackReason && r.value.warnings == [FallbackWarning]
  {
    var root := ChosenRoot(roots, config.preferRoot);
    if root == "" then Err(NoRoots)
    else
      var p := join(root, ValueString(config.vmName) + "." + Extension(config.ext));
      Ok(Plan(p, FallbackReason, root, p, true, 0, "", [FallbackWarning]))
  }

  /** Lines 135-145: the state holds the plan's fields and the ID
      `vm_name:purpose`. */
  function Stored(config: Config, out: Plan): (st: State)
    ensures st.id == ValueString(config.vmName) + ":" + ValueString(config.purpose)
    ensures st.path == out.path && st.normalizedPath == out.normalizedPath && st.matchedRoot == out.matchedRoot
    ensures st.reason == out.reason && st.writable == out.writable && st.freeGBAfter == out.freeGBAfter
    ensures st.host == out.host && st.warnings == out.warnings
  {
    State(ValueString(config.vmName) + ":" + ValueString(config.purpose), out.path, out.reason, out.matchedRoot,
          out.normalizedPath, out.writable, out.freeGBAfter, out.host, out.warnings)
  }

  /** Lines 101-145: the state Read stores, or the detail of the
      "plan-disk failed" error. The policy is consulted only when
      `PlanDisk` failed, and when it fails too the `PlanDisk` error is the
      one reported. */
  function ReadPlan(config: Config, planned: Result<Plan>, policy: Result<seq<string>>,
                    join: (string, string) -> string): (r: Result<State>)
    ensures r.Err? ==> planned.Err? && r.error == (if policy.Err? then planned.error else NoRoots)
    ensures r.Ok? ==> r.value.id == ValueString(config.vmName) + ":" + ValueString(config.purpose)
  {
    match planned
    case Ok(out) => Ok(Stored(config, out))
    case Err(e) =>
      match policy
      case Err(_) => Err(e)
      case Ok(roots) =>
        match Fallback(config, roots, join)
        case Err(msg) => Err(msg)
        case Ok(out) => Ok(Stored(config, out))
  }

  /** The loop of lines 143-144: the warnings in order, one for one. */
  method CopyWarnings(ws: seq<string>) returns (warns: seq<string>)
    ensures warns == ws
  {
    warns := [];
    var k := 0;
    while k < |ws|
      invariant 0 <= k <= |ws|
      invariant warns == ws[..k]
    {
      warns := warns + [ws[k]];
      k := k + 1;
    }
    assert ws[..k] == ws;
  }

  /** Lines 78-148, `DiskPlanDataSource.Read`, once the configuration is
      read: `planned` and `policy` are what `PlanDisk` and `Policy` answer. */
  method Read(config: Config, planned: Result<Plan>, policy: Result<seq<string>>,
              join: (string, string) -> string) returns (r: Result<State>)
    ensures r == ReadPlan(config, planned, policy, join)
  {
    var out: Plan;
    if planned.Err? {
      if policy.Err? {
        return Err(planned.error);
      }
      var root := ChooseRoot(policy.value, config.preferRoot);
      if root == "" {
        return Err(NoRoots);
      }
      var ext := DefaultExt;
      if config.ext.Some? && config.ext.value != "" {
        ext := config.ext.value;
      }
      var p := join(root, ValueString(config.vmName) + "." + ext);
      out := Plan(p, FallbackReason, root, p, true, 0, "", [FallbackWarning]);
    } else {
      out := planned.value;
    }
    var warns := CopyWarnings(out.warnings);
    r := Ok(State(ValueString(config.vmName) + ":" + ValueString(config.purpose), out.path, out.reason,
                  out.matchedRoot, out.normalizedPath, out.writable, out.freeGBAfter, out.host, warns));
  }

  // ---------------------------------------------------------------------
  // Properties of Read

  /** Lines 101-102 and 135-145: a plan from the server is stored as it
      came, field by field, whatever the policy and the path joining would
      have given. */
  lemma ServerPlanStored(config: Config, out: Plan, policy: Result<seq<string>>, policy': Result<seq<string>>,
                         join: (string, string) -> string, join': (string, string) -> string)
    ensures ReadPlan(config, Ok(out), policy, join) == ReadPlan(config, Ok(out), policy', join')
    ensures ReadPlan(config, Ok(out), policy, join).Ok?
    ensures ReadPlan(config, Ok(out), policy, join).value.warnings == out.warnings
    ensures ReadPlan(config, Ok(out), policy, join) == Ok(Stored(config, out))
  {
  }

  /** Lines 104-108: when the policy cannot be read either, the error of
      `PlanDisk` is reported. */
  lemma PolicyFailureReportsPlanError(config: Config, e: string, pe: string, join: (string, string) -> string)
    ensures ReadPlan(config, Err(e), Err(pe), join) == Err(e)
  {
  }

  /** Lines 116-119: a policy without roots yields the "no allowed roots"
      error and no state. */
  lemma NoRootsNoPlan(config: Config, e: string, join: (string, string) -> string)
    ensures ReadPlan(config, Err(e), Ok([]), join) == Err(NoRoots)
  {
  }

  /** Lines 109-135: a fallback plan lies under a policy root, is named
      after the VM with the configured or default extension, and carries
      the fixed fields and the single warning. */
  lemma FallbackState(config: Config, e: string, roots: seq<string>, join: (string, string) -> string)
    requires ReadPlan(config, Err(e), Ok(roots), join).Ok?
    ensures var st := ReadPlan(config, Err(e), Ok(roots), join).value;
      && st.matchedRoot in roots && st.matchedRoot != ""
      && st.path == join(st.matchedRoot, ValueString(config.vmName) + "." + Extension(config.ext))
      && st.normalizedPath == st.path
      && st.writable && st.freeGBAfter == 0 && st.host == "" && st.reason == FallbackReason
      && st.warnings == [FallbackWarning]
      && st.id == ValueString(config.vmName) + ":" + ValueString(config.purpose)
  {
  }

  /** An ID whose VM name holds no colon splits back at its first colon
      into the VM name and the purpose. */
  lemma IdSplits(config: Config, out: Plan)
    requires ':' !in ValueString(config.vmName)
    ensures var id := Stored(config, out).id;
      var i := IndexOf(id, ':');
      && i == |ValueString(config.vmName)|
      && id[..i] == ValueString(config.vmName)
      && id[i + 1..] == ValueString(config.purpose)
  {
    var name := ValueString(config.vmName);
    var id := Stored(config, out).id;
    assert id[..|name|] == name && id[|name|] == ':';
    assert id[|name| + 1..] == ValueString(config.purpose);
  }
}
